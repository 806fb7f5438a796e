// Resolved context items, pin rules and the orders in which they are considered.
module ContextItems {
  import opened Sequences

  datatype ItemKind = Message | Summary

  datatype PinRule =
    | PinPosition(position: nat)
    | PinMessage(messageId: string)
    | PinSummary(summaryId: string)

  datatype ContextItem =
    ContextItem(kind: ItemKind, refId: string, position: nat, recencyScore: int, tokenCount: nat)

  predicate PinMatches(rule: PinRule, item: ContextItem) {
    match rule
    case PinPosition(position) => item.position == position
    case PinMessage(messageId) => item.kind.Message? && item.refId == messageId
    case PinSummary(summaryId) => item.kind.Summary? && item.refId == summaryId
  }

  predicate IsPinned(item: ContextItem, rules: seq<PinRule>) {
    exists i :: 0 <= i < |rules| && PinMatches(rules[i], item)
  }

  // The context projection numbers its items, so no two of them share a position.
  ghost predicate DistinctPositions(items: seq<ContextItem>) {
    forall i, j :: 0 <= i < j < |items| ==> items[i].position != items[j].position
  }

  lemma DistinctPositionsOf(items: seq<ContextItem>)
    requires DistinctPositions(items)
    ensures Distinct(items)
  {
    PairwiseDistinct(items);
  }

  lemma SamePosition(items: seq<ContextItem>, x: ContextItem, y: ContextItem)
    requires DistinctPositions(items) && x in items && y in items && x.position == y.position
    ensures x == y
  {
  }

  // Messages before summaries, then the more recent, then the later position.
  predicate RankLeq(a: ContextItem, b: ContextItem) {
    if a.kind != b.kind then a.kind.Message?
    else if a.recencyScore != b.recencyScore then a.recencyScore > b.recencyScore
    else a.position >= b.position
  }

  predicate RanksAhead(a: ContextItem, b: ContextItem) {
    !RankLeq(b, a)
  }

  predicate PositionLeq(a: ContextItem, b: ContextItem) {
    a.position <= b.position
  }

  function TokensOf(item: ContextItem): nat { item.tokenCount }

  function Tokens(items: seq<ContextItem>): nat { Sum(items, TokensOf) }

  function PinnedWeight(rules: seq<PinRule>): ContextItem -> nat {
    (item: ContextItem) => if IsPinned(item, rules) then item.tokenCount else 0
  }

  function PinnedTokens(items: seq<ContextItem>, rules: seq<PinRule>): nat {
    Sum(items, PinnedWeight(rules))
  }

  // What the unpinned members of a selection that rank ahead of an item cost.
  function AheadWeight(rules: seq<PinRule>, item: ContextItem): ContextItem -> nat {
    (s: ContextItem) => if !IsPinned(s, rules) && RanksAhead(s, item) then s.tokenCount else 0
  }

  function TokensAhead(selected: seq<ContextItem>, rules: seq<PinRule>, item: ContextItem): nat {
    Sum(selected, AheadWeight(rules, item))
  }

  function KindWeight(kind: ItemKind): ContextItem -> nat {
    (item: ContextItem) => if item.kind == kind then 1 else 0
  }

  function CountKind(items: seq<ContextItem>, kind: ItemKind): nat {
    Sum(items, KindWeight(kind))
  }

  function PinnedBy(rules: seq<PinRule>): ContextItem -> bool {
    (item: ContextItem) => IsPinned(item, rules)
  }

  function UnpinnedBy(rules: seq<PinRule>): ContextItem -> bool {
    (item: ContextItem) => !IsPinned(item, rules)
  }

  function OutsideOf(selected: seq<ContextItem>): ContextItem -> bool {
    (item: ContextItem) => item !in selected
  }

  lemma SortByRank(items: seq<ContextItem>)
    ensures Sorted(SortBy(items, RankLeq), RankLeq)
    ensures forall x :: x in SortBy(items, RankLeq) <==> x in items
  {
    assert TotalPreorder(RankLeq);
    SortSorts(items, RankLeq);
    SortKeepsElements(items, RankLeq);
  }

  lemma SortByPosition(items: seq<ContextItem>)
    ensures Sorted(SortBy(items, PositionLeq), PositionLeq)
    ensures forall x :: x in SortBy(items, PositionLeq) <==> x in items
  {
    assert TotalPreorder(PositionLeq);
    SortSorts(items, PositionLeq);
    SortKeepsElements(items, PositionLeq);
  }

  // Pinned and unpinned items partition a list, in number and in tokens.
  lemma PinnedSplit(items: seq<ContextItem>, rules: seq<PinRule>)
    ensures multiset(items) ==
      multiset(Filter(items, PinnedBy(rules))) + multiset(Filter(items, UnpinnedBy(rules)))
    ensures Tokens(Filter(items, PinnedBy(rules))) == PinnedTokens(items, rules)
    ensures PinnedTokens(items, rules) <= Tokens(items)
  {
    var pinned, unpinned := Filter(items, PinnedBy(rules)), Filter(items, UnpinnedBy(rules));
    FilterPartition(items, PinnedBy(rules), UnpinnedBy(rules));
    SumPartition(items, pinned, unpinned, TokensOf);
    SumPartition(items, pinned, unpinned, PinnedWeight(rules));
    SumCongruent(pinned, PinnedWeight(rules), TokensOf);
    SumZero(unpinned, PinnedWeight(rules));
  }
}
