// What stays in the context when it is trimmed, item by item.
module TrimLaws {
  import opened Sequences
  import opened ContextItems
  import opened BaseTrim

  // ---- pins --------------------------------------------------------------------------------------

  // A rule names a position, a message or a summary.
  lemma PinnedIff(item: ContextItem, rules: seq<PinRule>)
    ensures IsPinned(item, rules) <==>
      || PinPosition(item.position) in rules
      || (item.kind.Message? && PinMessage(item.refId) in rules)
      || (item.kind.Summary? && PinSummary(item.refId) in rules)
  {
  }

  // ---- ranks -------------------------------------------------------------------------------------

  // Messages before summaries, then the more recent item, then the one that stands later.
  predicate MoreImportant(a: ContextItem, b: ContextItem) {
    || (a.kind.Message? && b.kind.Summary?)
    || (&& a.kind == b.kind
        && (|| a.recencyScore > b.recencyScore
            || (a.recencyScore == b.recencyScore && a.position > b.position)))
  }

  function CostAhead(rules: seq<PinRule>, item: ContextItem): ContextItem -> nat {
    (x: ContextItem) => if !IsPinned(x, rules) && MoreImportant(x, item) then x.tokenCount else 0
  }

  // An item stays if and only if it is pinned, or fits beside everything pinned and whatever stays that is more
  // important.
  lemma StaysIff(items: seq<ContextItem>, budget: int, rules: seq<PinRule>, r: TrimResult, x: ContextItem)
    requires IsTrim(items, budget, rules, r) && r.Trimmed? && x in items
    ensures x in r.selected <==>
      IsPinned(x, rules) || PinnedTokens(items, rules) + Sum(r.selected, CostAhead(rules, x)) + x.tokenCount <= budget
  {
    SumCongruent(r.selected, AheadWeight(rules, x), CostAhead(rules, x));
  }
}
