// In which order the greedy pass serves the units, and what each of them is left.
module PackingOrder {
  import opened Sequences
  import opened ContextItems
  import opened WindowCoalescing
  import opened RetrievalCoalescing
  import opened ContextPacking
  import opened BridgeSwaps
  import opened PackedUnits
  import opened MaterializedContext
  import opened PackedLaws
  import opened ContextLaws

  // ---- the greedy pass at one position ------------------------------------------------------

  lemma {:induction false} PlaceAllConcat(p: Packing, a: seq<PackUnit>, b: seq<PackUnit>, available: int)
    ensures PlaceAll(p, a + b, available) == PlaceAll(PlaceAll(p, a, available), b, available)
    decreases |a|
  {
    hide Place;
    if a == [] {
      assert a + b == b;
    } else {
      assert (a + b)[1..] == a[1..] + b;
      PlaceAllConcat(Place(p, a[0], available), a[1..], b, available);
    }
  }

  lemma {:induction false} PlaceAllAdds(p: Packing, ranked: seq<PackUnit>, available: int) returns (more: seq<PackUnit>)
    ensures PlaceAll(p, ranked, available).kept == p.kept + more && forall u :: u in more ==> u in ranked
    decreases |ranked|
  {
    more := [];
    if ranked != [] {
      var rest := PlaceAllAdds(Place(p, ranked[0], available), ranked[1..], available);
      more := (if Admits(p, ranked[0], available) then [ranked[0]] else []) + rest;
    }
  }

  // A unit is kept if and only if it is admitted when its turn comes.
  lemma KeptAtTurn(p: Packing, ranked: seq<PackUnit>, k: nat, available: int) returns (more: seq<PackUnit>)
    requires k < |ranked| && Distinct(ranked) && ranked[k] !in p.kept
    ensures var before, kept := PlaceAll(p, ranked[..k], available), PlaceAll(p, ranked, available).kept;
      && kept == before.kept + more && (forall u :: u in more ==> u in ranked[k..])
      && (forall u :: u in before.kept ==> u in p.kept || u in ranked[..k])
      && (ranked[k] in kept <==> Admits(before, ranked[k], available))
  {
    hide Distinct;
    var head, u, tail := ranked[..k], ranked[k], ranked[k + 1..];
    assert ranked == head + ranked[k..] && ranked[k..] == [u] + tail && ([u] + tail)[1..] == tail;
    PlaceAllConcat(p, head, ranked[k..], available);
    var early := PlaceAllAdds(p, head, available);
    var before := PlaceAll(p, head, available);
    var late := PlaceAllAdds(Place(before, u, available), tail, available);
    more := (if Admits(before, u, available) then [u] else []) + late;
    assert u !in head && u !in tail by {
      OnlyOnce(ranked, k);
    }
  }

  lemma OnlyOnce(s: seq<PackUnit>, k: nat)
    requires Distinct(s) && k < |s|
    ensures s[k] !in s[..k] && s[k] !in s[k + 1..]
  {
    if s[k] in s[..k] {
      var i :| 0 <= i < k && s[..k][i] == s[k];
      DistinctAt(s, i, k);
    }
    if s[k] in s[k + 1..] {
      var i :| 0 <= i < |s| - k - 1 && s[k + 1..][i] == s[k];
      DistinctAt(s, k, k + 1 + i);
    }
  }

  // ---- who comes first --------------------------------------------------------------------------

  ghost predicate RankedBefore(ranking: seq<PackUnit>, v: PackUnit, u: PackUnit) {
    exists i, j :: 0 <= i < j < |ranking| && ranking[i] == v && ranking[j] == u
  }

  // Pinned base units come first, then retrieval by rank, then messages, then summaries, the later ones
  // first.
  ghost predicate ComesBefore(v: PackUnit, u: PackUnit, ranking: seq<PackUnit>) {
    if v.BaseUnit? && v.pinned then true
    else if u.IsRetrieval() then v.IsRetrieval() && RankedBefore(ranking, v, u)
    else if v.IsRetrieval() then true
    else if v.item.kind != u.item.kind then v.item.kind.Message?
    else v.order > u.order
  }

  ghost function Ahead(u: PackUnit, ranking: seq<PackUnit>): PackUnit -> bool {
    (v: PackUnit) => ComesBefore(v, u, ranking)
  }

  ghost predicate ServedInOrder(ranked: seq<PackUnit>, ranking: seq<PackUnit>) {
    forall i, k :: 0 <= i < |ranked| && 0 <= k < |ranked| ==> (ComesBefore(ranked[i], ranked[k], ranking) <==> i < k)
  }

  ghost predicate Decreasing(units: seq<PackUnit>) {
    forall i, k :: 0 <= i < k < |units| ==> units[i].order > units[k].order
  }

  ghost predicate OneKind(units: seq<PackUnit>, kind: ItemKind) {
    forall u :: u in units ==> u.BaseUnit? && !u.pinned && u.item.kind == kind
  }

  lemma LatestFirst(units: seq<PackUnit>, kind: ItemKind, ranking: seq<PackUnit>)
    requires DistinctUnits(units) && OneKind(units, kind)
    ensures OneKind(SortBy(units, OrderGeq), kind) && ServedInOrder(SortBy(units, OrderGeq), ranking)
  {
    var sorted := SortBy(units, OrderGeq);
    SortKeepsElements(units, OrderGeq);
    SortedOrders(units);
    forall i, k | 0 <= i < |sorted| && 0 <= k < |sorted|
      ensures ComesBefore(sorted[i], sorted[k], ranking) <==> i < k
    {
      assert sorted[i] in units && sorted[k] in units;
      assert ComesBefore(sorted[i], sorted[k], ranking) <==> sorted[i].order > sorted[k].order;
    }
  }

  lemma SortedOrders(units: seq<PackUnit>)
    requires DistinctUnits(units)
    ensures Decreasing(SortBy(units, OrderGeq))
  {
    var sorted := SortBy(units, OrderGeq);
    assert TotalPreorder(OrderGeq);
    SortSorts(units, OrderGeq);
    forall order: nat ensures CountOrder(sorted, order) <= 1 {
      SumPermutation(sorted, units, OrderWeight(order));
      assert CountOrder(units, order) <= 1;
    }
    DistinctOrdersOf(sorted);
    forall i, k | 0 <= i < k < |sorted| ensures sorted[i].order > sorted[k].order {
      assert OrderGeq(sorted[i], sorted[k]);
    }
  }

  lemma RankingInOrder(ranking: seq<PackUnit>)
    requires Distinct(ranking) && forall u :: u in ranking ==> u.IsRetrieval()
    ensures ServedInOrder(ranking, ranking)
  {
    forall i, k | 0 <= i < |ranking| && 0 <= k < |ranking|
      ensures ComesBefore(ranking[i], ranking[k], ranking) <==> i < k
    {
      assert ranking[i] in ranking && ranking[k] in ranking;
      if RankedBefore(ranking, ranking[i], ranking[k]) {
        var a, b :| 0 <= a < b < |ranking| && ranking[a] == ranking[i] && ranking[b] == ranking[k];
        SamePlace(ranking, a, i);
        SamePlace(ranking, b, k);
      }
    }
  }

  lemma SamePlace(s: seq<PackUnit>, a: nat, i: nat)
    requires Distinct(s) && a < |s| && i < |s| && s[a] == s[i]
    ensures a == i
  {
    if a < i {
      DistinctAt(s, a, i);
    } else if i < a {
      DistinctAt(s, i, a);
    }
  }

  // ---- the whole order ----------------------------------------------------------------------------

  ghost predicate AllBefore(a: seq<PackUnit>, b: seq<PackUnit>, ranking: seq<PackUnit>) {
    forall v, u :: v in a && u in b ==> ComesBefore(v, u, ranking) && !ComesBefore(u, v, ranking)
  }

  lemma ServedConcat(a: seq<PackUnit>, b: seq<PackUnit>, ranking: seq<PackUnit>)
    requires ServedInOrder(a, ranking) && ServedInOrder(b, ranking) && AllBefore(a, b, ranking)
    ensures ServedInOrder(a + b, ranking)
  {
    hide ComesBefore;
    var s := a + b;
    forall i, k | 0 <= i < |s| && 0 <= k < |s| ensures ComesBefore(s[i], s[k], ranking) <==> i < k {
      assert i < |a| ==> s[i] in a;
      assert i >= |a| ==> s[i] == b[i - |a|] && s[i] in b;
      assert k < |a| ==> s[k] in a;
      assert k >= |a| ==> s[k] == b[k - |a|] && s[k] in b;
    }
  }

  lemma PartDistinct(units: seq<PackUnit>, part: seq<PackUnit>)
    requires DistinctUnits(units) && multiset(part) <= multiset(units)
    ensures DistinctUnits(part)
  {
    forall order: nat ensures CountOrder(part, order) <= 1 {
      SumOfPart(part, units, OrderWeight(order));
      assert CountOrder(units, order) <= 1;
    }
  }

  lemma FilteredPart(units: seq<PackUnit>, keep: PackUnit -> bool)
    ensures multiset(Filter(units, keep)) <= multiset(units)
  {
    forall u ensures multiset(Filter(units, keep))[u] <= multiset(units)[u] {
      FilterCount(units, keep, u);
    }
  }

  lemma UnitsDistinct(units: seq<PackUnit>)
    requires DistinctUnits(units)
    ensures Distinct(units)
  {
    DistinctOrdersOf(units);
    PairwiseDistinct(units);
  }

  lemma BasePart(base: seq<PackUnit>, retrieval: seq<PackUnit>, keep: PackUnit -> bool, kind: ItemKind,
                 ranking: seq<PackUnit>)
    requires NumberedUnits(base + retrieval) && OneKind(Filter(base, keep), kind)
    ensures var sorted := SortBy(Filter(base, keep), OrderGeq);
      OneKind(sorted, kind) && ServedInOrder(sorted, ranking)
  {
    hide Filter, ComesBefore;
    NumberedDistinct(base + retrieval);
    FilteredPart(base, keep);
    assert multiset(base + retrieval) == multiset(base) + multiset(retrieval);
    PartDistinct(base + retrieval, Filter(base, keep));
    LatestFirst(Filter(base, keep), kind, ranking);
  }

  lemma RankingOfRetrieval(q: Request, base: seq<PackUnit>, retrieval: seq<PackUnit>, limits: nat -> nat)
    requires WellFormedUnits(q, base, retrieval, limits)
    ensures ServedInOrder(q.rank(retrieval), q.rank(retrieval))
    ensures forall u :: u in q.rank(retrieval) <==> u in retrieval
    ensures forall u :: u in retrieval ==> u.IsRetrieval()
  {
    hide ComesBefore, DistinctUnits;
    var ranking := q.rank(retrieval);
    NumberedDistinct(base + retrieval);
    assert multiset(base + retrieval) == multiset(base) + multiset(retrieval);
    PartDistinct(base + retrieval, ranking);
    UnitsDistinct(ranking);
    forall u ensures u in ranking <==> u in retrieval {
      assert (u in ranking <==> u in multiset(ranking)) && (u in retrieval <==> u in multiset(retrieval));
    }
    RankingInOrder(ranking);
  }

  lemma EverythingInOrder(q: Request, base: seq<PackUnit>, retrieval: seq<PackUnit>, limits: nat -> nat)
    requires WellFormedUnits(q, base, retrieval, limits)
    ensures ServedInOrder(InRankOrder(q, base, retrieval), q.rank(retrieval))
  {
    hide ServedInOrder, NumberedUnits, Permutes, UniformLimits, Filter, SortBy;
    var ranking := q.rank(retrieval);
    RankingOfRetrieval(q, base, retrieval, limits);
    BasePart(base, retrieval, UnpinnedMessage, Message, ranking);
    BasePart(base, retrieval, UnpinnedSummary, Summary, ranking);
    var messages := SortBy(Filter(base, UnpinnedMessage), OrderGeq);
    var summaries := SortBy(Filter(base, UnpinnedSummary), OrderGeq);
    ServedConcat(ranking, messages, ranking);
    ServedConcat(ranking + messages, summaries, ranking);
  }

  // ---- what is kept ---------------------------------------------------------------------------------

  // The unit is admitted beside the given ones.
  predicate FitsBeside(u: PackUnit, served: seq<PackUnit>, available: int) {
    && (u.IsRetrieval() ==> CountHint(served, u.Hint()) < u.Limit())
    && Sum(served, UnitTokens) + u.Tokens() <= available
  }

  lemma AdmitsIsFits(p: Packing, u: PackUnit, available: int, limits: nat -> nat)
    requires Sound(p, limits)
    ensures Admits(p, u, available) <==> FitsBeside(u, p.kept, available)
  {
    if u.IsRetrieval() {
      assert CountFor(p.hintCounts, u.Hint()) == CountHint(p.kept, u.Hint());
    }
  }

  lemma ServedSplit(before: seq<PackUnit>, more: seq<PackUnit>, keep: PackUnit -> bool)
    requires (forall v :: v in before ==> keep(v)) && forall v :: v in more ==> !keep(v)
    ensures Filter(before + more, keep) == before
  {
    FilterConcat(before, more, keep);
    FilterAll(before, keep);
    FilterNone(more, keep);
  }

  lemma BeforeItsTurn(ranked: seq<PackUnit>, ranking: seq<PackUnit>, k: nat)
    requires ServedInOrder(ranked, ranking) && k < |ranked|
    ensures forall v :: v in ranked[..k] ==> ComesBefore(v, ranked[k], ranking)
    ensures forall v :: v in ranked[k..] ==> !ComesBefore(v, ranked[k], ranking)
  {
    hide ComesBefore;
    forall v | v in ranked[..k] ensures ComesBefore(v, ranked[k], ranking) {
      var i :| 0 <= i < k && ranked[..k][i] == v;
      assert ranked[i] == v;
    }
    forall v | v in ranked[k..] ensures !ComesBefore(v, ranked[k], ranking) {
      var i :| 0 <= i < |ranked[k..]| && ranked[k..][i] == v;
      assert ranked[k + i] == v;
    }
  }

  lemma RankedDistinct(q: Request, base: seq<PackUnit>, retrieval: seq<PackUnit>, limits: nat -> nat)
    requires WellFormedUnits(q, base, retrieval, limits)
    ensures Distinct(InRankOrder(q, base, retrieval))
    ensures forall u :: u in InRankOrder(q, base, retrieval) <==> u in base + retrieval && !PinnedUnit(u)
  {
    hide DistinctUnits, NumberedUnits, UniformLimits;
    var units, ranked, pinned := base + retrieval, InRankOrder(q, base, retrieval), Filter(base, PinnedUnit);
    NumberedDistinct(units);
    RankedPartition(base, retrieval, q.rank);
    PartDistinct(units, ranked);
    UnitsDistinct(ranked);
    RankedMembers(q, base, retrieval, limits);
  }

  lemma RankedMembers(q: Request, base: seq<PackUnit>, retrieval: seq<PackUnit>, limits: nat -> nat)
    requires WellFormedUnits(q, base, retrieval, limits)
    ensures forall u :: u in InRankOrder(q, base, retrieval) <==> u in base + retrieval && !PinnedUnit(u)
  {
    hide NumberedUnits, UniformLimits;
    RankingOfRetrieval(q, base, retrieval, limits);
    SortKeepsElements(Filter(base, UnpinnedMessage), OrderGeq);
    SortKeepsElements(Filter(base, UnpinnedSummary), OrderGeq);
  }

  // Each unit that is not pinned is kept if and only if it fits beside the kept units that come before it.
  lemma ServedInTurn(q: Request, base: seq<PackUnit>, retrieval: seq<PackUnit>, limits: nat -> nat, u: PackUnit)
    requires WellFormedUnits(q, base, retrieval, limits) && u in base + retrieval && !PinnedUnit(u)
    ensures var kept := Greedy(q, base, retrieval).kept;
      u in kept <==> FitsBeside(u, Filter(kept, Ahead(u, q.rank(retrieval))), q.Available())
  {
    hide ComesBefore, ServedInOrder, Sound, UniformLimits, Admits, FitsBeside, PlaceAll, NumberedUnits, Permutes,
         InRankOrder;
    var pinned, ranked, ranking := Filter(base, PinnedUnit), InRankOrder(q, base, retrieval), q.rank(retrieval);
    var start := Packing(pinned, Sum(pinned, UnitTokens), map[]);
    RankedDistinct(q, base, retrieval, limits);
    EverythingInOrder(q, base, retrieval, limits);
    GreedyStarts(q, base, retrieval, limits);
    var k :| 0 <= k < |ranked| && ranked[k] == u;
    var before := PlaceAll(start, ranked[..k], q.Available());
    var more := KeptAtTurn(start, ranked, k, q.Available());
    UniformPart(ranked, ranked[..k], limits);
    PlaceAllSound(start, ranked[..k], q.Available(), limits);
    AdmitsIsFits(before, u, q.Available(), limits);
    BeforeItsTurn(ranked, ranking, k);
    PinnedFirst(pinned, u, ranking);
    ServedSplit(before.kept, more, Ahead(u, ranking));
  }

  lemma PinnedFirst(pinned: seq<PackUnit>, u: PackUnit, ranking: seq<PackUnit>)
    requires forall v :: v in pinned ==> PinnedUnit(v)
    ensures forall v :: v in pinned ==> ComesBefore(v, u, ranking)
  {
  }

  lemma UniformPart(units: seq<PackUnit>, part: seq<PackUnit>, limits: nat -> nat)
    requires UniformLimits(units, limits) && forall u :: u in part ==> u in units
    ensures UniformLimits(part, limits)
  {
  }

  // The greedy pass of every materialization, with the order spelled out: retrieval by rank is served beside the
  // pinned units alone, then the latest messages, and the latest summaries get what is left.
  lemma ContextServedInTurn(q: Request, ledger: set<Event>, p: Parts, u: PackUnit)
    requires WellFormedRequest(q, ledger) && PartsOf(q, ledger, p)
    requires u in BaseOf(q, p) + RetrievalOf(p)
    ensures var kept := Greedy(q, BaseOf(q, p), RetrievalOf(p)).kept;
      u in kept <==> PinnedUnit(u) || FitsBeside(u, Filter(kept, Ahead(u, q.rank(RetrievalOf(p)))), q.Available())
  {
    hide PartsOf, WellFormedUnits, Greedy, FitsBeside, Ahead, WellFormedRequest;
    PartsUnits(q, ledger, p);
    GreedyFacts(q, BaseOf(q, p), RetrievalOf(p), LimitsOfHints(q.hints));
    if PinnedUnit(u) {
      PinnedAreBase(q, BaseOf(q, p), RetrievalOf(p), LimitsOfHints(q.hints), u);
    } else {
      ServedInTurn(q, BaseOf(q, p), RetrievalOf(p), LimitsOfHints(q.hints), u);
    }
  }

  lemma PinnedAreBase(q: Request, base: seq<PackUnit>, retrieval: seq<PackUnit>, limits: nat -> nat, u: PackUnit)
    requires WellFormedUnits(q, base, retrieval, limits) && u in base + retrieval && PinnedUnit(u)
    ensures u in Filter(base, PinnedUnit)
  {
  }

  // If the ranking sorts bridges, those that were not kept are tried for a swap from the densest to the least
  // dense, the earlier selected first among equals.
  lemma BridgesTriedByDensity(q: Request, retrieval: seq<PackUnit>, kept: seq<PackUnit>)
    requires Permutes(q.rank)
    requires forall s: seq<PackUnit> :: (forall u :: u in s ==> u.BridgeUnit?) ==> Sorted(q.rank(s), RetrievalLeq)
    ensures var tried := DroppedBridges(q, retrieval, kept);
      && (forall u :: u in tried <==> u in retrieval && u.BridgeUnit? && u !in kept)
      && (forall i, j :: 0 <= i < j < |tried| ==> DenserBridge(tried[i], tried[j]))
  {
    var dropped := Filter(retrieval, DroppedBridge(kept));
    var tried := q.rank(dropped);
    forall u ensures u in tried <==> u in dropped {
      assert (u in tried <==> u in multiset(tried)) && (u in dropped <==> u in multiset(dropped));
    }
    forall i, j | 0 <= i < j < |tried| ensures DenserBridge(tried[i], tried[j]) {
      assert tried[i] in tried && tried[j] in tried;
      assert RetrievalLeq(tried[i], tried[j]);
    }
  }

  predicate DenserBridge(u: PackUnit, v: PackUnit) {
    && u.BridgeUnit? && v.BridgeUnit?
    && var a, b := u.bridge, v.bridge;
       || a.score * b.tokenCount > b.score * a.tokenCount
       || (a.score * b.tokenCount == b.score * a.tokenCount && a.selectionOrder <= b.selectionOrder)
  }
}
