// Packing base items, bridge summaries and raw bundles into the available token budget.
module ContextPacking {
  import opened Sequences
  import opened ContextItems
  import opened WindowCoalescing
  import opened RetrievalCoalescing

  // A unit is identified by its order; a bridge may be kept in a compressed size.
  datatype PackUnit =
    | BaseUnit(order: nat, item: ContextItem, pinned: bool)
    | BridgeUnit(order: nat, bridge: BridgeContender)
    | RawUnit(order: nat, bundle: RawBundle)
  {
    function Tokens(): nat {
      match this
      case BaseUnit(_, item, _) => item.tokenCount
      case BridgeUnit(_, bridge) => bridge.tokenCount
      case RawUnit(_, bundle) => bundle.tokenCount
    }

    predicate IsRetrieval() { !BaseUnit? }

    function Hint(): nat
      requires IsRetrieval()
    {
      if BridgeUnit? then bridge.hintIndex else bundle.hintIndex
    }

    function Limit(): nat
      requires IsRetrieval()
    {
      if BridgeUnit? then bridge.limit else bundle.limit
    }

    function Score(): int
      requires IsRetrieval()
    {
      if BridgeUnit? then bridge.score else bundle.score
    }

    predicate OfHint(hint: nat) { IsRetrieval() && Hint() == hint }
  }

  function UnitTokens(u: PackUnit): nat { u.Tokens() }

  function HintWeight(hint: nat): PackUnit -> nat {
    (u: PackUnit) => if u.OfHint(hint) then 1 else 0
  }

  function CountHint(kept: seq<PackUnit>, hint: nat): nat {
    Sum(kept, HintWeight(hint))
  }

  // ---- the retrieval comparator -----------------------------------------------------------

  // Positive when the right unit has more score per token.
  function CompareScoreDensity(leftScore: int, leftTokens: nat, rightScore: int, rightTokens: nat): int {
    rightScore * leftTokens - leftScore * rightTokens
  }

  predicate ScopedBeats(a: RawBundle, b: RawBundle) {
    && a.source == BridgeScoped && b.source != BridgeScoped
    && (a.specificityScore > b.specificityScore
        || (a.specificityScore == b.specificityScore && a.anchorCoverageCount > b.anchorCoverageCount))
  }

  // The sign of compareRetrievalUnits on raw bundles.
  function CompareRaw(a: RawBundle, b: RawBundle): int {
    if ScopedBeats(a, b) then -1
    else if ScopedBeats(b, a) then 1
    else
      var density := CompareScoreDensity(a.score, a.tokenCount, b.score, b.tokenCount);
      if density != 0 then density else a.selectionOrder - b.selectionOrder
  }

  // And on all retrieval units: at equal density bridges come first.
  function CompareUnits(a: PackUnit, b: PackUnit): int
    requires a.IsRetrieval() && b.IsRetrieval()
  {
    if a.RawUnit? && b.RawUnit? then CompareRaw(a.bundle, b.bundle)
    else
      var density := CompareScoreDensity(a.Score(), a.Tokens(), b.Score(), b.Tokens());
      if density != 0 then density
      else if a.BridgeUnit? && b.RawUnit? then -1
      else if a.RawUnit? && b.BridgeUnit? then 1
      else a.bridge.selectionOrder - b.bridge.selectionOrder
  }

  predicate RetrievalLeq(a: PackUnit, b: PackUnit) {
    a.IsRetrieval() && b.IsRetrieval() && CompareUnits(a, b) <= 0
  }

  // ---- greedy packing ---------------------------------------------------------------------

  datatype Packing = Packing(kept: seq<PackUnit>, used: int, hintCounts: map<nat, nat>)

  datatype PackResult = Packed(packing: Packing) | PinnedOverBudget(availableBudget: int, requiredBudget: nat)

  function CountFor(counts: map<nat, nat>, hint: nat): nat {
    if hint in counts then counts[hint] else 0
  }

  predicate Admits(p: Packing, u: PackUnit, available: int) {
    && (u.IsRetrieval() ==> CountFor(p.hintCounts, u.Hint()) < u.Limit())
    && p.used + u.Tokens() <= available
  }

  function Place(p: Packing, u: PackUnit, available: int): Packing {
    if !Admits(p, u, available) then p
    else Packing(p.kept + [u], p.used + u.Tokens(),
                 if u.IsRetrieval() then p.hintCounts[u.Hint() := CountFor(p.hintCounts, u.Hint()) + 1]
                 else p.hintCounts)
  }

  function PlaceAll(p: Packing, ranked: seq<PackUnit>, available: int): Packing
    decreases |ranked|
  {
    if ranked == [] then p else PlaceAll(Place(p, ranked[0], available), ranked[1..], available)
  }

  // Limits are given per hint.
  ghost predicate UniformLimits(units: seq<PackUnit>, limits: nat -> nat) {
    forall u :: u in units && u.IsRetrieval() ==> u.Limit() == limits(u.Hint())
  }

  function OrderWeight(order: nat): PackUnit -> nat {
    (u: PackUnit) => if u.order == order then 1 else 0
  }

  function CountOrder(units: seq<PackUnit>, order: nat): nat {
    Sum(units, OrderWeight(order))
  }

  // No unit occurs twice.
  ghost predicate DistinctUnits(units: seq<PackUnit>) {
    forall order: nat :: CountOrder(units, order) <= 1
  }

  // The books are right: what is used is what is kept, hint counts count, limits hold.
  ghost predicate Sound(p: Packing, limits: nat -> nat) {
    && p.used == Sum(p.kept, UnitTokens)
    && (forall hint: nat :: CountFor(p.hintCounts, hint) == CountHint(p.kept, hint))
    && (forall hint: nat :: CountHint(p.kept, hint) <= limits(hint))
  }

  lemma PlaceSound(p: Packing, u: PackUnit, available: int, limits: nat -> nat)
    requires Sound(p, limits) && UniformLimits([u], limits)
    ensures Sound(Place(p, u, available), limits)
  {
    if Admits(p, u, available) {
      assert u in [u];
      var q := Place(p, u, available);
      SumAppend(p.kept, u, UnitTokens);
      forall hint: nat ensures CountFor(q.hintCounts, hint) == CountHint(q.kept, hint)
        && CountHint(q.kept, hint) <= limits(hint) {
        SumAppend(p.kept, u, HintWeight(hint));
        assert CountFor(p.hintCounts, hint) == CountHint(p.kept, hint);
      }
    }
  }

  lemma {:induction false} PlaceAllSound(p: Packing, ranked: seq<PackUnit>, available: int, limits: nat -> nat)
    requires Sound(p, limits) && UniformLimits(ranked, limits)
    ensures Sound(PlaceAll(p, ranked, available), limits)
    ensures p.used <= PlaceAll(p, ranked, available).used
    ensures p.used <= available ==> PlaceAll(p, ranked, available).used <= available
    ensures p.kept <= PlaceAll(p, ranked, available).kept
    decreases |ranked|
  {
    if ranked != [] {
      assert ranked[0] in ranked && forall u :: u in ranked[1..] ==> u in ranked;
      PlaceSound(p, ranked[0], available, limits);
      PlaceAllSound(Place(p, ranked[0], available), ranked[1..], available, limits);
    }
  }

  // Kept and dropped units are exactly the pinned and the ranked ones.
  lemma {:induction false} PlaceAllKeeps(p: Packing, ranked: seq<PackUnit>, available: int)
    ensures multiset(PlaceAll(p, ranked, available).kept) <= multiset(p.kept) + multiset(ranked)
    ensures multiset(p.kept) <= multiset(PlaceAll(p, ranked, available).kept)
    decreases |ranked|
  {
    if ranked != [] {
      assert ranked == [ranked[0]] + ranked[1..];
      PlaceAllKeeps(Place(p, ranked[0], available), ranked[1..], available);
    }
  }

  lemma {:induction false} CountsGrow(p: Packing, ranked: seq<PackUnit>, available: int, hint: nat)
    ensures CountFor(p.hintCounts, hint) <= CountFor(PlaceAll(p, ranked, available).hintCounts, hint)
    decreases |ranked|
  {
    if ranked != [] {
      CountsGrow(Place(p, ranked[0], available), ranked[1..], available, hint);
    }
  }

  // A ranked unit is left out only when its hint is full or it does not fit beside what was kept.
  lemma {:induction false} LeftOutUnits(p: Packing, ranked: seq<PackUnit>, available: int, limits: nat -> nat,
                                        u: PackUnit)
    requires Sound(p, limits) && UniformLimits(ranked, limits)
    requires u in ranked && u !in PlaceAll(p, ranked, available).kept
    ensures var q := PlaceAll(p, ranked, available);
      (u.IsRetrieval() && CountHint(q.kept, u.Hint()) >= u.Limit()) || q.used + u.Tokens() > available
    decreases |ranked|
  {
    assert ranked[0] in ranked && forall v :: v in ranked[1..] ==> v in ranked;
    var next := Place(p, ranked[0], available);
    PlaceSound(p, ranked[0], available, limits);
    PlaceAllSound(next, ranked[1..], available, limits);
    if u in ranked[1..] {
      LeftOutUnits(next, ranked[1..], available, limits, u);
    } else {
      assert Admits(p, u, available) ==> u in p.kept + [u];
      if u.IsRetrieval() {
        CountsGrow(next, ranked[1..], available, u.Hint());
      }
    }
  }

  method PackGreedily(pinned: seq<PackUnit>, ranked: seq<PackUnit>, available: int) returns (r: PackResult)
    ensures r.PinnedOverBudget? <==> Sum(pinned, UnitTokens) > available
    ensures r.PinnedOverBudget? ==> r.availableBudget == available && r.requiredBudget == Sum(pinned, UnitTokens)
    ensures r.Packed? ==> r.packing == PlaceAll(Packing(pinned, Sum(pinned, UnitTokens), map[]), ranked, available)
  {
    var kept := pinned;
    var used: int := Sum(pinned, UnitTokens);
    var counts: map<nat, nat> := map[];
    if used > available {
      return PinnedOverBudget(available, used);
    }
    for i := 0 to |ranked|
      invariant PlaceAll(Packing(kept, used, counts), ranked[i..], available)
             == PlaceAll(Packing(pinned, Sum(pinned, UnitTokens), map[]), ranked, available)
    {
      var u := ranked[i];
      PrefixStep(ranked, i);
      if u.IsRetrieval() {
        var usedForHint := CountFor(counts, u.Hint());
        if usedForHint >= u.Limit() {
          continue;
        }
      }
      if used + u.Tokens() > available {
        continue;
      }
      kept := kept + [u];
      used := used + u.Tokens();
      if u.IsRetrieval() {
        counts := counts[u.Hint() := CountFor(counts, u.Hint()) + 1];
      }
    }
    r := Packed(Packing(kept, used, counts));
  }
}
