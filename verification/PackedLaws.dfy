// What packing and swapping keep, for the units of one request.
module PackedLaws {
  import opened Sequences
  import opened BridgeCompression
  import opened RetrievalCoalescing
  import opened ContextPacking
  import opened BridgeSwaps
  import opened SwapLaws
  import opened PackedUnits
  import opened MaterializedContext

  lemma WithoutOne<T>(s: seq<T>, i: nat)
    requires i < |s|
    ensures multiset(s[..i] + s[i + 1..]) == multiset(s) - multiset{s[i]}
  {
    assert s == s[..i] + [s[i]] + s[i + 1..];
  }

  lemma PartWithoutHead<T>(part: seq<T>, whole: seq<T>, i: nat)
    requires multiset(part) <= multiset(whole) && part != [] && i < |whole| && whole[i] == part[0]
    ensures multiset(part[1..]) <= multiset(whole[..i] + whole[i + 1..])
  {
    WithoutOne(part, 0);
    WithoutOne(whole, i);
    assert part[..0] + part[1..] == part[1..];
  }

  lemma {:induction false} SumOfPart<T>(part: seq<T>, whole: seq<T>, weight: T -> nat)
    requires multiset(part) <= multiset(whole)
    ensures Sum(part, weight) <= Sum(whole, weight)
  {
    if part != [] {
      assert part[0] in multiset(whole);
      var i :| 0 <= i < |whole| && whole[i] == part[0];
      var rest := whole[..i] + whole[i + 1..];
      PartWithoutHead(part, whole, i);
      SumOfPart(part[1..], rest, weight);
      SumSplitAt(whole, i, weight);
      SumConcat(whole[..i], whole[i + 1..], weight);
    }
  }

  // The kept units and the bridges tried for a swap are different ones.
  lemma TriedApart(q: Request, base: seq<PackUnit>, retrieval: seq<PackUnit>, kept: seq<PackUnit>, order: nat)
    requires Permutes(q.rank) && NumberedUnits(base + retrieval) && multiset(kept) <= multiset(base + retrieval)
    ensures CountOrder(kept, order) + CountOrder(DroppedBridges(q, retrieval, kept), order) <= 1
  {
    var tried := DroppedBridges(q, retrieval, kept);
    DroppedBridgesFacts(q, retrieval, kept);
    forall u ensures multiset(kept + tried)[u] <= multiset(base + retrieval)[u] {
      FilterCount(retrieval, DroppedBridge(kept), u);
      assert multiset(base + retrieval)[u] == multiset(base)[u] + multiset(retrieval)[u];
      assert u in kept <==> u in multiset(kept);
    }
    SumOfPart(kept + tried, base + retrieval, OrderWeight(order));
    SumConcat(kept, tried, OrderWeight(order));
    NumberedDistinct(base + retrieval);
    assert CountOrder(base + retrieval, order) <= 1;
  }

  // ---- the greedy pass -------------------------------------------------------------------

  // The units to pack: numbered, base units first, one limit per hint.
  ghost predicate WellFormedUnits(q: Request, base: seq<PackUnit>, retrieval: seq<PackUnit>, limits: nat -> nat) {
    && Permutes(q.rank) && NumberedUnits(base + retrieval)
    && (forall u :: u in base ==> u.BaseUnit?) && (forall u :: u in retrieval ==> !u.BaseUnit?)
    && UniformLimits(retrieval, limits)
  }

  lemma GreedyStarts(q: Request, base: seq<PackUnit>, retrieval: seq<PackUnit>, limits: nat -> nat)
    requires WellFormedUnits(q, base, retrieval, limits)
    ensures var pinned := Filter(base, PinnedUnit); Sound(Packing(pinned, Sum(pinned, UnitTokens), map[]), limits)
    ensures UniformLimits(InRankOrder(q, base, retrieval), limits)
  {
    var pinned, ranked := Filter(base, PinnedUnit), InRankOrder(q, base, retrieval);
    forall hint: nat ensures CountHint(pinned, hint) == 0 {
      SumZero(pinned, HintWeight(hint));
    }
    RankedPartition(base, retrieval, q.rank);
    forall u | u in ranked && u.IsRetrieval() ensures u.Limit() == limits(u.Hint()) {
      assert u in multiset(base + retrieval);
      assert u in base + retrieval;
    }
  }

  lemma GreedyFacts(q: Request, base: seq<PackUnit>, retrieval: seq<PackUnit>, limits: nat -> nat)
    requires WellFormedUnits(q, base, retrieval, limits)
    ensures var p := Greedy(q, base, retrieval);
      && Sound(p, limits) && multiset(p.kept) <= multiset(base + retrieval) && Filter(base, PinnedUnit) <= p.kept
      && (Sum(Filter(base, PinnedUnit), UnitTokens) <= q.Available() ==> p.used <= q.Available())
  {
    hide Sound, UniformLimits;
    var pinned, ranked := Filter(base, PinnedUnit), InRankOrder(q, base, retrieval);
    var start := Packing(pinned, Sum(pinned, UnitTokens), map[]);
    GreedyStarts(q, base, retrieval, limits);
    RankedPartition(base, retrieval, q.rank);
    PlaceAllSound(start, ranked, q.Available(), limits);
    PlaceAllKeeps(start, ranked, q.Available());
  }

  // ---- the swaps ---------------------------------------------------------------------------

  lemma SwapStems(load: Load, order: nat, b: BridgeContender, available: int, tokens: Tokenizer, units: seq<PackUnit>)
    requires AllStem(load.kept, units) && order < |units| && units[order] == BridgeUnit(order, b)
    ensures AllStem(SwapBridge(load, order, b, available, tokens).kept, units)
  {
    hide SwapBridge;
    SwapShape(load, order, b, available, tokens);
    var r := SwapBridge(load, order, b, available, tokens);
    if r != load {
      var victim, size: nat :| victim in load.kept && victim.RawUnit? && victim.bundle.hintIndex == b.hintIndex
        && r.kept == Exchange(load.kept, victim, Resized(order, b, size))
        && r.used == load.used - victim.Tokens() + size;
      assert Stems(Resized(order, b, size), units);
      assert forall u :: u in r.kept ==> u in load.kept || u == Resized(order, b, size);
    }
  }

  lemma {:induction false} SwapAllStems(load: Load, tried: seq<PackUnit>, available: int, tokens: Tokenizer,
                                        units: seq<PackUnit>)
    requires AllStem(load.kept, units) && NumberedUnits(units) && Dropped(tried)
      && forall u :: u in tried ==> u in units
    ensures AllStem(SwapAll(load, tried, available, tokens).kept, units)
    decreases |tried|
  {
    hide SwapBridge, AllStem;
    if tried != [] {
      var u := tried[0];
      assert u in tried && forall v :: v in tried[1..] ==> v in tried;
      var i :| 0 <= i < |units| && units[i] == u;
      SwapStems(load, u.order, u.bridge, available, tokens, units);
      SwapAllStems(SwapBridge(load, u.order, u.bridge, available, tokens), tried[1..], available, tokens, units);
    }
  }

  lemma {:induction false} BaseKept(kept: seq<PackUnit>, u: PackUnit)
    requires u.BaseUnit?
    ensures u in kept <==> Sum(kept, BaseWeight(u)) > 0
  {
    if kept != [] {
      BaseKept(kept[1..], u);
      assert u in kept <==> kept[0] == u || u in kept[1..];
    }
  }

  // ---- both together -------------------------------------------------------------------------

  lemma SwappedOrders(q: Request, base: seq<PackUnit>, retrieval: seq<PackUnit>, limits: nat -> nat)
    requires WellFormedUnits(q, base, retrieval, limits)
    ensures DistinctUnits(Swapped(q, base, retrieval).kept)
  {
    hide SwapAll, PlaceAll, Sound, NumberedUnits, Greedy, UniformLimits, DroppedBridges, Permutes;
    GreedyFacts(q, base, retrieval, limits);
    var p := Greedy(q, base, retrieval);
    var tried := DroppedBridges(q, retrieval, p.kept);
    DroppedBridgesFacts(q, retrieval, p.kept);
    SwapAllKeeps(Load(p.kept, p.used), tried, q.Available(), q.tokens);
    forall order: nat ensures CountOrder(Swapped(q, base, retrieval).kept, order) <= 1 {
      TriedApart(q, base, retrieval, p.kept, order);
    }
  }

  lemma SwappedStem(q: Request, base: seq<PackUnit>, retrieval: seq<PackUnit>, limits: nat -> nat)
    requires WellFormedUnits(q, base, retrieval, limits)
    ensures AllStem(Swapped(q, base, retrieval).kept, base + retrieval)
  {
    hide SwapAll, PlaceAll, Sound, Greedy, UniformLimits, DroppedBridges, Permutes;
    GreedyFacts(q, base, retrieval, limits);
    var p, units := Greedy(q, base, retrieval), base + retrieval;
    forall u | u in p.kept ensures Stems(u, units) {
      assert u in multiset(units);
      var i :| 0 <= i < |units| && units[i] == u;
    }
    DroppedBridgesFacts(q, retrieval, p.kept);
    SwapAllStems(Load(p.kept, p.used), DroppedBridges(q, retrieval, p.kept), q.Available(), q.tokens, units);
  }

  // Every base unit that the greedy pass kept is still kept, the pinned ones first of all.
  lemma SwappedBase(q: Request, base: seq<PackUnit>, retrieval: seq<PackUnit>, limits: nat -> nat, u: PackUnit)
    requires WellFormedUnits(q, base, retrieval, limits) && u.BaseUnit?
    ensures u in Swapped(q, base, retrieval).kept <==> u in Greedy(q, base, retrieval).kept
    ensures u in base && u.pinned ==> u in Swapped(q, base, retrieval).kept
  {
    hide SwapAll, PlaceAll, Sound, NumberedUnits, Greedy, UniformLimits, DroppedBridges, Permutes;
    GreedyFacts(q, base, retrieval, limits);
    var p := Greedy(q, base, retrieval);
    DroppedBridgesFacts(q, retrieval, p.kept);
    SwapAllKeeps(Load(p.kept, p.used), DroppedBridges(q, retrieval, p.kept), q.Available(), q.tokens);
    BaseKept(p.kept, u);
    BaseKept(Swapped(q, base, retrieval).kept, u);
    assert u in base && u.pinned ==> u in Filter(base, PinnedUnit);
  }

  // The books are right and no hint exceeds its limit.
  lemma SwappedBooks(q: Request, base: seq<PackUnit>, retrieval: seq<PackUnit>, limits: nat -> nat)
    requires WellFormedUnits(q, base, retrieval, limits)
    ensures var load := Swapped(q, base, retrieval);
      load.used == Sum(load.kept, UnitTokens) && forall hint: nat :: CountHint(load.kept, hint) <= limits(hint)
  {
    hide SwapAll, PlaceAll, NumberedUnits, Greedy, UniformLimits, DroppedBridges, Permutes;
    GreedyFacts(q, base, retrieval, limits);
    var p := Greedy(q, base, retrieval);
    DroppedBridgesFacts(q, retrieval, p.kept);
    SwapAllKeeps(Load(p.kept, p.used), DroppedBridges(q, retrieval, p.kept), q.Available(), q.tokens);
  }

  // The budget: exceeded by at most the spread of the raw bundles the greedy pass kept.
  lemma SwappedBudget(q: Request, base: seq<PackUnit>, retrieval: seq<PackUnit>, limits: nat -> nat, bound: nat)
    requires WellFormedUnits(q, base, retrieval, limits)
    requires Sum(Filter(base, PinnedUnit), UnitTokens) <= q.Available()
    requires Spread(Greedy(q, base, retrieval).kept, bound)
    ensures Swapped(q, base, retrieval).used <= q.Available() + bound
  {
    hide SwapAll, PlaceAll, Sound, NumberedUnits, Greedy, UniformLimits, DroppedBridges, Permutes;
    GreedyFacts(q, base, retrieval, limits);
    var p := Greedy(q, base, retrieval);
    DroppedBridgesFacts(q, retrieval, p.kept);
    SwapAllBudget(Load(p.kept, p.used), DroppedBridges(q, retrieval, p.kept), q.Available(), q.tokens, bound);
  }

  lemma SwappedBudgetLimitOne(q: Request, base: seq<PackUnit>, retrieval: seq<PackUnit>, limits: nat -> nat)
    requires WellFormedUnits(q, base, retrieval, limits)
    requires Sum(Filter(base, PinnedUnit), UnitTokens) <= q.Available()
    requires forall hint: nat :: CountHint(Greedy(q, base, retrieval).kept, hint) <= 1
    ensures Swapped(q, base, retrieval).used <= q.Available()
  {
    hide SwapAll, PlaceAll, Sound, NumberedUnits, Greedy, UniformLimits, DroppedBridges, Permutes;
    GreedyFacts(q, base, retrieval, limits);
    var p := Greedy(q, base, retrieval);
    DroppedBridgesFacts(q, retrieval, p.kept);
    OneRawPerHintKeepsBudget(Load(p.kept, p.used), DroppedBridges(q, retrieval, p.kept), q.Available(), q.tokens);
  }
}
