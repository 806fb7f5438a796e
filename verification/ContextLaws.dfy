// What every materialized context satisfies, end to end.
module ContextLaws {
  import opened Sequences
  import opened ContextItems
  import opened BaseTrim
  import opened BridgeSelection
  import opened WindowCoalescing
  import opened RetrievalCoalescing
  import opened RetrievalCollection
  import opened CollectionLaws
  import opened ContextPacking
  import opened SwapLaws
  import opened PackedUnits
  import opened MaterializedContext
  import opened PackedLaws

  function BaseOf(q: Request, p: Parts): seq<PackUnit>
    requires p.trim.Trimmed?
  {
    BaseUnits(p.trim.selected, q.rules, 0)
  }

  function RetrievalOf(p: Parts): seq<PackUnit>
    requires p.trim.Trimmed?
  {
    RetrievalUnits(p.coalesced, |p.trim.selected|)
  }

  lemma PartsPool(q: Request, ledger: set<Event>, p: Parts)
    requires WellFormedRequest(q, ledger) && PartsOf(q, ledger, p)
    ensures PoolGathered(p.pool, SettingOf(q, ledger, p), p.world)
    ensures WellFormedContenders(p.pool.contenders, LimitsOfHints(q.hints))
    ensures IsCoalesced(p.pool.contenders, p.coalesced)
  {
    hide IsCoalesced, PoolGathered, WellFormedContenders, CollectFrom, IsTrim, OneLedger, WellFormedHint,
         WellFormedScope, RoomFor;
    PartsGathered(q, ledger, p);
    GatheredWellFormed(p.pool, SettingOf(q, ledger, p), p.world);
  }

  // A coalesced bundle keeps the limit of its hint and is not empty.
  lemma CoalescedBundle(contenders: seq<Contender>, coalesced: seq<Contender>, limits: nat -> nat, x: Contender)
    requires WellFormedContenders(contenders, limits) && IsCoalesced(contenders, coalesced) && x in coalesced && x.Raw?
    requires forall c :: c in contenders && c.Raw? ==> c.bundle.events != []
    ensures x.bundle.limit == limits(x.bundle.hintIndex) && x.bundle.events != []
  {
    hide IsCoalesced, OneLedger, IsMax, Distinct, RawsOf;
    var inputs := RawsOf(contenders, x.bundle.hintIndex);
    CoalescedSummary(contenders, coalesced, x);
    var r :| r in inputs && Inside(r, x.bundle) && r.hintIndex == x.bundle.hintIndex && r.limit == x.bundle.limit;
    RawsOfMember(contenders, x.bundle.hintIndex, r);
    assert Raw(r).bundle.events != [] && r.events[0] in x.bundle.events;
  }

  lemma CoalescedContender(q: Request, ledger: set<Event>, p: Parts, x: Contender)
    requires WellFormedRequest(q, ledger) && PartsOf(q, ledger, p) && x in p.coalesced
    ensures x.Raw? ==> x.bundle.limit == LimitsOfHints(q.hints)(x.bundle.hintIndex) && x.bundle.events != []
    ensures x.Bridge? ==> x.bridge.limit == LimitsOfHints(q.hints)(x.bridge.hintIndex)
  {
    hide IsCoalesced, WellFormedContenders, FreshEvents, FreshSummaries, DistinctSelectionOrders, WellFormedRequest,
         PartsOf;
    PartsPool(q, ledger, p);
    var at := SettingOf(q, ledger, p);
    forall c | c in p.pool.contenders && c.Raw? ensures c.bundle.events != [] {
      assert GoodContender(c, at.limits, p.world);
    }
    if x.Raw? {
      CoalescedBundle(p.pool.contenders, p.coalesced, at.limits, x);
    } else {
      CoalescedBridge(p.pool.contenders, p.coalesced, x);
      assert GoodContender(x, at.limits, p.world);
    }
  }

  lemma PartsUnits(q: Request, ledger: set<Event>, p: Parts)
    requires WellFormedRequest(q, ledger) && PartsOf(q, ledger, p)
    ensures WellFormedUnits(q, BaseOf(q, p), RetrievalOf(p), LimitsOfHints(q.hints))
    ensures forall u :: u in RetrievalOf(p) && u.RawUnit? ==> u.bundle.events != []
  {
    hide PartsOf, OneLedger, WellFormedHint, WellFormedScope, DistinctPositions;
    UnitsNumbered(p.trim.selected, q.rules, p.coalesced);
    var retrieval := RetrievalOf(p);
    forall u | u in retrieval
      ensures u.IsRetrieval() && u.Limit() == LimitsOfHints(q.hints)(u.Hint()) && (u.RawUnit? ==> u.bundle.events != [])
    {
      var i :| 0 <= i < |retrieval| && retrieval[i] == u;
      CoalescedContender(q, ledger, p, p.coalesced[i]);
    }
  }

  // ---- the invariants of the result -----------------------------------------------------------

  lemma {:induction false} SortedSum(kept: seq<PackUnit>, weight: PackUnit -> nat)
    ensures Sum(SortBy(kept, UnitOrderLeq), weight) == Sum(kept, weight)
  {
    SumPermutation(SortBy(kept, UnitOrderLeq), kept, weight);
  }

  // The reported budget is what the kept units cost; no unit is kept twice; units come in order;
  // every pinned item is in; no hint exceeds its limit.
  lemma ContextSound(q: Request, ledger: set<Event>, p: Parts, c: Context)
    requires WellFormedRequest(q, ledger) && PartsOf(q, ledger, p) && Materializes(q, p, c)
    ensures c.budgetUsed == Sum(c.kept, UnitTokens) && Sorted(c.kept, UnitOrderLeq) && DistinctUnits(c.kept)
    ensures forall x :: x in q.items && IsPinned(x, q.rules) ==> exists order :: BaseUnit(order, x, true) in c.kept
    ensures forall hint: nat :: CountHint(c.kept, hint) <= LimitsOfHints(q.hints)(hint)
  {
    hide PartsOf, OneLedger, WellFormedHint, WellFormedScope, DistinctPositions, Swapped, DistinctUnits,
         WellFormedUnits;
    PartsUnits(q, ledger, p);
    var base, retrieval, limits := BaseOf(q, p), RetrievalOf(p), LimitsOfHints(q.hints);
    var load := Swapped(q, base, retrieval);
    SwappedBooks(q, base, retrieval, limits);
    SwappedOrders(q, base, retrieval, limits);
    SortedSum(load.kept, UnitTokens);
    SortedUnits(load.kept);
    forall hint: nat ensures CountHint(c.kept, hint) <= limits(hint) {
      SortedSum(load.kept, HintWeight(hint));
      assert CountHint(load.kept, hint) <= limits(hint);
    }
    forall x | x in q.items && IsPinned(x, q.rules) ensures exists order :: BaseUnit(order, x, true) in c.kept {
      PinnedSelected(q, ledger, p, x);
      var i :| 0 <= i < |p.trim.selected| && p.trim.selected[i] == x;
      assert base[i] == BaseUnit(i, x, true) && base[i] in base;
      SwappedBase(q, base, retrieval, limits, base[i]);
      assert base[i] in multiset(c.kept);
      assert BaseUnit(i, x, true) in c.kept;
    }
  }

  lemma PinnedSelected(q: Request, ledger: set<Event>, p: Parts, x: ContextItem)
    requires WellFormedRequest(q, ledger) && PartsOf(q, ledger, p)
    requires x in q.items && IsPinned(x, q.rules)
    ensures x in p.trim.selected
  {
    hide IsTrim, OneLedger, WellFormedHint, WellFormedScope, RoomFor, IsCoalesced, CollectFrom;
    PinnedAllKept(q.items, q.BaseBudget(), q.rules, p.trim);
  }

  lemma SortedUnits(kept: seq<PackUnit>)
    ensures Sorted(SortBy(kept, UnitOrderLeq), UnitOrderLeq)
    ensures DistinctUnits(kept) ==> DistinctUnits(SortBy(kept, UnitOrderLeq))
  {
    assert TotalPreorder(UnitOrderLeq);
    SortSorts(kept, UnitOrderLeq);
    forall order: nat ensures CountOrder(SortBy(kept, UnitOrderLeq), order) == CountOrder(kept, order) {
      SortedSum(kept, OrderWeight(order));
    }
  }

  // The budget holds up to the spread of the raw bundles that the greedy pass kept.
  lemma ContextBudget(q: Request, ledger: set<Event>, p: Parts, c: Context, bound: nat)
    requires WellFormedRequest(q, ledger) && PartsOf(q, ledger, p) && Materializes(q, p, c) && q.Available() >= 0
    requires Spread(Greedy(q, BaseOf(q, p), RetrievalOf(p)).kept, bound)
    ensures c.budgetUsed <= q.Available() + bound
  {
    hide PartsOf, Swapped, WellFormedUnits, Greedy, Spread, WellFormedRequest, NotKeptIn, InRankOrder;
    PartsUnits(q, ledger, p);
    PinnedUnitsFit(q, p.trim);
    SwappedBudget(q, BaseOf(q, p), RetrievalOf(p), LimitsOfHints(q.hints), bound);
  }

  // It holds strictly when every hint asks for at most one result.
  lemma ContextBudgetLimitOne(q: Request, ledger: set<Event>, p: Parts, c: Context)
    requires WellFormedRequest(q, ledger) && PartsOf(q, ledger, p) && Materializes(q, p, c) && q.Available() >= 0
    requires forall hint :: hint in q.hints ==> hint.limit <= 1
    ensures c.budgetUsed <= q.Available()
  {
    hide PartsOf, Swapped, WellFormedUnits, Greedy, WellFormedRequest, NotKeptIn, InRankOrder;
    PartsUnits(q, ledger, p);
    PinnedUnitsFit(q, p.trim);
    var base, retrieval, limits := BaseOf(q, p), RetrievalOf(p), LimitsOfHints(q.hints);
    GreedyFacts(q, base, retrieval, limits);
    forall hint: nat ensures CountHint(Greedy(q, base, retrieval).kept, hint) <= 1 {
      assert hint < |q.hints| ==> q.hints[hint] in q.hints;
      assert CountHint(Greedy(q, base, retrieval).kept, hint) <= limits(hint);
    }
    SwappedBudgetLimitOne(q, base, retrieval, limits);
  }

  // ---- conservation ----------------------------------------------------------------------------

  lemma {:induction false} BaseKindSum(selected: seq<ContextItem>, rules: seq<PinRule>, first: nat)
    ensures Sum(BaseUnits(selected, rules, first), MessageWeight) == CountKind(selected, Message)
    ensures Sum(BaseUnits(selected, rules, first), SummaryWeight) == CountKind(selected, Summary)
  {
    if selected != [] {
      assert BaseUnits(selected, rules, first)[1..] == BaseUnits(selected[1..], rules, first + 1);
      BaseKindSum(selected[1..], rules, first + 1);
    }
  }

  lemma {:induction false} RetrievalSum(cs: seq<Contender>, first: nat)
    ensures Sum(RetrievalUnits(cs, first), MessageWeight) == |AllEvents(cs)|
    ensures Sum(RetrievalUnits(cs, first), SummaryWeight) == |BridgeIds(cs)|
  {
    if cs != [] {
      assert RetrievalUnits(cs, first)[1..] == RetrievalUnits(cs[1..], first + 1);
      RetrievalSum(cs[1..], first + 1);
    }
  }

  lemma {:induction false} BridgeIdsOf(cs: seq<Contender>)
    ensures BridgeIds(cs) == BridgeIds(Filter(cs, IsBridge))
  {
    if cs != [] {
      BridgeIdsOf(cs[1..]);
      if cs[0].Bridge? {
        assert Filter(cs, IsBridge)[1..] == Filter(cs[1..], IsBridge);
      }
    }
  }

  function BridgeWeight(id: string): Contender -> nat {
    (c: Contender) => if c.Bridge? && c.bridge.candidate.id == id then 1 else 0
  }

  lemma {:induction false} BridgeIdsCount(cs: seq<Contender>, id: string)
    ensures multiset(BridgeIds(cs))[id] == Sum(cs, BridgeWeight(id))
  {
    if cs != [] {
      BridgeIdsCount(cs[1..], id);
    }
  }

  lemma BridgeIdsPermutation(a: seq<Contender>, b: seq<Contender>)
    requires multiset(a) == multiset(b)
    ensures multiset(BridgeIds(a)) == multiset(BridgeIds(b))
  {
    forall id ensures multiset(BridgeIds(a))[id] == multiset(BridgeIds(b))[id] {
      BridgeIdsCount(a, id);
      BridgeIdsCount(b, id);
      SumPermutation(a, b, BridgeWeight(id));
    }
  }

  // Coalescing keeps the messages and the bridges.
  lemma CoalescedContents(q: Request, ledger: set<Event>, p: Parts)
    requires WellFormedRequest(q, ledger) && PartsOf(q, ledger, p)
    ensures multiset(AllEvents(p.coalesced)) == multiset(AllEvents(p.pool.contenders))
    ensures multiset(BridgeIds(p.coalesced)) == multiset(BridgeIds(p.pool.contenders))
  {
    hide WellFormedRequest, PartsOf, WellFormedContenders, HintCoalesced, Sorted;
    PartsPool(q, ledger, p);
    PoolBounds(p.pool, SettingOf(q, ledger, p), p.world);
    CoalescingConservesEvents(p.pool.contenders, p.coalesced);
    BridgeIdsOf(p.pool.contenders);
    BridgeIdsOf(p.coalesced);
    BridgeIdsPermutation(Filter(p.coalesced, IsBridge), Filter(p.pool.contenders, IsBridge));
  }

  lemma PoolBounds(pool: Pool, at: Setting, world: World)
    requires PoolGathered(pool, at, world)
    ensures Distinct(AllEvents(pool.contenders)) && BundlesInBounds(pool.contenders)
  {
    EventsOfDistinctIds(AllEvents(pool.contenders));
    hide FreshEvents, FreshSummaries, Distinct;
    forall c, e | c in pool.contenders && c.Raw? && e in c.bundle.events ensures Covers(c.bundle, e.sequence) {
      assert GoodContender(c, at.limits, world);
    }
  }

  function CountMessages(units: seq<PackUnit>): nat { Sum(units, MessageWeight) }

  function CountSummaries(units: seq<PackUnit>): nat { Sum(units, SummaryWeight) }

  lemma AllAccounted(q: Request, ledger: set<Event>, p: Parts, weight: PackUnit -> nat)
    requires WellFormedRequest(q, ledger) && PartsOf(q, ledger, p) && SizeBlind(weight)
    ensures var base, retrieval := BaseOf(q, p), RetrievalOf(p);
      var kept := Swapped(q, base, retrieval).kept;
      Sum(SortBy(kept, UnitOrderLeq), weight) + Sum(Filter(InRankOrder(q, base, retrieval), NotKeptIn(kept)), weight)
        == Sum(base, weight) + Sum(retrieval, weight)
  {
    hide PartsOf, WellFormedRequest, Swapped, DistinctUnits, SizeBlind, InRankOrder, AllStem, UniformLimits;
    PartsUnits(q, ledger, p);
    var base, retrieval, limits := BaseOf(q, p), RetrievalOf(p), LimitsOfHints(q.hints);
    var kept := Swapped(q, base, retrieval).kept;
    SwappedOrders(q, base, retrieval, limits);
    SwappedStem(q, base, retrieval, limits);
    RanksAll(q, base, retrieval);
    forall u | u in Filter(base, PinnedUnit) ensures u in kept {
      SwappedBase(q, base, retrieval, limits, u);
    }
    Accounted(base + retrieval, Filter(base, PinnedUnit), InRankOrder(q, base, retrieval), kept, weight);
    SumConcat(base, retrieval, weight);
    SortedSum(kept, weight);
  }

  lemma RanksAll(q: Request, base: seq<PackUnit>, retrieval: seq<PackUnit>)
    requires Permutes(q.rank) && forall u :: u in base ==> u.BaseUnit?
    ensures multiset(base + retrieval) == multiset(Filter(base, PinnedUnit)) + multiset(InRankOrder(q, base, retrieval))
  {
    RankedPartition(base, retrieval, q.rank);
  }

  // Nothing gets lost: the messages kept and dropped are those of the context and of the retrieved
  // bundles, the summaries those of the context and the bridges.
  lemma NothingLost(q: Request, ledger: set<Event>, p: Parts, c: Context)
    requires WellFormedRequest(q, ledger) && PartsOf(q, ledger, p) && Materializes(q, p, c)
    ensures CountMessages(c.kept) + c.droppedMessages == CountKind(q.items, Message) + |AllEvents(p.pool.contenders)|
    ensures CountSummaries(c.kept) + c.droppedSummaries == CountKind(q.items, Summary) + |BridgeIds(p.pool.contenders)|
  {
    hide WellFormedRequest, Swapped, InRankOrder;
    AllAccounted(q, ledger, p, MessageWeight);
    AllAccounted(q, ledger, p, SummaryWeight);
    BaseKindSum(p.trim.selected, q.rules, 0);
    RetrievalSum(p.coalesced, |p.trim.selected|);
    CoalescedContents(q, ledger, p);
    assert |multiset(AllEvents(p.coalesced))| == |multiset(AllEvents(p.pool.contenders))|;
    assert |multiset(BridgeIds(p.coalesced))| == |multiset(BridgeIds(p.pool.contenders))|;
  }

  // ---- the trimmed flag --------------------------------------------------------------------------

  function OneUnit(u: PackUnit): nat { 1 }

  lemma {:induction false} SumOfOnes(units: seq<PackUnit>)
    ensures Sum(units, OneUnit) == |units|
  {
    if units != [] {
      SumOfOnes(units[1..]);
    }
  }

  lemma {:induction false} EveryUnitWeighs(units: seq<PackUnit>)
    requires forall u :: u in units && u.RawUnit? ==> u.bundle.events != []
    ensures CountMessages(units) + CountSummaries(units) > 0 <==> units != []
  {
    if units != [] {
      assert units[0] in units && forall u :: u in units[1..] ==> u in units;
      EveryUnitWeighs(units[1..]);
    }
  }

  lemma {:induction false} EveryItemIsOfAKind(items: seq<ContextItem>)
    ensures CountKind(items, Message) + CountKind(items, Summary) == |items|
  {
    if items != [] {
      EveryItemIsOfAKind(items[1..]);
    }
  }

  lemma TrimFlag(q: Request, ledger: set<Event>, p: Parts)
    requires WellFormedRequest(q, ledger) && PartsOf(q, ledger, p)
    ensures p.trim.trimmedToFit <==> p.trim.droppedMessageCount + p.trim.droppedSummaryCount > 0
  {
    hide OneLedger, WellFormedHint, WellFormedScope, RoomFor, IsCoalesced, CollectFrom, Belongs;
    var outside := Filter(q.items, OutsideOf(p.trim.selected));
    SelectionPartition(q.items, p.trim.selected);
    assert |multiset(q.items)| == |multiset(p.trim.selected)| + |multiset(outside)|;
    EveryItemIsOfAKind(q.items);
    EveryItemIsOfAKind(p.trim.selected);
    assert outside != [] ==> outside[0] in q.items && outside[0] !in p.trim.selected;
    assert forall x :: x in q.items && x !in p.trim.selected ==> x in outside;
  }

  lemma RankedNotEmpty(q: Request, ledger: set<Event>, p: Parts)
    requires WellFormedRequest(q, ledger) && PartsOf(q, ledger, p)
    ensures forall u :: u in InRankOrder(q, BaseOf(q, p), RetrievalOf(p)) && u.RawUnit? ==> u.bundle.events != []
  {
    hide PartsOf, OneLedger, WellFormedHint, WellFormedScope, DistinctPositions, InRankOrder;
    PartsUnits(q, ledger, p);
    var base, retrieval := BaseOf(q, p), RetrievalOf(p);
    RanksAll(q, base, retrieval);
    forall u | u in InRankOrder(q, base, retrieval) && u.RawUnit? ensures u.bundle.events != [] {
      assert u in multiset(base + retrieval);
      assert u in base + retrieval;
    }
  }

  // The flag is set exactly when something was dropped.
  lemma TrimmedIffDropped(q: Request, ledger: set<Event>, p: Parts, c: Context)
    requires WellFormedRequest(q, ledger) && PartsOf(q, ledger, p) && Materializes(q, p, c)
    ensures c.trimmedToFit <==> c.droppedMessages + c.droppedSummaries > 0
  {
    var base, retrieval := BaseOf(q, p), RetrievalOf(p);
    var kept, ranked := Swapped(q, base, retrieval).kept, InRankOrder(q, base, retrieval);
    RanksAll(q, base, retrieval);
    hide PartsOf, WellFormedRequest, Swapped, InRankOrder, NotKeptIn;
    assert |multiset(base + retrieval)| == |multiset(Filter(base, PinnedUnit))| + |multiset(ranked)|;
    var dropped := Filter(ranked, NotKeptIn(kept));
    AllAccounted(q, ledger, p, OneUnit);
    SumOfOnes(SortBy(kept, UnitOrderLeq));
    SumOfOnes(dropped);
    SumOfOnes(base);
    SumOfOnes(retrieval);
    RankedNotEmpty(q, ledger, p);
    EveryUnitWeighs(dropped);
    TrimFlag(q, ledger, p);
  }

  // ---- what retrieval added ------------------------------------------------------------------------

  lemma {:induction false} RawEventsLength(units: seq<PackUnit>)
    ensures |RawEvents(units)| == Sum(units, RawMessages)
  {
    if units != [] {
      RawEventsLength(units[1..]);
    }
  }

  function RawMessages(u: PackUnit): nat { if u.RawUnit? then |u.bundle.events| else 0 }

  function BridgeUnits(u: PackUnit): nat { if u.BridgeUnit? then 1 else 0 }

  function EventWeight(e: Event): PackUnit -> nat {
    (u: PackUnit) => if u.RawUnit? then multiset(u.bundle.events)[e] else 0
  }

  function SummaryIdWeight(id: string): PackUnit -> nat {
    (u: PackUnit) => if u.BridgeUnit? && u.bridge.candidate.id == id then 1 else 0
  }

  lemma {:induction false} RawEventsCount(units: seq<PackUnit>, e: Event)
    ensures multiset(RawEvents(units))[e] == Sum(units, EventWeight(e))
  {
    if units != [] {
      RawEventsCount(units[1..], e);
    }
  }

  lemma {:induction false} BridgeSummariesCount(units: seq<PackUnit>, id: string)
    ensures multiset(BridgeSummaries(units))[id] == Sum(units, SummaryIdWeight(id))
    ensures |BridgeSummaries(units)| == Sum(units, BridgeUnits)
  {
    if units != [] {
      BridgeSummariesCount(units[1..], id);
    }
  }

  lemma {:induction false} RetrievalContents(cs: seq<Contender>, first: nat)
    ensures RawEvents(RetrievalUnits(cs, first)) == AllEvents(cs)
    ensures BridgeSummaries(RetrievalUnits(cs, first)) == BridgeIds(cs)
  {
    if cs != [] {
      assert RetrievalUnits(cs, first)[1..] == RetrievalUnits(cs[1..], first + 1);
      RetrievalContents(cs[1..], first + 1);
    }
  }

  lemma KeptAtMost(q: Request, ledger: set<Event>, p: Parts, weight: PackUnit -> nat)
    requires WellFormedRequest(q, ledger) && PartsOf(q, ledger, p) && SizeBlind(weight)
    ensures Sum(Swapped(q, BaseOf(q, p), RetrievalOf(p)).kept, weight)
         <= Sum(BaseOf(q, p), weight) + Sum(RetrievalOf(p), weight)
  {
    AllAccounted(q, ledger, p, weight);
    SortedSum(Swapped(q, BaseOf(q, p), RetrievalOf(p)).kept, weight);
  }

  // The kept units hold each retrieved message and bridge at most as often as the contenders do.
  lemma KeptEvents(q: Request, ledger: set<Event>, p: Parts, e: Event)
    requires WellFormedRequest(q, ledger) && PartsOf(q, ledger, p)
    ensures multiset(RawEvents(Swapped(q, BaseOf(q, p), RetrievalOf(p)).kept))[e]
      <= multiset(AllEvents(p.pool.contenders))[e]
  {
    hide PartsOf, WellFormedRequest, Swapped, AllEvents, RawEvents, BridgeIds, Permutes;
    KeptAtMost(q, ledger, p, EventWeight(e));
    RawEventsCount(Swapped(q, BaseOf(q, p), RetrievalOf(p)).kept, e);
    OfferedEvents(q, ledger, p, e);
  }

  lemma OfferedEvents(q: Request, ledger: set<Event>, p: Parts, e: Event)
    requires WellFormedRequest(q, ledger) && PartsOf(q, ledger, p)
    ensures Sum(BaseOf(q, p), EventWeight(e)) == 0
    ensures Sum(RetrievalOf(p), EventWeight(e)) == multiset(AllEvents(p.pool.contenders))[e]
  {
    hide PartsOf, WellFormedRequest, AllEvents, RawEvents, BridgeIds, BridgeSummaries;
    CoalescedContents(q, ledger, p);
    RetrievalContents(p.coalesced, |p.trim.selected|);
    RawEventsCount(RetrievalOf(p), e);
    SumZero(BaseOf(q, p), EventWeight(e));
  }

  lemma KeptBridges(q: Request, ledger: set<Event>, p: Parts, id: string)
    requires WellFormedRequest(q, ledger) && PartsOf(q, ledger, p)
    ensures multiset(BridgeSummaries(Swapped(q, BaseOf(q, p), RetrievalOf(p)).kept))[id]
      <= multiset(BridgeIds(p.pool.contenders))[id]
  {
    hide PartsOf, WellFormedRequest, Swapped, BridgeIds, BridgeSummaries, AllEvents, Permutes;
    KeptAtMost(q, ledger, p, SummaryIdWeight(id));
    BridgeSummariesCount(Swapped(q, BaseOf(q, p), RetrievalOf(p)).kept, id);
    OfferedBridges(q, ledger, p, id);
  }

  lemma OfferedBridges(q: Request, ledger: set<Event>, p: Parts, id: string)
    requires WellFormedRequest(q, ledger) && PartsOf(q, ledger, p)
    ensures Sum(BaseOf(q, p), SummaryIdWeight(id)) == 0
    ensures Sum(RetrievalOf(p), SummaryIdWeight(id)) == multiset(BridgeIds(p.pool.contenders))[id]
  {
    hide PartsOf, WellFormedRequest, AllEvents, RawEvents, BridgeIds, BridgeSummaries;
    CoalescedContents(q, ledger, p);
    RetrievalContents(p.coalesced, |p.trim.selected|);
    BridgeSummariesCount(RetrievalOf(p), id);
    SumZero(BaseOf(q, p), SummaryIdWeight(id));
  }

  lemma DistinctPart<T(!new)>(part: seq<T>, whole: seq<T>)
    requires Distinct(whole) && forall x :: multiset(part)[x] <= multiset(whole)[x]
    ensures Distinct(part) && forall x :: x in part ==> x in whole
  {
    forall x ensures multiset(part)[x] <= 1 && (x in part ==> x in whole) {
      assert multiset(part)[x] <= multiset(whole)[x] <= 1;
      assert x in part ==> x in multiset(part);
    }
  }

  // Narrowing a duplicate-free list to some of its elements leaves as many as there are.
  lemma NarrowedLength(ids: seq<string>, some: seq<string>, among: set<string>)
    requires Distinct(ids) && Distinct(some) && forall id :: id in some ==> id in ids
    requires forall id :: id in among <==> id in some
    ensures |Filter(ids, AmongIds(among))| == |some|
  {
    FilterDistinct(ids, AmongIds(among));
    SameElements(Filter(ids, AmongIds(among)), some);
    assert |multiset(Filter(ids, AmongIds(among)))| == |multiset(some)|;
  }

  lemma IdsWithin(events: seq<Event>, some: seq<Event>)
    requires forall e :: e in some ==> e in events
    ensures forall id :: id in Ids(some) ==> id in Ids(events)
  {
    IdsAreIdSet(events);
    IdsAreIdSet(some);
  }

  // Narrowing the ids of all messages to those of some of them leaves as many.
  lemma NarrowedEvents(events: seq<Event>, some: seq<Event>, ledger: set<Event>)
    requires OneLedger(ledger) && Distinct(Ids(events)) && forall e :: e in events ==> e in ledger
    requires forall e :: multiset(some)[e] <= multiset(events)[e]
    ensures |Filter(Ids(events), AmongIds(IdSet(some)))| == |some|
  {
    hide OneLedger, Distinct;
    EventsOfDistinctIds(events);
    DistinctPart(some, events);
    DistinctIdsOf(some, ledger);
    IdsWithin(events, some);
    IdsAreIdSet(some);
    NarrowedLength(Ids(events), Ids(some), IdSet(some));
  }

  lemma PoolContents(q: Request, ledger: set<Event>, p: Parts)
    requires WellFormedRequest(q, ledger) && PartsOf(q, ledger, p)
    ensures Distinct(Ids(AllEvents(p.pool.contenders))) && forall e :: e in AllEvents(p.pool.contenders) ==> e in ledger
    ensures Distinct(BridgeIds(p.pool.contenders))
    ensures OneLedger(ledger)
  {
    PartsPool(q, ledger, p);
    hide PartsOf, OneLedger, WellFormedScope, WellFormedHint, IsCoalesced, WellFormedContenders, OrderedBefore,
         Distinct;
  }

  lemma ReportedCounts(q: Request, p: Parts, c: Context)
    requires p.trim.Trimmed? && Permutes(q.rank) && Materializes(q, p, c)
    ensures var kept := Swapped(q, BaseOf(q, p), RetrievalOf(p)).kept;
      c.kept == SortBy(kept, UnitOrderLeq) && c.addedMessages == AddedMessages(p.pool, kept)
        && c.addedSummaries == AddedSummaries(p.pool, kept)
  {
    hide Swapped, InRankOrder, NotKeptIn;
  }

  // The reported number of retrieved messages is the number of messages in the kept bundles.
  lemma AddedMessagesExact(q: Request, ledger: set<Event>, p: Parts, c: Context)
    requires WellFormedRequest(q, ledger) && PartsOf(q, ledger, p) && Materializes(q, p, c)
    ensures c.addedMessages == Sum(c.kept, RawMessages)
  {
    hide Materializes, PartsOf, WellFormedRequest, Swapped, OneLedger, Permutes, Distinct, AllEvents, RawEvents, Filter;
    ReportedCounts(q, p, c);
    var kept := Swapped(q, BaseOf(q, p), RetrievalOf(p)).kept;
    var some := RawEvents(kept);
    PoolContents(q, ledger, p);
    forall e ensures multiset(some)[e] <= multiset(AllEvents(p.pool.contenders))[e] {
      KeptEvents(q, ledger, p, e);
    }
    NarrowedEvents(AllEvents(p.pool.contenders), some, ledger);
    RawEventsLength(kept);
    SortedSum(kept, RawMessages);
  }

  // And of retrieved summaries, the number of kept bridges.
  lemma AddedSummariesExact(q: Request, ledger: set<Event>, p: Parts, c: Context)
    requires WellFormedRequest(q, ledger) && PartsOf(q, ledger, p) && Materializes(q, p, c)
    ensures c.addedSummaries == Sum(c.kept, BridgeUnits)
  {
    hide Materializes, PartsOf, WellFormedRequest, Swapped, OneLedger, Permutes, Distinct, BridgeIds, BridgeSummaries,
         Filter;
    ReportedCounts(q, p, c);
    var kept := Swapped(q, BaseOf(q, p), RetrievalOf(p)).kept;
    var ids, some := BridgeIds(p.pool.contenders), BridgeSummaries(kept);
    PoolContents(q, ledger, p);
    forall id ensures multiset(some)[id] <= multiset(ids)[id] {
      KeptBridges(q, ledger, p, id);
    }
    DistinctPart(some, ids);
    NarrowedLength(ids, some, IdsOf(some));
    BridgeSummariesCount(kept, "");
    SortedSum(kept, BridgeUnits);
  }

  // ---- no message twice ------------------------------------------------------------------------------

  function KindIds(items: seq<ContextItem>, kind: ItemKind): seq<string> {
    if items == [] then []
    else (if items[0].kind == kind then [items[0].refId] else []) + KindIds(items[1..], kind)
  }

  // The ids of the messages in the final context, base messages and retrieved ones.
  function MessageIds(units: seq<PackUnit>): seq<string> {
    if units == [] then [] else UnitMessageIds(units[0]) + MessageIds(units[1..])
  }

  function UnitMessageIds(u: PackUnit): seq<string> {
    match u
    case BaseUnit(_, item, _) => if item.kind.Message? then [item.refId] else []
    case BridgeUnit(_, _) => []
    case RawUnit(_, bundle) => Ids(bundle.events)
  }

  function MessageIdWeight(id: string): PackUnit -> nat {
    (u: PackUnit) => multiset(UnitMessageIds(u))[id]
  }

  lemma {:induction false} MessageIdsCount(units: seq<PackUnit>, id: string)
    ensures multiset(MessageIds(units))[id] == Sum(units, MessageIdWeight(id))
  {
    if units != [] {
      MessageIdsCount(units[1..], id);
    }
  }

  lemma {:induction false} BaseMessageIds(selected: seq<ContextItem>, rules: seq<PinRule>, first: nat)
    ensures MessageIds(BaseUnits(selected, rules, first)) == KindIds(selected, Message)
  {
    if selected != [] {
      assert BaseUnits(selected, rules, first)[1..] == BaseUnits(selected[1..], rules, first + 1);
      BaseMessageIds(selected[1..], rules, first + 1);
    }
  }

  lemma {:induction false} RetrievalMessageIds(cs: seq<Contender>, first: nat)
    ensures MessageIds(RetrievalUnits(cs, first)) == Ids(AllEvents(cs))
  {
    if cs != [] {
      assert RetrievalUnits(cs, first)[1..] == RetrievalUnits(cs[1..], first + 1);
      RetrievalMessageIds(cs[1..], first + 1);
      if cs[0].Raw? {
        IdsConcat(cs[0].bundle.events, AllEvents(cs[1..]));
      } else {
        assert AllEvents(cs) == AllEvents(cs[1..]);
      }
    }
  }

  function ItemIdWeight(kind: ItemKind, id: string): ContextItem -> nat {
    (x: ContextItem) => if x.kind == kind && x.refId == id then 1 else 0
  }

  lemma {:induction false} KindIdsCount(items: seq<ContextItem>, kind: ItemKind, id: string)
    ensures multiset(KindIds(items, kind))[id] == Sum(items, ItemIdWeight(kind, id))
  {
    if items != [] {
      KindIdsCount(items[1..], kind, id);
    }
  }

  lemma {:induction false} KindIdsMember(items: seq<ContextItem>, kind: ItemKind, id: string)
    ensures id in KindIds(items, kind) <==> exists x :: x in items && x.kind == kind && x.refId == id
  {
    if items != [] {
      KindIdsMember(items[1..], kind, id);
      assert items[0] in items && forall x :: x in items <==> x == items[0] || x in items[1..];
    }
  }

  function IdWeight(id: string): Event -> nat {
    (e: Event) => if e.id == id then 1 else 0
  }

  lemma {:induction false} IdsCount(events: seq<Event>, id: string)
    ensures multiset(Ids(events))[id] == Sum(events, IdWeight(id))
  {
    if events != [] {
      IdsCount(events[1..], id);
    }
  }

  lemma SelectedOnce(q: Request, ledger: set<Event>, p: Parts, kind: ItemKind, id: string)
    requires WellFormedRequest(q, ledger) && PartsOf(q, ledger, p)
    ensures multiset(KindIds(p.trim.selected, kind))[id] <= multiset(KindIds(q.items, kind))[id]
  {
    hide OneLedger, WellFormedHint, WellFormedScope, RoomFor, IsCoalesced, CollectFrom, Belongs;
    SelectionPartition(q.items, p.trim.selected);
    SumOfPart(p.trim.selected, q.items, ItemIdWeight(kind, id));
    KindIdsCount(q.items, kind, id);
    KindIdsCount(p.trim.selected, kind, id);
  }

  // The final context never holds the same message twice, provided the context did not.
  lemma NoMessageTwice(q: Request, ledger: set<Event>, p: Parts, c: Context)
    requires WellFormedRequest(q, ledger) && PartsOf(q, ledger, p) && Materializes(q, p, c)
    requires Distinct(KindIds(q.items, Message))
    ensures Distinct(MessageIds(c.kept))
  {
    hide PartsOf, WellFormedRequest, Swapped, InRankOrder, NotKeptIn;
    forall id ensures multiset(MessageIds(c.kept))[id] <= 1 {
      MessageAtMostOnce(q, ledger, p, c, id);
    }
  }

  lemma MessageIdsSizeBlind(id: string)
    ensures SizeBlind(MessageIdWeight(id))
  {
  }

  lemma MessageAtMostOnce(q: Request, ledger: set<Event>, p: Parts, c: Context, id: string)
    requires WellFormedRequest(q, ledger) && PartsOf(q, ledger, p) && Materializes(q, p, c)
    requires multiset(KindIds(q.items, Message))[id] <= 1
    ensures multiset(MessageIds(c.kept))[id] <= 1
  {
    hide Materializes, PartsOf, WellFormedRequest, Swapped, Permutes, UnitMessageIds, KindIds, MessageIds;
    ReportedCounts(q, p, c);
    var kept := Swapped(q, BaseOf(q, p), RetrievalOf(p)).kept;
    SortedSum(kept, MessageIdWeight(id));
    MessageIdsCount(c.kept, id);
    MessageIdsSizeBlind(id);
    KeptAtMost(q, ledger, p, MessageIdWeight(id));
    OfferedOnce(q, ledger, p, id);
  }

  lemma OfferedOnce(q: Request, ledger: set<Event>, p: Parts, id: string)
    requires WellFormedRequest(q, ledger) && PartsOf(q, ledger, p)
    requires multiset(KindIds(q.items, Message))[id] <= 1
    ensures Sum(BaseOf(q, p), MessageIdWeight(id)) + Sum(RetrievalOf(p), MessageIdWeight(id)) <= 1
  {
    hide PartsOf, WellFormedRequest;
    MessageIdsCount(BaseOf(q, p), id);
    MessageIdsCount(RetrievalOf(p), id);
    BaseMessageIds(p.trim.selected, q.rules, 0);
    RetrievalMessageIds(p.coalesced, |p.trim.selected|);
    SelectedOnce(q, ledger, p, Message, id);
    RetrievedOnce(q, ledger, p, id);
    hide KindIds, MessageIds;
    assert id in KindIds(p.trim.selected, Message) <==> id in multiset(KindIds(p.trim.selected, Message));
    assert id in Ids(AllEvents(p.coalesced)) <==> id in multiset(Ids(AllEvents(p.coalesced)));
  }

  lemma RetrievedOnce(q: Request, ledger: set<Event>, p: Parts, id: string)
    requires WellFormedRequest(q, ledger) && PartsOf(q, ledger, p)
    ensures multiset(Ids(AllEvents(p.coalesced)))[id] <= 1
    ensures id in KindIds(p.trim.selected, Message) ==> id !in Ids(AllEvents(p.coalesced))
  {
    hide PartsOf, WellFormedRequest, OrderedBefore, FreshSummaries, IsCoalesced, WellFormedContenders;
    PartsPool(q, ledger, p);
    var events := AllEvents(p.pool.contenders);
    CoalescedContents(q, ledger, p);
    IdsCount(AllEvents(p.coalesced), id);
    IdsCount(events, id);
    SumPermutation(AllEvents(p.coalesced), events, IdWeight(id));
    KindIdsMember(p.trim.selected, Message, id);
    IdsMember(events, id);
    assert id in Ids(AllEvents(p.coalesced)) <==> id in multiset(Ids(AllEvents(p.coalesced)));
    assert id in Ids(events) <==> id in multiset(Ids(events));
  }

  // ---- no summary twice ------------------------------------------------------------------------------

  function UnitSummaryIds(u: PackUnit): seq<string> {
    match u
    case BaseUnit(_, item, _) => if item.kind.Summary? then [item.refId] else []
    case BridgeUnit(_, bridge) => [bridge.candidate.id]
    case RawUnit(_, _) => []
  }

  // The ids of the summaries in the final context, base summaries and bridges.
  function SummaryIds(units: seq<PackUnit>): seq<string> {
    if units == [] then [] else UnitSummaryIds(units[0]) + SummaryIds(units[1..])
  }

  function SummaryIdsWeight(id: string): PackUnit -> nat {
    (u: PackUnit) => multiset(UnitSummaryIds(u))[id]
  }

  lemma SummaryIdsSizeBlind(id: string)
    ensures SizeBlind(SummaryIdsWeight(id))
  {
  }

  lemma {:induction false} SummaryIdsCount(units: seq<PackUnit>, id: string)
    ensures multiset(SummaryIds(units))[id] == Sum(units, SummaryIdsWeight(id))
  {
    if units != [] {
      SummaryIdsCount(units[1..], id);
    }
  }

  lemma {:induction false} BaseSummaryIds(selected: seq<ContextItem>, rules: seq<PinRule>, first: nat)
    ensures SummaryIds(BaseUnits(selected, rules, first)) == KindIds(selected, Summary)
  {
    if selected != [] {
      assert BaseUnits(selected, rules, first)[1..] == BaseUnits(selected[1..], rules, first + 1);
      BaseSummaryIds(selected[1..], rules, first + 1);
    }
  }

  lemma {:induction false} RetrievalSummaryIds(cs: seq<Contender>, first: nat)
    ensures SummaryIds(RetrievalUnits(cs, first)) == BridgeIds(cs)
  {
    if cs != [] {
      assert RetrievalUnits(cs, first)[1..] == RetrievalUnits(cs[1..], first + 1);
      RetrievalSummaryIds(cs[1..], first + 1);
    }
  }

  lemma BridgedOnce(q: Request, ledger: set<Event>, p: Parts, id: string)
    requires WellFormedRequest(q, ledger) && PartsOf(q, ledger, p)
    ensures multiset(BridgeIds(p.coalesced))[id] <= 1
    ensures id in KindIds(p.trim.selected, Summary) ==> id !in BridgeIds(p.coalesced)
  {
    hide PartsOf, WellFormedRequest, OrderedBefore, FreshEvents, IsCoalesced, WellFormedContenders, BridgeIds, KindIds;
    PartsPool(q, ledger, p);
    CoalescedContents(q, ledger, p);
    KindIdsMember(p.trim.selected, Summary, id);
    assert id in BridgeIds(p.coalesced) <==> id in multiset(BridgeIds(p.coalesced));
    assert id in BridgeIds(p.pool.contenders) <==> id in multiset(BridgeIds(p.pool.contenders));
  }

  lemma SummariesOfferedOnce(q: Request, ledger: set<Event>, p: Parts, id: string)
    requires WellFormedRequest(q, ledger) && PartsOf(q, ledger, p)
    requires multiset(KindIds(q.items, Summary))[id] <= 1
    ensures Sum(BaseOf(q, p), SummaryIdsWeight(id)) + Sum(RetrievalOf(p), SummaryIdsWeight(id)) <= 1
  {
    hide PartsOf, WellFormedRequest, KindIds, SummaryIds, BridgeIds;
    SummaryIdsCount(BaseOf(q, p), id);
    SummaryIdsCount(RetrievalOf(p), id);
    BaseSummaryIds(p.trim.selected, q.rules, 0);
    RetrievalSummaryIds(p.coalesced, |p.trim.selected|);
    SelectedOnce(q, ledger, p, Summary, id);
    BridgedOnce(q, ledger, p, id);
    assert id in KindIds(p.trim.selected, Summary) <==> id in multiset(KindIds(p.trim.selected, Summary));
    assert id in BridgeIds(p.coalesced) <==> id in multiset(BridgeIds(p.coalesced));
  }

  lemma SummaryAtMostOnce(q: Request, ledger: set<Event>, p: Parts, c: Context, id: string)
    requires WellFormedRequest(q, ledger) && PartsOf(q, ledger, p) && Materializes(q, p, c)
    requires multiset(KindIds(q.items, Summary))[id] <= 1
    ensures multiset(SummaryIds(c.kept))[id] <= 1
  {
    hide Materializes, PartsOf, WellFormedRequest, Swapped, Permutes, UnitSummaryIds, KindIds, SummaryIds;
    ReportedCounts(q, p, c);
    var kept := Swapped(q, BaseOf(q, p), RetrievalOf(p)).kept;
    SortedSum(kept, SummaryIdsWeight(id));
    SummaryIdsCount(c.kept, id);
    SummaryIdsSizeBlind(id);
    KeptAtMost(q, ledger, p, SummaryIdsWeight(id));
    SummariesOfferedOnce(q, ledger, p, id);
  }

  // Nor does it ever hold the same summary twice, provided the context did not.
  lemma NoSummaryTwice(q: Request, ledger: set<Event>, p: Parts, c: Context)
    requires WellFormedRequest(q, ledger) && PartsOf(q, ledger, p) && Materializes(q, p, c)
    requires Distinct(KindIds(q.items, Summary))
    ensures Distinct(SummaryIds(c.kept))
  {
    hide PartsOf, WellFormedRequest, Materializes;
    forall id ensures multiset(SummaryIds(c.kept))[id] <= 1 {
      SummaryAtMostOnce(q, ledger, p, c, id);
    }
  }
}
