// Materializing a context: trim, collect, coalesce, pack, swap, count.
module MaterializedContext {
  import opened Sequences
  import opened ContextItems
  import opened BaseTrim
  import opened BridgeBudgets
  import opened BridgeCompression
  import opened BridgeSelection
  import opened WindowCoalescing
  import opened RetrievalCoalescing
  import opened RetrievalCollection
  import opened CollectionLaws
  import opened ContextPacking
  import opened BridgeSwaps
  import opened PackedUnits

  // The outside world of one request: the context items in order, the hints with what their searches
  // found, the tokenizer, and the order the retrieval sort happens to yield.
  datatype Request =
    Request(budgetTokens: nat, contextWindow: nat, overheadTokens: nat, items: seq<ContextItem>, rules: seq<PinRule>,
            hints: seq<Hint>, tokens: Tokenizer, rank: seq<PackUnit> -> seq<PackUnit>)
  {
    function Available(): int { Min(budgetTokens, contextWindow) - overheadTokens }

    function Reserve(): int { if hints == [] then 0 else Min(256, Available() / 5) }

    function BaseBudget(): int { Max(0, Available() - Reserve()) }
  }

  datatype Context =
    Context(kept: seq<PackUnit>, budgetUsed: int, trimmedToFit: bool, droppedMessages: nat, droppedSummaries: nat,
            addedMessages: nat, addedSummaries: nat)

  datatype Outcome = InContext(context: Context) | BudgetExceeded(availableBudget: int, requiredBudget: int)

  // ---- the pass as a function of its intermediate results ----------------------------------

  function InRankOrder(q: Request, base: seq<PackUnit>, retrieval: seq<PackUnit>): seq<PackUnit> {
    RankedUnits(base, retrieval, q.rank)
  }

  function Greedy(q: Request, base: seq<PackUnit>, retrieval: seq<PackUnit>): Packing {
    var pinned := Filter(base, PinnedUnit);
    PlaceAll(Packing(pinned, Sum(pinned, UnitTokens), map[]), InRankOrder(q, base, retrieval), q.Available())
  }

  function DroppedBridge(kept: seq<PackUnit>): PackUnit -> bool {
    (u: PackUnit) => u.BridgeUnit? && u !in kept
  }

  function DroppedBridges(q: Request, retrieval: seq<PackUnit>, kept: seq<PackUnit>): seq<PackUnit> {
    q.rank(Filter(retrieval, DroppedBridge(kept)))
  }

  lemma DroppedBridgesFacts(q: Request, retrieval: seq<PackUnit>, kept: seq<PackUnit>)
    requires Permutes(q.rank)
    ensures multiset(DroppedBridges(q, retrieval, kept)) == multiset(Filter(retrieval, DroppedBridge(kept)))
    ensures forall u :: u in DroppedBridges(q, retrieval, kept) ==> u.BridgeUnit? && u in retrieval && u !in kept
  {
    forall u | u in DroppedBridges(q, retrieval, kept) ensures u in Filter(retrieval, DroppedBridge(kept)) {
      assert u in multiset(DroppedBridges(q, retrieval, kept));
    }
  }

  function Swapped(q: Request, base: seq<PackUnit>, retrieval: seq<PackUnit>): Load
    requires Permutes(q.rank)
  {
    var p := Greedy(q, base, retrieval);
    DroppedBridgesFacts(q, retrieval, p.kept);
    SwapAll(Load(p.kept, p.used), DroppedBridges(q, retrieval, p.kept), q.Available(), q.tokens)
  }

  function MessageWeight(u: PackUnit): nat {
    match u
    case BaseUnit(_, item, _) => if item.kind.Message? then 1 else 0
    case BridgeUnit(_, _) => 0
    case RawUnit(_, bundle) => |bundle.events|
  }

  function SummaryWeight(u: PackUnit): nat {
    match u
    case BaseUnit(_, item, _) => if item.kind.Summary? then 1 else 0
    case BridgeUnit(_, _) => 1
    case RawUnit(_, _) => 0
  }

  function RawEvents(units: seq<PackUnit>): seq<Event> {
    if units == [] then []
    else (if units[0].RawUnit? then units[0].bundle.events else []) + RawEvents(units[1..])
  }

  function BridgeSummaries(units: seq<PackUnit>): seq<string> {
    if units == [] then []
    else (if units[0].BridgeUnit? then [units[0].bridge.candidate.id] else []) + BridgeSummaries(units[1..])
  }

  function AmongIds(ids: set<string>): string -> bool {
    (id: string) => id in ids
  }

  function IdsOf(ids: seq<string>): set<string> { set id | id in ids }

  // The selections of all hints, narrowed to what was kept in the end.
  function AddedMessages(pool: Pool, kept: seq<PackUnit>): nat {
    |Filter(Ids(AllEvents(pool.contenders)), AmongIds(IdSet(RawEvents(kept))))|
  }

  function AddedSummaries(pool: Pool, kept: seq<PackUnit>): nat {
    |Filter(BridgeIds(pool.contenders), AmongIds(IdsOf(BridgeSummaries(kept))))|
  }

  // ---- the operation ------------------------------------------------------------------------

  ghost predicate WellFormedRequest(q: Request, ledger: set<Event>): (r: bool)
    ensures r ==> Permutes(q.rank)
  {
    && DistinctPositions(q.items) && Permutes(q.rank)
    && WellFormedHints(q.hints, ledger)
  }

  function LimitsOfHints(hints: seq<Hint>): nat -> nat {
    (i: nat) => if i < |hints| then hints[i].limit else 0
  }

  // The ids of the selected base items of one kind.
  function RefIds(items: seq<ContextItem>, kind: ItemKind): set<string> {
    set x | x in items && x.kind == kind :: x.refId
  }

  // The reserve and what may be borrowed from the selected base items.
  function SelectionBudget(q: Request, trim: TrimResult): int
    requires trim.Trimmed?
  {
    q.Reserve() + BorrowedSlack(SlackOrder(trim.selected, q.rules), 0, 0)
  }

  // How the parts of one materialization hang together.
  datatype Parts = Parts(trim: TrimResult, world: World, pool: Pool, coalesced: seq<Contender>)

  ghost predicate PartsOf(q: Request, ledger: set<Event>, p: Parts): (r: bool)
    ensures r ==> p.trim.Trimmed? && p.trim.budgetUsed <= q.BaseBudget() && p.trim.budgetUsed == Tokens(p.trim.selected)
  {
    && IsTrim(q.items, q.BaseBudget(), q.rules, p.trim) && p.trim.Trimmed? && p.trim.budgetUsed <= q.BaseBudget()
    && p.world.available == q.Available() && p.world.tokens == q.tokens
    && RoomFor(p.world.room, p.trim.selected, q.rules, q.Available(), SelectionBudget(q, p.trim))
    && p.pool == CollectFrom(Pool([], RefIds(p.trim.selected, Message), RefIds(p.trim.selected, Summary), 0), q.hints,
                             0, p.world)
    && IsCoalesced(p.pool.contenders, p.coalesced)
  }

  // The context a materialization returns, given its parts.
  ghost predicate Materializes(q: Request, p: Parts, c: Context)
    requires p.trim.Trimmed? && Permutes(q.rank)
  {
    var base, retrieval := BaseUnits(p.trim.selected, q.rules, 0), RetrievalUnits(p.coalesced, |p.trim.selected|);
    var load, ranked := Swapped(q, base, retrieval), InRankOrder(q, base, retrieval);
    var dropped := Filter(ranked, NotKeptIn(load.kept));
    && c.kept == SortBy(load.kept, UnitOrderLeq)
    && c.budgetUsed == load.used
    && (c.trimmedToFit <==> p.trim.trimmedToFit || |load.kept| < |ranked| + |Filter(base, PinnedUnit)|)
    && c.droppedMessages == p.trim.droppedMessageCount + Sum(dropped, MessageWeight)
    && c.droppedSummaries == p.trim.droppedSummaryCount + Sum(dropped, SummaryWeight)
    && c.addedMessages == AddedMessages(p.pool, load.kept)
    && c.addedSummaries == AddedSummaries(p.pool, load.kept)
  }

  // ---- what the parts guarantee ----------------------------------------------------------------

  function SettingOf(q: Request, ghost ledger: set<Event>, p: Parts): Setting
    requires p.trim.Trimmed?
  {
    Setting(RefIds(p.trim.selected, Message), RefIds(p.trim.selected, Summary), ledger, LimitsOfHints(q.hints))
  }

  lemma PartsGathered(q: Request, ledger: set<Event>, p: Parts)
    requires WellFormedRequest(q, ledger)
    requires p.trim.Trimmed? && p.world.available == q.Available()
    requires RoomFor(p.world.room, p.trim.selected, q.rules, q.Available(), SelectionBudget(q, p.trim))
    requires p.pool == CollectFrom(Pool([], RefIds(p.trim.selected, Message), RefIds(p.trim.selected, Summary), 0),
                                   q.hints, 0, p.world)
    ensures PoolGathered(p.pool, SettingOf(q, ledger, p), p.world)
  {
    hide OneLedger, WellFormedScope, WellFormedHint, RoomFor, PoolGathered, CollectFrom, DistinctIds, Numbered, IsTrim;
    var at := SettingOf(q, ledger, p);
    CollectionStarts(at.messages, at.summaries, at, p.world);
    CollectedGathered(Pool([], at.messages, at.summaries, 0), q.hints, 0, at, p.world, p.trim.selected, q.rules,
                      SelectionBudget(q, p.trim));
  }

  lemma GatheredWellFormed(pool: Pool, at: Setting, world: World)
    requires PoolGathered(pool, at, world) && OneLedger(at.ledger)
    ensures WellFormedContenders(pool.contenders, at.limits)
  {
    hide FreshSummaries, Distinct;
    var events := set c, e | c in pool.contenders && c.Raw? && e in c.bundle.events :: e;
    forall e | e in events ensures e in at.ledger {
      AllEventsMember(pool.contenders, e);
    }
    forall c | c in pool.contenders && c.Raw?
      ensures c.bundle.windowStart <= c.bundle.windowEnd && c.bundle.limit == at.limits(c.bundle.hintIndex)
    {
      assert GoodContender(c, at.limits, world);
    }
  }

  lemma BridgesNumbered(pool: Pool, at: Setting, world: World, coalesced: seq<Contender>)
    requires PoolGathered(pool, at, world) && IsCoalesced(pool.contenders, coalesced)
    ensures forall x :: x in coalesced && x.Bridge? ==> Numbered(x.bridge.candidate)
  {
    hide FreshSummaries, FreshEvents, IsCoalesced, Numbered;
    forall x | x in coalesced && x.Bridge? ensures Numbered(x.bridge.candidate) {
      CoalescedBridge(pool.contenders, coalesced, x);
      assert GoodContender(x, at.limits, world);
    }
  }

  lemma {:induction false} PinnedUnitsCost(selected: seq<ContextItem>, rules: seq<PinRule>, first: nat)
    ensures Sum(Filter(BaseUnits(selected, rules, first), PinnedUnit), UnitTokens) == PinnedTokens(selected, rules)
  {
    if selected != [] {
      PinnedUnitsCost(selected[1..], rules, first + 1);
      assert BaseUnits(selected, rules, first)[1..] == BaseUnits(selected[1..], rules, first + 1);
    }
  }

  // Once trimming succeeded, the pinned units fit, so the second budget check never fails.
  lemma PinnedUnitsFit(q: Request, trim: TrimResult)
    requires q.Available() >= 0 && trim.Trimmed? && trim.budgetUsed == Tokens(trim.selected) <= q.BaseBudget()
    ensures Sum(Filter(BaseUnits(trim.selected, q.rules, 0), PinnedUnit), UnitTokens) <= q.Available()
  {
    PinnedUnitsCost(trim.selected, q.rules, 0);
    PinnedSplit(trim.selected, q.rules);
  }

  method CountDropped(ranked: seq<PackUnit>, kept: seq<PackUnit>) returns (messages: nat, summaries: nat)
    ensures messages == Sum(Filter(ranked, NotKeptIn(kept)), MessageWeight)
    ensures summaries == Sum(Filter(ranked, NotKeptIn(kept)), SummaryWeight)
  {
    messages, summaries := 0, 0;
    ghost var out := NotKeptIn(kept);
    for i := 0 to |ranked|
      invariant messages == Sum(Filter(ranked[..i], out), MessageWeight)
      invariant summaries == Sum(Filter(ranked[..i], out), SummaryWeight)
    {
      var u := ranked[i];
      FilterPrefixStep(ranked, i, out);
      SumAppend(Filter(ranked[..i], out), u, MessageWeight);
      SumAppend(Filter(ranked[..i], out), u, SummaryWeight);
      if KeepsOrder(kept, u.order) {
        continue;
      }
      match u
      case BaseUnit(_, item, _) =>
        if item.kind.Message? {
          messages := messages + 1;
        } else {
          summaries := summaries + 1;
        }
      case BridgeUnit(_, _) => summaries := summaries + 1;
      case RawUnit(_, bundle) => messages := messages + |bundle.events|;
    }
    assert ranked[..|ranked|] == ranked;
  }

  method PackAndSwap(q: Request, trim: TrimResult, base: seq<PackUnit>, retrieval: seq<PackUnit>) returns (load: Load)
    requires Permutes(q.rank) && trim.Trimmed? && base == BaseUnits(trim.selected, q.rules, 0)
    requires q.Available() >= 0 && trim.budgetUsed == Tokens(trim.selected) <= q.BaseBudget()
    requires forall u :: u in retrieval && u.BridgeUnit? ==> Numbered(u.bridge.candidate)
    ensures load == Swapped(q, base, retrieval)
  {
    hide PlaceAll, SwapAll, Numbered;
    PinnedUnitsFit(q, trim);
    var packed := PackGreedily(Filter(base, PinnedUnit), InRankOrder(q, base, retrieval), q.Available());
    var kept, used := packed.packing.kept, packed.packing.used;
    DroppedBridgesFacts(q, retrieval, kept);
    load := SwapInBridges(Load(kept, used), DroppedBridges(q, retrieval, kept), q.Available(), q.tokens);
  }

  // Bridges and raw bundles of all hints, coalesced.
  method Retrieve(q: Request, trim: TrimResult, ghost ledger: set<Event>)
    returns (pool: Pool, coalesced: seq<Contender>, ghost p: Parts)
    requires WellFormedRequest(q, ledger) && q.Available() >= 0
    requires IsTrim(q.items, q.BaseBudget(), q.rules, trim) && trim.Trimmed? && trim.budgetUsed <= q.BaseBudget()
    ensures p == Parts(trim, p.world, pool, coalesced) && PartsOf(q, ledger, p)
    ensures forall x :: x in coalesced && x.Bridge? ==> Numbered(x.bridge.candidate)
  {
    hide WellFormedScope, WellFormedHint, OneLedger, Numbered, DistinctIds, IsFitBudgets, IsTrim, PoolGathered,
         IsCoalesced, WellFormedContenders, CollectFrom, BorrowedSlack, DistinctPositions, Permutes, RefIds,
         PinnedTokens;
    var available := q.Available();
    var selectionBudget := GetBridgeSelectionBudget(q.Reserve(), trim.selected, q.rules);
    var budgets := GetBridgeFitBudgets(trim.selected, q.rules, available);
    ghost var room := Room(available, PinnedTokens(trim.selected, q.rules), budgets, selectionBudget);
    assert RoomFor(room, trim.selected, q.rules, available, selectionBudget);
    ghost var world := World(available, room, q.tokens);
    pool := CollectAll(q.hints, RefIds(trim.selected, Message), RefIds(trim.selected, Summary), trim.selected, q.rules,
                       available, selectionBudget, q.tokens, world, ledger);
    p := Parts(trim, world, pool, []);
    PartsGathered(q, ledger, p);
    GatheredWellFormed(pool, SettingOf(q, ledger, p), world);
    coalesced := CoalesceRawRetrievalContenders(pool.contenders, LimitsOfHints(q.hints));
    BridgesNumbered(pool, SettingOf(q, ledger, p), world, coalesced);
    p := Parts(trim, world, pool, coalesced);
  }

  method Materialize(q: Request, ghost ledger: set<Event>) returns (r: Outcome, ghost p: Option<Parts>)
    requires WellFormedRequest(q, ledger)
    ensures r.BudgetExceeded? <==> q.Available() < 0 || PinnedTokens(q.items, q.rules) > q.BaseBudget()
    ensures r.InContext? ==> p.Some? && PartsOf(q, ledger, p.value) && Materializes(q, p.value, r.context)
  {
    hide PartsOf, Swapped, NotKeptIn, InRankOrder, Numbered, PinnedTokens, WellFormedScope, WellFormedHint, OneLedger;
    p := None;
    var available := q.Available();
    if available < 0 {
      return BudgetExceeded(available, q.overheadTokens), None;
    }
    var trim := TrimResolvedItemsToBudget(q.items, q.BaseBudget(), q.rules);
    if trim.PinnedOverBudget? {
      return BudgetExceeded(trim.availableBudget, trim.requiredBudget), None;
    }
    var pool, coalesced;
    ghost var parts;
    pool, coalesced, parts := Retrieve(q, trim, ledger);
    p := Some(parts);
    var base, retrieval := BaseUnits(trim.selected, q.rules, 0), RetrievalUnits(coalesced, |trim.selected|);
    var load := PackAndSwap(q, trim, base, retrieval);
    var ranked := InRankOrder(q, base, retrieval);
    var droppedMessages, droppedSummaries := CountDropped(ranked, load.kept);
    r := InContext(Context(SortBy(load.kept, UnitOrderLeq), load.used,
                           trim.trimmedToFit || |load.kept| < |ranked| + |Filter(base, PinnedUnit)|,
                           trim.droppedMessageCount + droppedMessages, trim.droppedSummaryCount + droppedSummaries,
                           AddedMessages(pool, load.kept), AddedSummaries(pool, load.kept)));
  }
}
