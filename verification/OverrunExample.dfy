// A request whose materialized context costs more than the budget it was given.
module OverrunExample {
  import opened Sequences
  import opened Text
  import opened ContextItems
  import opened BaseTrim
  import opened BridgeBudgets
  import opened BridgeCompression
  import opened BridgeSelection
  import opened WindowCoalescing
  import opened RetrievalCoalescing
  import opened RetrievalCollection
  import opened CollectionLaws
  import opened ContextPacking
  import opened RetrievalOrder
  import opened BridgeSwaps
  import opened PackedUnits
  import opened MaterializedContext

  // ---- the conversation -----------------------------------------------------------------------

  function Id(n: nat): string { seq(n, i => 'e') }

  // Seven turns, the sixth of twenty tokens, the others of ten.
  function Turn(n: nat): Event { Event(Id(n), n, if n == 6 then 20 else 10) }

  function Turns(): map<int, Event> { map n | 1 <= n <= 7 :: Turn(n) }

  ghost function TheLedger(): set<Event> { set n | 1 <= n <= 7 :: Turn(n) }

  // One token for each character.
  function Characters(text: string): nat { |text| }

  const LINE := "[Summary] ab"
  const REST := "cdefghijklmnopqrs"

  // A summary of thirty tokens whose synopsis line takes twelve.
  const LEAF := Candidate("leaf", 145, 0, 30, LINE + "\n" + REST, [], NO_EVIDENCE, false)

  const STRONG_HIT := Hit(Turn(6), 552, 2, 3)
  const WEAK_HIT := Hit(Turn(1), 371, 1, 2)

  function NoScope(id: string): SummaryScope { SummaryScope(map[], [], 0, 0, 0) }

  function NoAnchors(events: seq<Event>): nat { 0 }

  // One hint with the usual limit: two messages and the summary are found, best first.
  function TheHint(): Hint {
    Hint(3, Turns(), [LEAF], [MessageHit(STRONG_HIT), MessageHit(WEAK_HIT), SummaryHit("leaf", 145, 3, 3)], NoScope,
         NoAnchors)
  }

  function Ranked(units: seq<PackUnit>): seq<PackUnit> { SortBy(units, RetrievalLeq) }

  // Sixty tokens are available; the context holds one summary, too large for the base budget.
  function TheRequest(): Request {
    Request(60, 1000, 0, [ITEM], [], [TheHint()], Characters, Ranked)
  }

  lemma RequestIsWellFormed()
    ensures WellFormedRequest(TheRequest(), TheLedger())
  {
    forall e, f | e in TheLedger() && f in TheLedger() && (e.id == f.id || e.sequence == f.sequence) ensures e == f {
      assert |e.id| == e.sequence && |f.id| == f.sequence;
    }
    assert Turn(6) in TheLedger() && Turn(1) in TheLedger();
  }

  // ---- trimming -------------------------------------------------------------------------------

  const TRIM := Trimmed([], 0, true, 0, 1)
  const ITEM := ContextItem(Summary, "top", 0, 0, 50)

  lemma ItemCounts()
    ensures PinnedTokens([ITEM], []) == 0 && CountKind([ITEM], Message) == 0 && CountKind([ITEM], Summary) == 1
  {
    assert [] + [ITEM] == [ITEM] && !IsPinned(ITEM, []);
    SumAppend([], ITEM, PinnedWeight([]));
    SumAppend([], ITEM, KindWeight(Message));
    SumAppend([], ITEM, KindWeight(Summary));
  }

  lemma Budgets()
    ensures TheRequest().Available() == 60 && TheRequest().BaseBudget() == 48
      && SelectionBudget(TheRequest(), TRIM) == 12
  {
    assert SlackOrder([], []) == [];
    assert |TheRequest().hints| == 1;
  }

  lemma TrimmedAway()
    ensures IsTrim([ITEM], 48, [], TRIM)
  {
    ItemCounts();
    assert !Belongs([], 0, 48, [], ITEM);
    assert ITEM in [ITEM] && forall x :: x in [ITEM] ==> x == ITEM;
    hide PinnedTokens, Tokens, Belongs;
    assert Tokens([]) == 0 by {
      NoTokens();
    }
  }

  lemma NoTokens()
    ensures Tokens([]) == 0
  {
  }

  function TheRoom(): Room { Room(60, 0, [60], 12) }

  lemma RoomOfRequest()
    ensures RoomFor(TheRoom(), [], [], 60, 12)
  {
    NothingSelected(60);
  }

  // ---- collecting --------------------------------------------------------------------------------

  const BODY := Compressed(LINE, 12, NO_EVIDENCE)

  lemma LineIsSynopsis()
    ensures |LINE| == 12 && Trim(LINE) == LINE && IsSynopsis(LINE)
  {
    assert LINE[0] == '[' && LINE[11] == 'b';
    TrimTrimmed(LINE);
    IncludedBegins(LINE, "ID:");
    assert "summary_call:"[0] == 's' && |SUMMARY_PREFIX| == 9 && |AGGRESSIVE_PREFIX| == 20;
  }

  lemma LineWithoutPrefix()
    ensures WithoutPrefix(LINE) == "ab" && SUMMARY_PREFIX + " " + "ab" == LINE
  {
    assert LINE[..9] == SUMMARY_PREFIX && LINE[9..] == " ab" && " ab"[1..] == "ab";
  }

  lemma FirstLine(a: string, b: string)
    requires '\n' !in a
    ensures SplitLines(a + "\n" + b) != [] && SplitLines(a + "\n" + b)[0] == a
  {
    SplitAfter(a, b);
  }

  lemma ContentOfLeaf()
    ensures '\n' !in LINE && |LEAF.content| == 30 && !(AGGRESSIVE_PREFIX <= LEAF.content)
  {
    assert |LINE| == 12 && |REST| == 17 && LEAF.content[1] == 'S' && AGGRESSIVE_PREFIX[1] == 'A';
  }

  lemma LineOfLeaf()
    ensures BaseLine(LEAF) == LINE && |LINE| == 12 && |LEAF.content| == 30
  {
    ContentOfLeaf();
    FirstLine(LINE, REST);
    LineIsSynopsis();
    LineWithoutPrefix();
    hide SplitLines, IsSynopsis, Trim, WithoutPrefix;
  }

  lemma LeafCompresses(limit: int)
    requires limit >= 12
    ensures Compress(LEAF, limit, Characters, false)
      == Some(if limit < 30 then BODY else Compressed(LEAF.content, 30, NO_EVIDENCE))
  {
    LineOfLeaf();
  }

  lemma LeafIsChosen()
    ensures Choose([LEAF], TheRoom(), {}, Characters) == Some(Materialized(LEAF, BODY))
  {
    hide Compress;
    SortKeepsElements([60], IntGeq);
    LeafCompresses(12);
    assert FirstCompression(LEAF, CompressionLimits([60], 12), Characters) == Some(BODY);
    assert BridgeSelection.Materialize(LEAF, [60], 12, Characters) == Some(BODY);
    hide BridgeSelection.Materialize;
    assert [LEAF][1..] == [];
    assert Filter([LEAF], ViableFor(TheRoom(), {})) == [LEAF];
    FilterNone([LEAF], SoftFitting(LEAF, 12));
    assert Primary([LEAF], 12) == LEAF;
    FilterNone([LEAF], Rivals([LEAF], LEAF, TheRoom(), Characters));
  }

  const STRONG_EVENTS := [Turn(5), Turn(6), Turn(7)]
  const WEAK_EVENTS := [Turn(1), Turn(2)]
  const STRONG := RawBundle(0, 3, 0, 552, 2, 3, 0, Generic, Id(6), 5, 7, STRONG_EVENTS, 40)
  const WEAK := RawBundle(0, 3, 1, 371, 1, 2, 0, Generic, Id(1), 0, 2, WEAK_EVENTS, 20)
  const BRIDGE := BridgeContender(0, 3, 2, 145, 3, 3, 0, 0, 12, LEAF)

  lemma TokensOfBundles()
    ensures BundleTokens(STRONG_EVENTS) == 40 && BundleTokens(WEAK_EVENTS) == 20
  {
    assert STRONG_EVENTS[1..] == [Turn(6), Turn(7)] && STRONG_EVENTS[1..][1..] == [Turn(7)]
      && STRONG_EVENTS[1..][1..][1..] == [];
    assert WEAK_EVENTS[1..] == [Turn(2)] && WEAK_EVENTS[1..][1..] == [];
  }

  lemma AllUnused(events: seq<Event>, usedIds: set<string>)
    requires forall e :: e in events ==> e.id !in usedIds
    ensures Filter(events, Unused(usedIds)) == events
  {
    FilterAll(events, Unused(usedIds));
  }

  lemma StrongWindow()
    ensures Window(Turn(6), Turns(), {}) == STRONG_EVENTS
  {
    AllUnused(STRONG_EVENTS, {});
    assert At(Turns(), 5) + [Turn(6)] + At(Turns(), 7) == STRONG_EVENTS;
  }

  lemma WeakWindow()
    ensures Window(Turn(1), Turns(), IdSet(STRONG_EVENTS)) == WEAK_EVENTS && Id(1) !in IdSet(STRONG_EVENTS)
  {
    forall e | e in STRONG_EVENTS ensures |e.id| >= 5 {
    }
    assert |Id(1)| == 1 && |Id(2)| == 2;
    AllUnused(WEAK_EVENTS, IdSet(STRONG_EVENTS));
    assert At(Turns(), 0) == [] && At(Turns(), 2) == [Turn(2)];
    assert At(Turns(), 0) + [Turn(1)] + At(Turns(), 2) == WEAK_EVENTS;
  }

  function TheWorld(): World { World(60, TheRoom(), Characters) }

  function Collected(): Pool {
    Pool([Bridge(BRIDGE), Raw(STRONG), Raw(WEAK)], IdSet(STRONG_EVENTS) + IdSet(WEAK_EVENTS), {"leaf"}, 3)
  }

  lemma MessagesConsidered(choice: Option<Materialized>)
    ensures var p1 := ConsiderMessage(HintPool([], None, {}, {}, 0), 0, TheHint(), STRONG_HIT, 60);
      && p1 == HintPool([STRONG], None, IdSet(STRONG_EVENTS), {}, 1)
      && ConsiderMessage(p1, 0, TheHint(), WEAK_HIT, 60)
           == HintPool([STRONG, WEAK], None, IdSet(STRONG_EVENTS) + IdSet(WEAK_EVENTS), {}, 2)
  {
    hide Window, BundleTokens, IdSet;
    StrongWindow();
    WeakWindow();
    TokensOfBundles();
    NoneUsed();
    assert {} + IdSet(STRONG_EVENTS) == IdSet(STRONG_EVENTS);
    assert [] + [STRONG] == [STRONG] && [STRONG] + [WEAK] == [STRONG, WEAK];
  }

  lemma NoneUsed()
    ensures ScopedSeed(TheHint(), Turn(6)) == Turn(6) && ScopedSeed(TheHint(), Turn(1)) == Turn(1)
  {
  }

  lemma ThreeConsidered(p0: HintPool, p1: HintPool, p2: HintPool, p3: HintPool, choice: Option<Materialized>)
    requires var h := TheHint(); var hits := h.ranked;
      && Consider(p0, 0, h, hits[0], choice, 60) == p1 && Consider(p1, 0, h, hits[1], choice, 60) == p2
      && Consider(p2, 0, h, hits[2], choice, 60) == p3
    ensures ConsiderAll(p0, 0, TheHint(), TheHint().ranked, choice, 60) == p3
  {
    hide Consider;
    var h, hits := TheHint(), TheHint().ranked;
    var rest := hits[1..];
    assert rest[0] == hits[1] && rest[1..] == [hits[2]] && [hits[2]][1..] == [];
    assert ConsiderAll(p2, 0, h, [hits[2]], choice, 60) == p3;
    assert ConsiderAll(p1, 0, h, rest, choice, 60) == p3;
  }

  lemma BridgeConsidered()
    ensures var p2 := HintPool([STRONG, WEAK], None, IdSet(STRONG_EVENTS) + IdSet(WEAK_EVENTS), {}, 2);
      ConsiderSummary(p2, 0, TheHint(), TheHint().ranked[2], Some(Materialized(LEAF, BODY)))
        == p2.(bridge := Some(BRIDGE), usedSummaries := {"leaf"}, nextOrder := 3)
  {
    hide IdSet;
    assert {} + {"leaf"} == {"leaf"};
  }

  lemma HintCollected()
    ensures CollectFrom(Pool([], {}, {}, 0), TheRequest().hints, 0, TheWorld()) == Collected()
  {
    hide Choose, ConsiderMessage, ConsiderSummary, ConsiderAll, BundleTokens, IdSet;
    var choice := Some(Materialized(LEAF, BODY));
    LeafIsChosen();
    MessagesConsidered(choice);
    BridgeConsidered();
    var hint, start := TheHint(), HintPool([], None, {}, {}, 0);
    assert ConsiderScope(start, 0, hint, choice, TheWorld()) == start;
    var p1 := HintPool([STRONG], None, IdSet(STRONG_EVENTS), {}, 1);
    var p2 := HintPool([STRONG, WEAK], None, IdSet(STRONG_EVENTS) + IdSet(WEAK_EVENTS), {}, 2);
    var done := p2.(bridge := Some(BRIDGE), usedSummaries := {"leaf"}, nextOrder := 3);
    ThreeConsidered(start, p1, p2, done, choice);
    assert Contenders(done) == Collected().contenders by {
      assert [STRONG, WEAK][1..] == [WEAK] && [WEAK][1..] == [];
    }
    assert [] + Contenders(done) == Contenders(done);
    assert CollectHint(Pool([], {}, {}, 0), 0, hint, TheWorld()) == Collected();
  }

  // ---- coalescing ----------------------------------------------------------------------------------

  function Coalesced(): seq<Contender> { [Raw(STRONG), Raw(WEAK), Bridge(BRIDGE)] }

  // Windows that are apart and in order are their own coalescing.
  lemma ApartIsCoalesced(inputs: seq<RawBundle>, windows: seq<RawBundle>)
    requires Separated(windows) && forall r :: r in inputs <==> r in windows
    requires forall w :: w in windows ==> w.windowStart <= w.windowEnd && Distinct(w.events)
    ensures IsCoalescing(inputs, windows)
  {
    hide Distinct, Summarizes, Tight, InsideSome;
    forall w | w in windows ensures Summarizes(inputs, w) && Tight(inputs, w) && InsideSome(w, windows) {
      forall r | r in windows ensures Inside(r, w) <==> r == w {
        ApartInside(windows, r, w);
      }
      OwnWindow(inputs, windows, w);
    }
  }

  lemma ApartInside(windows: seq<RawBundle>, r: RawBundle, w: RawBundle)
    requires Separated(windows) && r in windows && w in windows
    requires forall w :: w in windows ==> w.windowStart <= w.windowEnd
    ensures Inside(r, w) <==> r == w
  {
    var i :| 0 <= i < |windows| && windows[i] == r;
    var j :| 0 <= j < |windows| && windows[j] == w;
    assert i < j ==> windows[i].windowEnd + 1 < windows[j].windowStart;
    assert j < i ==> windows[j].windowEnd + 1 < windows[i].windowStart;
  }

  lemma OwnWindow(inputs: seq<RawBundle>, windows: seq<RawBundle>, w: RawBundle)
    requires w in windows && Distinct(w.events) && (forall r :: r in inputs <==> r in windows)
    requires forall r :: r in windows ==> (Inside(r, w) <==> r == w)
    ensures Summarizes(inputs, w) && Tight(inputs, w) && InsideSome(w, windows)
  {
    hide Distinct;
    assert w in inputs && Inside(w, w);
  }

  lemma EventsInOrder()
    ensures Sorted(STRONG_EVENTS, SequenceLeq) && Sorted(WEAK_EVENTS, SequenceLeq)
    ensures Distinct(STRONG_EVENTS) && Distinct(WEAK_EVENTS)
  {
    PairwiseDistinct(STRONG_EVENTS);
    PairwiseDistinct(WEAK_EVENTS);
  }

  lemma RawsOfThree(hint: nat)
    ensures RawsOf(Collected().contenders, hint) == RawsOf(Coalesced(), hint)
    ensures RawsOf(Coalesced(), hint) == if hint == 0 then [STRONG, WEAK] else []
  {
    var raws, bridges := [STRONG, WEAK], [Bridge(BRIDGE)];
    assert Wrap(raws) == [Raw(STRONG), Raw(WEAK)];
    assert Collected().contenders == bridges + Wrap(raws) && Coalesced() == Wrap(raws) + bridges;
    hide RawsOf, Wrap;
    RawsOfConcat(bridges, Wrap(raws), hint);
    RawsOfConcat(Wrap(raws), bridges, hint);
    RawsOfWrapped(raws, 0, hint);
    OnlyBridges(bridges, hint);
  }

  lemma TwoApart(a: RawBundle, b: RawBundle)
    requires a.windowStart <= a.windowEnd && a.windowEnd + 1 < b.windowStart <= b.windowEnd
    requires Distinct(a.events) && Sorted(a.events, SequenceLeq) && a.tokenCount == BundleTokens(a.events)
    requires Distinct(b.events) && Sorted(b.events, SequenceLeq) && b.tokenCount == BundleTokens(b.events)
    ensures HintCoalesced([b, a], [b, a])
  {
    hide Distinct, BundleTokens, Sorted, IsCoalescing;
    var windows := [a, b];
    ApartIsCoalesced([b, a], windows);
    assert multiset(windows) == multiset([b, a]);
    assert Finished(windows);
  }

  lemma WindowsCoalesced()
    ensures HintCoalesced([STRONG, WEAK], [STRONG, WEAK])
  {
    EventsInOrder();
    TokensOfBundles();
    hide Distinct, BundleTokens, Sorted, HintCoalesced;
    TwoApart(WEAK, STRONG);
  }

  lemma BridgesCoalesced()
    ensures multiset(Filter(Coalesced(), IsBridge)) == multiset(Filter(Collected().contenders, IsBridge))
  {
    hide Sequences.Filter;
    var bridge, raws := [Bridge(BRIDGE)], [Raw(STRONG), Raw(WEAK)];
    assert Coalesced() == raws + bridge && Collected().contenders == bridge + raws;
    FilterNone(raws, IsBridge);
    FilterConcat(raws, bridge, IsBridge);
    FilterConcat(bridge, raws, IsBridge);
  }

  lemma ContendersCoalesced()
    ensures IsCoalesced(Collected().contenders, Coalesced())
  {
    hide HintCoalesced, RawsOf, Sequences.Filter;
    forall hint: nat ensures HintCoalesced(RawsOf(Collected().contenders, hint), RawsOf(Coalesced(), hint)) {
      RawsOfThree(hint);
      WindowsCoalesced();
      NothingForHint();
    }
    BridgesCoalesced();
  }

  function TheParts(): Parts { Parts(TRIM, TheWorld(), Collected(), Coalesced()) }

  lemma PartsOfRequest()
    ensures PartsOf(TheRequest(), TheLedger(), TheParts())
  {
    hide IsTrim, CollectFrom, IsCoalesced, RoomFor, IsFitBudgets;
    Budgets();
    TrimmedAway();
    RoomOfRequest();
    HintCollected();
    ContendersCoalesced();
    NoTokens();
    assert RefIds([], Message) == {} && RefIds([], Summary) == {};
  }

  // ---- packing and swapping ----------------------------------------------------------------------------

  const STRONG_UNIT := RawUnit(0, STRONG)
  const WEAK_UNIT := RawUnit(1, WEAK)
  const BRIDGE_UNIT := BridgeUnit(2, BRIDGE)

  function TheUnits(): seq<PackUnit> { [STRONG_UNIT, WEAK_UNIT, BRIDGE_UNIT] }

  lemma UnitsOfParts()
    ensures RetrievalUnits(Coalesced(), 0) == TheUnits() && BaseUnits([], [], 0) == []
  {
  }

  lemma SortTwo<T>(b: T, c: T, leq: (T, T) -> bool)
    requires leq(b, c)
    ensures SortBy([c], leq) == [c] && SortBy([b, c], leq) == [b, c]
  {
    assert [b, c][1..] == [c] && [c][1..] == [];
    assert SortBy([c], leq) == [c];
  }

  lemma SortThree<T>(a: T, b: T, c: T, leq: (T, T) -> bool)
    requires leq(b, c) && !leq(a, b) && leq(a, c)
    ensures SortBy([a, b, c], leq) == [b, a, c]
  {
    SortTwo(b, c, leq);
    assert [a, b, c][1..] == [b, c] && [b, c][1..] == [c];
    assert Insert(a, [c], leq) == [a] + [c];
    assert [b] + ([a] + [c]) == [b, a, c];
  }

  lemma UnitsRanked()
    ensures Ranked(TheUnits()) == [WEAK_UNIT, STRONG_UNIT, BRIDGE_UNIT]
    ensures Ranked([BRIDGE_UNIT]) == [BRIDGE_UNIT]
  {
    assert RetrievalLeq(WEAK_UNIT, BRIDGE_UNIT) && !RetrievalLeq(STRONG_UNIT, WEAK_UNIT)
      && RetrievalLeq(STRONG_UNIT, BRIDGE_UNIT);
    hide RetrievalLeq;
    SortTwo(WEAK_UNIT, BRIDGE_UNIT, RetrievalLeq);
    SortThree(STRONG_UNIT, WEAK_UNIT, BRIDGE_UNIT, RetrievalLeq);
  }

  lemma PlaceThree(p: Packing, a: PackUnit, b: PackUnit, c: PackUnit, available: int)
    ensures PlaceAll(p, [a, b, c], available) == Place(Place(Place(p, a, available), b, available), c, available)
  {
    hide Place;
    var q := Place(Place(p, a, available), b, available);
    assert [a, b, c][1..] == [b, c] && [b, c][1..] == [c] && [c][1..] == [];
    assert PlaceAll(q, [c], available) == Place(q, c, available);
  }

  lemma ThreePlaced()
    ensures var p := Place(Place(Place(Packing([], 0, map[]), WEAK_UNIT, 60), STRONG_UNIT, 60), BRIDGE_UNIT, 60);
      p.kept == [WEAK_UNIT, STRONG_UNIT] && p.used == 60
  {
    assert [] + [WEAK_UNIT] == [WEAK_UNIT] && [WEAK_UNIT] + [STRONG_UNIT] == [WEAK_UNIT, STRONG_UNIT];
  }

  lemma PackedGreedily()
    ensures var p := Greedy(TheRequest(), [], TheUnits()); p.kept == [WEAK_UNIT, STRONG_UNIT] && p.used == 60
  {
    hide Place, PlaceAll, InRankOrder, Ranked, TheUnits;
    UnitsRanked();
    NothingBase();
    PlaceThree(Packing([], 0, map[]), WEAK_UNIT, STRONG_UNIT, BRIDGE_UNIT, 60);
    ThreePlaced();
    assert InRankOrder(TheRequest(), [], TheUnits()) == [WEAK_UNIT, STRONG_UNIT, BRIDGE_UNIT];
    assert Greedy(TheRequest(), [], TheUnits())
      == PlaceAll(Packing([], 0, map[]), [WEAK_UNIT, STRONG_UNIT, BRIDGE_UNIT], 60);
  }

  lemma NothingBase()
    ensures Filter([], PinnedUnit) == [] && Sum([], UnitTokens) == 0
    ensures InRankOrder(TheRequest(), [], TheUnits()) == Ranked(TheUnits())
  {
    assert SortBy(Filter([], UnpinnedMessage), OrderGeq) == [] && SortBy(Filter([], UnpinnedSummary), OrderGeq) == [];
  }

  lemma BridgeDropped()
    ensures DroppedBridges(TheRequest(), TheUnits(), [WEAK_UNIT, STRONG_UNIT]) == [BRIDGE_UNIT]
  {
    var keep := DroppedBridge([WEAK_UNIT, STRONG_UNIT]);
    assert TheUnits() == [STRONG_UNIT, WEAK_UNIT] + [BRIDGE_UNIT];
    FilterNone([STRONG_UNIT, WEAK_UNIT], keep);
    FilterAll([BRIDGE_UNIT], keep);
    FilterConcat([STRONG_UNIT, WEAK_UNIT], [BRIDGE_UNIT], keep);
    UnitsRanked();
  }

  lemma WeakFirst()
    ensures WeakestFirst([WEAK_UNIT, STRONG_UNIT], 0) == [WEAK_UNIT, STRONG_UNIT]
  {
    var kept := [WEAK_UNIT, STRONG_UNIT];
    FilterAll(kept, RawOfHint(0));
    assert kept[1..] == [STRONG_UNIT] && [STRONG_UNIT][1..] == [];
    assert SortBy([STRONG_UNIT], WeakerLeq) == [STRONG_UNIT];
  }

  lemma BothAccepted()
    ensures Accepted([WEAK_UNIT, STRONG_UNIT], BRIDGE, 60, 60, Characters) == [WEAK_UNIT, STRONG_UNIT]
    ensures CompressedSize([WEAK_UNIT, STRONG_UNIT], BRIDGE, 60, 60, Characters) == 30
  {
    hide Compress;
    LeafCompresses(20);
    LeafCompresses(40);
    assert [WEAK_UNIT, STRONG_UNIT][1..] == [STRONG_UNIT] && [STRONG_UNIT][1..] == [];
    assert Accepts(BRIDGE, WEAK_UNIT, 60, 60, Characters) && Accepts(BRIDGE, STRONG_UNIT, 60, 60, Characters);
    assert Accepted([STRONG_UNIT], BRIDGE, 60, 60, Characters) == [STRONG_UNIT];
  }

  // The bridge is compressed for the room of the strong bundle and put in the place of the weak one.
  lemma SwappedIn()
    ensures Swapped(TheRequest(), [], TheUnits()).used == 70
  {
    RequestIsWellFormed();
    hide WellFormedRequest, Greedy, DroppedBridges, WeakestFirst, Accepted, CompressedSize;
    PackedGreedily();
    BridgeDropped();
    WeakFirst();
    BothAccepted();
    assert [BRIDGE_UNIT][1..] == [];
    var load := Load([WEAK_UNIT, STRONG_UNIT], 60);
    assert DirectVictim(load, BRIDGE, 60) == None;
    assert SwapBridge(load, 2, BRIDGE, 60, Characters).used == 70;
  }

  // Everything about the request is as the callers guarantee, and the context it gets costs ten tokens
  // more than are available.
  lemma OverrunReachable() returns (q: Request, ledger: set<Event>, p: Parts, c: Context)
    ensures WellFormedRequest(q, ledger) && PartsOf(q, ledger, p) && Materializes(q, p, c)
    ensures q.rank == Ranked && q.Available() == 60 && c.budgetUsed == 70
    ensures forall x :: x in p.pool.contenders ==> GoodContender(x, LimitsOfHints(q.hints), p.world)
    ensures forall x :: x in p.pool.contenders && x.Raw? ==> Scored(x.bundle)
    ensures forall hint, s :: hint in q.hints && s in hint.summaries ==> s.tokenCount == q.tokens(s.content)
  {
    RequestIsWellFormed();
    Budgets();
    PartsOfRequest();
    BundlesScored();
    LineOfLeaf();
    hide WellFormedRequest, PartsOf, Materializes, Scored, Permutes;
    q, ledger, p := TheRequest(), TheLedger(), TheParts();
    PoolIsGood(q, ledger, p);
    c := ContextOfParts();
  }

  lemma BundlesScored()
    ensures forall x :: x in Collected().contenders && x.Raw? ==> Scored(x.bundle)
  {
    TokensOfBundles();
    hide BundleTokens;
    assert Scored(STRONG) && Scored(WEAK);
  }

  lemma ContextOfParts() returns (c: Context)
    ensures Permutes(Ranked) && Materializes(TheRequest(), TheParts(), c) && c.budgetUsed == 70
  {
    RequestIsWellFormed();
    UnitsOfParts();
    SwappedIn();
    hide WellFormedRequest, Swapped, InRankOrder, NotKeptIn, Collected, SortBy;
    var q, pool := TheRequest(), Collected();
    var load, ranked := Swapped(q, [], TheUnits()), InRankOrder(q, [], TheUnits());
    var dropped := Filter(ranked, NotKeptIn(load.kept));
    c := Context(SortBy(load.kept, UnitOrderLeq), load.used, true, Sum(dropped, MessageWeight),
                 1 + Sum(dropped, SummaryWeight), AddedMessages(pool, load.kept), AddedSummaries(pool, load.kept));
  }

  lemma PoolIsGood(q: Request, ledger: set<Event>, p: Parts)
    requires WellFormedRequest(q, ledger) && PartsOf(q, ledger, p)
    ensures forall x :: x in p.pool.contenders ==> GoodContender(x, LimitsOfHints(q.hints), p.world)
  {
    hide IsCoalesced, IsTrim, CollectFrom, RoomFor, FreshEvents, FreshSummaries, GoodContender, WellFormedHints;
    PartsGathered(q, ledger, p);
  }
}
