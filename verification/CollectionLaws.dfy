// No message is collected twice, whatever the hints ask for.
module CollectionLaws {
  import opened Sequences
  import opened ContextItems
  import opened BridgeBudgets
  import opened BridgeCompression
  import opened BridgeSelection
  import opened WindowCoalescing
  import opened RetrievalCoalescing
  import opened RetrievalCollection

  ghost predicate GoodBundle(r: RawBundle, limits: nat -> nat, available: int) {
    && r.windowStart <= r.windowEnd && r.limit == limits(r.hintIndex)
    && r.events != [] && r.tokenCount == BundleTokens(r.events) <= available
    && forall e :: e in r.events ==> Covers(r, e.sequence)
  }

  // What every contender satisfies: the limit of its hint, and a size that fits.
  ghost predicate GoodContender(c: Contender, limits: nat -> nat, world: World) {
    match c
    case Bridge(b) =>
      && b.limit == limits(b.hintIndex) && Numbered(b.candidate)
      && FitsAt(b.candidate, world.room, world.tokens, b.tokenCount)
      && b.tokenCount <= world.available - world.room.pinnedTokens
    case Raw(r) => GoodBundle(r, limits, world.available)
  }

  // The messages gathered so far: each at most once, none that was in context, and the used ids exact.
  ghost predicate FreshEvents(cs: seq<Contender>, inContext: set<string>, usedIds: set<string>, ledger: set<Event>) {
    && Distinct(Ids(AllEvents(cs)))
    && (forall e :: e in AllEvents(cs) ==> e in ledger && e.id !in inContext)
    && (forall id :: id in usedIds <==> id in inContext || id in Ids(AllEvents(cs)))
  }

  // The contenders gathered so far: sound bundles, and a selection order of its own for each.
  ghost predicate OrderedBefore(cs: seq<Contender>, nextOrder: nat, limits: nat -> nat, world: World) {
    && (forall c :: c in cs ==> GoodContender(c, limits, world))
    && (forall c :: c in cs ==> c.Order() < nextOrder)
    && DistinctSelectionOrders(cs)
  }

  lemma {:induction false} AllEventsConcat(a: seq<Contender>, b: seq<Contender>)
    ensures AllEvents(a + b) == AllEvents(a) + AllEvents(b)
  {
    if a == [] {
      assert a + b == b;
    } else {
      assert (a + b)[1..] == a[1..] + b;
      AllEventsConcat(a[1..], b);
    }
  }

  lemma {:induction false} IdsConcat(a: seq<Event>, b: seq<Event>)
    ensures Ids(a + b) == Ids(a) + Ids(b)
  {
    if a == [] {
      assert a + b == b;
    } else {
      assert (a + b)[1..] == a[1..] + b;
      IdsConcat(a[1..], b);
    }
  }

  lemma IdsMember(events: seq<Event>, id: string)
    ensures id in Ids(events) <==> id in IdSet(events)
  {
    if id in IdSet(events) {
      var e :| e in events && e.id == id;
      var i :| 0 <= i < |events| && events[i] == e;
      assert Ids(events)[i] == id;
    }
  }

  lemma {:induction false} DistinctIdsOf(events: seq<Event>, ledger: set<Event>)
    requires OneLedger(ledger) && Distinct(events) && forall e :: e in events ==> e in ledger
    ensures Distinct(Ids(events))
  {
    if events != [] {
      DistinctCons(events);
      DistinctIdsOf(events[1..], ledger);
      IdsMember(events[1..], events[0].id);
      DistinctConcat([events[0].id], Ids(events[1..]));
    }
  }

  lemma {:induction false} EventsOfDistinctIds(events: seq<Event>)
    requires Distinct(Ids(events))
    ensures Distinct(events)
  {
    if events != [] {
      DistinctCons(Ids(events));
      assert events == [events[0]] + events[1..] && Ids(events)[1..] == Ids(events[1..])
        && Ids(events)[0] == events[0].id;
      hide Distinct, Ids;
      EventsOfDistinctIds(events[1..]);
      IdsMember(events[1..], events[0].id);
      OneElement(events[0]);
      DistinctConcat([events[0]], events[1..]);
    }
  }

  lemma OneElement(e: Event)
    ensures Distinct([e])
  {
  }

  lemma OneMoreRaw(cs: seq<Contender>, r: RawBundle)
    ensures AllEvents(cs + [Raw(r)]) == AllEvents(cs) + r.events
    ensures Ids(AllEvents(cs + [Raw(r)])) == Ids(AllEvents(cs)) + Ids(r.events)
  {
    AllEventsConcat(cs, [Raw(r)]);
    assert [Raw(r)][1..] == [];
    assert AllEvents([Raw(r)]) == r.events;
    IdsConcat(AllEvents(cs), r.events);
  }

  lemma FreshRaw(cs: seq<Contender>, inContext: set<string>, usedIds: set<string>, ledger: set<Event>, r: RawBundle)
    requires FreshEvents(cs, inContext, usedIds, ledger) && OneLedger(ledger)
    requires Distinct(r.events) && forall e :: e in r.events ==> e in ledger && e.id !in usedIds
    ensures FreshEvents(cs + [Raw(r)], inContext, usedIds + IdSet(r.events), ledger)
  {
    hide Distinct, OneLedger, AllEvents, Ids;
    OneMoreRaw(cs, r);
    DistinctIdsOf(r.events, ledger);
    IdsAreIdSet(r.events);
    DistinctConcat(Ids(AllEvents(cs)), Ids(r.events));
  }

  lemma IdsAreIdSet(events: seq<Event>)
    ensures forall id :: id in Ids(events) <==> id in IdSet(events)
  {
    forall id ensures id in Ids(events) <==> id in IdSet(events) {
      IdsMember(events, id);
    }
  }

  // Contenders may be numbered on, wherever they are inserted.
  lemma OrderedInsert(before: seq<Contender>, after: seq<Contender>, nextOrder: nat, limits: nat -> nat, world: World,
                      c: Contender)
    requires OrderedBefore(before + after, nextOrder, limits, world)
    requires c.Order() == nextOrder && GoodContender(c, limits, world)
    ensures OrderedBefore(before + [c] + after, nextOrder + 1, limits, world)
  {
    hide GoodContender;
    var now := before + [c] + after;
    assert forall d :: d in now <==> d in before + after || d == c;
  }

  // A bridge brings no messages.
  lemma FreshBridge(before: seq<Contender>, after: seq<Contender>, b: BridgeContender)
    ensures AllEvents(before + [Bridge(b)] + after) == AllEvents(before + after)
  {
    AllEventsConcat(before, after);
    AllEventsConcat(before, [Bridge(b)] + after);
    assert before + [Bridge(b)] + after == before + ([Bridge(b)] + after);
    assert ([Bridge(b)] + after)[1..] == after;
  }

  // ---- the summaries of the bridges ------------------------------------------------------

  function BridgeIds(cs: seq<Contender>): seq<string> {
    if cs == [] then []
    else (if cs[0].Bridge? then [cs[0].bridge.candidate.id] else []) + BridgeIds(cs[1..])
  }

  lemma {:induction false} BridgeIdsConcat(a: seq<Contender>, b: seq<Contender>)
    ensures BridgeIds(a + b) == BridgeIds(a) + BridgeIds(b)
  {
    if a == [] {
      assert a + b == b;
    } else {
      assert (a + b)[1..] == a[1..] + b;
      BridgeIdsConcat(a[1..], b);
    }
  }

  // The summaries bridged so far: each at most once, none that was in context.
  ghost predicate FreshSummaries(cs: seq<Contender>, inContext: set<string>, usedSummaries: set<string>) {
    && Distinct(BridgeIds(cs))
    && (forall id :: id in BridgeIds(cs) ==> id !in inContext)
    && (forall id :: id in usedSummaries <==> id in inContext || id in BridgeIds(cs))
  }

  lemma BridgeIdsInsert(before: seq<Contender>, after: seq<Contender>, b: BridgeContender)
    ensures BridgeIds(before + after) == BridgeIds(before) + BridgeIds(after)
    ensures BridgeIds(before + [Bridge(b)] + after) == BridgeIds(before) + [b.candidate.id] + BridgeIds(after)
  {
    BridgeIdsConcat(before, after);
    BridgeIdsConcat(before + [Bridge(b)], after);
    BridgeIdsConcat(before, [Bridge(b)]);
    assert [Bridge(b)][1..] == [];
    assert BridgeIds([Bridge(b)]) == [b.candidate.id];
  }

  lemma FreshSummary(before: seq<Contender>, after: seq<Contender>, inContext: set<string>, usedSummaries: set<string>,
                     b: BridgeContender)
    requires FreshSummaries(before + after, inContext, usedSummaries) && b.candidate.id !in usedSummaries
    ensures FreshSummaries(before + [Bridge(b)] + after, inContext, usedSummaries + {b.candidate.id})
  {
    hide Distinct, BridgeIds;
    BridgeIdsInsert(before, after, b);
    InsertFresh(BridgeIds(before), BridgeIds(after), b.candidate.id);
  }

  lemma InsertFresh(a: seq<string>, b: seq<string>, id: string)
    requires Distinct(a + b) && id !in a + b
    ensures Distinct(a + [id] + b)
    ensures forall x :: x in a + [id] + b <==> x in a + b || x == id
  {
    forall x ensures multiset(a + [id] + b)[x] <= 1 {
      assert multiset(a + [id] + b)[x] == multiset(a + b)[x] + multiset([id])[x];
      assert x in a + b <==> x in multiset(a + b);
    }
  }

  lemma FreshSummariesRaw(cs: seq<Contender>, r: RawBundle)
    ensures BridgeIds(cs + [Raw(r)]) == BridgeIds(cs)
  {
    BridgeIdsConcat(cs, [Raw(r)]);
    assert [Raw(r)][1..] == [];
  }

  // ---- one hint --------------------------------------------------------------------------

  datatype Setting = Setting(messages: set<string>, summaries: set<string>, ghost ledger: set<Event>,
                             ghost limits: nat -> nat)

  ghost predicate Gathered(cs: seq<Contender>, usedIds: set<string>, usedSummaries: set<string>, nextOrder: nat,
                           at: Setting, world: World) {
    && FreshEvents(cs, at.messages, usedIds, at.ledger)
    && FreshSummaries(cs, at.summaries, usedSummaries)
    && OrderedBefore(cs, nextOrder, at.limits, world)
  }

  ghost predicate HintGathered(prior: seq<Contender>, p: HintPool, limit: nat, at: Setting, world: World) {
    && Gathered(prior + Contenders(p), p.usedIds, p.usedSummaries, p.nextOrder, at, world)
    && |p.raws| <= limit
  }

  lemma {:induction false} WrapAppend(raws: seq<RawBundle>, r: RawBundle)
    ensures Wrap(raws + [r]) == Wrap(raws) + [Raw(r)]
  {
    if raws != [] {
      assert (raws + [r])[1..] == raws[1..] + [r];
      WrapAppend(raws[1..], r);
    }
  }

  lemma GatherRaw(prior: seq<Contender>, p: HintPool, limit: nat, at: Setting, world: World, r: RawBundle)
    requires HintGathered(prior, p, limit, at, world) && |p.raws| < limit && OneLedger(at.ledger)
    requires GoodBundle(r, at.limits, world.available) && r.selectionOrder == p.nextOrder
    requires Distinct(r.events) && forall e :: e in r.events ==> e in at.ledger && e.id !in p.usedIds
    ensures HintGathered(prior, AddRaw(p, r), limit, at, world)
  {
    hide FreshEvents, OrderedBefore, OneLedger, GoodBundle;
    var cs := prior + Contenders(p);
    WrapAppend(p.raws, r);
    assert prior + Contenders(AddRaw(p, r)) == cs + [Raw(r)] + [] == cs + [Raw(r)];
    assert cs + [] == cs;
    FreshRaw(cs, at.messages, p.usedIds, at.ledger, r);
    FreshSummariesRaw(cs, r);
    OrderedInsert(cs, [], p.nextOrder, at.limits, world, Raw(r));
  }

  ghost predicate GoodChoice(choice: Option<Materialized>, world: World) {
    choice.Some? ==>
      && Numbered(choice.value.candidate)
      && FitsAt(choice.value.candidate, world.room, world.tokens, choice.value.body.tokenCount)
      && choice.value.body.tokenCount <= world.available - world.room.pinnedTokens
  }

  lemma SummaryStep(prior: seq<Contender>, p: HintPool, hintIndex: nat, hint: Hint, hit: Ranked,
                    choice: Option<Materialized>, at: Setting, world: World)
    requires HintGathered(prior, p, hint.limit, at, world) && hit.SummaryHit? && hint.limit == at.limits(hintIndex)
    requires GoodChoice(choice, world)
    ensures HintGathered(prior, ConsiderSummary(p, hintIndex, hint, hit, choice), hint.limit, at, world)
  {
    hide FreshEvents, OrderedBefore, FreshSummaries;
    var q := ConsiderSummary(p, hintIndex, hint, hit, choice);
    if q != p {
      var b, raws := q.bridge.value, Wrap(p.raws);
      assert prior + Contenders(p) == prior + raws;
      assert prior + Contenders(q) == prior + [Bridge(b)] + raws;
      FreshBridge(prior, raws, b);
      FreshSummary(prior, raws, at.summaries, p.usedSummaries, b);
      OrderedInsert(prior, raws, p.nextOrder, at.limits, world, Bridge(b));
      SameFreshEvents(prior + raws, prior + [Bridge(b)] + raws, at.messages, p.usedIds, at.ledger);
    }
  }

  lemma SameFreshEvents(a: seq<Contender>, b: seq<Contender>, inContext: set<string>, usedIds: set<string>,
                        ledger: set<Event>)
    requires FreshEvents(a, inContext, usedIds, ledger) && AllEvents(a) == AllEvents(b)
    ensures FreshEvents(b, inContext, usedIds, ledger)
  {
  }

  // A bundle cut out around a seed may always be added.
  lemma WindowBundle(prior: seq<Contender>, p: HintPool, hintIndex: nat, limit: nat, hit: Hit, anchors: int,
                     source: Source, seed: Event, events: map<int, Event>, at: Setting, world: World)
    requires HintGathered(prior, p, limit, at, world) && |p.raws| < limit == at.limits(hintIndex)
    requires OneLedger(at.ledger) && FromLedger(events, at.ledger) && seed in at.ledger
    requires var w := Window(seed, events, p.usedIds); w != [] && BundleTokens(w) <= world.available
    ensures HintGathered(prior, AddRaw(p, Bundle(hintIndex, limit, p.nextOrder, hit, anchors, source, seed,
                                                 Window(seed, events, p.usedIds))),
                         limit, at, world)
  {
    hide HintGathered, OneLedger, FromLedger, Distinct;
    WindowDistinct(seed, events, p.usedIds, at.ledger);
    WindowFacts(seed, events, p.usedIds, at.ledger);
    var r := Bundle(hintIndex, limit, p.nextOrder, hit, anchors, source, seed, Window(seed, events, p.usedIds));
    hide Window;
    assert GoodBundle(r, at.limits, world.available);
    GatherRaw(prior, p, limit, at, world, r);
  }

  lemma MessageStep(prior: seq<Contender>, p: HintPool, hintIndex: nat, hint: Hint, hit: Hit, at: Setting, world: World)
    requires HintGathered(prior, p, hint.limit, at, world) && hint.limit == at.limits(hintIndex)
    requires OneLedger(at.ledger) && FromLedger(hint.window, at.ledger) && hit.event in at.ledger
    ensures HintGathered(prior, ConsiderMessage(p, hintIndex, hint, hit, world.available), hint.limit, at, world)
  {
    hide HintGathered, OneLedger, Window;
    var seed := ScopedSeed(hint, hit.event);
    var q := ConsiderMessage(p, hintIndex, hint, hit, world.available);
    if q != p {
      WindowBundle(prior, p, hintIndex, hint.limit, hit, hint.anchors(Window(seed, hint.window, p.usedIds)), Generic,
                   seed, hint.window, at, world);
    }
  }

  lemma {:induction false} RankedSteps(prior: seq<Contender>, p: HintPool, hintIndex: nat, hint: Hint,
                                       hits: seq<Ranked>, choice: Option<Materialized>, at: Setting, world: World)
    requires HintGathered(prior, p, hint.limit, at, world) && hint.limit == at.limits(hintIndex)
    requires OneLedger(at.ledger) && WellFormedHint(hint, at.ledger) && forall r :: r in hits ==> r in hint.ranked
    requires GoodChoice(choice, world)
    ensures HintGathered(prior, ConsiderAll(p, hintIndex, hint, hits, choice, world.available), hint.limit, at, world)
    decreases |hits|
  {
    hide HintGathered, OneLedger, FromLedger, ConsiderMessage, ConsiderSummary, GoodChoice, DistinctIds, Numbered;
    if hits != [] {
      assert hits[0] in hits;
      if hits[0].MessageHit? {
        MessageStep(prior, p, hintIndex, hint, hits[0].hit, at, world);
      } else {
        SummaryStep(prior, p, hintIndex, hint, hits[0], choice, at, world);
      }
      RankedSteps(prior, Consider(p, hintIndex, hint, hits[0], choice, world.available), hintIndex, hint, hits[1..],
                  choice, at, world);
    }
  }

  lemma {:induction false} FirstUnusedMember(hits: seq<Hit>, usedIds: set<string>)
    requires FirstUnused(hits, usedIds).Some?
    ensures FirstUnused(hits, usedIds).value in hits
  {
    if hits[0].event.id in usedIds {
      FirstUnusedMember(hits[1..], usedIds);
    }
  }

  lemma ScopeStep(prior: seq<Contender>, p: HintPool, hintIndex: nat, hint: Hint, choice: Option<Materialized>,
                  at: Setting, world: World)
    requires HintGathered(prior, p, hint.limit, at, world) && hint.limit == at.limits(hintIndex) && p.raws == []
    requires OneLedger(at.ledger) && forall id :: WellFormedScope(hint.scopes(id), at.ledger)
    ensures HintGathered(prior, ConsiderScope(p, hintIndex, hint, choice, world), hint.limit, at, world)
  {
    hide HintGathered, OneLedger, Window;
    var q := ConsiderScope(p, hintIndex, hint, choice, world);
    if q != p {
      var scope := hint.scopes(choice.value.candidate.id);
      assert WellFormedScope(scope, at.ledger);
      FirstUnusedMember(scope.ranked, p.usedIds);
      var hit := FirstUnused(scope.ranked, p.usedIds).value;
      WindowBundle(prior, p, hintIndex, hint.limit, Strengthened(hit, choice.value.candidate, scope),
                   ScopedAnchors(hint, hit, scope), BridgeScoped, hit.event, scope.events, at, world);
    }
  }

  // ---- all hints ---------------------------------------------------------------------------

  lemma ChoiceFits(hint: Hint, world: World, usedSummaries: set<string>, selected: seq<ContextItem>,
                   rules: seq<PinRule>, selectionBudget: int)
    requires RoomFor(world.room, selected, rules, world.available, selectionBudget)
    requires forall c :: c in hint.summaries ==> Numbered(c)
    ensures GoodChoice(Choose(hint.summaries, world.room, usedSummaries, world.tokens), world)
  {
    hide Numbered, Materialize, IsFitBudgets, ChooseAmong;
    if Choose(hint.summaries, world.room, usedSummaries, world.tokens).Some? {
      ChosenIsViable(hint.summaries, world.room, usedSummaries, world.tokens);
      var c := Choose(hint.summaries, world.room, usedSummaries, world.tokens).value.candidate;
      MaterializedFits(c, selected, rules, world.available, world.room.budgets, selectionBudget, world.tokens);
    }
  }

  ghost predicate PoolGathered(pool: Pool, at: Setting, world: World) {
    Gathered(pool.contenders, pool.usedIds, pool.usedSummaries, pool.nextOrder, at, world)
  }

  lemma HintStep(pool: Pool, hintIndex: nat, hint: Hint, at: Setting, world: World,
                 selected: seq<ContextItem>, rules: seq<PinRule>, selectionBudget: int)
    requires PoolGathered(pool, at, world) && hint.limit == at.limits(hintIndex)
    requires OneLedger(at.ledger) && WellFormedHint(hint, at.ledger)
    requires RoomFor(world.room, selected, rules, world.available, selectionBudget)
    ensures PoolGathered(CollectHint(pool, hintIndex, hint, world), at, world)
  {
    hide OneLedger, FromLedger, DistinctIds, Numbered, WellFormedScope, RoomFor, Gathered, Choose, ConsiderScope,
         ConsiderAll, GoodChoice;
    var choice := Choose(hint.summaries, world.room, pool.usedSummaries, world.tokens);
    ChoiceFits(hint, world, pool.usedSummaries, selected, rules, selectionBudget);
    var start := HintPool([], None, pool.usedIds, pool.usedSummaries, pool.nextOrder);
    assert pool.contenders + Contenders(start) == pool.contenders;
    ScopeStep(pool.contenders, start, hintIndex, hint, choice, at, world);
    var scoped := ConsiderScope(start, hintIndex, hint, choice, world);
    RankedSteps(pool.contenders, scoped, hintIndex, hint, hint.ranked, choice, at, world);
  }

  lemma {:induction false} CollectedGathered(pool: Pool, hints: seq<Hint>, first: nat, at: Setting, world: World,
                                             selected: seq<ContextItem>, rules: seq<PinRule>, selectionBudget: int)
    requires first <= |hints| && PoolGathered(pool, at, world)
    requires forall i :: 0 <= i < |hints| ==> hints[i].limit == at.limits(i)
    requires WellFormedHints(hints, at.ledger)
    requires RoomFor(world.room, selected, rules, world.available, selectionBudget)
    ensures PoolGathered(CollectFrom(pool, hints, first, world), at, world)
    decreases |hints| - first
  {
    hide OneLedger, WellFormedHint, WellFormedScope, RoomFor, PoolGathered, CollectHint;
    if first < |hints| {
      HintStep(pool, first, hints[first], at, world, selected, rules, selectionBudget);
      CollectedGathered(CollectHint(pool, first, hints[first], world), hints, first + 1, at, world, selected, rules,
                        selectionBudget);
    }
  }

  // Starting from what the base selection holds, nothing is gathered twice.
  lemma CollectionStarts(messages: set<string>, summaries: set<string>, at: Setting, world: World)
    requires at.messages == messages && at.summaries == summaries
    ensures PoolGathered(Pool([], messages, summaries, 0), at, world)
  {
  }
}
