// Collecting, hint by hint, the raw bundles and bridge summaries that contend for the context.
module RetrievalCollection {
  import opened Sequences
  import opened ContextItems
  import opened BridgeBudgets
  import opened BridgeCompression
  import opened BridgeSelection
  import opened WindowCoalescing
  import opened RetrievalCoalescing

  // A matched message with its relevance for the hint.
  datatype Hit = Hit(event: Event, score: int, overlapCount: int, specificityScore: int)

  // A hint's ranked candidates: messages and summaries, best first.
  datatype Ranked =
    | MessageHit(hit: Hit)
    | SummaryHit(summaryId: string, score: int, overlapCount: int, specificityScore: int)

  // The events below a summary: all of them by sequence, the relevant ones by rank, and how the summary
  // itself fared.
  datatype SummaryScope =
    SummaryScope(events: map<int, Event>, ranked: seq<Hit>, overlapCount: int, specificityScore: int, anchorCount: int)

  datatype Hint =
    Hint(limit: nat, window: map<int, Event>, summaries: seq<Candidate>, ranked: seq<Ranked>,
         scopes: string -> SummaryScope, anchors: seq<Event> -> nat)

  datatype World = World(available: int, room: Room, tokens: Tokenizer)

  // What one hint has selected so far, on top of what was already in context.
  datatype HintPool =
    HintPool(raws: seq<RawBundle>, bridge: Option<BridgeContender>, usedIds: set<string>, usedSummaries: set<string>,
             nextOrder: nat)

  // ---- windows -------------------------------------------------------------------------

  function At(events: map<int, Event>, sequence: int): (r: seq<Event>)
    ensures |r| <= 1
  {
    if sequence in events then [events[sequence]] else []
  }

  // The neighbours of a seed, without what is already in context.
  function Window(seed: Event, events: map<int, Event>, usedIds: set<string>): seq<Event> {
    Filter(At(events, seed.sequence - 1) + [seed] + At(events, seed.sequence + 1), Unused(usedIds))
  }

  function Unused(usedIds: set<string>): Event -> bool {
    (e: Event) => e.id !in usedIds
  }

  function Ids(events: seq<Event>): (r: seq<string>)
    ensures |r| == |events| && forall i :: 0 <= i < |r| ==> r[i] == events[i].id
  {
    if events == [] then [] else [events[0].id] + Ids(events[1..])
  }

  function IdSet(events: seq<Event>): set<string> {
    set e | e in events :: e.id
  }

  // ---- one candidate ----------------------------------------------------------------------

  function Bundle(hintIndex: nat, limit: nat, order: nat, hit: Hit, anchors: int, source: Source, seed: Event,
                  events: seq<Event>)
    : RawBundle
  {
    RawBundle(hintIndex, limit, order, hit.score, hit.overlapCount, hit.specificityScore, anchors,
              source, hit.event.id, seed.sequence - 1, seed.sequence + 1, events, BundleTokens(events))
  }

  function AddRaw(pool: HintPool, bundle: RawBundle): HintPool {
    pool.(raws := pool.raws + [bundle], usedIds := pool.usedIds + IdSet(bundle.events), nextOrder := pool.nextOrder + 1)
  }

  function ScopedSeed(hint: Hint, e: Event): Event {
    if e.sequence in hint.window then hint.window[e.sequence] else e
  }

  function ConsiderMessage(pool: HintPool, hintIndex: nat, hint: Hint, hit: Hit, available: int): HintPool {
    if hit.event.id in pool.usedIds || |pool.raws| >= hint.limit then pool
    else
      var seed := ScopedSeed(hint, hit.event);
      var events := Window(seed, hint.window, pool.usedIds);
      if events == [] || BundleTokens(events) > available then pool
      else AddRaw(pool, Bundle(hintIndex, hint.limit, pool.nextOrder, hit, hint.anchors(events), Generic, seed, events))
  }

  function ConsiderSummary(pool: HintPool, hintIndex: nat, hint: Hint, hit: Ranked,
                           choice: Option<Materialized>): HintPool
    requires hit.SummaryHit?
  {
    if hit.summaryId in pool.usedSummaries || choice.None? || choice.value.candidate.id != hit.summaryId
      || pool.bridge.Some?
    then pool
    else
      var m := choice.value;
      pool.(bridge := Some(BridgeContender(hintIndex, hint.limit, pool.nextOrder, hit.score, hit.overlapCount,
                                           hit.specificityScore, m.body.evidence.score,
                                           m.body.evidence.concreteCueCount, m.body.tokenCount, m.candidate)),
            usedSummaries := pool.usedSummaries + {hit.summaryId},
            nextOrder := pool.nextOrder + 1)
  }

  function Consider(pool: HintPool, hintIndex: nat, hint: Hint, hit: Ranked, choice: Option<Materialized>,
                    available: int): HintPool {
    match hit
    case MessageHit(m) => ConsiderMessage(pool, hintIndex, hint, m, available)
    case SummaryHit(_, _, _, _) => ConsiderSummary(pool, hintIndex, hint, hit, choice)
  }

  function ConsiderAll(pool: HintPool, hintIndex: nat, hint: Hint, hits: seq<Ranked>, choice: Option<Materialized>,
                       available: int)
    : HintPool
    decreases |hits|
  {
    if hits == [] then pool
    else ConsiderAll(Consider(pool, hintIndex, hint, hits[0], choice, available), hintIndex, hint, hits[1..], choice,
                     available)
  }

  function FirstUnused(hits: seq<Hit>, usedIds: set<string>): Option<Hit> {
    if hits == [] then None
    else if hits[0].event.id !in usedIds then Some(hits[0])
    else FirstUnused(hits[1..], usedIds)
  }

  // A message below a bridged summary counts for at least as much as the summary.
  function Strengthened(hit: Hit, candidate: Candidate, scope: SummaryScope): Hit {
    Hit(hit.event, Max(hit.score, candidate.score), Max(hit.overlapCount, scope.overlapCount),
        Max(hit.specificityScore, scope.specificityScore))
  }

  // The anchors of the query in the message found, or as many as the summary has.
  function ScopedAnchors(hint: Hint, hit: Hit, scope: SummaryScope): int {
    Max(hint.anchors([hit.event]), scope.anchorCount)
  }

  // The best message below the chosen summary gets a bundle of its own, ahead of the ranked candidates.
  function ConsiderScope(pool: HintPool, hintIndex: nat, hint: Hint, choice: Option<Materialized>,
                         world: World): HintPool {
    if choice.None? || hint.limit == 0 then pool
    else
      var candidate := choice.value.candidate;
      var scope := hint.scopes(candidate.id);
      match FirstUnused(scope.ranked, pool.usedIds)
      case None => pool
      case Some(hit) =>
        var events := Window(hit.event, scope.events, pool.usedIds);
        if events == [] || BundleTokens(events) > world.available then pool
        else AddRaw(pool, Bundle(hintIndex, hint.limit, pool.nextOrder, Strengthened(hit, candidate, scope),
                                   ScopedAnchors(hint, hit, scope), BridgeScoped, hit.event, events))
  }

  // ---- all hints -------------------------------------------------------------------------------

  datatype Pool = Pool(contenders: seq<Contender>, usedIds: set<string>, usedSummaries: set<string>, nextOrder: nat)

  function Contenders(pool: HintPool): seq<Contender> {
    (match pool.bridge case None => [] case Some(b) => [Bridge(b)]) + Wrap(pool.raws)
  }

  function CollectHint(pool: Pool, hintIndex: nat, hint: Hint, world: World): Pool {
    var choice := Choose(hint.summaries, world.room, pool.usedSummaries, world.tokens);
    var start := HintPool([], None, pool.usedIds, pool.usedSummaries, pool.nextOrder);
    var scoped := ConsiderScope(start, hintIndex, hint, choice, world);
    var done := ConsiderAll(scoped, hintIndex, hint, hint.ranked, choice, world.available);
    Pool(pool.contenders + Contenders(done), done.usedIds, done.usedSummaries, done.nextOrder)
  }

  function CollectFrom(pool: Pool, hints: seq<Hint>, first: nat, world: World): Pool
    requires first <= |hints|
    decreases |hints| - first
  {
    if first == |hints| then pool
    else CollectFrom(CollectHint(pool, first, hints[first], world), hints, first + 1, world)
  }

  // ---- what the ledger guarantees of its inputs --------------------------------------------------

  ghost predicate FromLedger(events: map<int, Event>, ledger: set<Event>) {
    forall k :: k in events ==> events[k] in ledger && events[k].sequence == k
  }

  ghost predicate WellFormedScope(scope: SummaryScope, ledger: set<Event>) {
    FromLedger(scope.events, ledger) && forall hit :: hit in scope.ranked ==> hit.event in ledger
  }

  ghost predicate WellFormedHint(hint: Hint, ledger: set<Event>) {
    && FromLedger(hint.window, ledger)
    && (forall r :: r in hint.ranked && r.MessageHit? ==> r.hit.event in ledger)
    && (forall id :: WellFormedScope(hint.scopes(id), ledger))
    && DistinctIds(hint.summaries) && forall c :: c in hint.summaries ==> Numbered(c)
  }

  ghost predicate WellFormedHints(hints: seq<Hint>, ledger: set<Event>) {
    && OneLedger(ledger)
    && forall hint :: hint in hints ==> WellFormedHint(hint, ledger)
  }

  lemma AtMostOne(s: seq<Event>)
    requires |s| <= 1
    ensures Distinct(s)
  {
    PairwiseDistinct(s);
  }

  lemma NeighboursDistinct(before: seq<Event>, seed: Event, after: seq<Event>)
    requires |before| <= 1 && forall e :: e in before ==> e.sequence < seed.sequence
    requires |after| <= 1 && forall e :: e in after ==> seed.sequence < e.sequence
    ensures Distinct(before + [seed] + after)
  {
    hide Distinct;
    AtMostOne(before);
    AtMostOne([seed]);
    AtMostOne(after);
    DistinctConcat(before, [seed]);
    DistinctConcat(before + [seed], after);
  }

  lemma WindowDistinct(seed: Event, events: map<int, Event>, usedIds: set<string>, ledger: set<Event>)
    requires FromLedger(events, ledger)
    ensures Distinct(Window(seed, events, usedIds))
  {
    hide Distinct, Filter;
    var before, after := At(events, seed.sequence - 1), At(events, seed.sequence + 1);
    NeighboursDistinct(before, seed, after);
    FilterDistinct(before + [seed] + after, Unused(usedIds));
  }

  lemma WindowFacts(seed: Event, events: map<int, Event>, usedIds: set<string>, ledger: set<Event>)
    requires FromLedger(events, ledger) && seed in ledger
    ensures forall e :: e in Window(seed, events, usedIds) ==>
      e in ledger && e.id !in usedIds && seed.sequence - 1 <= e.sequence <= seed.sequence + 1
  {
    var before, after := At(events, seed.sequence - 1), At(events, seed.sequence + 1);
    forall e | e in before + [seed] + after
      ensures e in ledger && seed.sequence - 1 <= e.sequence <= seed.sequence + 1 {
      assert e in before || e == seed || e in after;
    }
  }

  // ---- the collection loops ------------------------------------------------------------------------

  method CollectScope(pool: HintPool, hintIndex: nat, hint: Hint, choice: Option<Materialized>, available: int,
                      ghost world: World)
    returns (r: HintPool)
    requires world.available == available
    ensures r == ConsiderScope(pool, hintIndex, hint, choice, world)
  {
    r := pool;
    if choice.None? || hint.limit == 0 {
      return;
    }
    var candidate := choice.value.candidate;
    var scope := hint.scopes(candidate.id);
    for i := 0 to |scope.ranked|
      invariant FirstUnused(scope.ranked, pool.usedIds) == FirstUnused(scope.ranked[i..], pool.usedIds)
    {
      PrefixStep(scope.ranked, i);
      var hit := scope.ranked[i];
      if hit.event.id !in pool.usedIds {
        var events := Window(hit.event, scope.events, pool.usedIds);
        if events != [] && BundleTokens(events) <= available {
          r := AddRaw(pool, Bundle(hintIndex, hint.limit, pool.nextOrder, Strengthened(hit, candidate, scope),
                                   ScopedAnchors(hint, hit, scope), BridgeScoped, hit.event, events));
        }
        return;
      }
    }
  }

  method CollectRanked(pool: HintPool, hintIndex: nat, hint: Hint, choice: Option<Materialized>, available: int)
    returns (r: HintPool)
    ensures r == ConsiderAll(pool, hintIndex, hint, hint.ranked, choice, available)
  {
    r := pool;
    for i := 0 to |hint.ranked|
      invariant ConsiderAll(r, hintIndex, hint, hint.ranked[i..], choice, available)
             == ConsiderAll(pool, hintIndex, hint, hint.ranked, choice, available)
    {
      PrefixStep(hint.ranked, i);
      match hint.ranked[i]
      case MessageHit(hit) =>
        if hit.event.id !in r.usedIds && |r.raws| < hint.limit {
          var seed := ScopedSeed(hint, hit.event);
          var events := Window(seed, hint.window, r.usedIds);
          if events != [] && BundleTokens(events) <= available {
            r := AddRaw(r, Bundle(hintIndex, hint.limit, r.nextOrder, hit, hint.anchors(events), Generic, seed,
                                  events));
          }
        }
      case SummaryHit(_, _, _, _) =>
        r := ConsiderSummary(r, hintIndex, hint, hint.ranked[i], choice);
    }
  }

  method CollectAll(hints: seq<Hint>, messages: set<string>, summaries: set<string>, selected: seq<ContextItem>,
                    rules: seq<PinRule>, available: int, selectionBudget: int, tokens: Tokenizer, ghost world: World,
                    ghost ledger: set<Event>)
    returns (pool: Pool)
    requires forall hint :: hint in hints ==> WellFormedHint(hint, ledger)
    requires world.available == available && world.tokens == tokens
    requires RoomFor(world.room, selected, rules, available, selectionBudget)
    ensures pool == CollectFrom(Pool([], messages, summaries, 0), hints, 0, world)
  {
    hide Choose, IsFitBudgets, ConsiderScope, ConsiderAll, FromLedger, WellFormedScope, DistinctIds, Numbered;
    pool := Pool([], messages, summaries, 0);
    for i := 0 to |hints|
      invariant CollectFrom(pool, hints, i, world) == CollectFrom(Pool([], messages, summaries, 0), hints, 0, world)
    {
      var hint := hints[i];
      assert WellFormedHint(hint, ledger);
      ghost var room;
      var choice;
      choice, room := ChooseBridgeSummaryCandidate(hint.summaries, pool.usedSummaries, selected, rules, available,
                                                   selectionBudget, tokens);
      FitBudgetsUnique(selected, rules, available, room.budgets, world.room.budgets);
      var start := HintPool([], None, pool.usedIds, pool.usedSummaries, pool.nextOrder);
      var scoped := CollectScope(start, i, hint, choice, available, world);
      var done := CollectRanked(scoped, i, hint, choice, available);
      pool := Pool(pool.contenders + Contenders(done), done.usedIds, done.usedSummaries, done.nextOrder);
    }
  }
}
