// Where collected bundles and bridges come from, and what becomes of the matches of a hint.
module CollectionContents {
  import opened Sequences
  import opened ContextItems
  import opened BridgeCompression
  import opened BridgeSelection
  import opened WindowCoalescing
  import opened RetrievalCoalescing
  import opened RetrievalCollection

  // ---- one matched message ---------------------------------------------------------------------

  // The message or one of its two neighbours.
  ghost predicate Near(e: Event, seed: Event, events: map<int, Event>) {
    || e == seed
    || (seed.sequence - 1 in events && e == events[seed.sequence - 1])
    || (seed.sequence + 1 in events && e == events[seed.sequence + 1])
  }

  // The bundle is cut out around the seed, and nothing around the seed is left unused.
  ghost predicate CutAround(b: RawBundle, seed: Event, events: map<int, Event>, usedIds: set<string>) {
    && b.windowStart == seed.sequence - 1 && b.windowEnd == seed.sequence + 1
    && b.events != [] && b.tokenCount == BundleTokens(b.events)
    && (forall e :: e in b.events ==> Near(e, seed, events))
    && forall e :: Near(e, seed, events) ==> e.id in usedIds
  }

  lemma WindowIs(seed: Event, events: map<int, Event>, usedIds: set<string>)
    ensures forall e :: e in Window(seed, events, usedIds) <==> Near(e, seed, events) && e.id !in usedIds
  {
  }

  // The relevance of the bundle is that of the match.
  ghost predicate FromMatch(b: RawBundle, hintIndex: nat, hint: Hint, hit: Hit, usedIds: set<string>) {
    && b.hintIndex == hintIndex && b.limit == hint.limit && b.source == Generic && b.seedId == hit.event.id
    && b.score == hit.score && b.overlapCount == hit.overlapCount && b.specificityScore == hit.specificityScore
    && b.anchorCoverageCount == hint.anchors(b.events)
    && CutAround(b, ScopedSeed(hint, hit.event), hint.window, usedIds)
  }

  ghost predicate FromSomeMatch(b: RawBundle, hintIndex: nat, hint: Hint, hits: seq<Ranked>, usedIds: set<string>) {
    exists i :: 0 <= i < |hits| && hits[i].MessageHit? && FromMatch(b, hintIndex, hint, hits[i].hit, usedIds)
  }

  // Why a matched message may stay without a bundle of its own: it is in use, the hint has enough, or nothing unused is
  // left around it, or too much.
  ghost predicate Settled(hit: Hit, q: HintPool, hint: Hint, available: int) {
    || hit.event.id in q.usedIds
    || |q.raws| >= hint.limit
    || exists usedIds: set<string> ::
         usedIds <= q.usedIds && NoRoomAround(ScopedSeed(hint, hit.event), hint.window, usedIds, available)
  }

  ghost predicate NoRoomAround(seed: Event, events: map<int, Event>, usedIds: set<string>, available: int) {
    (forall e :: Near(e, seed, events) ==> e.id in usedIds) || BundleTokens(Window(seed, events, usedIds)) > available
  }

  lemma SettledStays(hit: Hit, p: HintPool, q: HintPool, hint: Hint, available: int)
    requires Settled(hit, p, hint, available) && p.usedIds <= q.usedIds && |p.raws| <= |q.raws|
    ensures Settled(hit, q, hint, available)
  {
  }

  lemma MatchStays(b: RawBundle, hintIndex: nat, hint: Hint, hits: seq<Ranked>, more: seq<Ranked>, usedIds: set<string>,
                   moreIds: set<string>)
    requires FromSomeMatch(b, hintIndex, hint, hits, usedIds) && usedIds <= moreIds
      && forall h :: h in hits ==> h in more
    ensures FromSomeMatch(b, hintIndex, hint, more, moreIds)
  {
    hide Near;
    var i :| 0 <= i < |hits| && hits[i].MessageHit? && FromMatch(b, hintIndex, hint, hits[i].hit, usedIds);
    assert hits[i] in more;
    var j :| 0 <= j < |more| && more[j] == hits[i];
    assert FromMatch(b, hintIndex, hint, more[j].hit, moreIds);
  }

  lemma MessageConsidered(p: HintPool, hintIndex: nat, hint: Hint, hit: Hit, available: int)
    ensures var q := ConsiderMessage(p, hintIndex, hint, hit, available);
      && p.usedIds <= q.usedIds && q.bridge == p.bridge && q.usedSummaries == p.usedSummaries
      && Settled(hit, q, hint, available)
      && (q == p || (q.raws == p.raws + [Last(q.raws)] && FromMatch(Last(q.raws), hintIndex, hint, hit, q.usedIds)))
  {
    hide Near;
    var seed := ScopedSeed(hint, hit.event);
    WindowIs(seed, hint.window, p.usedIds);
    var events := Window(seed, hint.window, p.usedIds);
    var q := ConsiderMessage(p, hintIndex, hint, hit, available);
    if q != p {
      assert Last(q.raws).events == events;
      assert forall e :: e in events ==> e.id in IdSet(events);
      assert hit.event.id in q.usedIds || Settled(hit, q, hint, available) by {
        assert NoRoomAround(seed, hint.window, q.usedIds, available);
      }
    } else if !(hit.event.id in p.usedIds || |p.raws| >= hint.limit) {
      assert NoRoomAround(seed, hint.window, p.usedIds, available);
    }
  }

  // ---- the bridge -----------------------------------------------------------------------------------

  // The chosen summary contends with the relevance of its match and with the evidence and size of its body.
  ghost predicate FromChoice(b: BridgeContender, hintIndex: nat, hint: Hint, hit: Ranked, m: Materialized) {
    && hit.SummaryHit? && hit.summaryId == m.candidate.id && b.candidate == m.candidate
    && b.hintIndex == hintIndex && b.limit == hint.limit && b.score == hit.score
    && b.overlapCount == hit.overlapCount && b.specificityScore == hit.specificityScore
    && b.evidenceScore == m.body.evidence.score && b.concreteCueCount == m.body.evidence.concreteCueCount
    && b.tokenCount == m.body.tokenCount
  }

  ghost predicate BridgeOf(q: HintPool, hintIndex: nat, hint: Hint, hits: seq<Ranked>, choice: Option<Materialized>) {
    q.bridge.Some? ==>
      && choice.Some? && q.bridge.value.candidate.id in q.usedSummaries
      && exists i :: 0 <= i < |hits| && FromChoice(q.bridge.value, hintIndex, hint, hits[i], choice.value)
  }

  // ---- all matches of a hint, best first ---------------------------------------------------------------

  // The match is the chosen summary, not in use so far.
  predicate Asks(hit: Ranked, choice: Option<Materialized>, usedSummaries: set<string>) {
    && hit.SummaryHit? && choice.Some? && hit.summaryId == choice.value.candidate.id
    && hit.summaryId !in usedSummaries
  }

  // What considering some matches has made of the pool.
  ghost predicate Outcome(p: HintPool, q: HintPool, hintIndex: nat, hint: Hint, hits: seq<Ranked>,
                          choice: Option<Materialized>, available: int)
  {
    && p.usedIds <= q.usedIds && p.raws <= q.raws
    && (forall i :: |p.raws| <= i < |q.raws| ==> FromSomeMatch(q.raws[i], hintIndex, hint, hits, q.usedIds))
    && (forall i :: 0 <= i < |hits| && hits[i].MessageHit? ==> Settled(hits[i].hit, q, hint, available))
    && BridgeOf(q, hintIndex, hint, hits, choice)
    && (forall i :: 0 <= i < |hits| && Asks(hits[i], choice, p.usedSummaries) ==> q.bridge.Some?)
    && p.usedSummaries <= q.usedSummaries
    && q.usedSummaries <= p.usedSummaries + (if q.bridge.Some? then {q.bridge.value.candidate.id} else {})
  }

  lemma NothingConsidered(p: HintPool, hintIndex: nat, hint: Hint, choice: Option<Materialized>, available: int)
    requires p.bridge.None?
    ensures Outcome(p, p, hintIndex, hint, [], choice, available)
  {
  }

  lemma MessageOutcome(p: HintPool, q: HintPool, hintIndex: nat, hint: Hint, hits: seq<Ranked>, hit: Hit,
                       choice: Option<Materialized>, available: int)
    requires Outcome(p, q, hintIndex, hint, hits, choice, available)
    ensures Outcome(p, ConsiderMessage(q, hintIndex, hint, hit, available), hintIndex, hint, hits + [MessageHit(hit)],
                    choice, available)
  {
    hide Settled, FromMatch, ConsiderMessage, FromChoice, FromSomeMatch;
    var r, more := ConsiderMessage(q, hintIndex, hint, hit, available), hits + [MessageHit(hit)];
    MessageConsidered(q, hintIndex, hint, hit, available);
    forall i | |p.raws| <= i < |r.raws| ensures FromSomeMatch(r.raws[i], hintIndex, hint, more, r.usedIds) {
      if i < |q.raws| {
        MatchStays(q.raws[i], hintIndex, hint, hits, more, q.usedIds, r.usedIds);
      } else {
        LastMatch(r.raws[i], hintIndex, hint, hits, hit, r.usedIds);
      }
    }
    forall i | 0 <= i < |more| && more[i].MessageHit? ensures Settled(more[i].hit, r, hint, available) {
      if i < |hits| {
        SettledStays(hits[i].hit, q, r, hint, available);
      }
    }
    BridgeStays(q, r, hintIndex, hint, hits, MessageHit(hit), choice);
  }

  lemma LastMatch(b: RawBundle, hintIndex: nat, hint: Hint, hits: seq<Ranked>, hit: Hit, usedIds: set<string>)
    requires FromMatch(b, hintIndex, hint, hit, usedIds)
    ensures FromSomeMatch(b, hintIndex, hint, hits + [MessageHit(hit)], usedIds)
  {
    hide FromMatch;
    assert (hits + [MessageHit(hit)])[|hits|] == MessageHit(hit);
  }

  lemma BridgeStays(q: HintPool, r: HintPool, hintIndex: nat, hint: Hint, hits: seq<Ranked>, hit: Ranked,
                    choice: Option<Materialized>)
    requires BridgeOf(q, hintIndex, hint, hits, choice) && r.bridge == q.bridge && r.usedSummaries == q.usedSummaries
    ensures BridgeOf(r, hintIndex, hint, hits + [hit], choice)
  {
    hide FromChoice;
    if q.bridge.Some? {
      var i :| 0 <= i < |hits| && FromChoice(q.bridge.value, hintIndex, hint, hits[i], choice.value);
      assert (hits + [hit])[i] == hits[i];
    }
  }

  lemma SummaryOutcome(p: HintPool, q: HintPool, hintIndex: nat, hint: Hint, hits: seq<Ranked>, hit: Ranked,
                       choice: Option<Materialized>, available: int)
    requires Outcome(p, q, hintIndex, hint, hits, choice, available) && hit.SummaryHit?
    ensures Outcome(p, ConsiderSummary(q, hintIndex, hint, hit, choice), hintIndex, hint, hits + [hit], choice,
                    available)
  {
    hide Settled, FromMatch, FromSomeMatch;
    var r, more := ConsiderSummary(q, hintIndex, hint, hit, choice), hits + [hit];
    forall i | |p.raws| <= i < |r.raws| ensures FromSomeMatch(r.raws[i], hintIndex, hint, more, r.usedIds) {
      MatchStays(q.raws[i], hintIndex, hint, hits, more, q.usedIds, r.usedIds);
    }
    forall i | 0 <= i < |more| && more[i].MessageHit? ensures Settled(more[i].hit, r, hint, available) {
      SettledStays(hits[i].hit, q, r, hint, available);
    }
    if r == q {
      BridgeStays(q, r, hintIndex, hint, hits, hit, choice);
    } else {
      assert more[|hits|] == hit && FromChoice(r.bridge.value, hintIndex, hint, more[|hits|], choice.value);
    }
  }

  lemma {:induction false} AllConsidered(p: HintPool, q: HintPool, hintIndex: nat, hint: Hint, hits: seq<Ranked>,
                                         rest: seq<Ranked>, choice: Option<Materialized>, available: int)
    requires Outcome(p, q, hintIndex, hint, hits, choice, available)
    ensures Outcome(p, ConsiderAll(q, hintIndex, hint, rest, choice, available), hintIndex, hint, hits + rest, choice,
                    available)
    decreases |rest|
  {
    hide Outcome, ConsiderMessage, ConsiderSummary;
    if rest == [] {
      assert hits + rest == hits;
    } else {
      match rest[0] {
        case MessageHit(hit) => MessageOutcome(p, q, hintIndex, hint, hits, hit, choice, available);
        case SummaryHit(_, _, _, _) => SummaryOutcome(p, q, hintIndex, hint, hits, rest[0], choice, available);
      }
      assert hits + rest == hits + [rest[0]] + rest[1..];
      AllConsidered(p, Consider(q, hintIndex, hint, rest[0], choice, available), hintIndex, hint, hits + [rest[0]],
                    rest[1..], choice, available);
    }
  }

  // ---- the scope of the chosen summary ----------------------------------------------------------------

  // The bundle is as relevant as its match or, where that is more, as the summary.
  ghost predicate FromScope(b: RawBundle, hintIndex: nat, hint: Hint, hit: Hit, candidate: Candidate,
                            usedIds: set<string>) {
    var scope := hint.scopes(candidate.id);
    && b.hintIndex == hintIndex && b.limit == hint.limit && b.source == BridgeScoped && b.seedId == hit.event.id
    && b.score == Max(hit.score, candidate.score)
    && b.overlapCount == Max(hit.overlapCount, scope.overlapCount)
    && b.specificityScore == Max(hit.specificityScore, scope.specificityScore)
    && b.anchorCoverageCount == Max(hint.anchors([hit.event]), scope.anchorCount)
    && CutAround(b, hit.event, scope.events, usedIds)
  }

  // The best match in the scope whose message is not in use.
  ghost predicate BestUnused(hits: seq<Hit>, i: nat, usedIds: set<string>) {
    i < |hits| && hits[i].event.id !in usedIds && forall j :: 0 <= j < i ==> hits[j].event.id in usedIds
  }

  lemma {:induction false} FirstUnusedIs(hits: seq<Hit>, usedIds: set<string>)
    ensures match FirstUnused(hits, usedIds)
      case None => forall i :: 0 <= i < |hits| ==> hits[i].event.id in usedIds
      case Some(hit) => exists i: nat :: BestUnused(hits, i, usedIds) && hits[i] == hit
  {
    if hits != [] {
      FirstUnusedIs(hits[1..], usedIds);
      if hits[0].event.id !in usedIds {
        assert BestUnused(hits, 0, usedIds);
      } else if FirstUnused(hits, usedIds).Some? {
        var i: nat :| BestUnused(hits[1..], i, usedIds) && hits[1..][i] == FirstUnused(hits, usedIds).value;
        assert hits[i + 1] == hits[1..][i];
        forall j | 0 <= j < i + 1 ensures hits[j].event.id in usedIds {
          assert j > 0 ==> hits[j] == hits[1..][j - 1];
        }
        assert BestUnused(hits, i + 1, usedIds);
      }
    }
  }

  // The message brings its window with it, unless there is no room for it.
  ghost predicate ScopeTaken(p: HintPool, q: HintPool, hintIndex: nat, hint: Hint, hit: Hit, candidate: Candidate,
                             available: int)
  {
    if q == p then NoRoomAround(hit.event, hint.scopes(candidate.id).events, p.usedIds, available)
    else
      && |q.raws| == |p.raws| + 1 && q.raws[..|p.raws|] == p.raws
      && FromScope(q.raws[|p.raws|], hintIndex, hint, hit, candidate, q.usedIds)
  }

  function ScopeHits(hint: Hint, m: Materialized): seq<Hit> { hint.scopes(m.candidate.id).ranked }

  // The chosen summary brings the best unused message of its scope with it, unless there is none.
  ghost predicate ScopeOutcome(p: HintPool, q: HintPool, hintIndex: nat, hint: Hint, choice: Option<Materialized>,
                               available: int)
  {
    && p.usedIds <= q.usedIds && q.bridge == p.bridge && q.usedSummaries == p.usedSummaries
    && if choice.Some? && hint.limit > 0
      && exists i: nat :: BestUnused(ScopeHits(hint, choice.value), i, p.usedIds) then
         exists i: nat ::
           && BestUnused(ScopeHits(hint, choice.value), i, p.usedIds)
           && ScopeTaken(p, q, hintIndex, hint, ScopeHits(hint, choice.value)[i], choice.value.candidate, available)
       else q == p
  }

  lemma ScopeBundle(p: HintPool, hintIndex: nat, hint: Hint, choice: Option<Materialized>, world: World, hit: Hit)
    requires choice.Some? && hint.limit > 0 && FirstUnused(ScopeHits(hint, choice.value), p.usedIds) == Some(hit)
    ensures var q := ConsiderScope(p, hintIndex, hint, choice, world);
      && p.usedIds <= q.usedIds && q.bridge == p.bridge && q.usedSummaries == p.usedSummaries
      && ScopeTaken(p, q, hintIndex, hint, hit, choice.value.candidate, world.available)
  {
    hide Near, FirstUnused, Window, BundleTokens;
    var events := hint.scopes(choice.value.candidate.id).events;
    WindowIs(hit.event, events, p.usedIds);
    var window := Window(hit.event, events, p.usedIds);
    assert forall e :: e in window ==> e.id in IdSet(window);
  }

  lemma ScopeConsidered(p: HintPool, hintIndex: nat, hint: Hint, choice: Option<Materialized>, world: World)
    ensures ScopeOutcome(p, ConsiderScope(p, hintIndex, hint, choice, world), hintIndex, hint, choice, world.available)
  {
    if choice.Some? && hint.limit > 0 {
      var hits := ScopeHits(hint, choice.value);
      FirstUnusedIs(hits, p.usedIds);
      var first := FirstUnused(hits, p.usedIds);
      if first.Some? {
        var i: nat :| BestUnused(hits, i, p.usedIds) && hits[i] == first.value;
        hide ScopeTaken, ConsiderScope, FirstUnused;
        ScopeBundle(p, hintIndex, hint, choice, world, hits[i]);
        assert BestUnused(ScopeHits(hint, choice.value), i, p.usedIds);
      }
    }
  }

  // ---- one hint, and all of them -------------------------------------------------------------------------

  // What a hint contributes: the scoped bundle of its chosen summary, then the bundles of its matches, and the bridge.
  lemma HintCollects(pool: Pool, hintIndex: nat, hint: Hint, world: World) returns (scoped: HintPool, q: HintPool)
    ensures var choice := Choose(hint.summaries, world.room, pool.usedSummaries, world.tokens);
      var start := HintPool([], None, pool.usedIds, pool.usedSummaries, pool.nextOrder);
      && ScopeOutcome(start, scoped, hintIndex, hint, choice, world.available)
      && Outcome(scoped, q, hintIndex, hint, hint.ranked, choice, world.available)
    ensures var r := CollectHint(pool, hintIndex, hint, world);
      && r.contenders == pool.contenders + (if q.bridge.Some? then [Bridge(q.bridge.value)] else []) + Wrap(q.raws)
      && r.usedIds == q.usedIds && r.usedSummaries == q.usedSummaries
  {
    hide Choose, ConsiderScope, ConsiderAll, Outcome, ScopeOutcome;
    var choice := Choose(hint.summaries, world.room, pool.usedSummaries, world.tokens);
    var start := HintPool([], None, pool.usedIds, pool.usedSummaries, pool.nextOrder);
    scoped := ConsiderScope(start, hintIndex, hint, choice, world);
    ScopeConsidered(start, hintIndex, hint, choice, world);
    NoBridgeYet(start, scoped, hintIndex, hint, choice, world);
    AllConsidered(scoped, scoped, hintIndex, hint, [], hint.ranked, choice, world.available);
    assert [] + hint.ranked == hint.ranked;
    q := ConsiderAll(scoped, hintIndex, hint, hint.ranked, choice, world.available);
    var bridge := if q.bridge.Some? then [Bridge(q.bridge.value)] else [];
    assert pool.contenders + (bridge + Wrap(q.raws)) == pool.contenders + bridge + Wrap(q.raws);
  }

  lemma NoBridgeYet(start: HintPool, scoped: HintPool, hintIndex: nat, hint: Hint, choice: Option<Materialized>,
                    world: World)
    requires start.bridge.None? && ScopeOutcome(start, scoped, hintIndex, hint, choice, world.available)
    ensures Outcome(scoped, scoped, hintIndex, hint, [], choice, world.available)
  {
    NothingConsidered(scoped, hintIndex, hint, choice, world.available);
  }

  // The contender stems from a match of the hint, from the scope of its chosen summary, or is that summary.
  ghost predicate Origin(x: Contender, hintIndex: nat, hint: Hint, usedIds: set<string>, world: World) {
    match x
    case Raw(b) =>
      || FromSomeMatch(b, hintIndex, hint, hint.ranked, usedIds)
      || exists m: Materialized, i: nat ::
           && m.candidate in hint.summaries && i < |ScopeHits(hint, m)|
           && FromScope(b, hintIndex, hint, ScopeHits(hint, m)[i], m.candidate, usedIds)
    case Bridge(b) => exists m: Materialized, i ::
      && 0 <= i < |hint.ranked| && FromChoice(b, hintIndex, hint, hint.ranked[i], m)
      && m.candidate in hint.summaries && Fit(m.candidate, world.room, world.tokens) == Some(m.body)
  }

  lemma OriginStays(x: Contender, hintIndex: nat, hint: Hint, usedIds: set<string>, moreIds: set<string>, world: World)
    requires Origin(x, hintIndex, hint, usedIds, world) && usedIds <= moreIds
    ensures Origin(x, hintIndex, hint, moreIds, world)
  {
    hide Near, Fit, FromChoice, FromMatch;
    if x.Raw? {
      if FromSomeMatch(x.bundle, hintIndex, hint, hint.ranked, usedIds) {
        MatchStays(x.bundle, hintIndex, hint, hint.ranked, hint.ranked, usedIds, moreIds);
      } else {
        var m: Materialized, i: nat :|
          && m.candidate in hint.summaries && i < |ScopeHits(hint, m)|
          && FromScope(x.bundle, hintIndex, hint, ScopeHits(hint, m)[i], m.candidate, usedIds);
        assert FromScope(x.bundle, hintIndex, hint, ScopeHits(hint, m)[i], m.candidate, moreIds);
      }
    }
  }

  lemma ScopedOrigin(p: HintPool, q: HintPool, hintIndex: nat, hint: Hint, choice: Option<Materialized>, world: World)
    requires ScopeOutcome(p, q, hintIndex, hint, choice, world.available) && p.raws == []
    requires choice.Some? ==> choice.value.candidate in hint.summaries
    ensures forall b :: b in q.raws ==> Origin(Raw(b), hintIndex, hint, q.usedIds, world)
  {
    hide FromScope, NoRoomAround, FromSomeMatch;
    if q != p {
      var i: nat :|
        && BestUnused(ScopeHits(hint, choice.value), i, p.usedIds)
        && ScopeTaken(p, q, hintIndex, hint, ScopeHits(hint, choice.value)[i], choice.value.candidate, world.available);
      assert Origin(Raw(q.raws[0]), hintIndex, hint, q.usedIds, world);
    }
  }

  lemma RankedOrigins(scoped: HintPool, q: HintPool, hintIndex: nat, hint: Hint, choice: Option<Materialized>,
                      world: World)
    requires Outcome(scoped, q, hintIndex, hint, hint.ranked, choice, world.available)
    requires forall b :: b in scoped.raws ==> Origin(Raw(b), hintIndex, hint, scoped.usedIds, world)
    requires choice.Some? ==>
      choice.value.candidate in hint.summaries
        && Fit(choice.value.candidate, world.room, world.tokens) == Some(choice.value.body)
    ensures forall b :: b in q.raws ==> Origin(Raw(b), hintIndex, hint, q.usedIds, world)
    ensures q.bridge.Some? ==> Origin(Bridge(q.bridge.value), hintIndex, hint, q.usedIds, world)
  {
    hide FromScope, FromSomeMatch, FromChoice, Settled, Fit;
    forall b | b in q.raws ensures Origin(Raw(b), hintIndex, hint, q.usedIds, world) {
      var i :| 0 <= i < |q.raws| && q.raws[i] == b;
      if i < |scoped.raws| {
        assert b == scoped.raws[i];
        hide Origin;
        OriginStays(Raw(b), hintIndex, hint, scoped.usedIds, q.usedIds, world);
      }
    }
  }

  lemma HintOrigins(pool: Pool, hintIndex: nat, hint: Hint, world: World)
    ensures var r := CollectHint(pool, hintIndex, hint, world);
      && pool.usedIds <= r.usedIds
      && forall x :: x in r.contenders ==> x in pool.contenders || Origin(x, hintIndex, hint, r.usedIds, world)
  {
    hide Choose, CollectHint, Fit, Origin;
    var choice := Choose(hint.summaries, world.room, pool.usedSummaries, world.tokens);
    if choice.Some? {
      ChosenIsViable(hint.summaries, world.room, pool.usedSummaries, world.tokens);
    }
    var scoped, q := HintCollects(pool, hintIndex, hint, world);
    var start := HintPool([], None, pool.usedIds, pool.usedSummaries, pool.nextOrder);
    ScopedOrigin(start, scoped, hintIndex, hint, choice, world);
    RankedOrigins(scoped, q, hintIndex, hint, choice, world);
    Grown(start, scoped, q, hintIndex, hint, choice, world);
    forall x | x in Wrap(q.raws) ensures x.Raw? && x.bundle in q.raws {
    }
  }

  lemma Grown(start: HintPool, scoped: HintPool, q: HintPool, hintIndex: nat, hint: Hint, choice: Option<Materialized>,
              world: World)
    requires ScopeOutcome(start, scoped, hintIndex, hint, choice, world.available)
    requires Outcome(scoped, q, hintIndex, hint, hint.ranked, choice, world.available)
    ensures start.usedIds <= q.usedIds
  {
  }

  // Everything collected has its origin in a hint: no bundle or bridge is made up, and each carries the relevance,
  // messages and size that its match gives it.
  lemma {:induction false} CollectedOrigins(pool: Pool, hints: seq<Hint>, first: nat, world: World)
    requires first <= |hints|
    ensures var r := CollectFrom(pool, hints, first, world);
      && pool.usedIds <= r.usedIds
      && forall x :: x in r.contenders ==>
           x in pool.contenders || exists k :: first <= k < |hints| && Origin(x, k, hints[k], r.usedIds, world)
    decreases |hints| - first
  {
    hide CollectHint, Origin;
    if first < |hints| {
      var next, r := CollectHint(pool, first, hints[first], world), CollectFrom(pool, hints, first, world);
      HintOrigins(pool, first, hints[first], world);
      CollectedOrigins(next, hints, first + 1, world);
      forall x | x in r.contenders
        ensures x in pool.contenders || exists k :: first <= k < |hints| && Origin(x, k, hints[k], r.usedIds, world)
      {
        if x in next.contenders && x !in pool.contenders {
          OriginStays(x, first, hints[first], next.usedIds, r.usedIds, world);
        }
      }
    }
  }
}
