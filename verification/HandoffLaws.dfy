// A keyed handoff is written exactly once, whatever crashes and retries.
module HandoffLaws {
  import opened Sequences
  import opened Text
  import opened Ledger
  import opened LedgerLaws
  import opened Continuity
  import opened Handoffs

  // ---- the derived keys ----------------------------------------------------------------------

  lemma SameEnding(a: string, x: char, b: string, y: char)
    requires a + [x] == b + [y]
    ensures a == b && x == y
  {
    assert (a + [x])[|a|] == x && (b + [y])[|b|] == y;
    assert (a + [x])[..|a|] == a && (b + [y])[..|b|] == b;
  }

  lemma {:induction false} DecimalInjective(m: nat, n: nat)
    requires Decimal(m) == Decimal(n)
    ensures m == n
    decreases m
  {
    SameEnding(if m < 10 then "" else Decimal(m / 10), ('0' as int + m % 10) as char,
               if n < 10 then "" else Decimal(n / 10), ('0' as int + n % 10) as char);
    if m >= 10 && n >= 10 {
      DecimalInjective(m / 10, n / 10);
    }
  }

  lemma DerivedKeysDiffer(key: string, i: nat, j: nat)
    requires i != j
    ensures DerivedKey(key, i) != DerivedKey(key, j)
  {
    if i > 0 && j > 0 && DerivedKey(key, i) == DerivedKey(key, j) {
      var n := |key + ":next-step:"|;
      assert DerivedKey(key, i)[n..] == Decimal(i - 1) && DerivedKey(key, j)[n..] == Decimal(j - 1);
      DecimalInjective(i - 1, j - 1);
    } else {
      assert |DerivedKey(key, Max(i, j))| > |DerivedKey(key, 0)| || i == j || (i > 0 && j > 0);
    }
  }

  // ---- attempts, crashes, and everything in between --------------------------------------------

  // One attempt writes its next record, or another caller appends something.  An attempt that makes
  // no further move has crashed.
  datatype Move = Write(attempt: nat, now: int, clock: nat -> int) | Foreign(call: Call)

  // How many records an attempt has written.
  function Progress(moves: seq<Move>, attempt: nat): nat {
    if moves == [] then 0
    else Progress(Front(moves), attempt) + if Last(moves).Write? && Last(moves).attempt == attempt then 1 else 0
  }

  function CallOf(input: HandoffInput, lower: string -> string, i: nat, now: int, clock: nat -> int): Call
    requires i < |Script(input)|
  {
    Call(AppendOf(Script(input)[i], lower, now), clock)
  }

  function StoreOf(store: Store, input: HandoffInput, lower: string -> string, hash: Hash, moves: seq<Move>): (r: Store)
    ensures r.Keys == store.Keys
  {
    if moves == [] then store
    else
      var before := StoreOf(store, input, lower, hash, Front(moves));
      match Last(moves)
      case Foreign(call) => Appended(before, call.input, hash, call.clock)
      case Write(attempt, now, clock) =>
        var i := Progress(Front(moves), attempt);
        if i >= |Script(input)| then before
        else Appended(before, CallOf(input, lower, i, now, clock).input, hash, clock)
  }

  // The others keep away from the keys of this handoff.
  ghost predicate KeepsAway(call: Call, input: HandoffInput)
    requires input.idempotencyKey.Some?
  {
    forall i :: 0 <= i < |Script(input)| ==>
      var k := DerivedKey(input.idempotencyKey.value, i);
      !Forges(call.input, input.conversation, k) && call.input.idempotencyKey != Some(k)
  }

  lemma ScriptKeys(input: HandoffInput, i: nat)
    requires input.idempotencyKey.Some? && i < |Script(input)|
    ensures var r := Script(input)[i];
      r.conversation == input.conversation && r.idempotencyKey == Some(DerivedKey(input.idempotencyKey.value, i))
        && r.occurredAt == None
  {
    hide HandoffContent;
  }

  // What a keyed record is digested to does not depend on the clock.
  lemma ClockFree(input: HandoffInput, lower: string -> string, i: nat, now: int, later: int, clock: nat -> int)
    requires input.idempotencyKey.Some? && i < |Script(input)|
    ensures CallOf(input, lower, i, now, clock).input == CallOf(input, lower, i, later, clock).input
    ensures Writes(CallOf(input, lower, i, now, clock).input, input.conversation,
                   DerivedKey(input.idempotencyKey.value, i))
    ensures |CallOf(input, lower, i, now, clock).input.events| == 1
  {
    hide Script, FormatContent, CountWords, MetadataOf, DerivedKey;
    ScriptKeys(input, i);
  }

  // ---- the invariant -----------------------------------------------------------------------------

  // The i-th record is in the ledger at a position, once.
  ghost predicate StandsAt(events: seq<LedgerEvent>, input: HandoffInput, lower: string -> string, hash: Hash, i: nat,
                           position: nat)
    requires input.idempotencyKey.Some? && i < |Script(input)|
  {
    exists now, clock :: IsBlock(events, DerivedKey(input.idempotencyKey.value, i),
                                 CallOf(input, lower, i, now, clock), hash, position)
  }

  // The first n records are in the ledger, in order, each once; the others not at all.
  ghost predicate WrittenUpTo(events: seq<LedgerEvent>, input: HandoffInput, lower: string -> string, hash: Hash,
                              positions: seq<nat>)
    requires input.idempotencyKey.Some?
  {
    && |positions| <= |Script(input)|
    && (forall i, j :: 0 <= i < j < |positions| ==> positions[i] < positions[j])
    && (forall i :: 0 <= i < |positions| ==>
        positions[i] < |events| && StandsAt(events, input, lower, hash, i, positions[i]))
    && (forall i :: |positions| <= i < |Script(input)| ==>
        forall e :: e in events ==> !Carries(e, DerivedKey(input.idempotencyKey.value, i)))
  }

  lemma StillStands(events: seq<LedgerEvent>, more: seq<LedgerEvent>, input: HandoffInput, lower: string -> string,
                    hash: Hash, i: nat, position: nat)
    requires input.idempotencyKey.Some? && i < |Script(input)| && StandsAt(events, input, lower, hash, i, position)
    requires forall e :: e in more ==> !Carries(e, DerivedKey(input.idempotencyKey.value, i))
    ensures StandsAt(events + more, input, lower, hash, i, position)
  {
    var k := DerivedKey(input.idempotencyKey.value, i);
    var now, clock :| IsBlock(events, k, CallOf(input, lower, i, now, clock), hash, position);
    ClockFree(input, lower, i, now, now, clock);
    hide IsBlock, CallOf, Carries;
    BlockStays(events, more, k, CallOf(input, lower, i, now, clock), hash, position);
  }

  // Appending events that carry none of the keys keeps the invariant.
  lemma UnrelatedEvents(events: seq<LedgerEvent>, more: seq<LedgerEvent>, input: HandoffInput,
                        lower: string -> string, hash: Hash, positions: seq<nat>)
    requires input.idempotencyKey.Some? && WrittenUpTo(events, input, lower, hash, positions)
    requires forall i, e :: 0 <= i < |Script(input)| && e in more ==>
      !Carries(e, DerivedKey(input.idempotencyKey.value, i))
    ensures WrittenUpTo(events + more, input, lower, hash, positions)
  {
    hide StandsAt, Carries, DerivedKey;
    forall i | 0 <= i < |positions| ensures StandsAt(events + more, input, lower, hash, i, positions[i]) {
      StillStands(events, more, input, lower, hash, i, positions[i]);
    }
  }

  lemma ForeignMove(store: Store, input: HandoffInput, lower: string -> string, hash: Hash, positions: seq<nat>,
                    call: Call)
    requires input.idempotencyKey.Some? && input.conversation in store && KeepsAway(call, input)
    requires WrittenUpTo(store[input.conversation].events, input, lower, hash, positions)
    ensures WrittenUpTo(Appended(store, call.input, hash, call.clock)[input.conversation].events, input, lower, hash,
                        positions)
  {
    hide WrittenUpTo;
    var c := input.conversation;
    OneCall(store, call, hash, c);
    if call.input.conversation == c && Extends(store, call.input, hash) {
      var more := Stored(call.input, |store[c].events| + 1, hash, call.clock);
      forall i | 0 <= i < |Script(input)| ensures forall e :: e in more ==>
        !Carries(e, DerivedKey(input.idempotencyKey.value, i)) {
        OtherCall(store[c].events, c, DerivedKey(input.idempotencyKey.value, i), call, hash);
      }
      UnrelatedEvents(store[c].events, more, input, lower, hash, positions);
    }
  }

  // Writing a record that is already there changes nothing.
  lemma RepeatedWrite(store: Store, input: HandoffInput, lower: string -> string, hash: Hash, i: nat, position: nat,
                      now: int, clock: nat -> int)
    requires CollisionFree(hash) && input.idempotencyKey.Some? && input.conversation in store && i < |Script(input)|
    requires StandsAt(store[input.conversation].events, input, lower, hash, i, position)
    ensures Appended(store, CallOf(input, lower, i, now, clock).input, hash, clock) == store
  {
    hide CollisionFree, IsBlock;
    var k := DerivedKey(input.idempotencyKey.value, i);
    var now0, clock0 :| IsBlock(store[input.conversation].events, k, CallOf(input, lower, i, now0, clock0), hash,
                                position);
    ClockFree(input, lower, i, now0, now, clock0);
    ClockFree(input, lower, i, now0, now, clock);
    LaterCall(store, input.conversation, k, CallOf(input, lower, i, now0, clock0), position,
              CallOf(input, lower, i, now, clock), hash);
  }

  lemma OneMoreWritten(events: seq<LedgerEvent>, more: seq<LedgerEvent>, input: HandoffInput, lower: string -> string,
                       hash: Hash, positions: seq<nat>)
    requires input.idempotencyKey.Some? && |positions| < |Script(input)| && more != []
    requires WrittenUpTo(events, input, lower, hash, positions)
    requires StandsAt(events + more, input, lower, hash, |positions|, |events|)
    requires forall i, e :: 0 <= i < |Script(input)| && i != |positions| && e in more ==>
      !Carries(e, DerivedKey(input.idempotencyKey.value, i))
    ensures WrittenUpTo(events + more, input, lower, hash, positions + [|events|])
  {
    hide StandsAt, Carries, DerivedKey, Script;
    var now := positions + [|events|];
    forall i | 0 <= i < |positions| ensures StandsAt(events + more, input, lower, hash, i, positions[i]) {
      StillStands(events, more, input, lower, hash, i, positions[i]);
    }
  }

  lemma NextEvents(store: Store, input: HandoffInput, lower: string -> string, hash: Hash, n: nat, now: int,
                   clock: nat -> int)
    returns (more: seq<LedgerEvent>)
    requires input.idempotencyKey.Some? && input.conversation in store && n < |Script(input)|
    requires forall e :: e in store[input.conversation].events ==>
      !Carries(e, DerivedKey(input.idempotencyKey.value, n))
    ensures Appended(store, CallOf(input, lower, n, now, clock).input, hash, clock)[input.conversation].events
         == store[input.conversation].events + more
    ensures |more| == 1 && forall i :: i != n ==> !Carries(more[0], DerivedKey(input.idempotencyKey.value, i))
    ensures StandsAt(store[input.conversation].events + more, input, lower, hash, n, |store[input.conversation].events|)
  {
    hide Carries, IsBlock, DerivedKey, Script, CallOf;
    var c, key := input.conversation, input.idempotencyKey.value;
    var call, events := CallOf(input, lower, n, now, clock), store[input.conversation].events;
    assert call.clock == clock by {
      CallClock(input, lower, n, now, clock);
    }
    ClockFree(input, lower, n, now, now, clock);
    FirstCall(store, c, DerivedKey(key, n), call, hash);
    OneCall(store, call, hash, c);
    more := Stored(call.input, |events| + 1, hash, clock);
    forall i | i != n ensures !Carries(more[0], DerivedKey(key, i)) {
      DerivedKeysDiffer(key, i, n);
      StoredCarries(call.input, |events| + 1, hash, clock, DerivedKey(key, i), 0);
    }
  }

  lemma CallClock(input: HandoffInput, lower: string -> string, i: nat, now: int, clock: nat -> int)
    requires i < |Script(input)|
    ensures CallOf(input, lower, i, now, clock).clock == clock
  {
  }

  // Writing the next record appends it behind the others.
  lemma NextWrite(store: Store, input: HandoffInput, lower: string -> string, hash: Hash, positions: seq<nat>,
                  now: int, clock: nat -> int)
    requires input.idempotencyKey.Some? && input.conversation in store && |positions| < |Script(input)|
    requires WrittenUpTo(store[input.conversation].events, input, lower, hash, positions)
    ensures WrittenUpTo(EventsOf(Appended(store, CallOf(input, lower, |positions|, now, clock).input, hash, clock),
                                 input.conversation),
                        input, lower, hash, positions + [|store[input.conversation].events|])
  {
    hide WrittenUpTo, StandsAt, Carries, DerivedKey, Script, CallOf, Appended;
    NotYetWritten(store[input.conversation].events, input, lower, hash, positions);
    var more := NextEvents(store, input, lower, hash, |positions|, now, clock);
    OneMoreWritten(store[input.conversation].events, more, input, lower, hash, positions);
  }

  lemma NotYetWritten(events: seq<LedgerEvent>, input: HandoffInput, lower: string -> string, hash: Hash,
                      positions: seq<nat>)
    requires input.idempotencyKey.Some? && WrittenUpTo(events, input, lower, hash, positions)
      && |positions| < |Script(input)|
    ensures forall e :: e in events ==> !Carries(e, DerivedKey(input.idempotencyKey.value, |positions|))
  {
    hide StandsAt, Carries, DerivedKey, Script;
  }

  // ---- every run -------------------------------------------------------------------------------------

  ghost predicate AllKeepAway(moves: seq<Move>, input: HandoffInput)
    requires input.idempotencyKey.Some?
  {
    forall i :: 0 <= i < |moves| && moves[i].Foreign? ==> KeepsAway(moves[i].call, input)
  }

  // The furthest that any attempt got, but no further than the script.
  ghost predicate Furthest(moves: seq<Move>, input: HandoffInput, n: nat) {
    && n <= |Script(input)|
    && (forall a: nat :: Progress(moves, a) <= n || n == |Script(input)|)
    && (n == 0 || exists a: nat :: Progress(moves, a) >= n)
  }

  // After any interleaving of any number of attempts, each crashing anywhere, and of other callers:
  // the first n records of the script are in the ledger, in order and each exactly once, where n is
  // how far the furthest attempt got; no other event carries any of the keys.
  lemma {:induction false} EachOnceInOrder(store: Store, input: HandoffInput, lower: string -> string, hash: Hash,
                                           moves: seq<Move>)
    returns (positions: seq<nat>)
    requires CollisionFree(hash) && input.idempotencyKey.Some? && input.conversation in store
      && AllKeepAway(moves, input)
    requires WrittenUpTo(store[input.conversation].events, input, lower, hash, [])
    ensures WrittenUpTo(StoreOf(store, input, lower, hash, moves)[input.conversation].events, input, lower, hash,
                        positions)
    ensures Furthest(moves, input, |positions|)
  {
    hide WrittenUpTo, CollisionFree, KeepsAway, Appended, CallOf, Script;
    if moves == [] {
      positions := [];
    } else {
      var front, move := Front(moves), Last(moves);
      assert moves == front + [move];
      assert AllKeepAway(front, input);
      var before := StoreOf(store, input, lower, hash, front);
      positions := EachOnceInOrder(store, input, lower, hash, front);
      if move.Foreign? {
        assert forall a: nat :: Progress(moves, a) == Progress(front, a);
        ForeignMove(before, input, lower, hash, positions, move.call);
      } else {
        positions := OwnMove(before, input, lower, hash, front, move, positions);
      }
    }
  }

  lemma OwnMove(before: Store, input: HandoffInput, lower: string -> string, hash: Hash, front: seq<Move>, move: Move,
                positions: seq<nat>)
    returns (r: seq<nat>)
    requires CollisionFree(hash) && input.idempotencyKey.Some? && input.conversation in before && move.Write?
    requires WrittenUpTo(before[input.conversation].events, input, lower, hash, positions)
    requires Furthest(front, input, |positions|)
    ensures Furthest(front + [move], input, |r|)
    ensures var i := Progress(front, move.attempt);
      var after := if i >= |Script(input)| then before
        else Appended(before, CallOf(input, lower, i, move.now, move.clock).input, hash, move.clock);
      input.conversation in after && WrittenUpTo(after[input.conversation].events, input, lower, hash, r)
  {
    hide CollisionFree, StandsAt, WrittenUpTo, Extends, Extended, CallOf, Script, Furthest, Progress;
    var i := Progress(front, move.attempt);
    FurthestStep(front, move, input, |positions|);
    r := positions;
    if i < |positions| {
      WrittenStands(before[input.conversation].events, input, lower, hash, positions, i);
      RepeatedWrite(before, input, lower, hash, i, positions[i], move.now, move.clock);
    } else if i < |Script(input)| {
      NextWrite(before, input, lower, hash, positions, move.now, move.clock);
      r := positions + [|before[input.conversation].events|];
    }
  }

  // A write carries the furthest attempt on, or stays behind it.
  lemma FurthestStep(front: seq<Move>, move: Move, input: HandoffInput, n: nat)
    requires move.Write? && Furthest(front, input, n)
    ensures var i := Progress(front, move.attempt);
      && n <= |Script(input)| && (i <= n || n == |Script(input)|)
      && Furthest(front + [move], input, if i == n < |Script(input)| then n + 1 else n)
  {
    hide Script;
    ProgressStep(front, move);
    var i := Progress(front, move.attempt);
    hide Progress;
    if n > 0 {
      var a: nat :| Progress(front, a) >= n;
      assert Progress(front + [move], a) >= n;
    }
    assert Progress(front + [move], move.attempt) == i + 1;
  }

  lemma WrittenStands(events: seq<LedgerEvent>, input: HandoffInput, lower: string -> string, hash: Hash,
                      positions: seq<nat>, i: nat)
    requires input.idempotencyKey.Some? && WrittenUpTo(events, input, lower, hash, positions) && i < |positions|
    ensures i < |Script(input)| && StandsAt(events, input, lower, hash, i, positions[i])
  {
    hide StandsAt, Carries;
  }

  lemma ProgressStep(front: seq<Move>, move: Move)
    requires move.Write?
    ensures forall a: nat :: Progress(front + [move], a) == Progress(front, a) + if a == move.attempt then 1 else 0
  {
    assert Front(front + [move]) == front;
  }

  // As soon as one attempt has got through, the ledger holds exactly the records of the handoff: one
  // event under each key, with the text of its record, in the order of the script.
  lemma HandoffWrittenOnce(store: Store, input: HandoffInput, lower: string -> string, hash: Hash, moves: seq<Move>,
                           done: nat)
    returns (positions: seq<nat>)
    requires CollisionFree(hash) && input.idempotencyKey.Some? && input.conversation in store
      && AllKeepAway(moves, input)
    requires WrittenUpTo(store[input.conversation].events, input, lower, hash, [])
    requires Progress(moves, done) >= |Script(input)|
    ensures |positions| == |Script(input)|
    ensures var events := StoreOf(store, input, lower, hash, moves)[input.conversation].events;
      forall i :: 0 <= i < |positions| ==>
        && positions[i] < |events| && (i > 0 ==> positions[i - 1] < positions[i])
        && EventsForKey(events, DerivedKey(input.idempotencyKey.value, i)) == [events[positions[i]]]
        && events[positions[i]].content == ContentOf(Script(input)[i])
  {
    hide CollisionFree, KeepsAway, StandsAt, Script;
    positions := EachOnceInOrder(store, input, lower, hash, moves);
    var events := StoreOf(store, input, lower, hash, moves)[input.conversation].events;
    forall i | 0 <= i < |positions| ensures
      && EventsForKey(events, DerivedKey(input.idempotencyKey.value, i)) == [events[positions[i]]]
      && events[positions[i]].content == ContentOf(Script(input)[i])
    {
      StandingEvent(events, input, lower, hash, i, positions[i]);
    }
  }

  function ContentOf(r: RecordInput): string {
    FormatContent(r.kind, Trim(r.title), Trim(r.content))
  }

  lemma StandingEvent(events: seq<LedgerEvent>, input: HandoffInput, lower: string -> string, hash: Hash, i: nat,
                      position: nat)
    requires input.idempotencyKey.Some? && i < |Script(input)| && StandsAt(events, input, lower, hash, i, position)
      && position < |events|
    ensures EventsForKey(events, DerivedKey(input.idempotencyKey.value, i)) == [events[position]]
    ensures events[position].content == ContentOf(Script(input)[i])
  {
    hide Script, FormatContent, DerivedKey;
    var k := DerivedKey(input.idempotencyKey.value, i);
    var now, clock :| IsBlock(events, k, CallOf(input, lower, i, now, clock), hash, position);
    var call := CallOf(input, lower, i, now, clock);
    ClockFree(input, lower, i, now, now, clock);
    BlockOfKey(events, k, call, hash, position);
    assert events[position] == events[position..position + 1][0];
  }

  // One attempt on its own.
  function Solo(nows: nat -> int, clock: nat -> int, n: nat): seq<Move> {
    if n == 0 then [] else Solo(nows, clock, n - 1) + [Write(0, nows(n - 1), clock)]
  }

  lemma {:induction false} SoloProgress(nows: nat -> int, clock: nat -> int, n: nat)
    ensures Progress(Solo(nows, clock, n), 0) == n
  {
    if n > 0 {
      SoloProgress(nows, clock, n - 1);
      assert Front(Solo(nows, clock, n)) == Solo(nows, clock, n - 1);
    }
  }

  lemma SoloStep(store: Store, input: HandoffInput, lower: string -> string, hash: Hash, nows: nat -> int,
                 clock: nat -> int, i: nat)
    requires i < |Script(input)|
    ensures StoreOf(store, input, lower, hash, Solo(nows, clock, i + 1))
      == Appended(StoreOf(store, input, lower, hash, Solo(nows, clock, i)),
                  CallOf(input, lower, i, nows(i), clock).input, hash, clock)
  {
    hide Script, CallOf, Appended;
    SoloProgress(nows, clock, i);
    assert Front(Solo(nows, clock, i + 1)) == Solo(nows, clock, i);
  }

  lemma RecordedIsAppended(store: Store, input: HandoffInput, lower: string -> string, hash: Hash, i: nat, now: int,
                           clock: nat -> int)
    requires i < |Script(input)| && Recording(store, Script(input)[i], lower, hash, now, clock).Recorded?
    ensures StoreAfter(store, Script(input)[i], lower, hash, now, clock)
      == Appended(store, CallOf(input, lower, i, now, clock).input, hash, clock)
  {
    hide Script, AppendOf, RecordOf, Appended, Result;
  }

  // What one call of createHandoff does is one attempt of this system: it writes as many records as it
  // gets through, all of them unless a write fails.
  lemma {:induction false} CallIsAttempt(store: Store, input: HandoffInput, lower: string -> string, hash: Hash,
                                         nows: nat -> int, clock: nat -> int, records: seq<Record>)
    requires |records| <= |Script(input)|
    ensures var r := Written(Writing(StoreOf(store, input, lower, hash, Solo(nows, clock, |records|)), records, None),
                             Script(input), |records|, lower, hash, nows, clock);
      && r.store == StoreOf(store, input, lower, hash, Solo(nows, clock, |r.records|))
      && |r.records| <= |Script(input)| && (r.failure.None? <==> |r.records| == |Script(input)|)
    decreases |Script(input)| - |records|
  {
    hide Script, Recording, StoreAfter, StoreOf, Appended, CallOf;
    var i := |records|;
    var now := StoreOf(store, input, lower, hash, Solo(nows, clock, i));
    if i < |Script(input)| {
      var r := Recording(now, Script(input)[i], lower, hash, nows(i), clock);
      if r.Recorded? {
        RecordedIsAppended(now, input, lower, hash, i, nows(i), clock);
        SoloStep(store, input, lower, hash, nows, clock, i);
        CallIsAttempt(store, input, lower, hash, nows, clock, records + [r.record]);
      }
    }
  }

  // Without a key nothing recognizes a retry: every write adds another event.
  lemma UnkeyedWritesRepeat(store: Store, input: RecordInput, lower: string -> string, hash: Hash, now: int,
                            clock: nat -> int)
    requires input.idempotencyKey.None? && input.conversation in store && !Blank(input.title) && !Blank(input.content)
    ensures |StoreAfter(store, input, lower, hash, now, clock)[input.conversation].events|
      == |store[input.conversation].events| + 1
  {
  }
}
