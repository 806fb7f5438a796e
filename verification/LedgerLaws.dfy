// What holds of a ledger after any sequence of appends.
module LedgerLaws {
  import opened Sequences
  import opened Ledger

  datatype Call = Call(input: AppendInput, clock: nat -> int)

  // The store after a sequence of calls.
  function Run(store: Store, calls: seq<Call>, hash: Hash): (r: Store)
    ensures r.Keys == store.Keys
  {
    if calls == [] then store
    else Appended(Run(store, Front(calls), hash), Last(calls).input, hash, Last(calls).clock)
  }

  function EventsOf(store: Store, c: string): seq<LedgerEvent> {
    if c in store then store[c].events else []
  }

  // ---- numbering -----------------------------------------------------------------------------

  ghost predicate GapFree(events: seq<LedgerEvent>, c: string) {
    forall i :: 0 <= i < |events| ==> events[i].sequence == i + 1 && events[i].id == EventId(c, i + 1)
  }

  // A call to one conversation leaves the others alone; it changes its own by appending, if at all.
  lemma OneCall(store: Store, call: Call, hash: Hash, c: string)
    ensures EventsOf(store, c) <= EventsOf(Appended(store, call.input, hash, call.clock), c)
    ensures call.input.conversation != c
      ==> EventsOf(Appended(store, call.input, hash, call.clock), c) == EventsOf(store, c)
    ensures Extends(store, call.input, hash) && call.input.conversation == c ==>
      EventsOf(Appended(store, call.input, hash, call.clock), c)
        == EventsOf(store, c) + Stored(call.input, |EventsOf(store, c)| + 1, hash, call.clock)
  {
  }

  // Sequence numbers stay gap-free and nothing already written is ever changed or removed.
  lemma {:induction false} AppendOnly(store: Store, calls: seq<Call>, hash: Hash, c: string)
    requires GapFree(EventsOf(store, c), c)
    ensures GapFree(EventsOf(Run(store, calls, hash), c), c)
    ensures EventsOf(store, c) <= EventsOf(Run(store, calls, hash), c)
  {
    if calls != [] {
      AppendOnly(store, Front(calls), hash, c);
      OneCall(Run(store, Front(calls), hash), Last(calls), hash, c);
    }
  }

  // ---- keys ------------------------------------------------------------------------------------

  // A caller without an idempotency key that writes the reserved metadata field itself.
  predicate Forges(input: AppendInput, c: string, k: string) {
    && input.conversation == c && input.idempotencyKey.None?
    && exists i :: 0 <= i < |input.events| && MetadataString(input.events[i].metadata, IdempotencyKeyField) == Some(k)
  }

  ghost predicate NoForgery(calls: seq<Call>, c: string, k: string) {
    forall i :: 0 <= i < |calls| ==> !Forges(calls[i].input, c, k)
  }

  predicate Writes(input: AppendInput, c: string, k: string) {
    input.conversation == c && input.idempotencyKey == Some(k) && input.events != []
  }

  // The first call that wrote under the key.
  function FirstWriter(calls: seq<Call>, c: string, k: string): (r: Option<Call>)
    ensures r.Some? ==> Writes(r.value.input, c, k) && r.value in calls
    ensures r.None? ==> forall i :: 0 <= i < |calls| ==> !Writes(calls[i].input, c, k)
  {
    if calls == [] then None
    else
      var before := FirstWriter(Front(calls), c, k);
      if before.Some? then before
      else if Writes(Last(calls).input, c, k) then Some(Last(calls))
      else None
  }

  // The events from one position on are those of one call, and no other event carries the key.
  ghost predicate IsBlock(events: seq<LedgerEvent>, k: string, call: Call, hash: Hash, start: nat) {
    && start + |call.input.events| <= |events|
    && events[start..start + |call.input.events|] == Stored(call.input, start + 1, hash, call.clock)
    && forall i :: 0 <= i < |events| && (i < start || start + |call.input.events| <= i) ==> !Carries(events[i], k)
  }

  ghost predicate Owned(events: seq<LedgerEvent>, k: string, writer: Option<Call>, hash: Hash) {
    match writer
    case None => forall e :: e in events ==> !Carries(e, k)
    case Some(call) => exists start: nat :: IsBlock(events, k, call, hash, start)
  }

  lemma StoredCarries(input: AppendInput, base: nat, hash: Hash, clock: nat -> int, k: string, i: nat)
    requires i < |input.events|
    ensures input.idempotencyKey.Some? ==>
      (Carries(StoredEvent(input, i, base, hash, clock), k) <==> input.idempotencyKey == Some(k))
      && HasDigest(StoredEvent(input, i, base, hash, clock), hash(Payload(input.conversation, input.events)))
    ensures input.idempotencyKey.None? ==>
      (Carries(StoredEvent(input, i, base, hash, clock), k)
       <==> MetadataString(input.events[i].metadata, IdempotencyKeyField) == Some(k))
  {
  }

  // The events of a key are the whole block of its first writer.
  lemma BlockOfKey(events: seq<LedgerEvent>, k: string, call: Call, hash: Hash, start: nat)
    requires IsBlock(events, k, call, hash, start) && call.input.idempotencyKey == Some(k)
    ensures EventsForKey(events, k) == Stored(call.input, start + 1, hash, call.clock)
  {
    var n := |call.input.events|;
    forall i | 0 <= i < |events| ensures Carries(events[i], k) <==> start <= i < start + n {
      if start <= i < start + n {
        assert events[i] == events[start..start + n][i - start];
        StoredCarries(call.input, start + 1, hash, call.clock, k, i - start);
      }
    }
    hide Carries;
    FilterMiddle(events, start, start + n, CarriesKey(k));
  }

  // A later call with the key: a retry of the same payload replays the block, any other payload is
  // rejected, and neither changes anything.
  lemma LaterCall(store: Store, c: string, k: string, first: Call, start: nat, later: Call, hash: Hash)
    requires CollisionFree(hash) && c in store && Writes(first.input, c, k) && Writes(later.input, c, k)
    requires IsBlock(store[c].events, k, first, hash, start)
    ensures Appended(store, later.input, hash, later.clock) == store
    ensures Result(store, later.input, hash, later.clock) ==
      if later.input == first.input
      then Output([], Stored(first.input, start + 1, hash, first.clock), store[c].contextTokens)
      else IdempotencyConflict
  {
    BlockOfKey(store[c].events, k, first, hash, start);
    var block := Stored(first.input, start + 1, hash, first.clock);
    forall i | 0 <= i < |block| ensures HasDigest(block[i], hash(Payload(c, first.input.events))) {
      StoredCarries(first.input, start + 1, hash, first.clock, k, i);
    }
    assert later.input == first.input <==> later.input.events == first.input.events;
    if later.input != first.input {
      assert !HasDigest(block[0], hash(Payload(c, later.input.events)));
    }
  }

  lemma OtherCall(events: seq<LedgerEvent>, c: string, k: string, call: Call, hash: Hash)
    requires call.input.conversation == c && !Forges(call.input, c, k) && call.input.idempotencyKey != Some(k)
    ensures forall e :: e in Stored(call.input, |events| + 1, hash, call.clock) ==> !Carries(e, k)
  {
    var added := Stored(call.input, |events| + 1, hash, call.clock);
    forall e | e in added ensures !Carries(e, k) {
      var i :| 0 <= i < |added| && added[i] == e;
      StoredCarries(call.input, |events| + 1, hash, call.clock, k, i);
    }
  }

  lemma FirstCall(store: Store, c: string, k: string, call: Call, hash: Hash)
    requires c in store && Writes(call.input, c, k) && forall e :: e in store[c].events ==> !Carries(e, k)
    ensures Extends(store, call.input, hash)
    ensures IsBlock(Appended(store, call.input, hash, call.clock)[c].events, k, call, hash, |store[c].events|)
  {
    FilterNone(store[c].events, CarriesKey(k));
  }

  // First writer wins: after any sequence of calls, the key belongs to one contiguous block, the
  // events of the first call that used it, each once and in order.
  lemma {:induction false} FirstWriterWins(store: Store, calls: seq<Call>, hash: Hash, c: string, k: string)
    requires CollisionFree(hash) && c in store && NoForgery(calls, c, k)
    requires forall e :: e in store[c].events ==> !Carries(e, k)
    ensures Owned(Run(store, calls, hash)[c].events, k, FirstWriter(calls, c, k), hash)
  {
    hide CollisionFree;
    if calls != [] {
      FirstWriterWins(store, Front(calls), hash, c, k);
      var before, call := Run(store, Front(calls), hash), Last(calls);
      var writer := FirstWriter(Front(calls), c, k);
      OneCall(before, call, hash, c);
      if Writes(call.input, c, k) {
        if writer.Some? {
          var start: nat :| IsBlock(before[c].events, k, writer.value, hash, start);
          LaterCall(before, c, k, writer.value, start, call, hash);
        } else {
          FirstCall(before, c, k, call, hash);
        }
      } else if call.input.conversation == c && call.input.events != [] {
        OtherCall(before[c].events, c, k, call, hash);
        StillOwned(before[c].events, Stored(call.input, |before[c].events| + 1, hash, call.clock), k, writer, hash);
      }
    }
  }

  lemma BlockStays(events: seq<LedgerEvent>, more: seq<LedgerEvent>, k: string, call: Call, hash: Hash, start: nat)
    requires IsBlock(events, k, call, hash, start) && forall e :: e in more ==> !Carries(e, k)
    ensures IsBlock(events + more, k, call, hash, start)
  {
    var n := |call.input.events|;
    assert (events + more)[start..start + n] == events[start..start + n];
  }

  lemma StillOwned(events: seq<LedgerEvent>, more: seq<LedgerEvent>, k: string, writer: Option<Call>, hash: Hash)
    requires Owned(events, k, writer, hash) && forall e :: e in more ==> !Carries(e, k)
    ensures Owned(events + more, k, writer, hash)
  {
    if writer.Some? {
      var start: nat :| IsBlock(events, k, writer.value, hash, start);
      BlockStays(events, more, k, writer.value, hash, start);
    }
  }

  // So every retry, at any later time, gets the original events back.
  lemma RetryReturnsOriginal(store: Store, calls: seq<Call>, later: Call, hash: Hash, c: string, k: string)
    requires CollisionFree(hash) && c in store && NoForgery(calls, c, k)
    requires forall e :: e in store[c].events ==> !Carries(e, k)
    requires Writes(later.input, c, k) && FirstWriter(calls, c, k).Some?
    ensures var now, first := Run(store, calls, hash), FirstWriter(calls, c, k).value;
      && Appended(now, later.input, hash, later.clock) == now
      && exists start: nat :: IsBlock(now[c].events, k, first, hash, start)
           && Result(now, later.input, hash, later.clock) ==
                if later.input == first.input
                then Output([], Stored(first.input, start + 1, hash, first.clock), now[c].contextTokens)
                else IdempotencyConflict
  {
    hide CollisionFree, IsBlock;
    var now, first := Run(store, calls, hash), FirstWriter(calls, c, k).value;
    FirstWriterWins(store, calls, hash, c, k);
    var start: nat :| IsBlock(now[c].events, k, first, hash, start);
    LaterCall(now, c, k, first, start, later, hash);
  }

  // ---- why callers must leave the reserved fields alone -----------------------------------------

  // The idempotency key of the call that wrote each event of a conversation that started out empty.
  function KeysUsed(store: Store, calls: seq<Call>, hash: Hash, c: string): seq<Option<string>> {
    if calls == [] then []
    else
      var call := Last(calls);
      KeysUsed(store, Front(calls), hash, c)
      + if Extends(Run(store, Front(calls), hash), call.input, hash) && call.input.conversation == c
        then seq(|call.input.events|, i => call.input.idempotencyKey) else []
  }

  lemma {:induction false} KeysUsedMatch(store: Store, calls: seq<Call>, hash: Hash, c: string)
    requires EventsOf(store, c) == []
    ensures |KeysUsed(store, calls, hash, c)| == |EventsOf(Run(store, calls, hash), c)|
  {
    if calls != [] {
      KeysUsedMatch(store, Front(calls), hash, c);
      OneCall(Run(store, Front(calls), hash), Last(calls), hash, c);
    }
  }

  // Every event with the key was written by a call that used the key.
  ghost predicate Trusted(events: seq<LedgerEvent>, keys: seq<Option<string>>, k: string)
    requires |events| == |keys|
  {
    forall i :: 0 <= i < |events| && Carries(events[i], k) ==> keys[i] == Some(k)
  }

  lemma TrustedConcat(events: seq<LedgerEvent>, keys: seq<Option<string>>, more: seq<LedgerEvent>,
                      moreKeys: seq<Option<string>>, k: string)
    requires |events| == |keys| && |more| == |moreKeys|
    ensures Trusted(events + more, keys + moreKeys, k) <==> Trusted(events, keys, k) && Trusted(more, moreKeys, k)
  {
    if Trusted(events + more, keys + moreKeys, k) {
      forall i | 0 <= i < |events| && Carries(events[i], k) ensures keys[i] == Some(k) {
        assert (events + more)[i] == events[i];
      }
      forall i | 0 <= i < |more| && Carries(more[i], k) ensures moreKeys[i] == Some(k) {
        assert (events + more)[|events| + i] == more[i];
      }
    }
  }

  lemma TrustOfCall(input: AppendInput, base: nat, hash: Hash, clock: nat -> int, k: string)
    ensures Trusted(Stored(input, base, hash, clock), seq(|input.events|, i => input.idempotencyKey), k)
       <==> !Forges(input, input.conversation, k)
  {
    var added := Stored(input, base, hash, clock);
    forall i | 0 <= i < |input.events| ensures
      (Carries(added[i], k) && input.idempotencyKey != Some(k))
        <==> (input.idempotencyKey.None? && MetadataString(input.events[i].metadata, IdempotencyKeyField) == Some(k))
    {
      StoredCarries(input, base, hash, clock, k, i);
    }
  }

  // Exactly when nobody writes the reserved field by hand, every event carrying the key was written
  // under the key.
  lemma {:induction false} TrustedIffNoForgery(store: Store, calls: seq<Call>, hash: Hash, c: string, k: string)
    requires c in store && store[c].events == []
    ensures |KeysUsed(store, calls, hash, c)| == |EventsOf(Run(store, calls, hash), c)|
    ensures Trusted(EventsOf(Run(store, calls, hash), c), KeysUsed(store, calls, hash, c), k)
      <==> NoForgery(calls, c, k)
  {
    KeysUsedMatch(store, calls, hash, c);
    if calls != [] {
      var before, call := Run(store, Front(calls), hash), Last(calls);
      KeysUsedMatch(store, Front(calls), hash, c);
      TrustedIffNoForgery(store, Front(calls), hash, c, k);
      OneCall(before, call, hash, c);
      NoForgeryStep(calls, c, k);
      if call.input.conversation == c && Extends(before, call.input, hash) {
        TrustOfCall(call.input, |EventsOf(before, c)| + 1, hash, call.clock, k);
        TrustedConcat(EventsOf(before, c), KeysUsed(store, Front(calls), hash, c),
                      Stored(call.input, |EventsOf(before, c)| + 1, hash, call.clock),
                      seq(|call.input.events|, i => call.input.idempotencyKey), k);
      }
    }
  }

  lemma NoForgeryStep(calls: seq<Call>, c: string, k: string)
    requires calls != []
    ensures NoForgery(calls, c, k) <==> NoForgery(Front(calls), c, k) && !Forges(Last(calls).input, c, k)
  {
    if NoForgery(calls, c, k) {
      forall i | 0 <= i < |Front(calls)| ensures !Forges(Front(calls)[i].input, c, k) {
        assert Front(calls)[i] == calls[i];
      }
    }
  }

  // One forged event is enough to lock the key: the first honest writer is turned away for good.
  lemma ForgeryLocksKey(hash: Hash, k: string, content: string) returns (forged: Call, honest: Call, store: Store)
    ensures store == map["c" := Conversation(0, [], 0)]
    ensures Forges(forged.input, "c", k) && Writes(honest.input, "c", k)
    ensures Result(Run(store, [forged], hash), honest.input, hash, honest.clock) == IdempotencyConflict
  {
    var digest := hash(Payload("c", [NewEvent(User, content, 1, map[], None)])) + "!";
    var clock := (i: nat) => 0;
    var metadata: Metadata := map[IdempotencyKeyField := JString(k), IdempotencyDigestField := JString(digest)];
    var event := NewEvent(User, content, 1, metadata, None);
    store := map["c" := Conversation(0, [], 0)];
    forged := Call(AppendInput("c", [event], None), clock);
    honest := Call(AppendInput("c", [NewEvent(User, content, 1, map[], None)], Some(k)), clock);
    assert event == forged.input.events[0];
    assert Run(store, Front([forged]), hash) == store;
    var stored := Run(store, [forged], hash)["c"].events;
    assert stored == Stored(forged.input, 1, hash, clock) && |stored| == 1;
    assert |digest| == |DigestOf(honest.input, hash).value| + 1;
    assert Carries(stored[0], k) && !HasDigest(stored[0], DigestOf(honest.input, hash).value);
    FilterAll(stored, CarriesKey(k));
    assert !HasDigest(EventsForKey(stored, k)[0], DigestOf(honest.input, hash).value);
  }

  // ---- the soft compaction request ---------------------------------------------------------------

  function Requests(store: Store, calls: seq<Call>, hash: Hash, c: string): nat {
    if calls == [] then 0
    else
      var call := Last(calls);
      Requests(store, Front(calls), hash, c)
      + if call.input.conversation == c && CrossesThreshold(Run(store, Front(calls), hash), call.input, hash,
                                                            call.clock) then 1 else 0
  }

  // Appends request a soft compaction at most once: exactly when they carry the context over the
  // threshold.
  lemma {:induction false} OneRequestPerCrossing(store: Store, calls: seq<Call>, hash: Hash, c: string)
    requires c in store
    ensures var now := Run(store, calls, hash)[c];
      && now.softThreshold == store[c].softThreshold && now.contextTokens >= store[c].contextTokens
      && Requests(store, calls, hash, c) == if store[c].contextTokens <= store[c].softThreshold < now.contextTokens
        then 1 else 0
  {
    if calls != [] {
      OneRequestPerCrossing(store, Front(calls), hash, c);
    }
  }
}
