// What an append writes, event by event, and what the context then costs.
module AppendLaws {
  import opened Sequences
  import opened Ledger
  import opened LedgerLaws

  function NewTokens(e: NewEvent): nat { e.tokenCount }

  // Outside the two reserved fields the metadata are the same.
  ghost predicate SameButReserved(a: Metadata, b: Metadata) {
    forall f :: f != IdempotencyKeyField && f != IdempotencyDigestField ==>
      (f in a <==> f in b) && (f in a ==> a[f] == b[f])
  }

  // The stored event says what the new one said.
  ghost predicate WrittenAs(e: NewEvent, stored: LedgerEvent, c: string, sequence: nat, reading: int) {
    && stored.id == EventId(c, sequence) && stored.sequence == sequence
    && stored.role == e.role && stored.content == e.content && stored.tokenCount == e.tokenCount
    && stored.occurredAt == (if e.occurredAt.Some? then e.occurredAt.value else reading)
    && SameButReserved(e.metadata, stored.metadata)
  }

  // With a key every event carries the key and the digest of the payload; without one nothing is reserved.
  ghost predicate Tagged(e: NewEvent, stored: LedgerEvent, key: Option<string>, digest: string) {
    if key.None? then stored.metadata == e.metadata
    else
      && MetadataString(stored.metadata, IdempotencyKeyField) == key
      && MetadataString(stored.metadata, IdempotencyDigestField) == Some(digest)
  }

  // An append is taken in if and only if the conversation exists, there is something to append, and its key is new.
  lemma TakenInIff(store: Store, input: AppendInput, hash: Hash)
    ensures Extends(store, input, hash) <==>
      && input.conversation in store && input.events != []
      && (input.idempotencyKey.Some? ==>
            forall e :: e in store[input.conversation].events ==>
              MetadataString(e.metadata, IdempotencyKeyField) != input.idempotencyKey)
  {
    hide HasDigest, MetadataString;
    if input.conversation in store && input.idempotencyKey.Some? {
      var events, key := store[input.conversation].events, input.idempotencyKey.value;
      forall e ensures
        e in EventsForKey(events, key) <==> e in events && MetadataString(e.metadata, IdempotencyKeyField) == Some(key)
      {
      }
      if EventsForKey(events, key) != [] {
        assert EventsForKey(events, key)[0] in EventsForKey(events, key);
      }
    }
  }

  lemma {:induction false} NewTokensStored(input: AppendInput, base: nat, hash: Hash, clock: nat -> int, n: nat)
    requires n <= |input.events|
    ensures Sum(Stored(input, base, hash, clock)[..n], EventTokens) == Sum(input.events[..n], NewTokens)
  {
    if n > 0 {
      NewTokensStored(input, base, hash, clock, n - 1);
      var stored := Stored(input, base, hash, clock);
      PrefixStep(stored, n - 1);
      PrefixStep(input.events, n - 1);
      SumAppend(stored[..n - 1], stored[n - 1], EventTokens);
      SumAppend(input.events[..n - 1], input.events[n - 1], NewTokens);
    }
  }

  lemma StoredIsWritten(input: AppendInput, i: nat, base: nat, hash: Hash, clock: nat -> int)
    requires i < |input.events|
    ensures var e, c := StoredEvent(input, i, base, hash, clock), input.conversation;
      && WrittenAs(input.events[i], e, c, base + i, clock(i))
      && Tagged(input.events[i], e, input.idempotencyKey, hash(Payload(c, input.events)))
  {
  }

  // What is taken in: each event as it was given, numbered on, and the context grown by their tokens.
  lemma TakenIn(store: Store, input: AppendInput, hash: Hash, clock: nat -> int)
    requires Extends(store, input, hash)
    ensures var c := input.conversation;
      var before, after := store[c], Appended(store, input, hash, clock)[c];
      var n := |before.events|;
      && |after.events| == n + |input.events| && after.events[..n] == before.events
      && (forall i :: 0 <= i < |input.events| ==>
            && WrittenAs(input.events[i], after.events[n + i], c, n + 1 + i, clock(i))
            && Tagged(input.events[i], after.events[n + i], input.idempotencyKey, hash(Payload(c, input.events))))
      && after.contextTokens == before.contextTokens + Sum(input.events, NewTokens)
      && after.softThreshold == before.softThreshold
      && Result(store, input, hash, clock) == Output(after.events[n..], [], after.contextTokens)
  {
    hide Rejects, Replays, WrittenAs, Tagged, StoredEvent, DigestOf;
    var n := |store[input.conversation].events|;
    var stored := Stored(input, n + 1, hash, clock);
    NewTokensStored(input, n + 1, hash, clock, |input.events|);
    assert stored[..|stored|] == stored && input.events[..|input.events|] == input.events;
    forall i | 0 <= i < |input.events|
      ensures WrittenAs(input.events[i], stored[i], input.conversation, n + 1 + i, clock(i))
      ensures Tagged(input.events[i], stored[i], input.idempotencyKey, hash(Payload(input.conversation, input.events)))
    {
      StoredIsWritten(input, i, n + 1, hash, clock);
    }
  }

  // The ids announced are those of the new events.
  lemma AnnouncedIds(store: Store, input: AppendInput, hash: Hash, clock: nat -> int)
    requires Extends(store, input, hash)
    ensures var r, n := Result(store, input, hash, clock), |store[input.conversation].events|;
      && r.Output? && |IdsOf(r.appended)| == |input.events|
      && forall i :: 0 <= i < |input.events| ==> IdsOf(r.appended)[i] == EventId(input.conversation, n + 1 + i)
  {
    hide Rejects, Replays;
    IdsAre(Result(store, input, hash, clock).appended);
  }

  lemma {:induction false} IdsAre(events: seq<LedgerEvent>)
    ensures |IdsOf(events)| == |events| && forall i :: 0 <= i < |events| ==> IdsOf(events)[i] == events[i].id
  {
    if events != [] {
      IdsAre(events[1..]);
    }
  }

  // What is not taken in changes nothing: the conversation is unknown, or there is nothing to append, or the key is in
  // use; then the events that carry it are returned in order if all of them have the digest of this payload.
  lemma NotTakenIn(store: Store, input: AppendInput, hash: Hash, clock: nat -> int)
    requires !Extends(store, input, hash)
    ensures Appended(store, input, hash, clock) == store
    ensures var r := Result(store, input, hash, clock);
      if input.conversation !in store then r == ConversationNotFound
      else
        var c, digest := store[input.conversation], hash(Payload(input.conversation, input.events));
        if input.events == [] then r == Output([], [], c.contextTokens)
        else
          var holders := Filter(c.events, KeyedAs(input.idempotencyKey));
          r == if exists e :: e in holders && MetadataString(e.metadata, IdempotencyDigestField) != Some(digest)
               then IdempotencyConflict else Output([], holders, c.contextTokens)
  {
    hide MetadataString;
    if input.conversation in store && input.events != [] {
      var events, key := store[input.conversation].events, input.idempotencyKey.value;
      FilterSame(events, KeyedAs(input.idempotencyKey), CarriesKey(key));
      var holders := EventsForKey(events, key);
      var digest := hash(Payload(input.conversation, input.events));
      if e :| e in holders && MetadataString(e.metadata, IdempotencyDigestField) != Some(digest) {
        var i :| 0 <= i < |holders| && holders[i] == e;
        assert !HasDigest(holders[i], digest);
      } else {
        assert forall i :: 0 <= i < |holders| ==> holders[i] in holders && HasDigest(holders[i], digest);
      }
    }
  }

  function KeyedAs(key: Option<string>): LedgerEvent -> bool {
    (e: LedgerEvent) => MetadataString(e.metadata, IdempotencyKeyField) == key
  }

  // ---- whole runs -----------------------------------------------------------------------------------

  // The tokens of all events of the conversation that were taken in.
  function TokensTakenIn(store: Store, calls: seq<Call>, hash: Hash, c: string): nat {
    if calls == [] then 0
    else
      var before, input := Run(store, Front(calls), hash), Last(calls).input;
      TokensTakenIn(store, Front(calls), hash, c)
      + if input.conversation == c && Extends(before, input, hash) then Sum(input.events, NewTokens) else 0
  }

  // After every run the context costs what it cost before plus what was taken in, which is what the new events cost.
  lemma {:induction false} ContextCost(store: Store, calls: seq<Call>, hash: Hash, c: string)
    requires c in store
    ensures var now := Run(store, calls, hash)[c];
      && now.contextTokens == store[c].contextTokens + TokensTakenIn(store, calls, hash, c)
      && Sum(now.events, EventTokens) == Sum(store[c].events, EventTokens) + TokensTakenIn(store, calls, hash, c)
  {
    if calls != [] {
      hide Extends, Stored;
      var before, call := Run(store, Front(calls), hash), Last(calls);
      ContextCost(store, Front(calls), hash, c);
      if call.input.conversation == c && Extends(before, call.input, hash) {
        TakenIn(before, call.input, hash, call.clock);
        var stored := Stored(call.input, |before[c].events| + 1, hash, call.clock);
        NewTokensStored(call.input, |before[c].events| + 1, hash, call.clock, |call.input.events|);
        assert stored[..|call.input.events|] == stored && call.input.events[..|call.input.events|] == call.input.events;
        SumConcat(before[c].events, stored, EventTokens);
      }
    }
  }
}
