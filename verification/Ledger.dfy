// Appending to the ledger of a conversation, once per idempotency key.
module Ledger {
  import opened Sequences

  datatype Json =
    | JNull
    | JBool(bool)
    | JNumber(number: int)
    | JString(text: string)
    | JArray(items: seq<Json>)
    | JObject(fields: map<Field, Json>)

  // Beyond it JavaScript's numbers skip integers.
  const MAX_SAFE_INTEGER := 0x1F_FFFF_FFFF_FFFF

  // The fields known by name; callers may use any others.
  datatype Field =
    | IdempotencyKeyField | IdempotencyDigestField
    | SourceField | KindField | ContinuityKindField | RecordIdField | StatusField | ImportanceField | ProvenanceField
    | SupersedesField | RelatedField | SupersededByField
    | EventIdsField | SummaryIdsField | ArtifactIdsField | TranscriptPathField | LineStartField | LineEndField
    | ToolUseIdField | CommandField
    | OtherField(name: string)

  type Metadata = map<Field, Json>

  datatype Role = System | User | Assistant | Tool

  datatype NewEvent = NewEvent(role: Role, content: string, tokenCount: nat, metadata: Metadata,
                               occurredAt: Option<int>)

  // Ids are derived from, among other things, conversation and sequence, so these two stand for them.
  datatype EventId = EventId(conversation: string, sequence: nat)

  datatype LedgerEvent =
    LedgerEvent(id: EventId, sequence: nat, role: Role, content: string, tokenCount: nat, occurredAt: int,
                metadata: Metadata)

  datatype AppendInput = AppendInput(conversation: string, events: seq<NewEvent>, idempotencyKey: Option<string>)

  datatype Conversation = Conversation(softThreshold: nat, events: seq<LedgerEvent>, contextTokens: nat)

  type Store = map<string, Conversation>

  datatype AppendResult =
    | Output(appended: seq<LedgerEvent>, existing: seq<LedgerEvent>, contextTokens: nat)
    | ConversationNotFound
    | IdempotencyConflict

  // What is hashed: the conversation and the events, times not supplied by the caller left out.
  datatype Payload = Payload(conversation: string, events: seq<NewEvent>)

  type Hash = Payload -> string

  ghost predicate CollisionFree(hash: Hash) {
    forall p, q :: hash(p) == hash(q) ==> p == q
  }

  function MetadataString(metadata: Metadata, field: Field): Option<string> {
    if field in metadata && metadata[field].JString? then Some(metadata[field].text) else None
  }

  function PersistedMetadata(metadata: Metadata, key: Option<string>, digest: Option<string>): Metadata {
    if key.None? || digest.None? then metadata
    else metadata[IdempotencyKeyField := JString(key.value)][IdempotencyDigestField := JString(digest.value)]
  }

  predicate Carries(e: LedgerEvent, key: string) {
    MetadataString(e.metadata, IdempotencyKeyField) == Some(key)
  }

  function CarriesKey(key: string): LedgerEvent -> bool {
    (e: LedgerEvent) => Carries(e, key)
  }

  function EventsForKey(events: seq<LedgerEvent>, key: string): seq<LedgerEvent> {
    Filter(events, CarriesKey(key))
  }

  predicate HasDigest(e: LedgerEvent, digest: string) {
    MetadataString(e.metadata, IdempotencyDigestField) == Some(digest)
  }

  predicate Conflicts(eventsForKey: seq<LedgerEvent>, digest: string) {
    exists i :: 0 <= i < |eventsForKey| && !HasDigest(eventsForKey[i], digest)
  }

  predicate Matches(eventsForKey: seq<LedgerEvent>, digest: string) {
    eventsForKey != [] && forall i :: 0 <= i < |eventsForKey| ==> HasDigest(eventsForKey[i], digest)
  }

  function DigestOf(input: AppendInput, hash: Hash): Option<string> {
    if input.idempotencyKey.None? then None else Some(hash(Payload(input.conversation, input.events)))
  }

  // The events as stored, numbered on from the ones before; the clock is read for events without a time.
  function Stored(input: AppendInput, base: nat, hash: Hash, clock: nat -> int): (r: seq<LedgerEvent>)
    ensures |r| == |input.events|
    ensures forall i :: 0 <= i < |r| ==> r[i] == StoredEvent(input, i, base, hash, clock)
  {
    seq(|input.events|, i requires 0 <= i < |input.events| => StoredEvent(input, i, base, hash, clock))
  }

  function StoredEvent(input: AppendInput, i: nat, base: nat, hash: Hash, clock: nat -> int): LedgerEvent
    requires i < |input.events|
  {
    var e := input.events[i];
    LedgerEvent(EventId(input.conversation, base + i), base + i, e.role, e.content, e.tokenCount,
                if e.occurredAt.Some? then e.occurredAt.value else clock(i),
                PersistedMetadata(e.metadata, input.idempotencyKey, DigestOf(input, hash)))
  }

  function EventTokens(e: LedgerEvent): nat { e.tokenCount }

  // ---- one append -------------------------------------------------------------------------

  predicate Replays(c: Conversation, input: AppendInput, hash: Hash) {
    input.idempotencyKey.Some? && Matches(EventsForKey(c.events, input.idempotencyKey.value),
                                          DigestOf(input, hash).value)
  }

  predicate Rejects(c: Conversation, input: AppendInput, hash: Hash) {
    input.idempotencyKey.Some? && Conflicts(EventsForKey(c.events, input.idempotencyKey.value),
                                            DigestOf(input, hash).value)
  }

  function Extended(c: Conversation, input: AppendInput, hash: Hash, clock: nat -> int): Conversation {
    var added := Stored(input, |c.events| + 1, hash, clock);
    c.(events := c.events + added, contextTokens := c.contextTokens + Sum(added, EventTokens))
  }

  predicate Extends(store: Store, input: AppendInput, hash: Hash) {
    && input.conversation in store && input.events != []
    && !Rejects(store[input.conversation], input, hash) && !Replays(store[input.conversation], input, hash)
  }

  function Appended(store: Store, input: AppendInput, hash: Hash, clock: nat -> int): (r: Store)
    ensures r.Keys == store.Keys
  {
    if !Extends(store, input, hash) then store
    else store[input.conversation := Extended(store[input.conversation], input, hash, clock)]
  }

  function Result(store: Store, input: AppendInput, hash: Hash, clock: nat -> int): AppendResult {
    if input.conversation !in store then ConversationNotFound
    else
      var c := store[input.conversation];
      if input.events == [] then Output([], [], c.contextTokens)
      else if Rejects(c, input, hash) then IdempotencyConflict
      else if Replays(c, input, hash) then Output([], EventsForKey(c.events, input.idempotencyKey.value),
                                                  c.contextTokens)
      else Output(Stored(input, |c.events| + 1, hash, clock), [], Extended(c, input, hash, clock).contextTokens)
  }

  // A soft compaction is requested when the append carries the context over the threshold.
  predicate CrossesThreshold(store: Store, input: AppendInput, hash: Hash, clock: nat -> int) {
    && Extends(store, input, hash)
    && var c := store[input.conversation];
       c.contextTokens <= c.softThreshold < Extended(c, input, hash, clock).contextTokens
  }

  class AppendLedgerEvents {
    var store: Store
    var compactionJobs: seq<string>
    var published: seq<EventId>
    const hash: Hash

    constructor (hash: Hash, store: Store)
      ensures this.hash == hash && this.store == store && compactionJobs == [] && published == []
    {
      this.hash, this.store, compactionJobs, published := hash, store, [], [];
    }

    method Execute(input: AppendInput, clock: nat -> int) returns (r: AppendResult)
      modifies this
      ensures r == Result(old(store), input, hash, clock)
      ensures store == Appended(old(store), input, hash, clock)
      ensures compactionJobs == old(compactionJobs)
        + if CrossesThreshold(old(store), input, hash, clock) then [input.conversation] else []
      ensures published == old(published) + if r.Output? then IdsOf(r.appended) else []
    {
      hide EventsForKey, Conflicts, Matches, Stored, EventTokens;
      if input.conversation !in store {
        return ConversationNotFound;
      }
      var conversation := store[input.conversation];
      if input.events == [] {
        return Output([], [], conversation.contextTokens);
      }
      var existing := conversation.events;
      var digest := DigestOf(input, hash);
      if input.idempotencyKey.Some? {
        var forKey := EventsForKey(existing, input.idempotencyKey.value);
        if Conflicts(forKey, digest.value) {
          return IdempotencyConflict;
        }
        if Matches(forKey, digest.value) {
          return Output([], forKey, conversation.contextTokens);
        }
      }
      var before := conversation.contextTokens;
      var appended := Stored(input, |existing| + 1, hash, clock);
      var now := before + Sum(appended, EventTokens);
      store := store[input.conversation := conversation.(events := existing + appended, contextTokens := now)];
      if before <= conversation.softThreshold < now {
        compactionJobs := compactionJobs + [input.conversation];
      }
      published := published + IdsOf(appended);
      r := Output(appended, [], now);
    }
  }

  function IdsOf(events: seq<LedgerEvent>): seq<EventId> {
    if events == [] then [] else [events[0].id] + IdsOf(events[1..])
  }
}
