// The current state as a replay of the ledger, and what marking a record does to it.
module ReplayLaws {
  import opened Sequences
  import opened Text
  import opened Ledger
  import opened LedgerLaws
  import opened Continuity
  import opened ContinuityLaws
  import opened CurrentState

  // Sequence numbers grow along the ledger.
  ghost predicate Increasing(records: seq<Record>) {
    forall i, j :: 0 <= i < j < |records| ==> SequenceOf(records[i]) < SequenceOf(records[j])
  }

  lemma EventIdKept(e: LedgerEvent)
    ensures ParseRecord(e).Some? ==> ParseRecord(e).value.eventId == e.id
  {
    hide ParseContent, SanitizeProvenance, Named;
  }

  lemma {:induction false} ParsedFromLedger(events: seq<LedgerEvent>)
    ensures forall r :: r in ParsedRecords(events) ==> exists e :: e in events && e.id == r.eventId
  {
    if events != [] {
      ParsedFromLedger(events[1..]);
      assert events[0] in events && forall e :: e in events[1..] ==> e in events;
    }
  }

  lemma {:induction false} ParsedIncreasing(events: seq<LedgerEvent>)
    requires forall i, j :: 0 <= i < j < |events| ==> events[i].id.sequence < events[j].id.sequence
    ensures Increasing(ParsedRecords(events))
  {
    hide ParseRecord;
    if events != [] {
      EventIdKept(events[0]);
      ParsedIncreasing(events[1..]);
      ParsedFromLedger(events[1..]);
      forall r | r in ParsedRecords(events[1..]) ensures events[0].id.sequence < SequenceOf(r) {
        var e :| e in events[1..] && e.id == r.eventId;
        var i :| 0 <= i < |events[1..]| && events[1..][i] == e;
        assert e == events[i + 1];
      }
    }
  }

  lemma OneParsed(e: LedgerEvent, rest: seq<LedgerEvent>)
    ensures ParsedRecords([e] + rest) == ParsedRecords([e]) + ParsedRecords(rest)
  {
    hide ParseRecord;
    assert [e][1..] == [] && ([e] + rest)[1..] == rest;
    assert ParsedRecords([]) == [];
  }

  lemma {:induction false} ParsedAppend(events: seq<LedgerEvent>, e: LedgerEvent)
    ensures ParsedRecords(events + [e]) == ParsedRecords(events) + ParsedRecords([e])
  {
    hide ParseRecord;
    if events == [] {
      assert events + [e] == [e];
    } else {
      var head, rest := [events[0]], events[1..];
      assert events == head + rest && events + [e] == head + (rest + [e]);
      OneParsed(events[0], rest);
      OneParsed(events[0], rest + [e]);
      hide ParsedRecords;
      ParsedAppend(rest, e);
      Reassociate(ParsedRecords(head), ParsedRecords(rest), ParsedRecords([e]));
    }
  }

  lemma Reassociate(a: seq<Record>, b: seq<Record>, c: seq<Record>)
    ensures a + (b + c) == a + b + c
  {
  }

  // ---- replay --------------------------------------------------------------------------------

  predicate Spared(r: Record, m: Record) { !Ends(m, r.recordId) }

  function SparedBy(m: Record): Record -> bool {
    (r: Record) => Spared(r, m)
  }

  // Reading the records from left to right: each one ends the living records it targets, then joins
  // them if it is active.  An id may come back to life when it is recorded again.
  function Alive(records: seq<Record>): seq<Record> {
    if records == [] then []
    else
      var m := Last(records);
      Filter(Alive(Front(records)), SparedBy(m)) + if m.status == Active then [m] else []
  }

  function NotSupersededBy(m: Record): Record -> bool {
    (r: Record) => r.recordId !in m.supersedes
  }

  function NotNamedBy(m: Record): Record -> bool {
    (r: Record) => r.recordId !in m.supersedes && r.recordId !in m.related
  }

  // An active record ends what it supersedes and joins the living; what it merely relates to lives on.
  lemma ActiveRecordJoins(records: seq<Record>, m: Record)
    requires m.status == Active
    ensures Alive(records + [m]) == Filter(Alive(records), NotSupersededBy(m)) + [m]
  {
    assert Front(records + [m]) == records;
    FilterSame(Alive(records), SparedBy(m), NotSupersededBy(m));
  }

  // A stale, superseded or resolved record ends both and does not join them.
  lemma OtherRecordEnds(records: seq<Record>, m: Record)
    requires m.status != Active
    ensures Alive(records + [m]) == Filter(Alive(records), NotNamedBy(m))
  {
    assert Front(records + [m]) == records;
    FilterSame(Alive(records), SparedBy(m), NotNamedBy(m));
  }

  lemma EndedByLast(records: seq<Record>, m: Record, r: Record)
    requires Increasing(records + [m]) && r in records
    ensures EndedLater(r, records + [m]) <==> EndedLater(r, records) || Ends(m, r.recordId)
  {
    var i :| 0 <= i < |records| && records[i] == r;
    assert (records + [m])[i] == r && (records + [m])[|records|] == m;
    assert forall k :: k in records + [m] <==> k in records || k == m;
  }

  lemma LastNotEnded(records: seq<Record>, m: Record)
    requires Increasing(records + [m])
    ensures !EndedLater(m, records + [m])
  {
    assert (records + [m])[|records|] == m;
    forall k | k in records + [m] ensures SequenceOf(k) <= SequenceOf(m) {
      var i :| 0 <= i < |records + [m]| && (records + [m])[i] == k;
    }
  }

  // The suppression rule picks out exactly the records that a replay leaves alive.
  lemma {:induction false} StateIsReplay(records: seq<Record>)
    requires Increasing(records)
    ensures Filter(records, ActiveIn(records)) == Alive(records)
  {
    hide Increasing, Filter;
    if records == [] {
      FilterNone(records, ActiveIn(records));
    } else {
      var front, m := Front(records), Last(records);
      assert records == front + [m];
      IncreasingFront(front, m);
      StateIsReplay(front);
      FilterConcat(front, [m], ActiveIn(records));
      StillActive(front, m);
      ActiveIfLast(front, m);
    }
  }

  lemma IncreasingFront(front: seq<Record>, m: Record)
    requires Increasing(front + [m])
    ensures Increasing(front)
  {
    forall i, j | 0 <= i < j < |front| ensures SequenceOf(front[i]) < SequenceOf(front[j]) {
      assert (front + [m])[i] == front[i] && (front + [m])[j] == front[j];
    }
  }

  lemma StillActive(front: seq<Record>, m: Record)
    requires Increasing(front + [m])
    ensures Filter(front, ActiveIn(front + [m])) == Filter(Filter(front, ActiveIn(front)), SparedBy(m))
  {
    hide Increasing, EndedLater, Filter;
    forall r | r in front ensures ActiveIn(front + [m])(r) <==> ActiveIn(front)(r) && SparedBy(m)(r) {
      EndedByLast(front, m, r);
    }
    FilterTwice(front, ActiveIn(front), SparedBy(m), ActiveIn(front + [m]));
  }

  lemma ActiveIfLast(front: seq<Record>, m: Record)
    requires Increasing(front + [m])
    ensures Filter([m], ActiveIn(front + [m])) == if m.status == Active then [m] else []
  {
    LastNotEnded(front, m);
    assert [m][1..] == [];
  }

  // So it is after every run of appends: the records of a conversation stand in the order in which they were
  // written, and the active ones are those that a replay of its ledger leaves alive.
  lemma LedgerStateIsReplay(store: Store, calls: seq<Call>, hash: Hash, c: string)
    requires GapFree(EventsOf(store, c), c)
    ensures var records := ParsedRecords(EventsOf(Run(store, calls, hash), c));
      Increasing(records) && Filter(records, ActiveIn(records)) == Alive(records)
  {
    AppendOnly(store, calls, hash, c);
    var events := EventsOf(Run(store, calls, hash), c);
    hide ParseRecord, Alive;
    ParsedIncreasing(events);
    StateIsReplay(ParsedRecords(events));
  }

  // ---- order and partition of the buckets -------------------------------------------------------

  function Reversed<T>(s: seq<T>): (r: seq<T>)
    ensures |r| == |s| && forall i :: 0 <= i < |r| ==> r[i] == s[|s| - 1 - i]
  {
    if s == [] then [] else Reversed(s[1..]) + [s[0]]
  }

  lemma ReversedElements<T>(s: seq<T>)
    ensures multiset(Reversed(s)) == multiset(s)
  {
    if s != [] {
      assert s == [s[0]] + s[1..];
    }
  }

  lemma {:induction false} FilterIncreasing(records: seq<Record>, keep: Record -> bool)
    requires Increasing(records)
    ensures Increasing(Filter(records, keep))
  {
    if records != [] {
      FilterIncreasing(records[1..], keep);
      var rest := Filter(records[1..], keep);
      forall r | r in rest ensures SequenceOf(records[0]) < SequenceOf(r) {
        var i :| 0 <= i < |records[1..]| && records[1..][i] == r;
        assert records[i + 1] == r;
      }
    }
  }

  // Next steps come in the order they were recorded, everything else newest first.
  lemma BucketOrder(records: seq<Record>, kind: Kind)
    requires Increasing(records)
    ensures InBucketOrder(records, kind) == if kind == NextStep then records else Reversed(records)
  {
    if kind == NextStep {
      assert TotalPreorder(OldestFirst);
      SortSorts(records, OldestFirst);
      IncreasingAntisymmetric(records);
      SortedUnique(records, SortBy(records, OldestFirst), OldestFirst);
    } else {
      assert TotalPreorder(NewestFirst);
      SortSorts(records, NewestFirst);
      IncreasingAntisymmetric(records);
      ReversedElements(records);
      SortKeepsElements(records, NewestFirst);
      SortedUnique(SortBy(records, NewestFirst), Reversed(records), NewestFirst);
    }
  }

  lemma IncreasingAntisymmetric(records: seq<Record>)
    requires Increasing(records)
    ensures AntisymmetricOn(records, OldestFirst) && AntisymmetricOn(records, NewestFirst)
  {
    forall a, b | a in records && b in records && SequenceOf(a) == SequenceOf(b) ensures a == b {
      var i :| 0 <= i < |records| && records[i] == a;
      var j :| 0 <= j < |records| && records[j] == b;
    }
  }

  lemma VisibleIncreasing(records: seq<Record>, includeStale: bool)
    requires Increasing(records)
    ensures Increasing(Visible(records, includeStale))
  {
    FilterIncreasing(records, ActiveIn(records));
  }

  // Without a limit every visible record is in the bucket of its kind, as often as it is visible, and
  // in no other.
  lemma BucketsPartition(records: seq<Record>, includeStale: bool, limit: Option<int>, kind: Kind, r: Record)
    requires limit.None? || limit.value < 1
    ensures multiset(BucketOf(records, includeStale, limit, kind))[r]
      == if r.kind == kind then multiset(Visible(records, includeStale))[r] else 0
  {
    FilterCount(Visible(records, includeStale), OfKind(kind), r);
  }

  // With a limit a bucket holds its newest records, next steps their oldest.
  lemma BucketContents(records: seq<Record>, includeStale: bool, limit: Option<int>, kind: Kind)
    requires Increasing(records)
    ensures var all := Filter(if includeStale then records else Alive(records), OfKind(kind));
      var n := if limit.None? || limit.value < 1 || limit.value >= |all| then |all| else limit.value;
      BucketOf(records, includeStale, limit, kind) == (if kind == NextStep then all else Reversed(all))[..n]
  {
    hide Increasing, Filter, Alive, InBucketOrder;
    StateIsReplay(records);
    VisibleIncreasing(records, includeStale);
    FilterIncreasing(Visible(records, includeStale), OfKind(kind));
    var all := Filter(Visible(records, includeStale), OfKind(kind));
    BucketOrder(all, kind);
    assert all[..|all|] == all && Reversed(all)[..|all|] == Reversed(all);
  }

  // ---- marking a record -----------------------------------------------------------------------------

  function MarkEvent(input: RecordInput, lower: string -> string, now: int, base: nat, hash: Hash,
                     clock: nat -> int): LedgerEvent {
    StoredEvent(AppendOf(input, lower, now), 0, base, hash, clock)
  }

  // The marker's record, as far as it affects others.
  ghost predicate Marks(m: Record, recordId: string, status: Status) {
    m.status == status && forall id :: Ends(m, id) <==> id == recordId && !Blank(id)
  }

  lemma MarkReadBack(input: RecordInput, recordId: string, lower: string -> string, e: LedgerEvent)
    requires input.related == [recordId] && input.supersedes == [recordId]
    ensures ReadBack(input, lower, e).Some? <==> !(input.idempotencyKey.Some? && Blank(input.idempotencyKey.value))
    ensures ReadBack(input, lower, e).Some? ==> Marks(ReadBack(input, lower, e).value, recordId, StatusOf(input))
  {
    hide ParseContent, FormatContent, Sanitized;
    assert input.idempotencyKey.None? ==> !IsSpace(RecordIdOf(input, lower)[0]);
    assert [recordId][1..] == [];
    assert WithoutBlanks([recordId]) == if Blank(recordId) then [] else [recordId];
  }

  lemma MarkReads(input: RecordInput, recordId: string, lower: string -> string, now: int, base: nat, hash: Hash,
                  clock: nat -> int)
    requires input.related == [recordId] && input.supersedes == [recordId]
    ensures var read := ParseRecord(MarkEvent(input, lower, now, base, hash, clock));
      && (read.Some? <==> !(input.idempotencyKey.Some? && Blank(input.idempotencyKey.value)))
      && (read.Some? ==> Marks(read.value, recordId, StatusOf(input)))
  {
    hide ParseRecord, StoredEvent, ReadBack, Marks, Blank;
    var e := MarkEvent(input, lower, now, base, hash, clock);
    StoredRecordRead(input, lower, now, base, hash, clock);
    MarkReadBack(input, recordId, lower, e);
  }

  lemma MarkerAppended(records: seq<Record>, m: Record, recordId: string, status: Status)
    requires Marks(m, recordId, status) && status != Active
    requires forall r :: r in Alive(records) ==> !Blank(r.recordId)
    ensures Alive(records + [m]) == Filter(Alive(records), OtherThan(recordId))
  {
    assert Front(records + [m]) == records;
    FilterSame(Alive(records), SparedBy(m), OtherThan(recordId));
  }

  // A fresh mark deactivates every earlier record with the target id and no other one.  Only a mark
  // under a blank idempotency key has no effect, for its own record id is then blank.
  lemma MarkDeactivates(events: seq<LedgerEvent>, conversation: string, recordId: string, status: Status,
                        reason: string, supersededBy: Option<string>, key: Option<string>, lower: string -> string,
                        now: int, hash: Hash, clock: nat -> int)
    requires status != Active
    ensures var input := MarkInput(conversation, recordId, status, reason, supersededBy, key);
      var after := events + [MarkEvent(input, lower, now, |events| + 1, hash, clock)];
      Alive(ParsedRecords(after)) ==
        if key.Some? && Blank(key.value) then Alive(ParsedRecords(events))
        else Filter(Alive(ParsedRecords(events)), OtherThan(recordId))
  {
    hide ParseRecord, Marks, Blank, Alive, MarkEvent;
    var input := MarkInput(conversation, recordId, status, reason, supersededBy, key);
    var e := MarkEvent(input, lower, now, |events| + 1, hash, clock);
    MarkReads(input, recordId, lower, now, |events| + 1, hash, clock);
    ParsedAppend(events, e);
    assert [e][1..] == [];
    var records := ParsedRecords(events);
    if ParseRecord(e).Some? {
      assert ParsedRecords([e]) == [ParseRecord(e).value];
      AliveIdsNotBlank(events);
      MarkerAppended(records, ParseRecord(e).value, recordId, status);
    } else {
      assert records + [] == records;
    }
  }

  // The records of a conversation that its readers see as active.
  ghost function ActiveRecords(store: Store, c: string): seq<Record> {
    var records := ParsedRecords(EventsOf(store, c));
    Filter(records, ActiveIn(records))
  }

  lemma MarkNotBlank(input: RecordInput)
    requires "Mark " <= input.title && "Record " <= input.content
    ensures !Blank(input.title) && !Blank(input.content)
  {
    assert input.title[0] == 'M' && input.content[0] == 'R';
  }

  lemma MarkStored(store: Store, input: RecordInput, lower: string -> string, hash: Hash, now: int, clock: nat -> int)
    requires !Blank(input.title) && !Blank(input.content) && Extends(store, AppendOf(input, lower, now), hash)
    ensures var events := EventsOf(store, input.conversation);
      EventsOf(StoreAfter(store, input, lower, hash, now, clock), input.conversation)
        == events + [MarkEvent(input, lower, now, |events| + 1, hash, clock)]
  {
    hide StoredEvent, Extends, Blank, FormatContent, MetadataOf, RecordIdOf;
    var call := Call(AppendOf(input, lower, now), clock);
    var base := |EventsOf(store, input.conversation)| + 1;
    OneCall(store, call, hash, input.conversation);
    assert Stored(call.input, base, hash, clock) == [MarkEvent(input, lower, now, base, hash, clock)];
  }

  lemma ActiveAfter(store: Store, call: Call, hash: Hash, c: string)
    requires GapFree(EventsOf(store, c), c)
    ensures ActiveRecords(store, c) == Alive(ParsedRecords(EventsOf(store, c)))
    ensures var after := Appended(store, call.input, hash, call.clock);
      ActiveRecords(after, c) == Alive(ParsedRecords(EventsOf(after, c)))
  {
    hide GapFree, Appended, Alive, ParsedRecords, Filter;
    LedgerStateIsReplay(store, [], hash, c);
    LedgerStateIsReplay(store, [call], hash, c);
    assert Front([call]) == [];
  }

  // So a mark takes effect on what readers see exactly when the ledger takes it in under a key that is not
  // blank: then the active records are those before without the marked id, and otherwise the same as before.
  lemma MarkTakesEffect(store: Store, conversation: string, recordId: string, status: Status, reason: string,
                        supersededBy: Option<string>, key: Option<string>, lower: string -> string, hash: Hash,
                        now: int, clock: nat -> int)
    requires status != Active && GapFree(EventsOf(store, conversation), conversation)
    ensures var input := MarkInput(conversation, recordId, status, reason, supersededBy, key);
      var before := ActiveRecords(store, conversation);
      ActiveRecords(StoreAfter(store, input, lower, hash, now, clock), conversation) ==
        if !Extends(store, AppendOf(input, lower, now), hash) || (key.Some? && Blank(key.value)) then before
        else Filter(before, OtherThan(recordId))
  {
    hide GapFree, Extends, Blank, ActiveRecords, MarkEvent, AppendOf, StoreAfter, Alive, ParsedRecords, EventsOf;
    var input := MarkInput(conversation, recordId, status, reason, supersededBy, key);
    MarkNotBlank(input);
    AfterIsAppended(store, input, lower, hash, now, clock);
    if Extends(store, AppendOf(input, lower, now), hash) {
      ActiveAfter(store, Call(AppendOf(input, lower, now), clock), hash, conversation);
      MarkStored(store, input, lower, hash, now, clock);
      MarkDeactivates(EventsOf(store, conversation), conversation, recordId, status, reason, supersededBy, key, lower,
                      now, hash, clock);
    }
  }

  lemma AfterIsAppended(store: Store, input: RecordInput, lower: string -> string, hash: Hash, now: int,
                        clock: nat -> int)
    requires !Blank(input.title) && !Blank(input.content)
    ensures var r := StoreAfter(store, input, lower, hash, now, clock);
      && r == Appended(store, AppendOf(input, lower, now), hash, clock)
      && (!Extends(store, AppendOf(input, lower, now), hash) ==> r == store)
  {
    hide Extends, AppendOf, Blank;
  }

  function OtherThan(recordId: string): Record -> bool {
    (r: Record) => r.recordId != recordId
  }

  lemma {:induction false} ParsedIdsNotBlank(events: seq<LedgerEvent>)
    ensures forall r :: r in ParsedRecords(events) ==> !Blank(r.recordId)
  {
    if events != [] {
      ParsedIdsNotBlank(events[1..]);
    }
  }

  lemma {:induction false} AliveAmong(records: seq<Record>)
    ensures forall r :: r in Alive(records) ==> r in records
  {
    if records != [] {
      AliveAmong(Front(records));
    }
  }

  lemma AliveIdsNotBlank(events: seq<LedgerEvent>)
    ensures forall r :: r in Alive(ParsedRecords(events)) ==> !Blank(r.recordId)
  {
    ParsedIdsNotBlank(events);
    AliveAmong(ParsedRecords(events));
  }

  // A record that was ended stays ended, and recording its id again brings the id back to life.
  lemma RevivedByRecording(before: seq<Record>, m: Record, after: seq<Record>, ended: Record, again: Record)
    requires Increasing(before + [m] + after + [again]) && ended in before && Ends(m, ended.recordId)
    requires again.recordId == ended.recordId && again.status == Active
    ensures var now := before + [m] + after + [again];
      ended !in Alive(now) && again in Alive(now) && ended != again
  {
    var now := before + [m] + after + [again];
    StateIsReplay(now);
    var i :| 0 <= i < |before| && before[i] == ended;
    assert now[i] == ended && now[|before|] == m && now[|now| - 1] == again;
    assert Filter(now, ActiveIn(now)) == Alive(now);
    assert EndedLater(ended, now);
    assert now[..|now| - 1] == before + [m] + after;
    LastNotEnded(before + [m] + after, again);
    assert ActiveAmong(again, now) && !ActiveAmong(ended, now);
  }
}
