// What a continuity record looks like in the ledger besides its text: cost, id, time, and the fields of a mark.
module RecordLaws {
  import opened Sequences
  import opened Text
  import opened Ledger
  import opened LedgerLaws
  import opened AppendLaws
  import opened Continuity
  import opened ContinuityLaws

  // ---- cost ----------------------------------------------------------------------------------------

  predicate StartsWord(s: string, i: nat)
    requires i < |s|
  {
    !IsSpace(s[i]) && (i == 0 || IsSpace(s[i - 1]))
  }

  function WordStarts(s: string): set<nat> {
    set i: nat | i < |s| && StartsWord(s, i)
  }

  lemma {:induction false} OneMoreChar(s: string, c: char, inWord: bool)
    ensures CountWords(s + [c], inWord)
      == CountWords(s, inWord) + if IsSpace(c) || (if s == "" then inWord else !IsSpace(s[|s| - 1])) then 0 else 1
  {
    if s == "" {
      assert s + [c] == [c] && [c][1..] == "";
    } else {
      assert (s + [c])[1..] == s[1..] + [c];
      OneMoreChar(s[1..], c, !IsSpace(s[0]));
    }
  }

  lemma StartsGrow(front: string, last: char)
    ensures var s := front + [last];
      WordStarts(s) == WordStarts(front) + if StartsWord(s, |front|) then {|front|} else {}
    ensures |front| !in WordStarts(front)
  {
    var s := front + [last];
    forall i: nat | i < |front| ensures StartsWord(s, i) <==> StartsWord(front, i) {
      assert s[i] == front[i] && (i > 0 ==> s[i - 1] == front[i - 1]);
    }
  }

  // A text counts as many words as there are places where one begins.
  lemma {:induction false} WordsAreCounted(s: string)
    ensures CountWords(s, false) == |WordStarts(s)|
  {
    if s != "" {
      var front, last := s[..|s| - 1], s[|s| - 1];
      assert s == front + [last];
      hide WordStarts, CountWords, IsSpace;
      WordsAreCounted(front);
      OneMoreChar(front, last, false);
      StartsGrow(front, last);
    } else {
      assert WordStarts(s) == {};
    }
  }

  // ---- id --------------------------------------------------------------------------------------------

  // A record is identified by its key, or else by its kind and its title in lower case.
  lemma SameRecordIff(a: RecordInput, b: RecordInput, lower: string -> string)
    ensures a.idempotencyKey.Some? ==> RecordIdOf(a, lower) == a.idempotencyKey.value
    ensures a.idempotencyKey.None? && b.idempotencyKey.None? ==>
      (RecordIdOf(a, lower) == RecordIdOf(b, lower)
       <==> a.kind == b.kind && lower(Trim(a.title)) == lower(Trim(b.title)))
  {
    if a.idempotencyKey.None? && b.idempotencyKey.None? && RecordIdOf(a, lower) == RecordIdOf(b, lower) {
      var x, y := KindText(a.kind), KindText(b.kind);
      NoColon(a.kind);
      NoColon(b.kind);
      IndexOfFirst(x, ':', lower(Trim(a.title)));
      IndexOfFirst(y, ':', lower(Trim(b.title)));
      assert x + ":" + lower(Trim(a.title)) == x + [':'] + lower(Trim(a.title));
      assert y + ":" + lower(Trim(b.title)) == y + [':'] + lower(Trim(b.title));
      var id := RecordIdOf(a, lower);
      assert id[..|x|] == x && id[..|y|] == y;
      assert id[|x| + 1..] == lower(Trim(a.title)) && id[|y| + 1..] == lower(Trim(b.title));
      KindTextDistinct(a.kind, b.kind);
    }
  }

  lemma NoColon(kind: Kind)
    ensures ':' !in KindText(kind)
  {
  }

  // ---- what is written ---------------------------------------------------------------------------------

  // The event of a fresh record: the formatted text at the price of its words, and the time that was given, or
  // else, for a
  // record without a key, the time of recording.
  lemma RecordWritten(store: Store, input: RecordInput, lower: string -> string, hash: Hash, now: int,
                      clock: nat -> int)
    requires !Blank(input.title) && !Blank(input.content) && Extends(store, AppendOf(input, lower, now), hash)
    ensures var before, after := store[input.conversation],
                                 StoreAfter(store, input, lower, hash, now, clock)[input.conversation];
      var text := "[" + KindText(input.kind) + "] " + Trim(input.title) + "\n\n" + Trim(input.content);
      && |after.events| == |before.events| + 1 && after.events[..|before.events|] == before.events
      && var e := after.events[|before.events|];
         && e.id == EventId(input.conversation, |before.events| + 1) && e.role == Assistant && e.content == text
         && e.tokenCount == |WordStarts(Trim(text))|
         && after.contextTokens == before.contextTokens + e.tokenCount
         && e.occurredAt == (if input.occurredAt.Some? then input.occurredAt.value
                             else if input.idempotencyKey.None? then now
                             else clock(0))
  {
    hide Extends, MetadataOf, RecordIdOf, Trim, CountWords, Appended, WordStarts;
    var append := AppendOf(input, lower, now);
    TakenIn(store, append, hash, clock);
    WordsAreCounted(Trim(FormatContent(input.kind, Trim(input.title), Trim(input.content))));
    assert append.events[1..] == [];
    assert Sum(append.events, NewTokens) == append.events[0].tokenCount;
  }

  // The answer to recording: the first thing that is wrong, or the record as it was given, with id and time of
  // its event, // and what the context now costs.
  lemma RecordingIs(store: Store, input: RecordInput, lower: string -> string, hash: Hash, now: int, clock: nat -> int)
    ensures var r := Recording(store, input, lower, hash, now, clock);
      if Blank(input.title) then r == BlankTitle
      else if Blank(input.content) then r == BlankContent
      else if input.conversation !in store then r == AppendFailed(ConversationNotFound)
      else if r.AppendFailed? then r.error == IdempotencyConflict && input.idempotencyKey.Some?
      else
        var after := StoreAfter(store, input, lower, hash, now, clock)[input.conversation];
        && r.Recorded? && r.contextTokens == after.contextTokens
        && exists e :: e in after.events && r.record == AsGiven(input, lower, e)
  {
    hide MetadataOf, RecordIdOf, FormatContent, Trim, Blank, CountWords, StoredEvent;
    if !Blank(input.title) && !Blank(input.content) && input.conversation in store {
      var append := AppendOf(input, lower, now);
      var r := Result(store, append, hash, clock);
      if Extends(store, append, hash) {
        assert r.appended[0] in Appended(store, append, hash, clock)[input.conversation].events;
        assert AsGiven(input, lower, r.appended[0]) == RecordOf(input, lower, r.appended[0]);
      } else if r.Output? {
        assert r.existing[0] in r.existing;
        assert AsGiven(input, lower, r.existing[0]) == RecordOf(input, lower, r.existing[0]);
      }
    }
  }

  function AsGiven(input: RecordInput, lower: string -> string, e: LedgerEvent): Record {
    Record(RecordIdOf(input, lower), input.conversation, input.kind,
           if input.status.Some? then input.status.value else Active, Trim(input.title), Trim(input.content),
           if input.importance.Some? then input.importance.value else Normal,
           if input.provenance.Some? then input.provenance.value else NO_PROVENANCE, input.related, input.supersedes,
           input.supersededBy, e.occurredAt, e.id)
  }

  // ---- marks ---------------------------------------------------------------------------------------------

  lemma MarkId(input: RecordInput, lower: string -> string)
    requires input.kind == SessionSummary && (input.idempotencyKey.Some? ==> !Blank(input.idempotencyKey.value))
    ensures !Blank(RecordIdOf(input, lower))
  {
    hide Trim;
    assert input.idempotencyKey.None? ==> !IsSpace(RecordIdOf(input, lower)[0]);
  }

  // A mark names its target as related and superseded, and carries the status and the successor it was given.
  lemma MarkReadFields(conversation: string, recordId: string, status: Status, reason: string,
                       supersededBy: Option<string>, key: Option<string>, lower: string -> string, e: LedgerEvent)
    requires !Blank(recordId) && (key.Some? ==> !Blank(key.value))
      && (supersededBy.Some? ==> !Blank(supersededBy.value))
    ensures var r := ReadBack(MarkInput(conversation, recordId, status, reason, supersededBy, key), lower, e);
      && r.Some? && r.value.conversation == conversation && r.value.kind == SessionSummary && r.value.status == status
      && r.value.related == [recordId] && r.value.supersedes == [recordId]
      && r.value.supersededBy == supersededBy && r.value.importance == Normal
      && r.value.eventId == e.id && (key.Some? ==> r.value.recordId == key.value)
  {
    hide ParseContent, FormatContent, Sanitized, Trim, Blank, StatusText;
    MarkId(MarkInput(conversation, recordId, status, reason, supersededBy, key), lower);
    WithoutBlanksSame([recordId]);
  }
}
