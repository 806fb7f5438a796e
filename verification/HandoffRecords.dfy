// What is read back from the ledger once a handoff has been written.
module HandoffRecords {
  import opened Sequences
  import opened Text
  import opened Ledger
  import opened LedgerLaws
  import opened Continuity
  import opened ContinuityLaws
  import opened Handoffs
  import opened HandoffLaws
  import opened HandoffTexts

  lemma StandingRead(events: seq<LedgerEvent>, input: HandoffInput, lower: string -> string, hash: Hash, i: nat,
                     position: nat)
    requires input.idempotencyKey.Some? && i < |Script(input)| && StandsAt(events, input, lower, hash, i, position)
    ensures position < |events|
    ensures ParseRecord(events[position]) == ReadBack(Script(input)[i], lower, events[position])
  {
    hide Script, FormatContent, DerivedKey, ParseRecord, ReadBack, MetadataOf, RecordIdOf;
    var k := DerivedKey(input.idempotencyKey.value, i);
    var now, clock :| IsBlock(events, k, CallOf(input, lower, i, now, clock), hash, position);
    assert events[position] == events[position..position + 1][0];
    StoredRecordRead(Script(input)[i], lower, now, position + 1, hash, clock);
  }

  lemma KeyNotBlank(key: string, i: nat)
    requires i > 0 || !Blank(key)
    ensures !Blank(DerivedKey(key, i))
  {
    if i > 0 {
      assert DerivedKey(key, i)[|key|] == ':';
    }
  }

  // Of a record with a one-line title everything is read back, its provenance sanitized.
  lemma PlainReadBack(r: RecordInput, lower: string -> string, event: LedgerEvent)
    requires r.idempotencyKey.Some? && !Blank(r.idempotencyKey.value) && !Blank(r.title) && '\n' !in Trim(r.title)
    requires r.related == [] && r.supersedes == [] && r.supersededBy.None?
    ensures ReadBack(r, lower, event)
      == Some(Record(r.idempotencyKey.value, r.conversation, r.kind, StatusOf(r), Trim(r.title), Trim(r.content),
                     ImportanceOf(r), Sanitized(ProvenanceOf(r)), [], [], None, event.occurredAt, event.id))
  {
    hide ParseContent, FormatContent, Sanitized, Trim;
    TrimTrimmed(r.title);
    TrimTrimmed(r.content);
    TitleReadBack(r.kind, Trim(r.title), Trim(r.content));
  }

  lemma TrimNotBlank(s: string)
    requires !Blank(s)
    ensures !Blank(Trim(s)) && Trim(Trim(s)) == Trim(s)
  {
    TrimTrimmed(s);
    TrimTrimmed(Trim(s));
    assert !IsSpace(Trim(s)[0]);
  }

  // ---- next steps ---------------------------------------------------------------------------------

  function StepProvenance(input: HandoffInput, step: NextStepInput): Provenance {
    if step.provenance.Some? then step.provenance.value
    else if input.provenance.Some? then input.provenance.value
    else NO_PROVENANCE
  }

  lemma StepRead(input: HandoffInput, lower: string -> string, i: nat, e: LedgerEvent)
    requires input.idempotencyKey.Some? && i < |input.nextSteps|
    requires !Blank(input.nextSteps[i].title) && '\n' !in Trim(input.nextSteps[i].title)
    ensures var step := input.nextSteps[i];
      ReadBack(Script(input)[i + 1], lower, e)
        == Some(Record(DerivedKey(input.idempotencyKey.value, i + 1), input.conversation, NextStep, Active,
                       Trim(step.title), Trim(step.content),
                       if step.importance.Some? then step.importance.value else Normal,
                       Sanitized(StepProvenance(input, step)), [], [], None, e.occurredAt, e.id))
  {
    hide ReadBack, Sanitized, Trim, Blank, DerivedKey;
    KeyNotBlank(input.idempotencyKey.value, i + 1);
    var step := input.nextSteps[i];
    TrimTrimmed(Trim(step.content));
    TrimTrimmed(step.content);
    TrimNotBlank(step.title);
    PlainReadBack(StepRecord(input, i), lower, e);
  }

  // A next step stands in the ledger as an active record of its own, with the importance it was given and its own
  // provenance or else that of the handoff.
  lemma StepReadBack(events: seq<LedgerEvent>, input: HandoffInput, lower: string -> string, hash: Hash, i: nat,
                     position: nat)
    requires input.idempotencyKey.Some? && i < |input.nextSteps|
    requires StandsAt(events, input, lower, hash, i + 1, position)
    requires !Blank(input.nextSteps[i].title) && '\n' !in Trim(input.nextSteps[i].title)
    ensures position < |events|
    ensures var step, e := input.nextSteps[i], events[position];
      ParseRecord(e)
        == Some(Record(DerivedKey(input.idempotencyKey.value, i + 1), input.conversation, NextStep, Active,
                       Trim(step.title), Trim(step.content),
                       if step.importance.Some? then step.importance.value else Normal,
                       Sanitized(StepProvenance(input, step)), [], [], None, e.occurredAt, e.id))
  {
    hide ParseRecord, ReadBack, Sanitized, Trim, Blank, StandsAt, DerivedKey, Script, StepProvenance;
    StandingRead(events, input, lower, hash, i + 1, position);
    StepRead(input, lower, i, events[position]);
  }

  // ---- the handoff itself ----------------------------------------------------------------------------

  lemma GoalRead(input: HandoffInput, lower: string -> string, e: LedgerEvent)
    requires input.idempotencyKey.Some? && !Blank(input.idempotencyKey.value)
    requires !Blank(input.goal) && '\n' !in Trim(input.goal)
    ensures ReadBack(Script(input)[0], lower, e)
      == Some(Record(input.idempotencyKey.value, input.conversation, Handoff, Active, "Continue: " + Trim(input.goal),
                     Trim(HandoffContent(input)), Normal,
                     Sanitized(if input.provenance.Some? then input.provenance.value else NO_PROVENANCE),
                     [], [], None, e.occurredAt, e.id))
  {
    hide ReadBack, Sanitized, Trim, Blank, HandoffContent;
    TitleOfGoal(input.goal);
    PlainReadBack(HandoffRecord(input), lower, e);
  }

  // The handoff stands there under the key it was given, with its lists as content.
  lemma HandoffReadBack(events: seq<LedgerEvent>, input: HandoffInput, lower: string -> string, hash: Hash,
                        position: nat)
    requires input.idempotencyKey.Some? && StandsAt(events, input, lower, hash, 0, position)
    requires !Blank(input.idempotencyKey.value) && !Blank(input.goal) && '\n' !in Trim(input.goal)
    ensures position < |events|
    ensures var e := events[position];
      ParseRecord(e)
        == Some(Record(input.idempotencyKey.value, input.conversation, Handoff, Active, "Continue: " + Trim(input.goal),
                       Trim(HandoffContent(input)), Normal,
                       Sanitized(if input.provenance.Some? then input.provenance.value else NO_PROVENANCE),
                       [], [], None, e.occurredAt, e.id))
  {
    hide ParseRecord, ReadBack, Sanitized, Trim, Blank, StandsAt, Script, HandoffContent;
    StandingRead(events, input, lower, hash, 0, position);
    GoalRead(input, lower, events[position]);
  }

  lemma TitleOfGoal(goal: string)
    requires !Blank(goal)
    ensures Trim("Continue: " + Trim(goal)) == "Continue: " + Trim(goal) && !Blank("Continue: " + Trim(goal))
  {
    hide Trim;
    TrimTrimmed(goal);
    var title := "Continue: " + Trim(goal);
    assert title[0] == 'C' && title[|title| - 1] == Trim(goal)[|Trim(goal)| - 1];
    TrimTrimmed(title);
  }

  // ---- validation ----------------------------------------------------------------------------------

  ghost predicate Writable(r: RecordInput) {
    !Blank(r.title) && !Blank(r.content)
  }

  lemma ContentNotBlank(input: HandoffInput)
    ensures !Blank(HandoffContent(input))
  {
    ContentIsBlocks(input);
    hide HandoffContent;
    var parts := Parts(input);
    assert parts[0].items != [] && parts[0].heading[0] == 'G';
    FirstBlock(parts);
    JoinStartsWith(Blocks(parts), "\n\n");
    assert !IsSpace(HandoffContent(input)[0]);
  }

  lemma FirstBlock(parts: seq<Part>)
    requires parts != [] && parts[0].items != [] && parts[0].heading != ""
    ensures Blocks(parts) != [] && Blocks(parts)[0] != "" && Blocks(parts)[0][0] == parts[0].heading[0]
  {
  }

  lemma ScriptWritable(input: HandoffInput, i: nat)
    requires Complete(input) && i < |Script(input)|
    ensures Writable(Script(input)[i])
  {
    hide HandoffContent, Trim, Blank;
    if i == 0 {
      TitleOfGoal(input.goal);
      ContentNotBlank(input);
    } else {
      TrimNotBlank(input.nextSteps[i - 1].title);
      TrimNotBlank(input.nextSteps[i - 1].content);
    }
  }

  lemma {:induction false} OnlyAppendsFail(p: Writing, script: seq<RecordInput>, i: nat, lower: string -> string,
                                           hash: Hash, nows: nat -> int, clock: nat -> int)
    requires i <= |script| && p.failure.None? && forall k :: 0 <= k < |script| ==> Writable(script[k])
    ensures var r := Written(p, script, i, lower, hash, nows, clock);
      r.failure.Some? ==> r.failure.value.AppendFailed?
    decreases |script| - i
  {
    hide Blank, StoreAfter, Result, AppendOf;
    if i < |script| {
      WriteNeverFails(p.store, script[i], lower, hash, nows(i), clock);
      var r := Recording(p.store, script[i], lower, hash, nows(i), clock);
      if r.Recorded? {
        var next := Writing(StoreAfter(p.store, script[i], lower, hash, nows(i), clock), p.records + [r.record], None);
        OnlyAppendsFail(next, script, i + 1, lower, hash, nows, clock);
      }
    }
  }

  // A handoff is validated before anything is written: once it is complete, only the ledger can turn a record away.
  lemma ValidatedFirst(store: Store, input: HandoffInput, lower: string -> string, hash: Hash, nows: nat -> int,
                       clock: nat -> int)
    requires Complete(input)
    ensures var r := Written(Writing(store, [], None), Script(input), 0, lower, hash, nows, clock);
      r.failure.Some? ==> r.failure.value.AppendFailed?
  {
    hide Complete, Script, Writable;
    forall k | 0 <= k < |Script(input)| ensures Writable(Script(input)[k]) {
      ScriptWritable(input, k);
    }
    OnlyAppendsFail(Writing(store, [], None), Script(input), 0, lower, hash, nows, clock);
  }
}
