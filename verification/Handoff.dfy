// Handing work over: one handoff record and one record per next step, under derived keys.
module Handoffs {
  import opened Sequences
  import opened Text
  import opened Ledger
  import opened Continuity

  datatype NextStepInput = NextStepInput(title: string, content: string, importance: Option<Importance>,
                                         provenance: Option<Provenance>)

  datatype HandoffInput =
    HandoffInput(conversation: string, goal: string, completed: seq<string>, nextSteps: seq<NextStepInput>,
                 decisions: seq<string>, constraints: seq<string>, openQuestions: seq<string>,
                 verification: seq<string>,
                 risks: seq<string>, changedFiles: seq<string>, provenance: Option<Provenance>,
                 idempotencyKey: Option<string>)

  // ---- the text of the handoff ---------------------------------------------------------------

  function TrimNonBlank(values: seq<string>): seq<string> {
    if values == [] then []
    else (if Blank(values[0]) then [] else [Trim(values[0])]) + TrimNonBlank(values[1..])
  }

  function Items(items: seq<string>): string {
    if items == [] then "" else "\n- " + items[0] + Items(items[1..])
  }

  function Section(heading: string, items: seq<string>): seq<string> {
    if items == [] then [] else [heading + Items(items)]
  }

  function Titles(steps: seq<NextStepInput>): seq<string> {
    if steps == [] then [] else [Trim(steps[0].title)] + Titles(steps[1..])
  }

  function HandoffContent(input: HandoffInput): string {
    Join(Section("Goal:", [Trim(input.goal)]) + Section("Completed:", TrimNonBlank(input.completed))
         + Section("Next steps:", Titles(input.nextSteps)) + Section("Decisions:", TrimNonBlank(input.decisions))
         + Section("Constraints:", TrimNonBlank(input.constraints))
           + Section("Open questions:", TrimNonBlank(input.openQuestions))
         + Section("Verification:", TrimNonBlank(input.verification)) + Section("Risks:", TrimNonBlank(input.risks))
         + Section("Changed files:", TrimNonBlank(input.changedFiles)),
         "\n\n")
  }

  // ---- the records to write --------------------------------------------------------------------

  function Decimal(n: nat): (r: string)
    ensures r != "" && forall i :: 0 <= i < |r| ==> '0' <= r[i] <= '9'
  {
    (if n < 10 then "" else Decimal(n / 10)) + [('0' as int + n % 10) as char]
  }

  // The key of the i-th write: the handoff itself, then its next steps.
  function DerivedKey(key: string, i: nat): string {
    if i == 0 then key else key + ":next-step:" + Decimal(i - 1)
  }

  function KeyFor(input: HandoffInput, i: nat): Option<string> {
    if input.idempotencyKey.None? then None else Some(DerivedKey(input.idempotencyKey.value, i))
  }

  function HandoffRecord(input: HandoffInput): RecordInput {
    RecordInput(input.conversation, Handoff, "Continue: " + Trim(input.goal), HandoffContent(input), Some(Normal), None,
                input.provenance, [], [], None, KeyFor(input, 0), None)
  }

  function StepRecord(input: HandoffInput, i: nat): RecordInput
    requires i < |input.nextSteps|
  {
    var step := input.nextSteps[i];
    RecordInput(input.conversation, NextStep, Trim(step.title), Trim(step.content), step.importance, None,
                if step.provenance.Some? then step.provenance else input.provenance, [], [], None,
                KeyFor(input, i + 1), None)
  }

  // All the records of a handoff, in the order in which they are written.
  function Script(input: HandoffInput): (r: seq<RecordInput>)
    ensures |r| == |input.nextSteps| + 1
  {
    [HandoffRecord(input)] + seq(|input.nextSteps|, i requires 0 <= i < |input.nextSteps| => StepRecord(input, i))
  }

  predicate Complete(input: HandoffInput) {
    !Blank(input.goal) && forall i :: 0 <= i < |input.nextSteps| ==>
      !Blank(input.nextSteps[i].title) && !Blank(input.nextSteps[i].content)
  }

  datatype HandoffResult = HandedOff(handoff: Record, nextSteps: seq<Record>) | Invalid
    | Failed(at: nat, error: RecordResult)

  datatype Writing = Writing(store: Store, records: seq<Record>, failure: Option<RecordResult>)

  // Writing from the i-th record on, until all are written or one write fails.
  function Written(p: Writing, script: seq<RecordInput>, i: nat, lower: string -> string, hash: Hash, nows: nat -> int,
                   clock: nat -> int): Writing
    requires i <= |script|
    decreases |script| - i
  {
    if i == |script| then p
    else
      var r := Recording(p.store, script[i], lower, hash, nows(i), clock);
      if !r.Recorded? then p.(failure := Some(r))
      else Written(Writing(StoreAfter(p.store, script[i], lower, hash, nows(i), clock), p.records + [r.record], None),
                   script, i + 1, lower, hash, nows, clock)
  }

  lemma WriteStep(p: Writing, script: seq<RecordInput>, i: nat, lower: string -> string, hash: Hash, nows: nat -> int,
                  clock: nat -> int)
    requires i < |script|
    ensures var r := Recording(p.store, script[i], lower, hash, nows(i), clock);
      var now := StoreAfter(p.store, script[i], lower, hash, nows(i), clock);
      Written(p, script, i, lower, hash, nows, clock)
        == if r.Recorded? then Written(Writing(now, p.records + [r.record], None), script, i + 1, lower, hash, nows,
                                       clock)
           else p.(failure := Some(r))
  {
  }

  lemma NothingMore(p: Writing, script: seq<RecordInput>, lower: string -> string, hash: Hash, nows: nat -> int,
                    clock: nat -> int)
    ensures Written(p, script, |script|, lower, hash, nows, clock) == p
  {
  }

  lemma FailureChangesNothing(store: Store, input: RecordInput, lower: string -> string, hash: Hash, now: int,
                              clock: nat -> int)
    requires !Recording(store, input, lower, hash, now, clock).Recorded?
    ensures StoreAfter(store, input, lower, hash, now, clock) == store
  {
  }

  class CreateHandoff {
    const record: RecordContinuity

    constructor (record: RecordContinuity)
      ensures this.record == record
    {
      this.record := record;
    }

    // Writes record after record until all are written or one write fails.
    method WriteAll(script: seq<RecordInput>, nows: nat -> int, clock: nat -> int)
      returns (records: seq<Record>, failure: Option<RecordResult>)
      modifies record.append
      ensures Written(Writing(old(record.append.store), [], None), script, 0, record.lower, record.append.hash, nows,
                      clock)
           == Writing(record.append.store, records, failure)
      ensures failure.None? ==> |records| == |script|
    {
      hide Recording, StoreAfter, Written;
      var lower, hash := record.lower, record.append.hash;
      ghost var start := Writing(record.append.store, [], None);
      records, failure := [], None;
      for i := 0 to |script|
        invariant |records| == i && failure.None?
        invariant Written(start, script, 0, lower, hash, nows, clock)
               == Written(Writing(record.append.store, records, None), script, i, lower, hash, nows, clock)
      {
        ghost var now := Writing(record.append.store, records, None);
        WriteStep(now, script, i, lower, hash, nows, clock);
        var step := record.Execute(script[i], nows(i), clock);
        if !step.Recorded? {
          FailureChangesNothing(now.store, script[i], lower, hash, nows(i), clock);
          return records, Some(step);
        }
        records := records + [step.record];
      }
      NothingMore(Writing(record.append.store, records, None), script, lower, hash, nows, clock);
    }

    method Execute(input: HandoffInput, nows: nat -> int, clock: nat -> int) returns (r: HandoffResult)
      modifies record.append
      ensures r.Invalid? <==>
        || Blank(input.goal)
        || exists i ::
             0 <= i < |input.nextSteps| && (Blank(input.nextSteps[i].title) || Blank(input.nextSteps[i].content))
      ensures r.Invalid? ==> record.append.store == old(record.append.store)
      ensures !r.Invalid? ==>
        var p := Written(Writing(old(record.append.store), [], None), Script(input), 0, record.lower,
                         record.append.hash, nows, clock);
        && record.append.store == p.store
        && r == if p.failure.Some? then Failed(|p.records|, p.failure.value)
                else if p.records == [] then Invalid else HandedOff(p.records[0], p.records[1..])
    {
      if !Complete(input) {
        return Invalid;
      }
      hide Script, Written;
      var records, failure := WriteAll(Script(input), nows, clock);
      r := if failure.Some? then Failed(|records|, failure.value) else HandedOff(records[0], records[1..]);
    }
  }
}
