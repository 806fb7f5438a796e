// Where the errors come from that a finalized run publishes.
module OperatorFailures {
  import opened Sequences
  import opened Ledger
  import opened OperatorStore
  import opened OperatorFinalization
  import opened OperatorRuns
  import opened OperatorLaws
  import opened OperatorTiming

  // One of the steps recorded this failure for the item.
  ghost predicate Recorded(steps: seq<Step>, i: nat, failure: Failure) {
    exists k, f: Failure, attempt: nat, now: int ::
      0 <= k < |steps| && steps[k] == Complete(Execution(i, attempt), NotGenerated(f), now)
      && failure == Failure(f.code, f.message, false, Some(attempt))
  }

  ghost predicate FailuresRecorded(tasks: seq<Task>, steps: seq<Step>) {
    forall i :: 0 <= i < |tasks| && tasks[i].status == Failed ==>
      tasks[i].terminalFailure.Some? && Recorded(steps, i, tasks[i].terminalFailure.value)
  }

  lemma RecordedIsFinal(steps: seq<Step>, i: nat, failure: Failure)
    requires Recorded(steps, i, failure)
    ensures !failure.retryable && failure.attemptCount.Some?
  {
  }

  lemma RecordedStays(steps: seq<Step>, step: Step, i: nat, failure: Failure)
    requires Recorded(steps, i, failure)
    ensures Recorded(steps + [step], i, failure)
  {
    var k, f: Failure, attempt: nat, now: int :|
      0 <= k < |steps| && steps[k] == Complete(Execution(i, attempt), NotGenerated(f), now)
      && failure == Failure(f.code, f.message, false, Some(attempt));
    assert (steps + [step])[k] == Complete(Execution(i, attempt), NotGenerated(f), now);
  }

  lemma FailureJustRecorded(steps: seq<Step>, e: Execution, f: Failure, now: int)
    ensures Recorded(steps + [Complete(e, NotGenerated(f), now)], e.index,
                     Failure(f.code, f.message, false, Some(e.attempt)))
  {
    assert (steps + [Complete(e, NotGenerated(f), now)])[|steps|]
      == Complete(Execution(e.index, e.attempt), NotGenerated(f), now);
  }

  lemma FailuresStep(s: Snapshot, policy: Policy, steps: seq<Step>, step: Step)
    requires FailuresRecorded(s.tasks, steps)
    ensures FailuresRecorded(Next(s, policy, step).tasks, steps + [step])
  {
    hide UpdatedRun, Recorded, ToClaim, Finalization;
    var tasks := Next(s, policy, step).tasks;
    forall i | 0 <= i < |tasks| && tasks[i].status == Failed
      ensures tasks[i].terminalFailure.Some? && Recorded(steps + [step], i, tasks[i].terminalFailure.value)
    {
      if tasks[i] == s.tasks[i] {
        RecordedStays(steps, step, i, tasks[i].terminalFailure.value);
      } else {
        assert step.Complete? && step.execution.index == i;
        OutcomeIsRecorded(s, policy, step.execution, step.outcome, step.now);
        FailureJustRecorded(steps, step.execution, step.outcome.failure, step.now);
      }
    }
  }

  lemma {:induction false} FailuresAreRecorded(items: seq<Json>, policy: Policy, steps: seq<Step>)
    ensures FailuresRecorded(Reached(Start(items), policy, steps).tasks, steps)
  {
    if steps != [] {
      var front := steps[..|steps| - 1];
      assert steps == front + [steps[|steps| - 1]];
      FailuresAreRecorded(items, policy, front);
      FailuresStep(Reached(Start(items), policy, front), policy, front, steps[|steps| - 1]);
    }
  }

  // What a run publishes when it is finalized: outputs as they were recorded, and for every failed item an error with
  // code, message and attempt of a failure that was recorded for it, marked as not retryable.
  lemma PublishedErrors(items: seq<Json>, policy: Policy, steps: seq<Step>, i: nat)
    requires i < |items|
    requires var s := Reached(Start(items), policy, steps); AllTerminal(s.tasks) && s.run.stage == NotStarted
    ensures var s, r := Reached(Start(items), policy, steps), FinalizeIn(Reached(Start(items), policy, steps));
      && |s.tasks| == |items| && r.run.stage == Finalized && r.run.outputArtifact.Some?
      && |r.run.outputArtifact.value| == |items|
      && var entry := r.run.outputArtifact.value[i];
         if s.tasks[i].status == Succeeded then entry == SucceededEntry(i, s.tasks[i].output)
         else entry.FailedEntry? && entry.itemIndex == i && Recorded(steps, i, entry.error)
  {
    hide Next, Recorded, DeriveRunStatus;
    TasksKept(items, policy, steps);
    FailuresAreRecorded(items, policy, steps);
    var t := Reached(Start(items), policy, steps).tasks[i];
    if t.status == Failed {
      RecordedIsFinal(steps, i, t.terminalFailure.value);
      assert TerminalFailure(t) == t.terminalFailure.value;
    }
  }

  // A task that did not succeed is published as failed, never as retryable, with the failure kept for it and
  // the attempt
  // that failed, or with an unknown one.
  lemma UnsuccessfulEntry(t: Task, i: nat)
    requires t.status != Succeeded
    ensures var entry := ResultEntry(t, i);
      && entry.FailedEntry? && entry.itemIndex == i && !entry.error.retryable
      && match t.terminalFailure
         case None =>
           entry.error.code == "UNKNOWN" && entry.error.message == "Unknown operator failure."
           && entry.error.attemptCount == Some(t.attemptCount)
         case Some(f) =>
           entry.error.code == f.code && entry.error.message == f.message
           && entry.error.attemptCount == if f.attemptCount.Some? then f.attemptCount else Some(t.attemptCount)
  {
  }

  lemma {:induction false} TasksKept(items: seq<Json>, policy: Policy, steps: seq<Step>)
    ensures |Reached(Start(items), policy, steps).tasks| == |items|
  {
    if steps != [] {
      TasksKept(items, policy, steps[..|steps| - 1]);
    }
  }

  // The error shown for the whole run is that of its first failed item.
  lemma {:induction false} FirstErrorIs(entries: seq<Entry>)
    ensures match FirstError(entries)
      case None => forall e :: e in entries ==> e.SucceededEntry?
      case Some(error) => exists i ::
        && 0 <= i < |entries| && entries[i].FailedEntry? && entries[i].error == error
        && forall j :: 0 <= j < i ==> entries[j].SucceededEntry?
  {
    if entries != [] {
      FirstErrorIs(entries[1..]);
      if entries[0].SucceededEntry? && FirstError(entries).Some? {
        var i :| 0 <= i < |entries[1..]| && entries[1..][i].FailedEntry?
          && entries[1..][i].error == FirstError(entries).value
          && forall j :: 0 <= j < i ==> entries[1..][j].SucceededEntry?;
        assert entries[i + 1] == entries[1..][i];
        forall j | 0 <= j < i + 1 ensures entries[j].SucceededEntry? {
          assert j > 0 ==> entries[j] == entries[1..][j - 1];
        }
      }
    }
  }

  lemma SummaryIsFirstError(s: Snapshot)
    requires AllTerminal(s.tasks) && s.run.stage == NotStarted
    ensures var run := FinalizeIn(s).run;
      && run.stage == Finalized && run.outputArtifact.Some?
      && run.failureSummary == (if FirstError(run.outputArtifact.value).Some?
                                then FirstError(run.outputArtifact.value) else s.run.failureSummary)
  {
  }

  function FailedItems(tasks: seq<Task>): set<nat> {
    set i: nat | i < |tasks| && tasks[i].status == Failed
  }

  lemma {:induction false} FailedItemsCounted(tasks: seq<Task>)
    ensures CountStatus(tasks, Failed) == |FailedItems(tasks)|
  {
    if tasks == [] {
      assert FailedItems(tasks) == {};
    } else {
      var front, last := tasks[..|tasks| - 1], tasks[|tasks| - 1];
      assert tasks == front + [last];
      FailedItemsCounted(front);
      SumAppend(front, last, StatusWeight(Failed));
      assert FailedItems(tasks) == FailedItems(front) + if last.status == Failed then {|front|} else {};
    }
  }

  // The handle that a finalization appends counts the items and the failed ones among them, and names status
  // and results.
  lemma HandleIs(s: Snapshot)
    requires AllTerminal(s.tasks) && s.run.stage == NotStarted
    ensures var r := FinalizeIn(s);
      && r.run.outputArtifact.Some?
      && r.handles == s.handles
           + [Handle(r.run.status, r.run.outputArtifact.value, |s.tasks|, |FailedItems(s.tasks)|)]
      && Finalization(s.run, s.tasks, s.handles).2 == FinalizedAs(r.run.status, r.run.outputArtifact)
  {
    CountsAgree(s.tasks);
    FailedItemsCounted(s.tasks);
  }
}
