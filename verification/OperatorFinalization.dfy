// Finalizing an operator run: one ordered output artifact, one handle event, one terminal status.
module OperatorFinalization {
  import opened Sequences
  import opened OperatorStore

  datatype Handle = Handle(status: RunStatus, artifact: seq<Entry>, taskCount: nat, failedTaskCount: nat)

  predicate IsTerminal(t: Task) { t.status == Succeeded || t.status == Failed }

  predicate AllTerminal(tasks: seq<Task>) {
    forall i :: 0 <= i < |tasks| ==> IsTerminal(tasks[i])
  }

  function TerminalFailure(t: Task): Failure {
    if t.terminalFailure.None? then Failure("UNKNOWN", "Unknown operator failure.", false, Some(t.attemptCount))
    else
      var f := t.terminalFailure.value;
      f.(retryable := false, attemptCount := if f.attemptCount.Some? then f.attemptCount else Some(t.attemptCount))
  }

  function ResultEntry(t: Task, i: nat): Entry {
    if t.status == Succeeded then SucceededEntry(i, t.output) else FailedEntry(i, TerminalFailure(t))
  }

  // One entry per task, in the order of the items.
  function Entries(tasks: seq<Task>): (r: seq<Entry>)
    ensures |r| == |tasks| && forall i :: 0 <= i < |r| ==> r[i] == ResultEntry(tasks[i], i)
  {
    seq(|tasks|, i requires 0 <= i < |tasks| => ResultEntry(tasks[i], i))
  }

  function FailedWeight(e: Entry): nat { if e.FailedEntry? then 1 else 0 }

  function FailedCount(entries: seq<Entry>): nat { Sum(entries, FailedWeight) }

  function DeriveRunStatus(entries: seq<Entry>): RunStatus {
    if FailedCount(entries) == 0 then CompletedRun
    else if FailedCount(entries) == |entries| then FailedRun
    else CompletedWithFailures
  }

  function FirstError(entries: seq<Entry>): Option<Failure> {
    if entries == [] then None
    else if entries[0].FailedEntry? then Some(entries[0].error)
    else FirstError(entries[1..])
  }

  function HandleFor(entries: seq<Entry>, artifact: seq<Entry>): Handle {
    Handle(DeriveRunStatus(entries), artifact, |entries|, FailedCount(entries))
  }

  // ---- the guarded stage machine of the store ------------------------------------------------

  function AdvancedStage(stage: Stage, from: Stage, to: Stage): Stage {
    if stage == Finalized || stage != from then stage else to
  }

  datatype FinalizeResult = FinalizedAs(status: RunStatus, artifact: Option<seq<Entry>>) | NotReady | NoArtifact

  function FinalizedRun(run: Run, entries: seq<Entry>, artifact: seq<Entry>): Run {
    if run.stage == Finalized then run
    else
      var error := FirstError(entries);
      Run(DeriveRunStatus(entries), Finalized, Some(artifact), if error.Some? then error else run.failureSummary)
  }

  // ---- the whole unit of work ----------------------------------------------------------------

  // The stored run, the handle events in the ledger of its conversation, and the answer.
  function Finalization(run: Run, tasks: seq<Task>, handles: seq<Handle>): (Run, seq<Handle>, FinalizeResult) {
    if !AllTerminal(tasks) then (run, handles, NotReady)
    else
      var entries := Entries(tasks);
      var artifact := if run.stage == NotStarted then Some(entries) else run.outputArtifact;
      if artifact.None? then (run, handles, NoArtifact)
      else
        var staged := run.(stage := if run.stage == NotStarted
                           then AdvancedStage(run.stage, NotStarted, ArtifactWritten) else run.stage);
        var appended := if staged.stage == ArtifactWritten then handles + [HandleFor(entries, artifact.value)]
          else handles;
        var ready := staged.(stage := if staged.stage == ArtifactWritten
                             then AdvancedStage(staged.stage, ArtifactWritten, HandleAppended) else staged.stage);
        var done := FinalizedRun(ready, entries, artifact.value);
        (done, appended, FinalizedAs(done.status, done.outputArtifact))
  }

  class FinalizeOperatorRun {
    const store: OperatorExecutionStore
    var handles: seq<Handle>

    constructor (store: OperatorExecutionStore)
      ensures this.store == store && handles == []
    {
      this.store, handles := store, [];
    }

    // Works on copies and commits them at the end, so a failure leaves everything as it was.
    method Execute() returns (r: FinalizeResult, ghost stages: seq<Stage>)
      modifies this, store
      ensures store.tasks == old(store.tasks)
      ensures (store.run, handles, r) == Finalization(old(store.run), old(store.tasks), old(handles))
      ensures |stages| > 0 && stages[0] == old(store.run.stage) && stages[|stages| - 1] == store.run.stage
      ensures forall i :: 0 < i < |stages| ==> Follows(stages[i - 1], stages[i])
    {
      var run, ledger := store.run, handles;
      stages := [run.stage];
      if !AllTerminal(store.tasks) {
        return NotReady, stages;
      }
      var entries := Entries(store.tasks);
      var artifact := run.outputArtifact;
      if run.stage == NotStarted {
        artifact := Some(entries);
        run := run.(stage := AdvancedStage(run.stage, NotStarted, ArtifactWritten));
        stages := stages + [run.stage];
      }
      if artifact.None? {
        return NoArtifact, stages;
      }
      if run.stage == ArtifactWritten {
        ledger := ledger + [HandleFor(entries, artifact.value)];
        run := run.(stage := AdvancedStage(run.stage, ArtifactWritten, HandleAppended));
        stages := stages + [run.stage];
      }
      if run.stage != Finalized {
        run := FinalizedRun(run, entries, artifact.value);
        stages := stages + [run.stage];
      }
      store.run, handles := run, ledger;
      r := FinalizedAs(run.status, run.outputArtifact);
    }
  }

  // The only moves of the stage.
  predicate Follows(a: Stage, b: Stage) {
    || (a == NotStarted && b == ArtifactWritten)
    || (a == ArtifactWritten && b == HandleAppended)
    || (a == HandleAppended && b == Finalized)
  }

  // ---- what one finalization does --------------------------------------------------------------

  lemma {:induction false} CountsAgree(tasks: seq<Task>)
    requires AllTerminal(tasks)
    ensures FailedCount(Entries(tasks)) == CountStatus(tasks, Failed)
    ensures CountStatus(tasks, Succeeded) + CountStatus(tasks, Failed) == |tasks|
    ensures CountStatus(tasks, Running) == CountStatus(tasks, Pending) == CountStatus(tasks, RetryableFailure) == 0
  {
    FailedCounts(tasks, 0);
    if tasks != [] {
      CountsAgree(tasks[1..]);
    }
  }

  lemma {:induction false} FailedCounts(tasks: seq<Task>, from: nat)
    requires AllTerminal(tasks) && from <= |tasks|
    ensures Sum(Entries(tasks)[from..], FailedWeight) == Sum(tasks[from..], StatusWeight(Failed))
    decreases |tasks| - from
  {
    if from < |tasks| {
      FailedCounts(tasks, from + 1);
      assert Entries(tasks)[from..][1..] == Entries(tasks)[from + 1..] && tasks[from..][1..] == tasks[from + 1..];
    } else {
      assert Entries(tasks)[from..] == [] && tasks[from..] == [];
    }
    assert Entries(tasks)[0..] == Entries(tasks) && tasks[0..] == tasks;
  }

  // The store and the finalizer derive the status of a run by different rules, but agree once every
  // task is terminal.
  lemma StatusesAgree(run: Run, tasks: seq<Task>)
    requires AllTerminal(tasks) && tasks != []
    ensures StoreStatus(run, tasks) == DeriveRunStatus(Entries(tasks))
  {
    CountsAgree(tasks);
  }

  lemma {:induction false} CountAll(tasks: seq<Task>, status: TaskStatus)
    ensures CountStatus(tasks, status) <= |tasks|
    ensures CountStatus(tasks, status) == |tasks| <==> forall t :: t in tasks ==> t.status == status
  {
    if tasks != [] {
      CountAll(tasks[1..], status);
      assert tasks[0] in tasks && forall t :: t in tasks <==> t == tasks[0] || t in tasks[1..];
    }
  }

  // A finalized run is called failed exactly when it has items and every one of them failed.
  lemma FailedRunIff(tasks: seq<Task>)
    requires AllTerminal(tasks)
    ensures DeriveRunStatus(Entries(tasks)) == FailedRun
      <==> tasks != [] && forall t :: t in tasks ==> t.status == Failed
    ensures DeriveRunStatus(Entries(tasks)) == CompletedRun <==> forall t :: t in tasks ==> t.status == Succeeded
  {
    CountsAgree(tasks);
    CountAll(tasks, Failed);
    CountAll(tasks, Succeeded);
  }

  // Had a crash left the intermediate stage behind, the run could never be finalized: the stage is
  // stored without the artifact id.
  lemma HalfwayIsStuck(run: Run, tasks: seq<Task>, handles: seq<Handle>)
    requires run.stage == ArtifactWritten && run.outputArtifact.None?
    ensures Finalization(run, tasks, handles).2 == (if AllTerminal(tasks) then NoArtifact else NotReady)
    ensures Finalization(run, tasks, handles).0 == run && Finalization(run, tasks, handles).1 == handles
  {
  }
}
