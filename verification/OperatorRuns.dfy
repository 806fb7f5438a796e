// Workers claiming, executing, recording and finalizing, interleaved in any way.
module OperatorRuns {
  import opened Sequences
  import opened Ledger
  import opened OperatorStore
  import opened OperatorFinalization

  // What executing an item ends in.
  datatype Outcome = Generated(output: Json) | NotGenerated(failure: Failure)

  // A claim that a worker is still working on, with the attempt count it saw.
  datatype Execution = Execution(index: nat, attempt: nat)

  datatype Snapshot = Snapshot(tasks: seq<Task>, run: Run, handles: seq<Handle>, executions: set<Execution>)

  // A worker claims, finishes an execution, or dies in it; anybody finalizes.
  datatype Step =
    | Claim(now: int)
    | Complete(execution: Execution, outcome: Outcome, now: int)
    | Crash(execution: Execution)
    | Finalize

  // What is recorded for an outcome: a retry is granted by the attempt count seen at the claim.
  function RecordedTask(t: Task, attempt: nat, outcome: Outcome, policy: Policy, now: int): Task {
    match outcome
    case Generated(output) => SucceededTask(t, output)
    case NotGenerated(failure) =>
      if failure.retryable && attempt < policy.maxRetries + 1
      then RetryableTask(t, failure.(retryable := true, attemptCount := Some(attempt)), now + policy.retryBackoff)
      else FailedTask(t, failure.(retryable := false, attemptCount := Some(attempt)))
  }

  function ClaimIn(s: Snapshot, policy: Policy, now: int): Snapshot {
    var i := ToClaim(s.tasks, now, policy.concurrencyLimit);
    if i.None? then s
    else
      var tasks := s.tasks[i.value := ClaimedTask(s.tasks[i.value], now, policy.leaseDuration)];
      s.(tasks := tasks, run := UpdatedRun(s.run, tasks),
         executions := s.executions + {Execution(i.value, tasks[i.value].attemptCount)})
  }

  function CompleteIn(s: Snapshot, policy: Policy, e: Execution, outcome: Outcome, now: int): Snapshot {
    if e !in s.executions || e.index >= |s.tasks| then s
    else
      var tasks := s.tasks[e.index := RecordedTask(s.tasks[e.index], e.attempt, outcome, policy, now)];
      s.(tasks := tasks, run := UpdatedRun(s.run, tasks), executions := s.executions - {e})
  }

  function FinalizeIn(s: Snapshot): Snapshot {
    var (run, handles, _) := Finalization(s.run, s.tasks, s.handles);
    s.(run := run, handles := handles)
  }

  function Next(s: Snapshot, policy: Policy, step: Step): Snapshot {
    match step
    case Claim(now) => ClaimIn(s, policy, now)
    case Complete(e, outcome, now) => CompleteIn(s, policy, e, outcome, now)
    case Crash(e) => s.(executions := s.executions - {e})
    case Finalize => FinalizeIn(s)
  }

  // ---- the operations ----------------------------------------------------------------------------

  class ExecuteOperatorTask {
    const finalizer: FinalizeOperatorRun
    const policy: Policy

    constructor (finalizer: FinalizeOperatorRun, policy: Policy)
      ensures this.finalizer == finalizer && this.policy == policy
    {
      this.finalizer, this.policy := finalizer, policy;
    }

    ghost function State(executions: set<Execution>): Snapshot
      reads finalizer, finalizer.store
    {
      Snapshot(finalizer.store.tasks, finalizer.store.run, finalizer.handles, executions)
    }

    // One task: claim it, generate its output, record the outcome, finalize unless it will be retried.
    method Execute(claimedAt: int, generate: (nat, nat) -> Outcome, recordedAt: int, ghost executions: set<Execution>)
      returns (claimed: Option<nat>)
      modifies finalizer, finalizer.store
      ensures claimed == ToClaim(old(finalizer.store.tasks), claimedAt, policy.concurrencyLimit)
      ensures claimed.None? ==> State(executions) == old(State(executions))
      ensures claimed.Some? ==>
        var i := claimed.value;
        var attempt := old(finalizer.store.tasks)[i].attemptCount + 1;
        var outcome := generate(i, attempt);
        var s1 := ClaimIn(old(State(executions)), policy, claimedAt);
        var s2 := CompleteIn(s1, policy, Execution(i, attempt), outcome, recordedAt);
        State(executions - {Execution(i, attempt)})
          == if s2.tasks[i].status == RetryableFailure then s2 else FinalizeIn(s2)
      ensures claimed.Some? ==>
        var i := claimed.value;
        var attempt := old(finalizer.store.tasks)[i].attemptCount + 1;
        var outcome, due := generate(i, attempt), recordedAt + policy.retryBackoff;
        outcome.NotGenerated? && outcome.failure.retryable && attempt <= policy.maxRetries ==>
          && Open(finalizer.store.tasks[i]) && finalizer.store.tasks[i].nextRetryAt == Some(due)
          && forall now :: now < due ==> ToClaim(finalizer.store.tasks, now, policy.concurrencyLimit) != Some(i)
    {
      hide ToClaim, UpdatedRun, Finalization;
      claimed := finalizer.store.ClaimTaskLease(claimedAt, policy);
      if claimed.None? {
        return;
      }
      var i := claimed.value;
      var attempt := finalizer.store.tasks[i].attemptCount;
      match generate(i, attempt) {
        case Generated(output) =>
          finalizer.store.RecordTaskSuccess(i, output);
        case NotGenerated(failure) =>
          if failure.retryable && attempt < policy.maxRetries + 1 {
            finalizer.store.MarkTaskRetryableFailure(i, failure.(retryable := true, attemptCount := Some(attempt)),
                                                     recordedAt + policy.retryBackoff);
            forall now | now < recordedAt + policy.retryBackoff
              ensures ToClaim(finalizer.store.tasks, now, policy.concurrencyLimit) != Some(i)
            {
              WaitingIsNotClaimed(finalizer.store.tasks, i, now, policy.concurrencyLimit);
            }
            return;
          }
          finalizer.store.RecordTaskFailure(i, failure.(retryable := false, attemptCount := Some(attempt)));
      }
      ghost var stages;
      var result;
      result, stages := finalizer.Execute();
    }
  }
}
