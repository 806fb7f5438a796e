// Which task a worker is given, and how long a task is left alone.
module OperatorTiming {
  import opened Sequences
  import opened Ledger
  import opened OperatorStore
  import opened OperatorFinalization
  import opened OperatorRuns
  import opened OperatorLaws

  // ---- which task is claimed ---------------------------------------------------------------------

  // Not waiting for a retry, not leased, and not one too many.
  predicate Free(tasks: seq<Task>, i: nat, now: int, limit: nat)
    requires i < |tasks|
  {
    && (tasks[i].nextRetryAt.Some? ==> tasks[i].nextRetryAt.value <= now)
    && (tasks[i].leaseExpiresAt.Some? ==> tasks[i].leaseExpiresAt.value <= now)
    && (tasks[i].status != Running ==> LeasedAt(tasks, now) < limit)
  }

  function LeaseWeight(now: int): Task -> nat {
    (t: Task) => if t.status == Running && t.leaseExpiresAt.Some? && t.leaseExpiresAt.value > now then 1 else 0
  }

  // The tasks that are being worked on under a valid lease.
  function LeasedAt(tasks: seq<Task>, now: int): nat { Sum(tasks, LeaseWeight(now)) }

  predicate Lapsed(tasks: seq<Task>, i: nat, now: int, limit: nat)
    requires i < |tasks|
  {
    tasks[i].status == Running && tasks[i].leaseExpiresAt.Some? && Free(tasks, i, now, limit)
  }

  predicate Unstarted(tasks: seq<Task>, i: nat, now: int, limit: nat)
    requires i < |tasks|
  {
    (tasks[i].status == Pending || tasks[i].status == RetryableFailure) && Free(tasks, i, now, limit)
  }

  predicate Fit(tasks: seq<Task>, i: nat, now: int, limit: nat, reclaim: bool)
    requires i < |tasks|
  {
    if reclaim then Lapsed(tasks, i, now, limit) else Unstarted(tasks, i, now, limit)
  }

  lemma ClaimableIs(tasks: seq<Task>, i: nat, now: int, limit: nat, reclaim: bool)
    requires i < |tasks|
    ensures (reclaim ==> LeaseExpired(tasks[i], now)) && Claimable(tasks, tasks[i], now, limit, reclaim)
       <==> Fit(tasks, i, now, limit, reclaim)
  {
    SumCongruent(tasks, ActiveWeight(now), LeaseWeight(now));
  }

  lemma {:induction false} FirstClaimableIs(tasks: seq<Task>, from: nat, now: int, limit: nat, reclaim: bool)
    requires from <= |tasks|
    ensures var r := FirstClaimable(tasks, from, now, limit, reclaim);
      && (r.Some? ==> from <= r.value < |tasks| && Fit(tasks, r.value, now, limit, reclaim))
      && forall i :: from <= i < (if r.Some? then r.value else |tasks|) ==> !Fit(tasks, i, now, limit, reclaim)
    decreases |tasks| - from
  {
    hide Claimable, Fit, LeaseExpired;
    if from < |tasks| {
      ClaimableIs(tasks, from, now, limit, reclaim);
      FirstClaimableIs(tasks, from + 1, now, limit, reclaim);
    }
  }

  // A worker is given the first task whose lease has run out, or else the first open one that is free.
  lemma ClaimIs(tasks: seq<Task>, now: int, limit: nat)
    ensures match ToClaim(tasks, now, limit)
      case None => forall i :: 0 <= i < |tasks| ==> !Lapsed(tasks, i, now, limit) && !Unstarted(tasks, i, now, limit)
      case Some(i) =>
        && i < |tasks|
        && (|| (Lapsed(tasks, i, now, limit) && forall j :: 0 <= j < i ==> !Lapsed(tasks, j, now, limit))
            || (&& Unstarted(tasks, i, now, limit)
                && (forall j :: 0 <= j < i ==> !Unstarted(tasks, j, now, limit))
                && (forall j :: 0 <= j < |tasks| ==> !Lapsed(tasks, j, now, limit))))
  {
    hide FirstClaimable, Lapsed, Unstarted;
    FirstClaimableIs(tasks, 0, now, limit, true);
    FirstClaimableIs(tasks, 0, now, limit, false);
    forall i | 0 <= i < |tasks|
      ensures Fit(tasks, i, now, limit, true) == Lapsed(tasks, i, now, limit)
      ensures Fit(tasks, i, now, limit, false) == Unstarted(tasks, i, now, limit)
    {
    }
  }

  // ---- what is recorded ---------------------------------------------------------------------------

  // An output ends the task; a retryable failure opens it again while attempts are left, to be retried after the
  // backoff; every other failure ends it.
  ghost predicate Records(before: Task, after: Task, attempt: nat, outcome: Outcome, policy: Policy, now: int) {
    && after.attemptCount == before.attemptCount && after.leaseExpiresAt.None?
    && match outcome
       case Generated(output) =>
         after.status == Succeeded && after.output == Some(output) && after.nextRetryAt.None?
           && after.terminalFailure.None?
       case NotGenerated(f) =>
         var retried := f.retryable && attempt <= policy.maxRetries;
         && after.output == before.output
         && after.terminalFailure == Some(Failure(f.code, f.message, retried, Some(attempt)))
         && after.status == (if retried then RetryableFailure else Failed)
         && after.nextRetryAt == if retried then Some(now + policy.retryBackoff) else None
  }

  lemma OutcomeIsRecorded(s: Snapshot, policy: Policy, e: Execution, outcome: Outcome, now: int)
    requires e in s.executions && e.index < |s.tasks|
    ensures var r := Next(s, policy, Complete(e, outcome, now));
      && |r.tasks| == |s.tasks| && Records(s.tasks[e.index], r.tasks[e.index], e.attempt, outcome, policy, now)
      && forall i :: 0 <= i < |s.tasks| && i != e.index ==> r.tasks[i] == s.tasks[i]
  {
    hide UpdatedRun;
  }

  // ---- how long a task is left alone -----------------------------------------------------------------

  // Nobody is given the task before that time: it waits for its retry, or somebody holds its lease.
  predicate HeldUntil(t: Task, time: int) {
    || ((t.status == Pending || t.status == RetryableFailure) && t.nextRetryAt.Some? && t.nextRetryAt.value >= time)
    || (t.status == Running && t.leaseExpiresAt.Some? && t.leaseExpiresAt.value >= time)
  }

  lemma HeldIsNotClaimed(tasks: seq<Task>, i: nat, time: int, now: int, limit: nat)
    requires i < |tasks| && HeldUntil(tasks[i], time) && now < time
    ensures ToClaim(tasks, now, limit) != Some(i)
  {
    ClaimIs(tasks, now, limit);
  }

  // The step claims the task, if at all, at that time or later.
  predicate PicksFrom(s: Snapshot, policy: Policy, step: Step, i: nat, time: int) {
    step.Claim? && ToClaim(s.tasks, step.now, policy.concurrencyLimit) == Some(i) ==> step.now >= time
  }

  ghost predicate AllPickFrom(s: Snapshot, policy: Policy, steps: seq<Step>, i: nat, time: int) {
    forall k :: 0 <= k < |steps| ==> PicksFrom(Reached(s, policy, steps[..k]), policy, steps[k], i, time)
  }

  lemma HeldStep(s: Snapshot, policy: Policy, step: Step, i: nat, time: int)
    requires i < |s.tasks| && HeldUntil(s.tasks[i], time) && policy.leaseDuration >= 0
    requires step.Complete? ==> step.execution.index != i
    ensures i < |Next(s, policy, step).tasks| && HeldUntil(Next(s, policy, step).tasks[i], time)
    ensures PicksFrom(s, policy, step, i, time)
  {
    hide UpdatedRun, ToClaim, Finalization;
    if step.Claim? && step.now < time {
      HeldIsNotClaimed(s.tasks, i, time, step.now, policy.concurrencyLimit);
    }
  }

  // The executions of the task are not recorded by any of the steps.
  ghost predicate NotRecorded(steps: seq<Step>, i: nat) {
    forall k :: 0 <= k < |steps| && steps[k].Complete? ==> steps[k].execution.index != i
  }

  lemma {:induction false} HeldThroughout(s: Snapshot, policy: Policy, steps: seq<Step>, i: nat, time: int)
    requires i < |s.tasks| && HeldUntil(s.tasks[i], time) && policy.leaseDuration >= 0 && NotRecorded(steps, i)
    ensures var r := Reached(s, policy, steps); i < |r.tasks| && HeldUntil(r.tasks[i], time)
    ensures AllPickFrom(s, policy, steps, i, time)
  {
    hide Next, HeldUntil, PicksFrom;
    if steps != [] {
      var front, step := steps[..|steps| - 1], steps[|steps| - 1];
      HeldThroughout(s, policy, front, i, time);
      HeldStep(Reached(s, policy, front), policy, step, i, time);
      forall k | 0 <= k < |steps| ensures PicksFrom(Reached(s, policy, steps[..k]), policy, steps[k], i, time) {
        if k < |front| {
          assert front[..k] == steps[..k] && front[k] == steps[k];
        }
      }
    }
  }

  // A task put back for a retry is open; it is not claimed before the backoff is over, and can be claimed from then on.
  lemma RetryWaits(s: Snapshot, policy: Policy, e: Execution, failure: Failure, recordedAt: int)
    requires e in s.executions && e.index < |s.tasks| && failure.retryable && e.attempt <= policy.maxRetries
    ensures var tasks := Next(s, policy, Complete(e, NotGenerated(failure), recordedAt)).tasks;
      && e.index < |tasks| && Open(tasks[e.index]) && HeldUntil(tasks[e.index], recordedAt + policy.retryBackoff)
      && forall now: int, limit: nat ::
           if now < recordedAt + policy.retryBackoff then ToClaim(tasks, now, limit) != Some(e.index)
           else LeasedAt(tasks, now) < limit ==> Unstarted(tasks, e.index, now, limit)
  {
    OutcomeIsRecorded(s, policy, e, NotGenerated(failure), recordedAt);
    var tasks := Next(s, policy, Complete(e, NotGenerated(failure), recordedAt)).tasks;
    hide Next, ToClaim, LeasedAt;
    forall now: int, limit: nat
      ensures if now < recordedAt + policy.retryBackoff then ToClaim(tasks, now, limit) != Some(e.index)
              else LeasedAt(tasks, now) < limit ==> Unstarted(tasks, e.index, now, limit)
    {
      if now < recordedAt + policy.retryBackoff {
        HeldIsNotClaimed(tasks, e.index, recordedAt + policy.retryBackoff, now, limit);
      }
    }
  }

  // So it is under every interleaving, as long as no other execution of the task is recorded.
  lemma RetryNotEarly(s: Snapshot, policy: Policy, e: Execution, failure: Failure, recordedAt: int, steps: seq<Step>)
    requires e in s.executions && e.index < |s.tasks| && failure.retryable && e.attempt <= policy.maxRetries
    requires policy.leaseDuration >= 0 && NotRecorded(steps, e.index)
    ensures var after := Next(s, policy, Complete(e, NotGenerated(failure), recordedAt));
      AllPickFrom(after, policy, steps, e.index, recordedAt + policy.retryBackoff)
  {
    hide Next, HeldUntil;
    RetryWaits(s, policy, e, failure, recordedAt);
    var after := Next(s, policy, Complete(e, NotGenerated(failure), recordedAt));
    HeldThroughout(after, policy, steps, e.index, recordedAt + policy.retryBackoff);
  }

  // A worker that died records nothing any more, and its task stays as it is until somebody takes over the lease.
  lemma DeadRecordNothing(s: Snapshot, policy: Policy, e: Execution, outcome: Outcome, now: int)
    ensures var dead := Next(s, policy, Crash(e));
      && dead.tasks == s.tasks && dead.run == s.run && dead.handles == s.handles
      && (forall other :: other != e ==> (other in dead.executions <==> other in s.executions))
      && Next(dead, policy, Complete(e, outcome, now)) == dead
  {
  }

  // And a claimed task is left to its worker for the whole lease, unless a result is recorded before.
  lemma LeaseRespected(s: Snapshot, policy: Policy, i: nat, now: int, steps: seq<Step>)
    requires ToClaim(s.tasks, now, policy.concurrencyLimit) == Some(i)
    requires policy.leaseDuration >= 0 && NotRecorded(steps, i)
    ensures var after := Next(s, policy, Claim(now));
      && after.tasks == s.tasks[i := Task(Running, s.tasks[i].attemptCount + 1, Some(now + policy.leaseDuration), None,
                                          None, s.tasks[i].output)]
      && Execution(i, s.tasks[i].attemptCount + 1) in after.executions
      && AllPickFrom(after, policy, steps, i, now + policy.leaseDuration)
  {
    hide ToClaim, UpdatedRun;
    var after := Next(s, policy, Claim(now));
    assert HeldUntil(after.tasks[i], now + policy.leaseDuration);
    HeldThroughout(after, policy, steps, i, now + policy.leaseDuration);
  }

  // ---- the concurrency limit ------------------------------------------------------------------------

  // Starting a task never leads to more valid leases than allowed.
  lemma LimitKept(s: Snapshot, policy: Policy, now: int)
    requires var i := ToClaim(s.tasks, now, policy.concurrencyLimit);
      i.Some? && s.tasks[i.value].status != Running
    ensures LeasedAt(Next(s, policy, Claim(now)).tasks, now) <= policy.concurrencyLimit
  {
    ClaimIs(s.tasks, now, policy.concurrencyLimit);
    var i := ToClaim(s.tasks, now, policy.concurrencyLimit).value;
    hide ToClaim, UpdatedRun;
    var t := ClaimedTask(s.tasks[i], now, policy.leaseDuration);
    var tasks := s.tasks[i := t];
    SumSplitAt(s.tasks, i, LeaseWeight(now));
    SumSplitAt(tasks, i, LeaseWeight(now));
    assert tasks[..i] == s.tasks[..i] && tasks[i + 1..] == s.tasks[i + 1..];
  }

  // ---- the status of the run --------------------------------------------------------------------------

  lemma {:induction false} CountedIff(tasks: seq<Task>, status: TaskStatus)
    ensures CountStatus(tasks, status) > 0 <==> exists t :: t in tasks && t.status == status
    ensures CountStatus(tasks, status) == |tasks| <==> forall t :: t in tasks ==> t.status == status
  {
    CountAll(tasks, status);
    if tasks != [] {
      CountedIff(tasks[1..], status);
      assert tasks[0] in tasks && forall t :: t in tasks <==> t == tasks[0] || t in tasks[1..];
    }
  }

  // A run with items is running while some task is; else failed if every task is; else completed with failures if some
  // task failed; else completed if every task succeeded; else pending.
  lemma StatusIs(run: Run, tasks: seq<Task>)
    requires tasks != []
    ensures StoreStatus(run, tasks) ==
      if exists t :: t in tasks && t.status == Running then RunningRun
      else if forall t :: t in tasks ==> t.status == Failed then FailedRun
      else if exists t :: t in tasks && t.status == Failed then CompletedWithFailures
      else if forall t :: t in tasks ==> t.status == Succeeded then CompletedRun
      else PendingRun
  {
    CountedIff(tasks, Running);
    CountedIff(tasks, Failed);
    CountedIff(tasks, Succeeded);
    CountedIff(tasks, Pending);
    CountedIff(tasks, RetryableFailure);
    assert tasks[0] in tasks;
  }

  predicate FailedWith(tasks: seq<Task>, i: nat)
    requires i < |tasks|
  {
    tasks[i].status == Failed && tasks[i].terminalFailure.Some?
  }

  lemma {:induction false} FirstFailureIs(tasks: seq<Task>)
    ensures match FirstFailure(tasks)
      case None => forall i :: 0 <= i < |tasks| ==> !FailedWith(tasks, i)
      case Some(failure) => exists i ::
        && 0 <= i < |tasks| && FailedWith(tasks, i) && tasks[i].terminalFailure == Some(failure)
        && forall j :: 0 <= j < i ==> !FailedWith(tasks, j)
  {
    if tasks != [] {
      FirstFailureIs(tasks[1..]);
      forall i | 0 <= i < |tasks[1..]| ensures FailedWith(tasks[1..], i) == FailedWith(tasks, i + 1) {
      }
      if FailedWith(tasks, 0) {
        assert FirstFailure(tasks) == tasks[0].terminalFailure;
      } else if FirstFailure(tasks).Some? {
        var i :| 0 <= i < |tasks[1..]| && FailedWith(tasks[1..], i)
          && tasks[1..][i].terminalFailure == FirstFailure(tasks)
            && forall j :: 0 <= j < i ==> !FailedWith(tasks[1..], j);
        assert FailedWith(tasks, i + 1) && tasks[i + 1] == tasks[1..][i];
        forall j | 0 <= j < i + 1 ensures !FailedWith(tasks, j) {
          assert j > 0 ==> FailedWith(tasks[1..], j - 1) == FailedWith(tasks, j);
        }
      } else {
        forall i | 0 <= i < |tasks| ensures !FailedWith(tasks, i) {
          assert i > 0 ==> FailedWith(tasks[1..], i - 1) == FailedWith(tasks, i);
        }
      }
    }
  }

  // After every change a run shows the failure of its first failed task, or else what it showed before; stage
  // and artifact
  // stay as they are.
  lemma FailureShown(run: Run, tasks: seq<Task>)
    ensures var r := UpdatedRun(run, tasks);
      && r.stage == run.stage && r.outputArtifact == run.outputArtifact && r.status == StoreStatus(run, tasks)
      && if forall i :: 0 <= i < |tasks| ==> !FailedWith(tasks, i) then r.failureSummary == run.failureSummary
         else exists i ::
           && 0 <= i < |tasks| && FailedWith(tasks, i) && r.failureSummary == tasks[i].terminalFailure
           && forall j :: 0 <= j < i ==> !FailedWith(tasks, j)
  {
    hide StoreStatus;
    FirstFailureIs(tasks);
  }
}
