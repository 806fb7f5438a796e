// The durable tasks of an operator run, as the persistence layer keeps them.
module OperatorStore {
  import opened Sequences
  import opened Ledger

  datatype TaskStatus = Pending | Running | RetryableFailure | Succeeded | Failed

  datatype Failure = Failure(code: string, message: string, retryable: bool, attemptCount: Option<nat>)

  datatype Task =
    Task(status: TaskStatus, attemptCount: nat, leaseExpiresAt: Option<int>, nextRetryAt: Option<int>,
         terminalFailure: Option<Failure>, output: Option<Json>)

  const FRESH_TASK := Task(Pending, 0, None, None, None, None)

  datatype Entry =
    | SucceededEntry(itemIndex: nat, output: Option<Json>)
    | FailedEntry(itemIndex: nat, error: Failure)

  datatype Stage = NotStarted | ArtifactWritten | HandleAppended | Finalized

  datatype RunStatus = PendingRun | RunningRun | CompletedRun | CompletedWithFailures | FailedRun

  // The artifact id is the hash of its content, so the content stands for it.
  datatype Run = Run(status: RunStatus, stage: Stage, outputArtifact: Option<seq<Entry>>,
                     failureSummary: Option<Failure>)

  datatype Policy = Policy(maxRetries: nat, retryBackoff: int, concurrencyLimit: nat, leaseDuration: int)

  // ---- the status of the run, derived from its tasks ---------------------------------------

  function StatusWeight(status: TaskStatus): Task -> nat {
    (t: Task) => if t.status == status then 1 else 0
  }

  function CountStatus(tasks: seq<Task>, status: TaskStatus): nat {
    Sum(tasks, StatusWeight(status))
  }

  function StoreStatus(run: Run, tasks: seq<Task>): RunStatus {
    if tasks == [] then run.status
    else if CountStatus(tasks, Running) > 0 then RunningRun
    else if CountStatus(tasks, Failed) > 0 && CountStatus(tasks, Succeeded) == 0 && CountStatus(tasks, Pending) == 0
      && CountStatus(tasks, RetryableFailure) == 0 then FailedRun
    else if CountStatus(tasks, Failed) > 0 then CompletedWithFailures
    else if CountStatus(tasks, Succeeded) == |tasks| then CompletedRun
    else PendingRun
  }

  function FirstFailure(tasks: seq<Task>): Option<Failure> {
    if tasks == [] then None
    else if tasks[0].status == Failed && tasks[0].terminalFailure.Some? then tasks[0].terminalFailure
    else FirstFailure(tasks[1..])
  }

  function UpdatedRun(run: Run, tasks: seq<Task>): Run {
    var failure := FirstFailure(tasks);
    run.(status := StoreStatus(run, tasks), failureSummary := if failure.Some? then failure else run.failureSummary)
  }

  lemma UpdateKeepsStage(run: Run, tasks: seq<Task>)
    ensures UpdatedRun(run, tasks).stage == run.stage && UpdatedRun(run, tasks).outputArtifact == run.outputArtifact
  {
  }

  // ---- claiming --------------------------------------------------------------------------------

  predicate LeaseActive(t: Task, now: int) { t.leaseExpiresAt.Some? && t.leaseExpiresAt.value > now }

  predicate LeaseExpired(t: Task, now: int) {
    t.status == Running && t.leaseExpiresAt.Some? && t.leaseExpiresAt.value <= now
  }

  predicate Waiting(t: Task, now: int) { t.nextRetryAt.Some? && t.nextRetryAt.value > now }

  function ActiveWeight(now: int): Task -> nat {
    (t: Task) => if t.status == Running && LeaseActive(t, now) then 1 else 0
  }

  function ActiveLeases(tasks: seq<Task>, now: int): nat {
    Sum(tasks, ActiveWeight(now))
  }

  predicate Open(t: Task) { t.status == Pending || t.status == RetryableFailure }

  predicate Claimable(tasks: seq<Task>, t: Task, now: int, limit: nat, reclaim: bool) {
    && ((reclaim && LeaseExpired(t, now)) || Open(t))
    && !Waiting(t, now) && !LeaseActive(t, now)
    && (t.status == Running || ActiveLeases(tasks, now) < limit)
  }

  // The first claimable task; expired ones are looked at on their own, before the others.
  function FirstClaimable(tasks: seq<Task>, from: nat, now: int, limit: nat, reclaim: bool): (r: Option<nat>)
    requires from <= |tasks|
    ensures r.Some? ==> from <= r.value < |tasks| && Claimable(tasks, tasks[r.value], now, limit, reclaim)
    ensures r.Some? && reclaim ==> LeaseExpired(tasks[r.value], now)
    ensures r.None? ==> forall i :: from <= i < |tasks| && (reclaim ==> LeaseExpired(tasks[i], now)) ==>
      !Claimable(tasks, tasks[i], now, limit, reclaim)
    decreases |tasks| - from
  {
    if from == |tasks| then None
    else if (reclaim ==> LeaseExpired(tasks[from], now)) && Claimable(tasks, tasks[from], now, limit, reclaim)
    then Some(from)
    else FirstClaimable(tasks, from + 1, now, limit, reclaim)
  }

  function ToClaim(tasks: seq<Task>, now: int, limit: nat): (r: Option<nat>)
    ensures r.Some? ==> r.value < |tasks|
    ensures r.Some? ==> LeaseExpired(tasks[r.value], now) || Open(tasks[r.value])
  {
    var expired := FirstClaimable(tasks, 0, now, limit, true);
    if expired.Some? then expired else FirstClaimable(tasks, 0, now, limit, false)
  }

  lemma WaitingIsNotClaimed(tasks: seq<Task>, i: nat, now: int, limit: nat)
    requires i < |tasks| && Waiting(tasks[i], now)
    ensures ToClaim(tasks, now, limit) != Some(i)
  {
  }

  function ClaimedTask(t: Task, now: int, leaseDuration: int): Task {
    Task(Running, t.attemptCount + 1, Some(now + leaseDuration), None, None, t.output)
  }

  // ---- recording: whatever the task looks like, it is overwritten --------------------------------

  function SucceededTask(t: Task, output: Json): Task {
    Task(Succeeded, t.attemptCount, None, None, None, Some(output))
  }

  function FailedTask(t: Task, failure: Failure): Task {
    Task(Failed, t.attemptCount, None, None, Some(failure), t.output)
  }

  function RetryableTask(t: Task, failure: Failure, nextRetryAt: int): Task {
    Task(RetryableFailure, t.attemptCount, None, Some(nextRetryAt), Some(failure), t.output)
  }

  class OperatorExecutionStore {
    var tasks: seq<Task>
    var run: Run

    constructor (taskCount: nat)
      ensures tasks == seq(taskCount, i => FRESH_TASK)
      ensures run == Run(if taskCount == 0 then CompletedRun else PendingRun,
                         if taskCount == 0 then Finalized else NotStarted, None, None)
    {
      tasks := seq(taskCount, i => FRESH_TASK);
      run := Run(if taskCount == 0 then CompletedRun else PendingRun,
                 if taskCount == 0 then Finalized else NotStarted, None, None);
    }

    method SelectClaimable(now: int, limit: nat, reclaim: bool) returns (r: Option<nat>)
      ensures r == FirstClaimable(tasks, 0, now, limit, reclaim)
    {
      for i := 0 to |tasks|
        invariant FirstClaimable(tasks, 0, now, limit, reclaim) == FirstClaimable(tasks, i, now, limit, reclaim)
      {
        var t := tasks[i];
        if reclaim && !LeaseExpired(t, now) {
          continue;
        }
        if !(reclaim && LeaseExpired(t, now)) && !Open(t) {
          continue;
        }
        if Waiting(t, now) || LeaseActive(t, now) {
          continue;
        }
        if t.status != Running && ActiveLeases(tasks, now) >= limit {
          continue;
        }
        return Some(i);
      }
      r := None;
    }

    method ClaimTaskLease(now: int, policy: Policy) returns (claimed: Option<nat>)
      modifies this
      ensures claimed == ToClaim(old(tasks), now, policy.concurrencyLimit)
      ensures claimed.None? ==> tasks == old(tasks) && run == old(run)
      ensures claimed.Some? ==>
        && tasks == old(tasks)[claimed.value := ClaimedTask(old(tasks)[claimed.value], now, policy.leaseDuration)]
        && run == UpdatedRun(old(run), tasks)
    {
      claimed := SelectClaimable(now, policy.concurrencyLimit, true);
      if claimed.None? {
        claimed := SelectClaimable(now, policy.concurrencyLimit, false);
      }
      if claimed.Some? {
        tasks := tasks[claimed.value := ClaimedTask(tasks[claimed.value], now, policy.leaseDuration)];
        run := UpdatedRun(run, tasks);
      }
    }

    method Put(i: nat, task: Task)
      requires i < |tasks|
      modifies this
      ensures tasks == old(tasks)[i := task] && run == UpdatedRun(old(run), tasks)
    {
      tasks := tasks[i := task];
      run := UpdatedRun(run, tasks);
    }

    method RecordTaskSuccess(i: nat, output: Json)
      requires i < |tasks|
      modifies this
      ensures tasks == old(tasks)[i := SucceededTask(old(tasks)[i], output)] && run == UpdatedRun(old(run), tasks)
    {
      Put(i, SucceededTask(tasks[i], output));
    }

    method RecordTaskFailure(i: nat, failure: Failure)
      requires i < |tasks|
      modifies this
      ensures tasks == old(tasks)[i := FailedTask(old(tasks)[i], failure)] && run == UpdatedRun(old(run), tasks)
    {
      Put(i, FailedTask(tasks[i], failure));
    }

    method MarkTaskRetryableFailure(i: nat, failure: Failure, nextRetryAt: int)
      requires i < |tasks|
      modifies this
      ensures tasks == old(tasks)[i := RetryableTask(old(tasks)[i], failure, nextRetryAt)]
        && run == UpdatedRun(old(run), tasks)
    {
      Put(i, RetryableTask(tasks[i], failure, nextRetryAt));
    }
  }
}
