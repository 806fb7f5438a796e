// How often a task is attempted, and why draining the queue comes to an end.
module OperatorAttempts {
  import opened Sequences
  import opened Ledger
  import opened OperatorStore
  import opened OperatorFinalization
  import opened OperatorRuns
  import opened OperatorLaws

  function PickedBy(s: Snapshot, policy: Policy, step: Step, i: nat): bool {
    step.Claim? && ToClaim(s.tasks, step.now, policy.concurrencyLimit) == Some(i)
  }

  // Claims of one task after its lease had run out.
  function Reclaims(s: Snapshot, policy: Policy, steps: seq<Step>, i: nat): nat {
    if steps == [] then 0
    else
      var before := Reached(s, policy, steps[..|steps| - 1]);
      Reclaims(s, policy, steps[..|steps| - 1], i)
      + if PickedBy(before, policy, steps[|steps| - 1], i) && i < |before.tasks| && before.tasks[i].status == Running
        then 1 else 0
  }

  // The attempts that were granted a retry; the others under way are later or still open.
  ghost predicate Spent(s: Snapshot, policy: Policy, i: nat, spent: set<nat>, reclaims: nat) {
    && i < |s.tasks|
    && (forall a :: a in spent ==> 1 <= a <= policy.maxRetries && a <= s.tasks[i].attemptCount)
    && (forall e :: e in s.executions && e.index == i ==>
        1 <= e.attempt <= s.tasks[i].attemptCount && e.attempt !in spent)
    && (s.tasks[i].status == Pending ==> s.tasks[i].attemptCount == 0 && spent == {})
    && s.tasks[i].attemptCount <= |spent| + reclaims + (if Open(s.tasks[i]) then 0 else 1)
  }

  lemma SpentClaim(s: Snapshot, policy: Policy, now: int, i: nat, spent: set<nat>, reclaims: nat)
    requires Spent(s, policy, i, spent, reclaims)
    ensures Spent(ClaimIn(s, policy, now), policy, i, spent,
                  reclaims + if PickedBy(s, policy, Claim(now), i) && s.tasks[i].status == Running then 1 else 0)
  {
    hide UpdatedRun, ClaimedTask, Claimable, FirstClaimable;
    var picked := ToClaim(s.tasks, now, policy.concurrencyLimit);
    if picked == Some(i) {
      ClaimedFacts(s.tasks[i], now, policy.leaseDuration);
    }
  }

  lemma ClaimedFacts(t: Task, now: int, leaseDuration: int)
    ensures ClaimedTask(t, now, leaseDuration).status == Running
      && ClaimedTask(t, now, leaseDuration).attemptCount == t.attemptCount + 1
  {
  }

  lemma SpentComplete(s: Snapshot, policy: Policy, e: Execution, outcome: Outcome, now: int, i: nat, spent: set<nat>,
                      reclaims: nat)
    returns (r: set<nat>)
    requires Spent(s, policy, i, spent, reclaims)
    ensures Spent(CompleteIn(s, policy, e, outcome, now), policy, i, r, reclaims)
  {
    hide UpdatedRun;
    r := spent;
    if e in s.executions && e.index == i && outcome.NotGenerated? && outcome.failure.retryable
      && e.attempt < policy.maxRetries + 1 {
      r := spent + {e.attempt};
    }
  }

  lemma SpentStep(s: Snapshot, policy: Policy, step: Step, i: nat, spent: set<nat>, reclaims: nat) returns (r: set<nat>)
    requires Spent(s, policy, i, spent, reclaims)
    ensures Spent(Next(s, policy, step), policy, i, r,
                  reclaims + if PickedBy(s, policy, step, i) && s.tasks[i].status == Running then 1 else 0)
  {
    hide ClaimIn, CompleteIn, ToClaim, Finalization;
    r := spent;
    match step {
      case Claim(now) =>
        SpentClaim(s, policy, now, i, spent, reclaims);
      case Complete(e, outcome, now) =>
        r := SpentComplete(s, policy, e, outcome, now, i, spent, reclaims);
      case Crash(_) =>
      case Finalize =>
    }
  }

  lemma {:induction false} SmallSet(s: set<nat>, n: nat)
    requires forall a :: a in s ==> 1 <= a <= n
    ensures |s| <= n
  {
    if n > 0 {
      SmallSet(s - {n}, n - 1);
      assert s <= (s - {n}) + {n};
    }
  }

  lemma {:induction false} SpentInvariant(items: seq<Json>, policy: Policy, steps: seq<Step>, i: nat)
    returns (spent: set<nat>)
    requires i < |items|
    ensures Spent(Reached(Start(items), policy, steps), policy, i, spent, Reclaims(Start(items), policy, steps, i))
  {
    if steps == [] {
      spent := {};
    } else {
      var front := steps[..|steps| - 1];
      spent := SpentInvariant(items, policy, front, i);
      spent := SpentStep(Reached(Start(items), policy, front), policy, steps[|steps| - 1], i, spent,
                         Reclaims(Start(items), policy, front, i));
    }
  }

  // Retries are limited: under every interleaving a task is attempted at most maxRetries + 1 times, not
  // counting the attempts that took over an expired lease.
  lemma AttemptsBounded(items: seq<Json>, policy: Policy, steps: seq<Step>, i: nat)
    requires i < |items|
    ensures var s := Reached(Start(items), policy, steps);
      i < |s.tasks| && s.tasks[i].attemptCount <= policy.maxRetries + 1 + Reclaims(Start(items), policy, steps, i)
  {
    var spent := SpentInvariant(items, policy, steps, i);
    SmallSet(spent, policy.maxRetries);
  }

  // ---- the claims of a whole run ---------------------------------------------------------------

  // A claim that finds a task, and one that finds a task whose lease has run out.
  predicate Picks(s: Snapshot, policy: Policy, step: Step) {
    step.Claim? && ToClaim(s.tasks, step.now, policy.concurrencyLimit).Some?
  }

  predicate Repossesses(s: Snapshot, policy: Policy, step: Step) {
    Picks(s, policy, step) && s.tasks[ToClaim(s.tasks, step.now, policy.concurrencyLimit).value].status == Running
  }

  function Claims(s: Snapshot, policy: Policy, steps: seq<Step>): nat {
    if steps == [] then 0
    else
      var front, step := steps[..|steps| - 1], steps[|steps| - 1];
      Claims(s, policy, front) + if Picks(Reached(s, policy, front), policy, step) then 1 else 0
  }

  function AllReclaims(s: Snapshot, policy: Policy, steps: seq<Step>): nat {
    if steps == [] then 0
    else
      var front, step := steps[..|steps| - 1], steps[|steps| - 1];
      AllReclaims(s, policy, front) + if Repossesses(Reached(s, policy, front), policy, step) then 1 else 0
  }

  function AttemptWeight(): Task -> nat {
    (t: Task) => t.attemptCount
  }

  lemma AttemptsStep(s: Snapshot, policy: Policy, step: Step)
    ensures |Next(s, policy, step).tasks| == |s.tasks|
    ensures Sum(Next(s, policy, step).tasks, AttemptWeight())
         == Sum(s.tasks, AttemptWeight()) + if Picks(s, policy, step) then 1 else 0
  {
    hide UpdatedRun, ToClaim, Finalization;
    match step
    case Claim(now) =>
      var i := ToClaim(s.tasks, now, policy.concurrencyLimit);
      if i.Some? {
        PutSum(s.tasks, i.value, ClaimedTask(s.tasks[i.value], now, policy.leaseDuration), AttemptWeight());
      }
    case Complete(e, outcome, now) =>
      if e in s.executions && e.index < |s.tasks| {
        PutSum(s.tasks, e.index, RecordedTask(s.tasks[e.index], e.attempt, outcome, policy, now), AttemptWeight());
      }
    case Crash(_) =>
    case Finalize =>
  }

  // Every claim counts as an attempt of its task, and nothing else does.
  lemma {:induction false} ClaimsAreAttempts(items: seq<Json>, policy: Policy, steps: seq<Step>)
    ensures var tasks := Reached(Start(items), policy, steps).tasks;
      |tasks| == |items| && Sum(tasks, AttemptWeight()) == Claims(Start(items), policy, steps)
  {
    if steps == [] {
      SumZero(Start(items).tasks, AttemptWeight());
    } else {
      hide Next;
      var front := steps[..|steps| - 1];
      ClaimsAreAttempts(items, policy, front);
      AttemptsStep(Reached(Start(items), policy, front), policy, steps[|steps| - 1]);
    }
  }

  function ReclaimsBelow(s: Snapshot, policy: Policy, steps: seq<Step>, n: nat): nat {
    if n == 0 then 0 else ReclaimsBelow(s, policy, steps, n - 1) + Reclaims(s, policy, steps, n - 1)
  }

  lemma {:induction false} ReclaimsBelowStep(s: Snapshot, policy: Policy, steps: seq<Step>, n: nat)
    requires steps != [] && n <= |Reached(s, policy, steps[..|steps| - 1]).tasks|
    ensures var front, step := steps[..|steps| - 1], steps[|steps| - 1];
      var before := Reached(s, policy, front);
      ReclaimsBelow(s, policy, steps, n) == ReclaimsBelow(s, policy, front, n)
        + if Repossesses(before, policy, step) && ToClaim(before.tasks, step.now, policy.concurrencyLimit).value < n
          then 1 else 0
  {
    hide ToClaim, Next, Reached;
    if n > 0 {
      ReclaimsBelowStep(s, policy, steps, n - 1);
    }
  }

  lemma {:induction false} NoStepsNoReclaims(s: Snapshot, policy: Policy, n: nat)
    ensures ReclaimsBelow(s, policy, [], n) == 0
  {
    if n > 0 {
      NoStepsNoReclaims(s, policy, n - 1);
    }
  }

  lemma {:induction false} ReclaimsAddUp(items: seq<Json>, policy: Policy, steps: seq<Step>)
    ensures ReclaimsBelow(Start(items), policy, steps, |items|) == AllReclaims(Start(items), policy, steps)
  {
    hide ToClaim, Next;
    if steps == [] {
      NoStepsNoReclaims(Start(items), policy, |items|);
    } else {
      var front := steps[..|steps| - 1];
      ReclaimsAddUp(items, policy, front);
      ClaimsAreAttempts(items, policy, front);
      ReclaimsBelowStep(Start(items), policy, steps, |items|);
    }
  }

  lemma OneMoreTime(n: nat, m: nat)
    ensures (n + 1) * m == n * m + m
  {
  }

  lemma {:induction false} AttemptsBelow(items: seq<Json>, policy: Policy, steps: seq<Step>, n: nat)
    requires n <= |items|
    ensures var tasks := Reached(Start(items), policy, steps).tasks;
      |tasks| == |items|
      && Sum(tasks[..n], AttemptWeight()) <= n * (policy.maxRetries + 1) + ReclaimsBelow(Start(items), policy, steps, n)
  {
    hide Reached, Reclaims;
    var tasks := Reached(Start(items), policy, steps).tasks;
    ClaimsAreAttempts(items, policy, steps);
    if n > 0 {
      AttemptsBelow(items, policy, steps, n - 1);
      AttemptsBounded(items, policy, steps, n - 1);
      SumAppend(tasks[..n - 1], tasks[n - 1], AttemptWeight());
      assert tasks[..n] == tasks[..n - 1] + [tasks[n - 1]];
      OneMoreTime(n - 1, policy.maxRetries + 1);
    }
  }

  // However many workers take part and however they are interleaved: a run is claimed at most
  // maxRetries + 1 times per item, not counting the claims that took over an expired lease.
  lemma ClaimsBounded(items: seq<Json>, policy: Policy, steps: seq<Step>)
    ensures Claims(Start(items), policy, steps)
         <= |items| * (policy.maxRetries + 1) + AllReclaims(Start(items), policy, steps)
  {
    hide Reached, ReclaimsBelow, Claims, AllReclaims;
    ClaimsAreAttempts(items, policy, steps);
    ReclaimsAddUp(items, policy, steps);
    AttemptsBelow(items, policy, steps, |items|);
    var tasks := Reached(Start(items), policy, steps).tasks;
    assert tasks[..|items|] == tasks;
  }

  // ---- draining ----------------------------------------------------------------------------------

  // How many executions a task may still take.
  function Remaining(t: Task, maxRetries: nat): nat {
    match t.status
    case Succeeded => 0
    case Failed => 0
    case Running => Max(maxRetries - t.attemptCount, 0) + 1
    case Pending => Max(maxRetries + 1 - t.attemptCount, 1)
    case RetryableFailure => Max(maxRetries + 1 - t.attemptCount, 1)
  }

  function RemainingWeight(maxRetries: nat): Task -> nat {
    (t: Task) => Remaining(t, maxRetries)
  }

  function Measure(tasks: seq<Task>, maxRetries: nat): nat {
    Sum(tasks, RemainingWeight(maxRetries))
  }

  lemma PutSum(tasks: seq<Task>, i: nat, t: Task, weight: Task -> nat)
    requires i < |tasks|
    ensures Sum(tasks[i := t], weight) == Sum(tasks, weight) - weight(tasks[i]) + weight(t)
  {
    SumSplitAt(tasks, i, weight);
    SumSplitAt(tasks[i := t], i, weight);
    assert tasks[i := t][..i] == tasks[..i] && tasks[i := t][i + 1..] == tasks[i + 1..];
  }

  lemma ExecutionMeasure(tasks: seq<Task>, i: nat, policy: Policy, claimedAt: int, outcome: Outcome, recordedAt: int)
    requires i < |tasks| && (Open(tasks[i]) || tasks[i].status == Running)
    ensures var t := ClaimedTask(tasks[i], claimedAt, policy.leaseDuration);
      Measure(tasks[i := RecordedTask(t, t.attemptCount, outcome, policy, recordedAt)],
              policy.maxRetries) < Measure(tasks, policy.maxRetries)
  {
    var t := ClaimedTask(tasks[i], claimedAt, policy.leaseDuration);
    PutSum(tasks, i, RecordedTask(t, t.attemptCount, outcome, policy, recordedAt), RemainingWeight(policy.maxRetries));
  }

  // Fresh tasks take at most maxRetries + 1 executions each.
  lemma {:induction false} FreshMeasure(n: nat, maxRetries: nat)
    ensures Measure(seq(n, i => FRESH_TASK), maxRetries) == n * (maxRetries + 1)
  {
    if n > 0 {
      assert seq(n, i => FRESH_TASK)[1..] == seq(n - 1, i => FRESH_TASK);
      FreshMeasure(n - 1, maxRetries);
    }
  }

  // A run whose tasks are all terminal has been finalized.
  predicate Coherent(run: Run, tasks: seq<Task>) {
    && (run.stage == NotStarted || (run.stage == Finalized && run.outputArtifact.Some?))
    && (AllTerminal(tasks) ==> run.stage == Finalized)
  }

  // A run with items that nobody has worked on yet.
  ghost predicate Fresh(run: Run, tasks: seq<Task>) {
    exists items :: items != [] && Start(items).run == run && Start(items).tasks == tasks
  }

  // Nobody is working on the run.
  ghost predicate Idle(tasks: seq<Task>) {
    forall t :: t in tasks ==> t.status != Running && t.leaseExpiresAt.None?
  }

  lemma FreshFacts(run: Run, tasks: seq<Task>, maxRetries: nat)
    requires Fresh(run, tasks)
    ensures Coherent(run, tasks) && Idle(tasks)
    ensures Measure(tasks, maxRetries) == |tasks| * (maxRetries + 1)
  {
    hide Measure;
    var items :| items != [] && Start(items).run == run && Start(items).tasks == tasks;
    assert !IsTerminal(tasks[0]);
    FreshMeasure(|items|, maxRetries);
  }

  lemma StillIdle(tasks: seq<Task>, i: nat, t: Task, attempt: nat, outcome: Outcome, policy: Policy, now: int)
    requires Idle(tasks) && i < |tasks|
    ensures Idle(tasks[i := RecordedTask(t, attempt, outcome, policy, now)])
  {
  }

  // With nobody at work a claim finds nothing only if every task is terminal or waits for its retry.
  lemma NothingToClaim(tasks: seq<Task>, now: int, limit: nat)
    requires Idle(tasks) && limit > 0 && ToClaim(tasks, now, limit).None?
    ensures forall t :: t in tasks ==> IsTerminal(t) || Waiting(t, now)
  {
    SumZero(tasks, ActiveWeight(now));
    forall t | t in tasks ensures IsTerminal(t) || Waiting(t, now) {
      var i :| 0 <= i < |tasks| && tasks[i] == t;
      assert !Claimable(tasks, tasks[i], now, limit, false);
    }
  }

  // Executing one task keeps it so: the last result is followed by the finalization.
  lemma ExecutionCoherent(s: Snapshot, policy: Policy, i: nat, claimedAt: int, outcome: Outcome, recordedAt: int)
    requires Coherent(s.run, s.tasks) && ToClaim(s.tasks, claimedAt, policy.concurrencyLimit) == Some(i)
    ensures var s2 := CompleteIn(ClaimIn(s, policy, claimedAt), policy, Execution(i, s.tasks[i].attemptCount + 1),
                                 outcome, recordedAt);
      var r := if s2.tasks[i].status == RetryableFailure then s2 else FinalizeIn(s2);
      Coherent(r.run, r.tasks)
  {
    hide UpdatedRun, ToClaim;
    var s1 := ClaimIn(s, policy, claimedAt);
    var s2 := CompleteIn(s1, policy, Execution(i, s.tasks[i].attemptCount + 1), outcome, recordedAt);
    UpdateKeepsStage(s.run, s1.tasks);
    UpdateKeepsStage(s1.run, s2.tasks);
    assert s2.tasks[i].status == RetryableFailure ==> !IsTerminal(s2.tasks[i]);
  }

  class PollLoop {
    const execute: ExecuteOperatorTask

    constructor (execute: ExecuteOperatorTask)
      ensures this.execute == execute
    {
      this.execute := execute;
    }

    // Executes tasks until none can be claimed.
    method Drain(clock: nat -> int, generate: (nat, nat) -> Outcome) returns (executed: nat)
      modifies execute.finalizer, execute.finalizer.store
      ensures ToClaim(execute.finalizer.store.tasks, clock(2 * executed), execute.policy.concurrencyLimit) == None
      ensures executed + Measure(execute.finalizer.store.tasks, execute.policy.maxRetries)
           <= old(Measure(execute.finalizer.store.tasks, execute.policy.maxRetries))
      ensures old(Coherent(execute.finalizer.store.run, execute.finalizer.store.tasks)) ==>
        Coherent(execute.finalizer.store.run, execute.finalizer.store.tasks)
      ensures old(Idle(execute.finalizer.store.tasks)) && execute.policy.concurrencyLimit > 0 ==>
        forall t :: t in execute.finalizer.store.tasks ==> IsTerminal(t) || Waiting(t, clock(2 * executed))
      ensures old(Fresh(execute.finalizer.store.run, execute.finalizer.store.tasks)) ==>
        && executed <= old(|execute.finalizer.store.tasks|) * (execute.policy.maxRetries + 1)
        && Idle(execute.finalizer.store.tasks) && Coherent(execute.finalizer.store.run, execute.finalizer.store.tasks)
    {
      hide ToClaim, UpdatedRun, Finalization, Measure, Coherent, RecordedTask, Idle, Fresh, Waiting, IsTerminal;
      var store, policy := execute.finalizer.store, execute.policy;
      executed := 0;
      if Fresh(store.run, store.tasks) {
        FreshFacts(store.run, store.tasks, policy.maxRetries);
      }
      while true
        invariant executed + Measure(store.tasks, policy.maxRetries) <= old(Measure(store.tasks, policy.maxRetries))
        invariant old(Coherent(store.run, store.tasks)) ==> Coherent(store.run, store.tasks)
        invariant old(Idle(store.tasks)) ==> Idle(store.tasks)
        decreases Measure(store.tasks, policy.maxRetries)
      {
        ghost var tasks := store.tasks;
        ghost var before := execute.State({});
        var claimed := execute.Execute(clock(2 * executed), generate, clock(2 * executed + 1), {});
        if claimed.None? {
          if Idle(tasks) && policy.concurrencyLimit > 0 {
            NothingToClaim(tasks, clock(2 * executed), policy.concurrencyLimit);
          }
          return;
        }
        ghost var i := claimed.value;
        ghost var claim := ClaimedTask(tasks[i], clock(2 * executed), policy.leaseDuration);
        ghost var outcome := generate(i, claim.attemptCount);
        ghost var recorded := RecordedTask(claim, claim.attemptCount, outcome, policy, clock(2 * executed + 1));
        assert store.tasks == tasks[i := claim][i := recorded] == tasks[i := recorded];
        if Coherent(before.run, before.tasks) {
          ExecutionCoherent(before, policy, i, clock(2 * executed), outcome, clock(2 * executed + 1));
        }
        if Idle(tasks) {
          StillIdle(tasks, i, claim, claim.attemptCount, outcome, policy, clock(2 * executed + 1));
        }
        ExecutionMeasure(tasks, i, policy, clock(2 * executed), outcome, clock(2 * executed + 1));
        executed := executed + 1;
      }
    }
  }
}
