// When the first terminal result of a task is also the last one.
module OperatorLeases {
  import opened Sequences
  import opened Ledger
  import opened OperatorStore
  import opened OperatorFinalization
  import opened OperatorRuns
  import opened OperatorLaws

  // Every execution under way holds the lease of its task.
  ghost predicate Exclusive(s: Snapshot) {
    forall e :: e in s.executions ==>
      e.index < |s.tasks| && s.tasks[e.index].status == Running && s.tasks[e.index].attemptCount == e.attempt
  }

  // The claim takes over a task whose worker is still executing it.
  ghost predicate TakesOver(s: Snapshot, policy: Policy, step: Step) {
    step.Claim? &&
      var i := ToClaim(s.tasks, step.now, policy.concurrencyLimit);
      i.Some? && exists e :: e in s.executions && e.index == i.value
  }

  lemma ExclusiveStep(s: Snapshot, policy: Policy, step: Step)
    requires Exclusive(s) && !TakesOver(s, policy, step)
    ensures Exclusive(Next(s, policy, step))
    ensures |Next(s, policy, step).tasks| == |s.tasks|
    ensures forall i :: 0 <= i < |s.tasks| && IsTerminal(s.tasks[i]) ==> Next(s, policy, step).tasks[i] == s.tasks[i]
  {
  }

  ghost predicate NeverTakesOver(s: Snapshot, policy: Policy, steps: seq<Step>) {
    forall k :: 0 <= k < |steps| ==> !TakesOver(Reached(s, policy, steps[..k]), policy, steps[k])
  }

  // A run that is finalized while nothing is under way stands as published.
  ghost predicate Settled(s: Snapshot) {
    s.run.stage == Finalized ==>
      && AllTerminal(s.tasks) && s.run.outputArtifact == Some(Entries(s.tasks))
      && s.run.status == DeriveRunStatus(Entries(s.tasks))
  }

  lemma SettledStep(s: Snapshot, policy: Policy, step: Step)
    requires Exclusive(s) && Settled(s) && !TakesOver(s, policy, step)
    requires s.run.stage == NotStarted || s.run.stage == Finalized
    ensures Settled(Next(s, policy, step))
  {
    if s.run.stage == Finalized {
      assert forall e :: e in s.executions ==> IsTerminal(s.tasks[e.index]);
      assert s.executions == {};
    }
  }

  // As long as no lease is taken over from a live worker, the status and the artifact of a finalized
  // run agree with its tasks, and terminal tasks never change.
  lemma {:induction false} ResultsAgree(items: seq<Json>, policy: Policy, steps: seq<Step>, made: Made)
    requires items != [] && AllHonest(steps, items, made) && NeverTakesOver(Start(items), policy, steps)
    ensures Exclusive(Reached(Start(items), policy, steps)) && Settled(Reached(Start(items), policy, steps))
  {
    hide SimpleMap;
    if steps != [] {
      var front, step := steps[..|steps| - 1], steps[|steps| - 1];
      assert forall k :: 0 <= k < |front| ==> front[k] == steps[k] && front[..k] == steps[..k];
      ResultsAgree(items, policy, front, made);
      DurableMap(items, policy, front, made);
      var s := Reached(Start(items), policy, front);
      assert !TakesOver(Reached(Start(items), policy, steps[..|steps| - 1]), policy, step);
      ExclusiveStep(s, policy, step);
      SettledStep(s, policy, step);
    }
  }

  // ---- exactly when ------------------------------------------------------------------------------

  ghost predicate KeepsResults(before: Snapshot, after: Snapshot) {
    |before.tasks| == |after.tasks|
    && forall i :: 0 <= i < |before.tasks| && IsTerminal(before.tasks[i]) ==> after.tasks[i] == before.tasks[i]
  }

  ghost predicate FirstResultWins(s: Snapshot, policy: Policy, steps: seq<Step>) {
    forall k :: 0 <= k < |steps| ==>
      KeepsResults(Reached(s, policy, steps[..k]), Next(Reached(s, policy, steps[..k]), policy, steps[k]))
  }

  lemma {:induction false} ExclusiveRun(s: Snapshot, policy: Policy, steps: seq<Step>)
    requires Exclusive(s) && NeverTakesOver(s, policy, steps)
    ensures Exclusive(Reached(s, policy, steps)) && |Reached(s, policy, steps).tasks| == |s.tasks|
  {
    hide Exclusive, TakesOver, Next;
    if steps != [] {
      var front := steps[..|steps| - 1];
      FrontNeverTakesOver(s, policy, steps, |steps| - 1);
      ExclusiveRun(s, policy, front);
      assert !TakesOver(Reached(s, policy, steps[..|steps| - 1]), policy, steps[|steps| - 1]);
      ExclusiveStep(Reached(s, policy, front), policy, steps[|steps| - 1]);
    }
  }

  lemma FrontNeverTakesOver(s: Snapshot, policy: Policy, steps: seq<Step>, k: nat)
    requires NeverTakesOver(s, policy, steps) && k <= |steps|
    ensures NeverTakesOver(s, policy, steps[..k])
  {
    forall j | 0 <= j < k ensures !TakesOver(Reached(s, policy, steps[..k][..j]), policy, steps[..k][j]) {
      assert steps[..k][..j] == steps[..j];
    }
  }

  lemma ReachedStep(s: Snapshot, policy: Policy, steps: seq<Step>, k: nat)
    requires k < |steps|
    ensures Reached(s, policy, steps[..k + 1]) == Next(Reached(s, policy, steps[..k]), policy, steps[k])
  {
    assert steps[..k + 1][..k] == steps[..k];
  }

  lemma ExclusiveKeepsResults(s: Snapshot, policy: Policy, steps: seq<Step>)
    requires Exclusive(s) && NeverTakesOver(s, policy, steps)
    ensures FirstResultWins(s, policy, steps)
  {
    forall k | 0 <= k < |steps|
      ensures KeepsResults(Reached(s, policy, steps[..k]), Next(Reached(s, policy, steps[..k]), policy, steps[k]))
    {
      FrontNeverTakesOver(s, policy, steps, k);
      ExclusiveRun(s, policy, steps[..k]);
      ExclusiveStep(Reached(s, policy, steps[..k]), policy, steps[k]);
    }
  }

  // The taken-over execution overwrites the result of the new one.
  lemma TakenOverOverwrites(s: Snapshot, policy: Policy, i: nat, earlier: Execution, later: Execution)
    returns (steps: seq<Step>)
    requires i < |s.tasks| && earlier in s.executions && later in s.executions && earlier != later
      && earlier.index == later.index == i
    ensures NeverTakesOver(s, policy, steps) && !FirstResultWins(s, policy, steps)
  {
    var first := Complete(later, Generated(JNull), 0);
    var second := Complete(earlier, NotGenerated(Failure("TIMEOUT", "", false, None)), 0);
    steps := [first, second];
    ReachedStep(s, policy, steps, 0);
    var s1 := Reached(s, policy, steps[..1]);
    assert s1 == Next(s, policy, first) && s1.tasks[i].status == Succeeded;
    assert steps[1] == second && Next(s1, policy, second).tasks[i].status == Failed;
    assert !KeepsResults(Reached(s, policy, steps[..1]), Next(Reached(s, policy, steps[..1]), policy, steps[1]));
  }

  // The design asks that only the first terminal transition of a task wins.  From a state in which
  // every execution holds its lease, a claim keeps that promise, whatever follows short of another
  // take-over, if and only if it does not take over a task that is still being executed.
  lemma FirstResultWinsIff(s: Snapshot, policy: Policy, now: int)
    requires Exclusive(s)
    ensures (forall steps :: NeverTakesOver(Next(s, policy, Claim(now)), policy, steps) ==>
                               FirstResultWins(Next(s, policy, Claim(now)), policy, steps))
       <==> !TakesOver(s, policy, Claim(now))
  {
    var after := Next(s, policy, Claim(now));
    if TakesOver(s, policy, Claim(now)) {
      var i := ToClaim(s.tasks, now, policy.concurrencyLimit).value;
      var e :| e in s.executions && e.index == i;
      var steps := TakenOverOverwrites(after, policy, i, e, Execution(i, e.attempt + 1));
    } else {
      ExclusiveStep(s, policy, Claim(now));
      forall steps | NeverTakesOver(after, policy, steps) ensures FirstResultWins(after, policy, steps) {
        ExclusiveKeepsResults(after, policy, steps);
      }
    }
  }

  // ---- when a finalized run is final -----------------------------------------------------------------

  ghost predicate InRange(s: Snapshot) {
    forall e :: e in s.executions ==> e.index < |s.tasks|
  }

  // With nothing under way a finalized run has come to rest.
  lemma {:induction false} AtRest(s: Snapshot, policy: Policy, steps: seq<Step>)
    requires s.run.stage == Finalized && s.run.outputArtifact.Some? && AllTerminal(s.tasks) && s.executions == {}
    ensures Reached(s, policy, steps) == s
  {
    if steps != [] {
      AtRest(s, policy, steps[..|steps| - 1]);
    }
  }

  // A worker that is still at it can replace the result of its task, if only by another failure.
  lemma LateResult(s: Snapshot, policy: Policy, e: Execution) returns (step: Step)
    requires e in s.executions && e.index < |s.tasks| && IsTerminal(s.tasks[e.index])
    requires s.run.stage == Finalized && s.run.outputArtifact == Some(Entries(s.tasks))
    ensures !Settled(Next(s, policy, step))
    ensures step.Complete? && step.outcome.NotGenerated?
  {
    var t := s.tasks[e.index];
    step := Complete(e, NotGenerated(Failure(if TerminalFailure(t).code == "TIMEOUT" then "" else "TIMEOUT", "",
                                             false, None)), 0);
    var r := Next(s, policy, step);
    assert Entries(s.tasks)[e.index] == ResultEntry(t, e.index);
    assert Entries(r.tasks)[e.index] == ResultEntry(r.tasks[e.index], e.index);
    assert Entries(s.tasks)[e.index] != Entries(r.tasks)[e.index];
  }

  lemma OneStep(s: Snapshot, policy: Policy, step: Step)
    ensures Reached(s, policy, [step]) == Next(s, policy, step)
  {
    assert [step][..0] == [];
    assert Reached(s, policy, []) == s;
  }

  // Status and artifact of a finalized run agree with its tasks for good if and only if no execution was
  // under way when it was finalized.
  lemma SettledForGoodIff(s: Snapshot, policy: Policy, items: seq<Json>, made: Made)
    requires s.run.stage == Finalized && Settled(s) && InRange(s)
    ensures (forall steps :: AllHonest(steps, items, made) ==> Settled(Reached(s, policy, steps)))
      <==> s.executions == {}
  {
    if s.executions == {} {
      forall steps ensures Settled(Reached(s, policy, steps)) {
        AtRest(s, policy, steps);
      }
    } else {
      var e :| e in s.executions;
      var step := LateResult(s, policy, e);
      OneStep(s, policy, step);
      assert AllHonest([step], items, made);
    }
  }

  lemma {:induction false} ReachedInRange(items: seq<Json>, policy: Policy, steps: seq<Step>)
    ensures var s := Reached(Start(items), policy, steps); |s.tasks| == |items| && InRange(s)
  {
    if steps != [] {
      ReachedInRange(items, policy, steps[..|steps| - 1]);
    }
  }

  // So for every run with items: finalizing it settles it, and it stays settled whatever follows exactly
  // when every worker was done.
  lemma FinalizationSettlesIff(items: seq<Json>, policy: Policy, steps: seq<Step>, made: Made)
    requires items != [] && AllHonest(steps, items, made)
    requires var s := Reached(Start(items), policy, steps); AllTerminal(s.tasks) && s.run.stage == NotStarted
    ensures var s := Reached(Start(items), policy, steps);
      && FinalizeIn(s).run.stage == Finalized && Settled(FinalizeIn(s))
      && ((forall more :: AllHonest(more, items, made) ==> Settled(Reached(FinalizeIn(s), policy, more)))
          <==> s.executions == {})
  {
    DurableMap(items, policy, steps, made);
    hide SimpleMap;
    ReachedInRange(items, policy, steps);
    var s := Reached(Start(items), policy, steps);
    FinalizeSound(s, items, made);
    SettledForGoodIff(FinalizeIn(s), policy, items, made);
  }

  // ---- an example ------------------------------------------------------------------------------------

  lemma OneTask(t: Task)
    ensures forall status :: CountStatus([t], status) == if t.status == status then 1 else 0
  {
    forall status ensures CountStatus([t], status) == if t.status == status then 1 else 0 {
      SumAppend([], t, StatusWeight(status));
      assert [] + [t] == [t];
    }
  }

  lemma OnlyTaskClaimed(t: Task, now: int)
    requires t == FRESH_TASK || (LeaseExpired(t, now) && t.nextRetryAt.None?)
    ensures ToClaim([t], now, 1) == Some(0)
  {
    SumAppend([], t, ActiveWeight(now));
    assert [] + [t] == [t];
    assert FirstClaimable([t], 1, now, 1, true) == None;
  }

  function Lent(attempt: nat, until: int): Task { Task(Running, attempt, Some(until), None, None, None) }

  // A task is claimed, and claimed again when its lease runs out.
  lemma ClaimedTwice(item: Json, policy: Policy) returns (s: Snapshot)
    requires policy == Policy(1, 5, 1, 10)
    ensures s == Reached(Start([item]), policy, [Claim(0), Claim(10)])
    ensures s.tasks == [Lent(2, 20)] && s.executions == {Execution(0, 1), Execution(0, 2)}
    ensures s.run.stage == NotStarted && s.run.outputArtifact == None && s.handles == []
  {
    var s0, steps := Start([item]), [Claim(0), Claim(10)];
    assert s0.tasks == [FRESH_TASK];
    OnlyTaskClaimed(FRESH_TASK, 0);
    var s1 := Next(s0, policy, Claim(0));
    assert s1.tasks == [Lent(1, 10)];
    OnlyTaskClaimed(Lent(1, 10), 10);
    s := Next(s1, policy, Claim(10));
    ReachedStep(s0, policy, steps, 0);
    ReachedStep(s0, policy, steps, 1);
    assert steps[..2] == steps;
  }

  // The second worker succeeds and the run is finalized.
  lemma FinalizedOnce(s: Snapshot, policy: Policy, output: Json) returns (r: Snapshot)
    requires s.tasks == [Lent(2, 20)] && s.executions == {Execution(0, 1), Execution(0, 2)}
    requires s.run.stage == NotStarted && s.run.outputArtifact == None && s.handles == []
    ensures r == Next(Next(s, policy, Complete(Execution(0, 2), Generated(output), 11)), policy, Finalize)
    ensures |r.tasks| == 1 && r.executions == {Execution(0, 1)} && r.run.stage == Finalized
    ensures |r.handles| == 1 && r.handles[0].status == CompletedRun
  {
    hide UpdatedRun;
    var s1 := Next(s, policy, Complete(Execution(0, 2), Generated(output), 11));
    assert s1.tasks == [SucceededTask(Lent(2, 20), output)];
    UpdateKeepsStage(s.run, s1.tasks);
    r := Next(s1, policy, Finalize);
    assert Entries(s1.tasks) == [SucceededEntry(0, Some(output))];
    SumAppend([], Entries(s1.tasks)[0], FailedWeight);
    assert [] + [Entries(s1.tasks)[0]] == Entries(s1.tasks);
  }

  // A late failure that is granted a retry turns the only task back into an open one.
  lemma LateRetry(s: Snapshot, policy: Policy, late: Step)
    requires |s.tasks| == 1 && Execution(0, 1) in s.executions && policy.maxRetries == 1
    requires late == Complete(Execution(0, 1), NotGenerated(Failure("TIMEOUT", "", true, None)), 12)
    ensures var r := Next(s, policy, late);
      r.run.stage == s.run.stage && r.run.status == PendingRun && r.handles == s.handles
  {
    var r := Next(s, policy, late);
    assert r.tasks == [r.tasks[0]] && r.tasks[0].status == RetryableFailure;
    OneTask(r.tasks[0]);
    UpdateKeepsStage(s.run, r.tasks);
  }

  // Even the status of a finalized run can change back: here the first worker, still alive, fails and is
  // granted a retry, and the run reads pending while the published handle says completed.
  lemma StatusDrifts(item: Json, output: Json) returns (policy: Policy, steps: seq<Step>)
    ensures var s := Reached(Start([item]), policy, steps);
      && s.run.stage == Finalized && s.run.status == PendingRun
      && |s.handles| == 1 && s.handles[0].status == CompletedRun
  {
    policy := Policy(1, 5, 1, 10);
    var late := Complete(Execution(0, 1), NotGenerated(Failure("TIMEOUT", "", true, None)), 12);
    var claims, rest := [Claim(0), Claim(10)], [Complete(Execution(0, 2), Generated(output), 11), Finalize, late];
    steps := claims + rest;
    var s := ClaimedTwice(item, policy);
    var f := FinalizedOnce(s, policy, output);
    ReachedConcat(Start([item]), policy, claims, rest);
    ReachedStep(s, policy, rest, 0);
    ReachedStep(s, policy, rest, 1);
    ReachedStep(s, policy, rest, 2);
    assert rest[..3] == rest;
    LateRetry(f, policy, late);
  }
}
