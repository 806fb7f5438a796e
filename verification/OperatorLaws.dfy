// What every interleaving of workers keeps.
module OperatorLaws {
  import opened Sequences
  import opened Ledger
  import opened OperatorStore
  import opened OperatorFinalization
  import opened OperatorRuns

  // Which outputs count as generated for an item.
  type Made = (Json, Json) -> bool

  function Start(items: seq<Json>): Snapshot {
    Snapshot(seq(|items|, i => FRESH_TASK),
             Run(if items == [] then CompletedRun else PendingRun, if items == [] then Finalized else NotStarted,
                 None, None), [], {})
  }

  function Reached(s: Snapshot, policy: Policy, steps: seq<Step>): Snapshot {
    if steps == [] then s
    else Next(Reached(s, policy, steps[..|steps| - 1]), policy, steps[|steps| - 1])
  }

  // Successful executions deliver an output generated for their own item.
  ghost predicate Honest(step: Step, items: seq<Json>, made: Made) {
    step.Complete? && step.outcome.Generated? && step.execution.index < |items| ==>
      made(items[step.execution.index], step.outcome.output)
  }

  ghost predicate AllHonest(steps: seq<Step>, items: seq<Json>, made: Made) {
    forall i :: 0 <= i < |steps| ==> Honest(steps[i], items, made)
  }

  ghost predicate SoundTask(t: Task, item: Json, made: Made) {
    t.status == Succeeded ==> t.output.Some? && made(item, t.output.value)
  }

  // One entry per item, in order, every success an output generated for that very item.
  ghost predicate SimpleMap(entries: seq<Entry>, items: seq<Json>, made: Made) {
    && |entries| == |items|
    && forall i :: 0 <= i < |entries| ==>
         entries[i].itemIndex == i
         && (entries[i].SucceededEntry? ==> entries[i].output.Some? && made(items[i], entries[i].output.value))
  }

  ghost predicate Sound(s: Snapshot, items: seq<Json>, made: Made) {
    && |s.tasks| == |items| > 0
    && (forall i :: 0 <= i < |items| ==> SoundTask(s.tasks[i], items[i], made))
    && (s.run.stage == NotStarted || s.run.stage == Finalized)
    && (s.run.stage == NotStarted ==> s.run.outputArtifact == None && s.handles == [])
    && (s.run.stage == Finalized ==>
          && s.run.outputArtifact.Some? && SimpleMap(s.run.outputArtifact.value, items, made)
          && s.handles == [HandleFor(s.run.outputArtifact.value, s.run.outputArtifact.value)])
  }

  lemma FinalizeSound(s: Snapshot, items: seq<Json>, made: Made)
    requires Sound(s, items, made)
    ensures Sound(FinalizeIn(s), items, made)
    ensures AllTerminal(s.tasks) ==> FinalizeIn(s).run.stage == Finalized
    ensures !AllTerminal(s.tasks) || s.run.stage == Finalized ==> FinalizeIn(s) == s
  {
    if AllTerminal(s.tasks) {
      var entries := Entries(s.tasks);
      forall i | 0 <= i < |entries| && entries[i].SucceededEntry?
        ensures entries[i].output.Some? && made(items[i], entries[i].output.value)
      {
        assert SoundTask(s.tasks[i], items[i], made);
      }
      assert s.handles == [] ==> s.handles + [HandleFor(entries, entries)] == [HandleFor(entries, entries)];
    }
  }

  lemma PutSound(s: Snapshot, i: nat, t: Task, executions: set<Execution>, items: seq<Json>, made: Made)
    requires Sound(s, items, made) && i < |items| && SoundTask(t, items[i], made)
    ensures var tasks := s.tasks[i := t]; Sound(s.(tasks := tasks, run := UpdatedRun(s.run, tasks),
                                                   executions := executions), items, made)
  {
  }

  lemma NextSound(s: Snapshot, policy: Policy, step: Step, items: seq<Json>, made: Made)
    requires Sound(s, items, made) && Honest(step, items, made)
    ensures Sound(Next(s, policy, step), items, made)
    ensures s.run.stage == Finalized ==>
      var r := Next(s, policy, step);
      r.run.stage == Finalized && r.run.outputArtifact == s.run.outputArtifact && r.handles == s.handles
  {
    match step
    case Claim(now) =>
      var i := ToClaim(s.tasks, now, policy.concurrencyLimit);
      if i.Some? {
        var t := ClaimedTask(s.tasks[i.value], now, policy.leaseDuration);
        PutSound(s, i.value, t, s.executions + {Execution(i.value, t.attemptCount)}, items, made);
      }
    case Complete(e, outcome, now) =>
      if e in s.executions && e.index < |s.tasks| {
        PutSound(s, e.index, RecordedTask(s.tasks[e.index], e.attempt, outcome, policy, now), s.executions - {e},
                 items, made);
      }
    case Crash(e) =>
    case Finalize => FinalizeSound(s, items, made);
  }

  // Under every interleaving of claims, completions, crashes, lease expiries and finalizations, a
  // finalized run holds the simple map of its items, and exactly one handle event that agrees with it.
  lemma {:induction false} DurableMap(items: seq<Json>, policy: Policy, steps: seq<Step>, made: Made)
    requires items != [] && AllHonest(steps, items, made)
    ensures Sound(Reached(Start(items), policy, steps), items, made)
  {
    if steps != [] {
      var front := steps[..|steps| - 1];
      assert forall i :: 0 <= i < |front| ==> front[i] == steps[i];
      DurableMap(items, policy, front, made);
      NextSound(Reached(Start(items), policy, front), policy, steps[|steps| - 1], items, made);
    }
  }

  lemma {:induction false} ReachedConcat(s: Snapshot, policy: Policy, a: seq<Step>, b: seq<Step>)
    ensures Reached(s, policy, a + b) == Reached(Reached(s, policy, a), policy, b)
  {
    if b == [] {
      assert a + b == a;
    } else {
      var front := b[..|b| - 1];
      assert (a + b)[..|a + b| - 1] == a + front;
      ReachedConcat(s, policy, a, front);
    }
  }

  // What a finalized run has published never changes again, whatever is still going on.
  lemma {:induction false} PublishedForGood(s: Snapshot, policy: Policy, steps: seq<Step>, items: seq<Json>, made: Made)
    requires Sound(s, items, made) && s.run.stage == Finalized && AllHonest(steps, items, made)
    ensures var r := Reached(s, policy, steps);
      && Sound(r, items, made) && r.run.stage == Finalized
      && r.run.outputArtifact == s.run.outputArtifact && r.handles == s.handles
  {
    if steps != [] {
      var front := steps[..|steps| - 1];
      assert forall i :: 0 <= i < |front| ==> front[i] == steps[i];
      PublishedForGood(s, policy, front, items, made);
      NextSound(Reached(s, policy, front), policy, steps[|steps| - 1], items, made);
    }
  }

  // Finalizing again, by the same or another worker, is a no-op.
  lemma FinalizeTwice(s: Snapshot, items: seq<Json>, made: Made)
    requires Sound(s, items, made)
    ensures FinalizeIn(FinalizeIn(s)) == FinalizeIn(s)
  {
    FinalizeSound(s, items, made);
    FinalizeSound(FinalizeIn(s), items, made);
  }

  // The promises about artifact and handle hold exactly for runs with at least one item: a run without
  // items is finished when it is created, and never gets an artifact or a handle.
  lemma {:induction false} EmptyRunPublishesNothing(policy: Policy, steps: seq<Step>)
    ensures var s := Reached(Start([]), policy, steps);
      s.tasks == [] && s.run.stage == Finalized && s.run.status == CompletedRun && s.run.outputArtifact == None
        && s.handles == []
  {
    if steps != [] {
      EmptyRunPublishesNothing(policy, steps[..|steps| - 1]);
    }
  }
}
