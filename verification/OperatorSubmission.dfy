// Submitting a map over items as a run, once per idempotency key.
module OperatorSubmission {
  import opened Sequences
  import opened Text
  import opened Ledger
  import opened OperatorStore
  import opened OperatorFinalization
  import opened OperatorRuns
  import opened OperatorLaws
  import opened OperatorLeases

  // A run is named after its conversation and the digest of what was submitted.
  datatype RunId = RunId(conversation: string, digest: string)

  datatype Submission =
    Submission(conversation: string, prompt: string, items: seq<Json>, concurrencyLimit: int, maxRetries: int,
               retryBackoffSeconds: int, idempotencyKey: Option<string>)

  datatype RunKey = RunKey(conversation: string, key: string)

  // The runs by id, each with the handle events its conversation holds for it, and the runs by key.
  datatype Registry = Registry(runs: map<RunId, Snapshot>, byKey: map<RunKey, RunId>)

  datatype SubmitResult = Submitted(runId: RunId, status: RunStatus) | InvalidInput | UnknownConversation
    | KeyConflict | RunMissing

  const EMPTY_SNAPSHOT := Snapshot([], Run(PendingRun, NotStarted, None, None), [], {})

  predicate ValidInput(s: Submission, maxConcurrency: int) {
    && !Blank(s.prompt) && 1 <= s.concurrencyLimit <= maxConcurrency
    && 0 <= s.maxRetries <= MAX_SAFE_INTEGER && 1 <= s.retryBackoffSeconds <= MAX_SAFE_INTEGER
  }

  // Everything but the idempotency key goes into the digest.
  function IdOf(s: Submission, digest: Submission -> string): RunId {
    RunId(s.conversation, digest(s.(idempotencyKey := None)))
  }

  function KeyFor(s: Submission): Option<RunKey> {
    if s.idempotencyKey.Some? then Some(RunKey(s.conversation, s.idempotencyKey.value)) else None
  }

  predicate Known(r: Registry, s: Submission) {
    KeyFor(s).Some? && KeyFor(s).value in r.byKey
  }

  // A created run starts over, whatever the store held under its id; what is in the ledger, and who is
  // still working, is not affected.
  function Created(r: Registry, id: RunId, items: seq<Json>): Snapshot {
    var before := if id in r.runs then r.runs[id] else EMPTY_SNAPSHOT;
    Start(items).(handles := before.handles, executions := before.executions)
  }

  function Register(r: Registry, s: Submission, digest: Submission -> string): Registry {
    if Known(r, s) then r
    else
      var id := IdOf(s, digest);
      Registry(r.runs[id := Created(r, id, s.items)],
               if KeyFor(s).Some? then r.byKey[KeyFor(s).value := id] else r.byKey)
  }

  function RegisterResult(r: Registry, s: Submission, digest: Submission -> string): SubmitResult {
    if !Known(r, s) then Submitted(IdOf(s, digest), Start(s.items).run.status)
    else
      var id := r.byKey[KeyFor(s).value];
      if id !in r.runs then RunMissing
      else if id != IdOf(s, digest) then KeyConflict
      else Submitted(id, r.runs[id].run.status)
  }

  class LlmMap {
    var registry: Registry
    const conversations: set<string>
    const digest: Submission -> string
    const maxConcurrency: int

    constructor (conversations: set<string>, digest: Submission -> string, maxConcurrency: int)
      ensures registry == Registry(map[], map[])
      ensures this.conversations == conversations && this.digest == digest && this.maxConcurrency == maxConcurrency
    {
      this.conversations, this.digest, this.maxConcurrency := conversations, digest, maxConcurrency;
      registry := Registry(map[], map[]);
    }

    method Execute(s: Submission) returns (r: SubmitResult)
      modifies this
      ensures r.InvalidInput? <==>
        || Blank(s.prompt) || s.concurrencyLimit < 1 || s.concurrencyLimit > maxConcurrency
        || s.maxRetries < 0 || s.maxRetries > MAX_SAFE_INTEGER
        || s.retryBackoffSeconds < 1 || s.retryBackoffSeconds > MAX_SAFE_INTEGER
      ensures r.InvalidInput? ==> registry == old(registry)
      ensures ValidInput(s, maxConcurrency) && s.conversation !in conversations
        ==> r == UnknownConversation && registry == old(registry)
      ensures ValidInput(s, maxConcurrency) && s.conversation in conversations ==>
        r == RegisterResult(old(registry), s, digest) && registry == Register(old(registry), s, digest)
    {
      if Blank(s.prompt) || s.concurrencyLimit < 1 || s.concurrencyLimit > maxConcurrency {
        return InvalidInput;
      }
      if s.maxRetries < 0 || s.maxRetries > MAX_SAFE_INTEGER || s.retryBackoffSeconds < 1
        || s.retryBackoffSeconds > MAX_SAFE_INTEGER {
        return InvalidInput;
      }
      if s.conversation !in conversations {
        return UnknownConversation;
      }
      var id, key := IdOf(s, digest), KeyFor(s);
      if key.Some? && key.value in registry.byKey {
        var existing := registry.byKey[key.value];
        if existing !in registry.runs {
          return RunMissing;
        }
        // The digest names the run within the conversation, so comparing ids compares digests.
        return if existing != id then KeyConflict else Submitted(existing, registry.runs[existing].run.status);
      }
      var run := Created(registry, id, s.items);
      registry := Registry(registry.runs[id := run],
                           if key.Some? then registry.byKey[key.value := id] else registry.byKey);
      r := Submitted(id, run.run.status);
    }
  }

  // A submission under a new key or none starts a run over its items and is answered with its status; a run of the same
  // id keeps its handles and the workers still at it, everything else stays as it was.
  lemma RunStarted(r: Registry, s: Submission, digest: Submission -> string)
    requires !Known(r, s)
    ensures var id, after := IdOf(s, digest), Register(r, s, digest);
      && id in after.runs && RegisterResult(r, s, digest) == Submitted(id, after.runs[id].run.status)
      && var run := after.runs[id];
         && run.tasks == seq(|s.items|, i => FRESH_TASK) && run.run.outputArtifact.None? && run.run.failureSummary.None?
         && run.run.status == (if s.items == [] then CompletedRun else PendingRun)
         && run.run.stage == (if s.items == [] then Finalized else NotStarted)
         && run.handles == (if id in r.runs then r.runs[id].handles else [])
         && run.executions == (if id in r.runs then r.runs[id].executions else {})
    ensures var id, after := IdOf(s, digest), Register(r, s, digest);
      && (forall other :: other != id ==>
            (other in after.runs <==> other in r.runs) && (other in r.runs ==> after.runs[other] == r.runs[other]))
      && (s.idempotencyKey.None? ==> after.byKey == r.byKey)
      && (s.idempotencyKey.Some? ==> after.byKey == r.byKey[RunKey(s.conversation, s.idempotencyKey.value) := id])
  {
  }

  // A submission under a known key starts nothing: it is answered with the run that the key names, if that is this one.
  lemma RunKnown(r: Registry, s: Submission, digest: Submission -> string)
    requires s.idempotencyKey.Some? && RunKey(s.conversation, s.idempotencyKey.value) in r.byKey
    ensures var id := r.byKey[RunKey(s.conversation, s.idempotencyKey.value)];
      && Register(r, s, digest) == r
      && RegisterResult(r, s, digest)
         == if id !in r.runs then RunMissing
            else if id == IdOf(s, digest) then Submitted(id, r.runs[id].run.status) else KeyConflict
  {
  }

  // The id of a run depends on everything in the submission but its key.
  lemma SameRunWhateverKey(s: Submission, key: Option<string>, digest: Submission -> string)
    ensures IdOf(s.(idempotencyKey := key), digest) == IdOf(s, digest)
    ensures IdOf(s, digest).conversation == s.conversation
  {
  }

  // ---- over every run --------------------------------------------------------------------------

  datatype Event = Submit(submission: Submission) | Work(runId: RunId, policy: Policy, step: Step)

  function Apply(r: Registry, digest: Submission -> string, e: Event): Registry {
    match e
    case Submit(s) => Register(r, s, digest)
    case Work(id, policy, step) => if id in r.runs then r.(runs := r.runs[id := Next(r.runs[id], policy, step)]) else r
  }

  function After(digest: Submission -> string, events: seq<Event>): Registry {
    if events == [] then Registry(map[], map[])
    else Apply(After(digest, Front(events)), digest, Last(events))
  }

  // The first submission under a key.
  function FirstUnder(events: seq<Event>, key: RunKey): (r: Option<Submission>)
    ensures r.Some? ==> KeyFor(r.value) == Some(key)
  {
    if events == [] then None
    else
      var before := FirstUnder(Front(events), key);
      if before.Some? then before
      else if Last(events).Submit? && KeyFor(Last(events).submission) == Some(key) then Some(Last(events).submission)
      else None
  }

  // A key keeps naming the run of its first submission.
  lemma {:induction false} KeyNamesFirst(digest: Submission -> string, events: seq<Event>, key: RunKey)
    ensures var r, first := After(digest, events), FirstUnder(events, key);
      if first.None? then key !in r.byKey
      else key in r.byKey && r.byKey[key] == IdOf(first.value, digest) && r.byKey[key] in r.runs
  {
    if events != [] {
      KeyNamesFirst(digest, Front(events), key);
    }
  }

  // So submitting again under a key returns the same run for the same input, is rejected for any other,
  // and touches nothing; the missing-run error cannot occur.
  lemma ResubmittedUnderKey(digest: Submission -> string, events: seq<Event>, key: RunKey, s: Submission)
    requires KeyFor(s) == Some(key) && FirstUnder(events, key).Some?
    ensures var r, id := After(digest, events), IdOf(FirstUnder(events, key).value, digest);
      && Register(r, s, digest) == r && id in r.runs
      && RegisterResult(r, s, digest) == if IdOf(s, digest) == id then Submitted(id, r.runs[id].run.status)
        else KeyConflict
  {
    KeyNamesFirst(digest, events, key);
  }

  // ---- one handle per creation ------------------------------------------------------------------------

  // How often a run was created.
  function Creations(digest: Submission -> string, events: seq<Event>, id: RunId): nat {
    if events == [] then 0
    else
      Creations(digest, Front(events), id)
      + if Last(events).Submit? && !Known(After(digest, Front(events)), Last(events).submission)
           && IdOf(Last(events).submission, digest) == id then 1 else 0
  }

  lemma HandlesStep(s: Snapshot, policy: Policy, step: Step)
    ensures var r := Next(s, policy, step);
      && (r.run.stage == NotStarted ==> s.run.stage == NotStarted && r.handles == s.handles)
      && |r.handles| <= |s.handles| + (if s.run.stage != Finalized && r.run.stage == Finalized then 1 else 0)
      && (s.run.stage == NotStarted || s.run.stage == Finalized
          ==> r.run.stage == NotStarted || r.run.stage == Finalized)
      && (s.run.stage == Finalized ==> r.run.stage == Finalized)
  {
  }

  // A run appends at most one handle event for each time it was created; one that was not created
  // again has at most one.
  lemma {:induction false} HandlesWithinCreations(digest: Submission -> string, events: seq<Event>, id: RunId)
    ensures var r := After(digest, events);
      && (id in r.runs <==> Creations(digest, events, id) > 0)
      && (id in r.runs ==>
            && (r.runs[id].run.stage == NotStarted || r.runs[id].run.stage == Finalized)
            && |r.runs[id].handles| + (if r.runs[id].run.stage == NotStarted then 1 else 0)
              <= Creations(digest, events, id))
  {
    if events != [] {
      HandlesWithinCreations(digest, Front(events), id);
      var before, e := After(digest, Front(events)), Last(events);
      if e.Work? && e.runId == id && id in before.runs {
        HandlesStep(before.runs[id], e.policy, e.step);
      }
    }
  }

  // The first task that no earlier one keeps from being claimed is claimed.
  lemma {:induction false} FirstIs(tasks: seq<Task>, from: nat, i: nat, now: int, limit: nat, reclaim: bool)
    requires from <= i < |tasks|
    requires forall j :: from <= j < i ==> !Claimable(tasks, tasks[j], now, limit, reclaim)
    requires Claimable(tasks, tasks[i], now, limit, reclaim) && (reclaim ==> LeaseExpired(tasks[i], now))
    ensures FirstClaimable(tasks, from, now, limit, reclaim) == Some(i)
    decreases i - from
  {
    hide Claimable;
    if from < i {
      FirstIs(tasks, from + 1, i, now, limit, reclaim);
    }
  }

  // The first i tasks are done, the others untouched.
  ghost predicate DoneUpTo(s: Snapshot, i: nat) {
    && i <= |s.tasks| && s.run.stage == NotStarted
    && (forall j :: 0 <= j < i ==> s.tasks[j].status == Succeeded)
    && (forall j :: i <= j < |s.tasks| ==> s.tasks[j] == FRESH_TASK)
  }

  lemma NextIsClaimed(s: Snapshot, i: nat, now: int)
    requires DoneUpTo(s, i) && i < |s.tasks|
    ensures ToClaim(s.tasks, now, 1) == Some(i)
  {
    SumZero(s.tasks, ActiveWeight(now));
    assert FirstClaimable(s.tasks, 0, now, 1, true).None?;
    FirstIs(s.tasks, 0, i, now, 1, false);
  }

  lemma OneMoreDone(s: Snapshot, policy: Policy, i: nat)
    requires DoneUpTo(s, i) && i < |s.tasks| && policy.concurrencyLimit == 1
    ensures var r := Next(Next(s, policy, Claim(0)), policy, Complete(Execution(i, 1), Generated(JNull), 0));
      DoneUpTo(r, i + 1) && |r.tasks| == |s.tasks| && r.handles == s.handles
  {
    NextIsClaimed(s, i, 0);
  }

  // One worker carries a fresh run through, item by item.
  lemma {:induction false} CarriedThrough(s: Snapshot, policy: Policy, i: nat) returns (steps: seq<Step>)
    requires DoneUpTo(s, i) && s.tasks != [] && policy.concurrencyLimit == 1
    ensures var r := Reached(s, policy, steps); r.run.stage == Finalized && |r.handles| == |s.handles| + 1
    decreases |s.tasks| - i
  {
    if i == |s.tasks| {
      steps := [Finalize];
      assert [Finalize][..0] == [];
      assert Reached(s, policy, []) == s;
      assert AllTerminal(s.tasks);
    } else {
      var claim, complete := Claim(0), Complete(Execution(i, 1), Generated(JNull), 0);
      OneMoreDone(s, policy, i);
      var rest := CarriedThrough(Next(Next(s, policy, claim), policy, complete), policy, i + 1);
      TwoSteps(s, policy, claim, complete);
      ReachedConcat(s, policy, [claim, complete], rest);
      steps := [claim, complete] + rest;
    }
  }

  lemma TwoSteps(s: Snapshot, policy: Policy, a: Step, b: Step)
    ensures Reached(s, policy, [a, b]) == Next(Next(s, policy, a), policy, b)
  {
    ReachedStep(s, policy, [a, b], 0);
    ReachedStep(s, policy, [a, b], 1);
    assert [a, b][..2] == [a, b] && [a, b][..0] == [];
  }

  // A finalized run appends no further handle.
  lemma {:induction false} FinalizedKeepsHandles(s: Snapshot, policy: Policy, steps: seq<Step>)
    requires s.run.stage == Finalized
    ensures Reached(s, policy, steps).run.stage == Finalized && Reached(s, policy, steps).handles == s.handles
  {
    if steps != [] {
      FinalizedKeepsHandles(s, policy, steps[..|steps| - 1]);
    }
  }

  // A submission lets a finalized run append a second handle exactly when it has items and comes without
  // a key that is already known.
  lemma SecondHandleIff(r: Registry, s: Submission, digest: Submission -> string)
    requires var id := IdOf(s, digest); id in r.runs && r.runs[id].run.stage == Finalized && |r.runs[id].handles| == 1
    ensures var after := Register(r, s, digest).runs[IdOf(s, digest)];
      (exists policy, steps :: |Reached(after, policy, steps).handles| == 2) <==> !Known(r, s) && s.items != []
  {
    var id := IdOf(s, digest);
    var after := Register(r, s, digest).runs[id];
    if !Known(r, s) && s.items != [] {
      var policy := Policy(0, 1, 1, 1);
      var steps := CarriedThrough(after, policy, 0);
      assert |Reached(after, policy, steps).handles| == 2;
    } else {
      forall policy, steps ensures |Reached(after, policy, steps).handles| == 1 {
        FinalizedKeepsHandles(after, policy, steps);
      }
    }
  }

  function Works(id: RunId, policy: Policy, steps: seq<Step>): seq<Event> {
    if steps == [] then [] else Works(id, policy, Front(steps)) + [Work(id, policy, Last(steps))]
  }

  lemma {:induction false} AfterWorks(digest: Submission -> string, events: seq<Event>, id: RunId, policy: Policy,
                                      steps: seq<Step>)
    requires id in After(digest, events).runs
    ensures var r := After(digest, events);
      After(digest, events + Works(id, policy, steps)) == r.(runs := r.runs[id := Reached(r.runs[id], policy, steps)])
  {
    if steps == [] {
      assert events + [] == events;
    } else {
      var all := events + Works(id, policy, steps);
      assert Front(all) == events + Works(id, policy, Front(steps));
      AfterWorks(digest, events, id, policy, Front(steps));
    }
  }

  // From the beginning: a run with items, submitted again without a key after it finished, ends up with
  // two handle events in the ledger.
  lemma SecondHandle(digest: Submission -> string, s: Submission, policy: Policy) returns (events: seq<Event>)
    requires s.items != [] && s.idempotencyKey.None? && policy.concurrencyLimit == 1
    ensures var id, r := IdOf(s, digest), After(digest, events);
      id in r.runs && r.runs[id].run.stage == Finalized && |r.runs[id].handles| == 2
  {
    var id := IdOf(s, digest);
    var once := [Submit(s)];
    assert Front(once) == [];
    var first := CarriedThrough(After(digest, once).runs[id], policy, 0);
    AfterWorks(digest, once, id, policy, first);
    var twice := once + Works(id, policy, first) + [Submit(s)];
    assert Front(twice) == once + Works(id, policy, first);
    var second := CarriedThrough(After(digest, twice).runs[id], policy, 0);
    AfterWorks(digest, twice, id, policy, second);
    events := twice + Works(id, policy, second);
  }
}
