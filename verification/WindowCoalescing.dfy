// Merging the raw message windows found for one retrieval hint.
module WindowCoalescing {
  import opened Sequences

  datatype Source = Generic | BridgeScoped

  datatype Event = Event(id: string, sequence: int, tokenCount: nat)

  // A window of raw ledger events around one or more matched events.
  datatype RawBundle =
    RawBundle(hintIndex: nat, limit: nat, selectionOrder: nat, score: int, overlapCount: int, specificityScore: int,
              anchorCoverageCount: int, source: Source, seedId: string, windowStart: int, windowEnd: int,
              events: seq<Event>, tokenCount: nat)

  function EventTokens(e: Event): nat { e.tokenCount }

  function BundleTokens(events: seq<Event>): nat { Sum(events, EventTokens) }

  predicate SequenceLeq(a: Event, b: Event) { a.sequence <= b.sequence }

  // By start, then end, then selection order.
  predicate WindowLeq(a: RawBundle, b: RawBundle) {
    if a.windowStart != b.windowStart then a.windowStart <= b.windowStart
    else if a.windowEnd != b.windowEnd then a.windowEnd <= b.windowEnd
    else a.selectionOrder <= b.selectionOrder
  }

  // ---- the events of a merged window, a map keyed by event id in insertion order ----

  function Put(events: seq<Event>, e: Event): seq<Event> {
    if events == [] then [e]
    else if events[0].id == e.id then [e] + events[1..]
    else [events[0]] + Put(events[1..], e)
  }

  function PutAll(events: seq<Event>, more: seq<Event>): seq<Event>
    decreases |more|
  {
    if more == [] then events else PutAll(Put(events, more[0]), more[1..])
  }

  // All events come from one ledger, so an id or a sequence number names one event.
  ghost predicate OneLedger(events: set<Event>) {
    forall e, f :: e in events && f in events && (e.id == f.id || e.sequence == f.sequence) ==> e == f
  }

  ghost function LedgerEvents(inputs: seq<RawBundle>): set<Event> {
    set r, e | r in inputs && e in r.events :: e
  }

  lemma {:induction false} PutMembers(events: seq<Event>, e: Event, ledger: set<Event>)
    requires OneLedger(ledger) && e in ledger && forall f :: f in events ==> f in ledger
    requires Distinct(events)
    ensures Distinct(Put(events, e))
    ensures forall f :: f in Put(events, e) <==> f in events || f == e
  {
    if events != [] {
      assert events == [events[0]] + events[1..];
      DistinctCons(events);
      if events[0].id == e.id {
        assert events[0] == e;
      } else {
        PutMembers(events[1..], e, ledger);
        DistinctConcat([events[0]], Put(events[1..], e));
      }
    }
  }

  lemma {:induction false} PutAllMembers(events: seq<Event>, more: seq<Event>, ledger: set<Event>)
    requires OneLedger(ledger) && forall f :: f in events || f in more ==> f in ledger
    requires Distinct(events)
    ensures Distinct(PutAll(events, more))
    ensures forall f :: f in PutAll(events, more) <==> f in events || f in more
    decreases |more|
  {
    if more != [] {
      assert more == [more[0]] + more[1..];
      PutMembers(events, more[0], ledger);
      PutAllMembers(Put(events, more[0]), more[1..], ledger);
    }
  }

  // ---- merging ------------------------------------------------------------------------

  function Accumulate(r: RawBundle): RawBundle {
    r.(events := PutAll([], r.events))
  }

  function Merge(current: RawBundle, next: RawBundle): RawBundle {
    var earlier := next.selectionOrder < current.selectionOrder;
    current.(
      windowStart := Min(current.windowStart, next.windowStart),
      windowEnd := Max(current.windowEnd, next.windowEnd),
      score := Max(current.score, next.score),
      overlapCount := Max(current.overlapCount, next.overlapCount),
      specificityScore := Max(current.specificityScore, next.specificityScore),
      anchorCoverageCount := Max(current.anchorCoverageCount, next.anchorCoverageCount),
      source := if current.source != BridgeScoped && next.source == BridgeScoped then next.source else current.source,
      selectionOrder := if earlier then next.selectionOrder else current.selectionOrder,
      seedId := if earlier then next.seedId else current.seedId,
      events := PutAll(current.events, next.events))
  }

  function Finish(r: RawBundle): RawBundle {
    var events := SortBy(r.events, SequenceLeq);
    r.(events := events, tokenCount := BundleTokens(events))
  }

  // ---- what a coalescing of the windows of one hint is ---------------------------------

  predicate Inside(r: RawBundle, w: RawBundle) {
    w.windowStart <= r.windowStart && r.windowEnd <= w.windowEnd
  }

  // An integer-valued field of the merged window is the largest one among the windows inside it.
  ghost predicate IsMax(inputs: seq<RawBundle>, w: RawBundle, field: RawBundle -> int) {
    && (forall r :: r in inputs && Inside(r, w) ==> field(r) <= field(w))
    && (exists r :: r in inputs && Inside(r, w) && field(r) == field(w))
  }

  function Score(r: RawBundle): int { r.score }
  function Overlap(r: RawBundle): int { r.overlapCount }
  function Specificity(r: RawBundle): int { r.specificityScore }
  function Anchors(r: RawBundle): int { r.anchorCoverageCount }

  // A merged window summarizes exactly the input windows inside it.
  ghost predicate Summarizes(inputs: seq<RawBundle>, w: RawBundle) {
    && IsMax(inputs, w, Score) && IsMax(inputs, w, Overlap)
    && IsMax(inputs, w, Specificity) && IsMax(inputs, w, Anchors)
    && (w.source == BridgeScoped <==> exists r :: r in inputs && Inside(r, w) && r.source == BridgeScoped)
    && (forall r :: r in inputs && Inside(r, w) ==> w.selectionOrder <= r.selectionOrder)
    && (exists r :: r in inputs && Inside(r, w) && r.selectionOrder == w.selectionOrder && r.seedId == w.seedId
                    && r.hintIndex == w.hintIndex && r.limit == w.limit)
    && Distinct(w.events)
    && (forall e :: e in w.events <==> exists r :: r in inputs && Inside(r, w) && e in r.events)
  }

  predicate Covers(r: RawBundle, n: int) {
    r.windowStart <= n <= r.windowEnd
  }

  ghost predicate Separated(windows: seq<RawBundle>) {
    forall i, j :: 0 <= i < j < |windows| ==> windows[i].windowEnd + 1 < windows[j].windowStart
  }

  ghost predicate InsideSome(r: RawBundle, windows: seq<RawBundle>) {
    exists w :: w in windows && Inside(r, w)
  }

  // Every number in the window is covered by an input window inside it.
  ghost predicate Tight(inputs: seq<RawBundle>, w: RawBundle) {
    forall n :: Covers(w, n) ==> exists r :: r in inputs && Inside(r, w) && Covers(r, n)
  }

  // The windows are the maximal runs of the covered sequence numbers: together they cover what the
  // inputs cover, and at least one uncovered number separates any two of them.
  ghost predicate IsCoalescing(inputs: seq<RawBundle>, windows: seq<RawBundle>) {
    && Separated(windows)
    && (forall r :: r in inputs ==> InsideSome(r, windows))
    && (forall w :: w in windows ==> w.windowStart <= w.windowEnd && Tight(inputs, w) && Summarizes(inputs, w))
  }

  ghost predicate Finished(windows: seq<RawBundle>) {
    forall w :: w in windows ==> Sorted(w.events, SequenceLeq) && w.tokenCount == BundleTokens(w.events)
  }

  // What the retrieval pass guarantees of the windows of one hint.
  ghost predicate SameHint(inputs: seq<RawBundle>, hint: nat, limit: nat) {
    && (forall r :: r in inputs ==> r.windowStart <= r.windowEnd && r.hintIndex == hint && r.limit == limit)
    && OneLedger(LedgerEvents(inputs))
  }

  // A window of the same hint that starts no earlier than the ones before it.
  ghost predicate Follows(before: seq<RawBundle>, next: RawBundle) {
    && OneLedger(LedgerEvents(before + [next])) && next.windowStart <= next.windowEnd
    && (forall r :: r in before ==> r.windowStart <= r.windowEnd && r.windowStart <= next.windowStart
                                    && r.hintIndex == next.hintIndex && r.limit == next.limit)
  }

  // ---- one step of the merge loop ---------------------------------------------------------

  lemma SummarizesStable(inputs: seq<RawBundle>, next: RawBundle, w: RawBundle)
    requires Summarizes(inputs, w) && Tight(inputs, w) && !Inside(next, w)
    ensures Summarizes(inputs + [next], w) && Tight(inputs + [next], w)
  {
    assert forall r :: r in inputs + [next] && Inside(r, w) <==> r in inputs && Inside(r, w);
  }

  lemma AloneSummarizes(inputs: seq<RawBundle>, next: RawBundle)
    requires OneLedger(LedgerEvents(inputs + [next]))
    requires forall r :: r in inputs ==> !Inside(r, next)
    ensures Summarizes(inputs + [next], Accumulate(next)) && Tight(inputs + [next], Accumulate(next))
  {
    var now := inputs + [next];
    assert next in now;
    PutAllMembers([], next.events, LedgerEvents(now));
    assert forall r :: r in now && Inside(r, Accumulate(next)) <==> r == next;
  }

  lemma StartWindow(inputs: seq<RawBundle>, windows: seq<RawBundle>, next: RawBundle)
    requires OneLedger(LedgerEvents(inputs + [next])) && next.windowStart <= next.windowEnd
    requires forall r :: r in inputs ==> r.windowStart <= r.windowEnd
    requires IsCoalescing(inputs, windows)
    requires forall w :: w in windows ==> w.windowEnd + 1 < next.windowStart
    ensures IsCoalescing(inputs + [next], windows + [Accumulate(next)])
  {
    hide Summarizes, Tight, OneLedger;
    var now, w' := inputs + [next], Accumulate(next);
    forall r | r in inputs ensures !Inside(r, next) && InsideSome(r, windows + [w']) {
      var w :| w in windows && Inside(r, w);
      assert w in windows + [w'];
    }
    AloneSummarizes(inputs, next);
    forall w | w in windows ensures Tight(now, w) && Summarizes(now, w) {
      SummarizesStable(inputs, next, w);
    }
    assert w' in windows + [w'] && Inside(next, w');
  }

  lemma MergeSummarizes(inputs: seq<RawBundle>, next: RawBundle, current: RawBundle)
    requires OneLedger(LedgerEvents(inputs + [next]))
    requires Summarizes(inputs, current)
    requires forall r :: r in inputs ==> (Inside(r, Merge(current, next)) <==> Inside(r, current))
    requires forall r :: r in inputs ==> r.hintIndex == next.hintIndex && r.limit == next.limit
    ensures Summarizes(inputs + [next], Merge(current, next))
  {
    var now, merged := inputs + [next], Merge(current, next);
    assert next in now && Inside(next, merged);
    forall e | e in current.events ensures e in LedgerEvents(now) {
      var r :| r in inputs && Inside(r, current) && e in r.events;
      assert r in now;
    }
    PutAllMembers(current.events, next.events, LedgerEvents(now));
    assert forall r :: r in now && Inside(r, merged) <==> (r in inputs && Inside(r, current)) || r == next;
  }

  lemma MergeWindow(inputs: seq<RawBundle>, done: seq<RawBundle>, current: RawBundle, next: RawBundle)
    requires Follows(inputs, next)
    requires IsCoalescing(inputs, done + [current])
    requires current.windowStart <= next.windowStart <= current.windowEnd + 1
    ensures IsCoalescing(inputs + [next], done + [Merge(current, next)])
  {
    hide Summarizes, OneLedger;
    var before, after, merged := done + [current], done + [Merge(current, next)], Merge(current, next);
    assert before[|done|] == current && current in before;
    forall i | 0 <= i < |done| ensures done[i].windowEnd + 1 < current.windowStart {
      assert before[i] == done[i];
    }
    forall r | r in inputs ensures (Inside(r, merged) <==> Inside(r, current)) && InsideSome(r, after) {
      var w :| w in before && Inside(r, w);
      assert w in done || w == current;
      assert merged in after;
      if w in done {
        assert w in after;
      }
    }
    assert Inside(next, merged) && merged in after;
    assert InsideSome(next, after);
    ReplaceLast(done, current, merged);
    MergeSummarizes(inputs, next, current);
    MergeTight(inputs, next, current);
    forall w | w in done ensures Tight(inputs + [next], w) && Summarizes(inputs + [next], w) {
      assert w in before;
      SummarizesStable(inputs, next, w);
    }
  }

  lemma ReplaceLast(done: seq<RawBundle>, current: RawBundle, merged: RawBundle)
    requires Separated(done + [current]) && merged.windowStart == current.windowStart
    ensures Separated(done + [merged])
  {
    var before, after := done + [current], done + [merged];
    forall i, j | 0 <= i < j < |after| ensures after[i].windowEnd + 1 < after[j].windowStart {
      assert before[i] == after[i] && before[i].windowEnd + 1 < before[j].windowStart;
    }
  }

  lemma MergeTight(inputs: seq<RawBundle>, next: RawBundle, current: RawBundle)
    requires Tight(inputs, current) && current.windowStart <= current.windowEnd && next.windowStart <= next.windowEnd
    requires current.windowStart <= next.windowStart <= current.windowEnd + 1
    ensures Tight(inputs + [next], Merge(current, next))
  {
    var merged := Merge(current, next);
    forall n | Covers(merged, n) ensures exists r :: r in inputs + [next] && Inside(r, merged) && Covers(r, n) {
      if Covers(current, n) {
        var r :| r in inputs && Inside(r, current) && Covers(r, n);
        assert r in inputs + [next];
      } else {
        assert next in inputs + [next] && Covers(next, n);
      }
    }
  }

  // Sorting the events of a window and counting their tokens changes nothing it summarizes.
  lemma FinishSummarizes(inputs: seq<RawBundle>, w: RawBundle)
    requires Summarizes(inputs, w) && Tight(inputs, w)
    ensures Summarizes(inputs, Finish(w)) && Tight(inputs, Finish(w))
    ensures Sorted(Finish(w).events, SequenceLeq) && Finish(w).tokenCount == BundleTokens(Finish(w).events)
  {
    assert TotalPreorder(SequenceLeq);
    SortSorts(w.events, SequenceLeq);
    SortKeepsElements(w.events, SequenceLeq);
    assert forall r :: Inside(r, Finish(w)) <==> Inside(r, w);
    forall n | Covers(Finish(w), n) ensures exists r :: r in inputs && Inside(r, Finish(w)) && Covers(r, n) {
      assert Covers(w, n);
      var r :| r in inputs && Inside(r, w) && Covers(r, n);
      assert Inside(r, Finish(w));
    }
  }

  function FinishAll(windows: seq<RawBundle>): (r: seq<RawBundle>)
    ensures |r| == |windows| && forall i :: 0 <= i < |r| ==> r[i] == Finish(windows[i])
  {
    if windows == [] then [] else [Finish(windows[0])] + FinishAll(windows[1..])
  }

  lemma FinishKeepsGaps(windows: seq<RawBundle>)
    requires Separated(windows)
    ensures Separated(FinishAll(windows))
  {
  }

  lemma FinishEach(inputs: seq<RawBundle>, windows: seq<RawBundle>)
    requires forall w :: w in windows ==> w.windowStart <= w.windowEnd && Tight(inputs, w) && Summarizes(inputs, w)
    ensures forall w :: w in FinishAll(windows) ==>
      w.windowStart <= w.windowEnd && Tight(inputs, w) && Summarizes(inputs, w)
    ensures Finished(FinishAll(windows))
  {
    hide Summarizes, Tight, Sorted, BundleTokens;
    forall w | w in FinishAll(windows)
      ensures w.windowStart <= w.windowEnd && Tight(inputs, w) && Summarizes(inputs, w)
           && Sorted(w.events, SequenceLeq) && w.tokenCount == BundleTokens(w.events)
    {
      var i :| 0 <= i < |windows| && FinishAll(windows)[i] == w;
      assert windows[i] in windows;
      FinishSummarizes(inputs, windows[i]);
    }
  }

  lemma FinishCoalescing(inputs: seq<RawBundle>, windows: seq<RawBundle>)
    requires IsCoalescing(inputs, windows)
    ensures IsCoalescing(inputs, FinishAll(windows)) && Finished(FinishAll(windows))
  {
    hide Summarizes, Tight, Separated, InsideSome, Finished;
    FinishKeepsGaps(windows);
    FinishEach(inputs, windows);
    forall x | x in inputs ensures InsideSome(x, FinishAll(windows)) {
      FinishKeepsInside(x, windows);
    }
  }

  lemma FinishKeepsInside(x: RawBundle, windows: seq<RawBundle>)
    requires InsideSome(x, windows)
    ensures InsideSome(x, FinishAll(windows))
  {
    var w :| w in windows && Inside(x, w);
    var i :| 0 <= i < |windows| && windows[i] == w;
    assert FinishAll(windows)[i] in FinishAll(windows) && Inside(x, FinishAll(windows)[i]);
  }

  lemma SortWindows(inputs: seq<RawBundle>)
    ensures forall r :: r in SortBy(inputs, WindowLeq) <==> r in inputs
    ensures forall i, j :: 0 <= i < j < |inputs| ==>
      SortBy(inputs, WindowLeq)[i].windowStart <= SortBy(inputs, WindowLeq)[j].windowStart
  {
    assert TotalPreorder(WindowLeq);
    SortSorts(inputs, WindowLeq);
    SortKeepsElements(inputs, WindowLeq);
    forall i, j | 0 <= i < j < |inputs|
      ensures SortBy(inputs, WindowLeq)[i].windowStart <= SortBy(inputs, WindowLeq)[j].windowStart
    {
      assert WindowLeq(SortBy(inputs, WindowLeq)[i], SortBy(inputs, WindowLeq)[j]);
    }
  }

  lemma CoalescingForgetsOrder(a: seq<RawBundle>, b: seq<RawBundle>, windows: seq<RawBundle>)
    requires forall r :: r in a <==> r in b
    requires IsCoalescing(a, windows)
    ensures IsCoalescing(b, windows)
  {
    hide Summarizes, Tight;
    forall w | w in windows ensures Summarizes(b, w) && Tight(b, w) {
      SummarizesSame(a, b, w);
    }
  }

  lemma SummarizesSame(a: seq<RawBundle>, b: seq<RawBundle>, w: RawBundle)
    requires forall r :: r in a <==> r in b
    requires Summarizes(a, w) && Tight(a, w)
    ensures Summarizes(b, w) && Tight(b, w)
  {
  }

  lemma LedgerOfSome(inputs: seq<RawBundle>, some: seq<RawBundle>)
    requires OneLedger(LedgerEvents(inputs)) && forall r :: r in some ==> r in inputs
    ensures OneLedger(LedgerEvents(some))
  {
    assert LedgerEvents(some) <= LedgerEvents(inputs);
  }

  lemma SortedFollows(inputs: seq<RawBundle>, i: nat, hint: nat, limit: nat)
    requires SameHint(inputs, hint, limit) && i < |inputs|
    ensures Follows(SortBy(inputs, WindowLeq)[..i], SortBy(inputs, WindowLeq)[i])
  {
    hide OneLedger, SortBy, LedgerEvents;
    var sorted := SortBy(inputs, WindowLeq);
    SortWindows(inputs);
    PrefixStep(sorted, i);
    forall r | r in sorted[..i] + [sorted[i]] ensures r in inputs {
      assert r in sorted[..i + 1];
      assert r in sorted;
    }
    LedgerOfSome(inputs, sorted[..i] + [sorted[i]]);
    forall r | r in sorted[..i] ensures r.windowStart <= sorted[i].windowStart {
      var j :| 0 <= j < i && sorted[..i][j] == r;
      assert sorted[j] == r;
    }
  }

  // The body of the merge loop keeps the windows so far a coalescing of the inputs so far.
  method Step(ghost before: seq<RawBundle>, accumulators: seq<RawBundle>, current: RawBundle, next: RawBundle)
    returns (accumulatorsNow: seq<RawBundle>, currentNow: RawBundle)
    requires IsCoalescing(before, accumulators + [current]) && Follows(before, next)
    requires current.windowStart <= next.windowStart
    ensures IsCoalescing(before + [next], accumulatorsNow + [currentNow])
    ensures currentNow.windowStart <= next.windowStart
  {
    hide Summarizes, Tight, OneLedger;
    assert (accumulators + [current])[|accumulators|] == current;
    if next.windowStart <= current.windowEnd + 1 {
      MergeWindow(before, accumulators, current, next);
      accumulatorsNow, currentNow := accumulators, Merge(current, next);
    } else {
      forall w | w in accumulators + [current] ensures w.windowEnd + 1 < next.windowStart {
        var i :| 0 <= i < |accumulators + [current]| && (accumulators + [current])[i] == w;
        if i < |accumulators| {
          assert w.windowEnd + 1 < current.windowStart;
          assert current in accumulators + [current];
        }
      }
      StartWindow(before, accumulators + [current], next);
      accumulatorsNow, currentNow := accumulators + [current], Accumulate(next);
    }
  }

  lemma NothingToCoalesce()
    ensures IsCoalescing([], []) && Finished([])
  {
  }

  lemma FirstWindow(first: RawBundle)
    requires Follows([], first)
    ensures IsCoalescing([first], [Accumulate(first)]) && Accumulate(first).windowStart == first.windowStart
  {
    hide Summarizes, Tight, OneLedger, LedgerEvents;
    var none: seq<RawBundle> := [];
    assert none + [first] == [first] && none + [Accumulate(first)] == [Accumulate(first)];
    StartWindow(none, none, first);
  }

  method CoalesceWindows(inputs: seq<RawBundle>, ghost hint: nat, ghost limit: nat) returns (windows: seq<RawBundle>)
    requires SameHint(inputs, hint, limit)
    ensures IsCoalescing(inputs, windows) && Finished(windows)
  {
    hide *;
    var sorted := SortBy(inputs, WindowLeq);
    SortWindows(inputs);
    if sorted == [] {
      NothingToCoalesce();
      return [];
    }
    var accumulators: seq<RawBundle> := [];
    var current := Accumulate(sorted[0]);
    SortedFollows(inputs, 0, hint, limit);
    FirstWindow(sorted[0]);
    assert sorted[..0] == [] && sorted[..1] == [sorted[0]] && accumulators + [current] == [current];
    for i := 1 to |sorted|
      invariant IsCoalescing(sorted[..i], accumulators + [current])
      invariant current.windowStart <= sorted[i - 1].windowStart
    {
      SortedFollows(inputs, i, hint, limit);
      PrefixStep(sorted, i);
      accumulators, current := Step(sorted[..i], accumulators, current, sorted[i]);
    }
    accumulators := accumulators + [current];
    assert sorted[..|sorted|] == sorted;
    CoalescingForgetsOrder(sorted, inputs, accumulators);
    FinishCoalescing(inputs, accumulators);
    windows := FinishAll(accumulators);
  }
}
