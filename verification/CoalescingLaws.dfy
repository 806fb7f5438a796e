// Consequences of the specification of a coalescing: it is unique, so it depends neither on the
// order of the inputs nor on how often it is applied, and it neither loses nor repeats events.
module CoalescingLaws {
  import opened Sequences
  import opened WindowCoalescing

  ghost predicate DistinctOrders(inputs: seq<RawBundle>) {
    forall r, q :: r in inputs && q in inputs && r.selectionOrder == q.selectionOrder ==> r == q
  }

  ghost predicate CoveredBy(windows: seq<RawBundle>, n: int) {
    exists w :: w in windows && Covers(w, n)
  }

  // ---- maximal runs are unique ------------------------------------------------------

  ghost predicate Runs(windows: seq<RawBundle>) {
    Separated(windows) && forall i :: 0 <= i < |windows| ==> windows[i].windowStart <= windows[i].windowEnd
  }

  lemma CoverageOfInputs(inputs: seq<RawBundle>, windows: seq<RawBundle>, n: int)
    requires IsCoalescing(inputs, windows)
    ensures CoveredBy(windows, n) <==> CoveredBy(inputs, n)
  {
    hide Summarizes, Separated;
    if CoveredBy(windows, n) {
      var w :| w in windows && Covers(w, n);
    }
    if CoveredBy(inputs, n) {
      var r :| r in inputs && Covers(r, n);
      var w :| w in windows && Inside(r, w);
      assert Covers(w, n);
    }
  }

  lemma HeadAndTail(windows: seq<RawBundle>, n: int)
    requires Runs(windows) && windows != []
    ensures CoveredBy(windows, n) ==> windows[0].windowStart <= n
    ensures Covers(windows[0], n) ==> CoveredBy(windows, n)
    ensures !CoveredBy(windows, windows[0].windowEnd + 1)
    ensures CoveredBy(windows[1..], n) <==> CoveredBy(windows, n) && n > windows[0].windowEnd
    ensures Runs(windows[1..])
  {
    assert windows[0] in windows;
    forall w | w in windows ensures w == windows[0] || (w in windows[1..] && w.windowStart > windows[0].windowEnd + 1) {
      var i :| 0 <= i < |windows| && windows[i] == w;
      assert i == 0 || windows[1..][i - 1] == w;
    }
    forall w | w in windows[1..] ensures w in windows && w.windowStart > windows[0].windowEnd + 1 {
      var i :| 0 <= i < |windows[1..]| && windows[1..][i] == w;
      assert windows[i + 1] == w;
    }
  }

  lemma SameHead(a: seq<RawBundle>, b: seq<RawBundle>)
    requires Runs(a) && Runs(b) && a != [] && b != []
    requires forall n :: CoveredBy(a, n) <==> CoveredBy(b, n)
    ensures a[0].windowStart == b[0].windowStart && a[0].windowEnd == b[0].windowEnd
  {
    HeadAndTail(a, b[0].windowStart);
    HeadAndTail(b, a[0].windowStart);
    HeadAndTail(a, a[0].windowStart);
    HeadAndTail(b, b[0].windowStart);
    HeadAndTail(a, b[0].windowEnd + 1);
    HeadAndTail(b, a[0].windowEnd + 1);
  }

  lemma {:induction false} SameRuns(a: seq<RawBundle>, b: seq<RawBundle>)
    requires Runs(a) && Runs(b)
    requires forall n :: CoveredBy(a, n) <==> CoveredBy(b, n)
    ensures |a| == |b|
    ensures forall i :: 0 <= i < |a| ==> a[i].windowStart == b[i].windowStart && a[i].windowEnd == b[i].windowEnd
  {
    if a == [] || b == [] {
      assert a != [] ==> Covers(a[0], a[0].windowStart) && a[0] in a && CoveredBy(a, a[0].windowStart);
      assert b != [] ==> Covers(b[0], b[0].windowStart) && b[0] in b && CoveredBy(b, b[0].windowStart);
    } else {
      SameHead(a, b);
      forall n ensures CoveredBy(a[1..], n) <==> CoveredBy(b[1..], n) {
        HeadAndTail(a, n);
        HeadAndTail(b, n);
      }
      HeadAndTail(a, 0);
      HeadAndTail(b, 0);
      SameRuns(a[1..], b[1..]);
      forall i | 0 <= i < |a| ensures a[i].windowStart == b[i].windowStart && a[i].windowEnd == b[i].windowEnd {
        assert i == 0 || (a[i] == a[1..][i - 1] && b[i] == b[1..][i - 1]);
      }
    }
  }

  // ---- what summarizes the same windows is the same ---------------------------------------

  lemma SameMax(inputs: seq<RawBundle>, v: RawBundle, w: RawBundle, field: RawBundle -> int)
    requires v.windowStart == w.windowStart && v.windowEnd == w.windowEnd
    requires IsMax(inputs, v, field) && IsMax(inputs, w, field)
    ensures field(v) == field(w)
  {
    assert forall r :: Inside(r, v) <==> Inside(r, w);
  }

  lemma SameEvents(inputs: seq<RawBundle>, a: seq<Event>, b: seq<Event>)
    requires OneLedger(LedgerEvents(inputs))
    requires Distinct(a) && Distinct(b) && Sorted(a, SequenceLeq) && Sorted(b, SequenceLeq)
    requires forall e :: e in a <==> e in b
    requires forall e :: e in a ==> e in LedgerEvents(inputs)
    ensures a == b
  {
    SameElements(a, b);
    forall e, f | e in a && f in a && SequenceLeq(e, f) && SequenceLeq(f, e) ensures e == f {
    }
    SortedUnique(a, b, SequenceLeq);
  }

  lemma SameSummary(inputs: seq<RawBundle>, v: RawBundle, w: RawBundle)
    requires v.windowStart == w.windowStart && v.windowEnd == w.windowEnd
    requires Summarizes(inputs, v) && Summarizes(inputs, w) && Finished([v]) && Finished([w])
    requires DistinctOrders(inputs) && OneLedger(LedgerEvents(inputs))
    ensures v == w
  {
    assert forall r :: Inside(r, v) <==> Inside(r, w);
    assert v in [v] && w in [w];
    SameMax(inputs, v, w, Score);
    SameMax(inputs, v, w, Overlap);
    SameMax(inputs, v, w, Specificity);
    SameMax(inputs, v, w, Anchors);
    SameFirst(inputs, v, w);
    forall e ensures e in v.events <==> e in w.events {
    }
    SameEvents(inputs, v.events, w.events);
  }

  lemma SameFirst(inputs: seq<RawBundle>, v: RawBundle, w: RawBundle)
    requires v.windowStart == w.windowStart && v.windowEnd == w.windowEnd
    requires Summarizes(inputs, v) && Summarizes(inputs, w) && DistinctOrders(inputs)
    ensures v.selectionOrder == w.selectionOrder && v.seedId == w.seedId && v.hintIndex == w.hintIndex
      && v.limit == w.limit
  {
    hide IsMax;
    assert forall r :: Inside(r, v) <==> Inside(r, w);
    var r :| r in inputs && Inside(r, v) && r.selectionOrder == v.selectionOrder && r.seedId == v.seedId
             && r.hintIndex == v.hintIndex && r.limit == v.limit;
    var q :| q in inputs && Inside(q, w) && q.selectionOrder == w.selectionOrder && q.seedId == w.seedId
             && q.hintIndex == w.hintIndex && q.limit == w.limit;
    assert r == q;
  }

  lemma CoalescingUnique(inputs: seq<RawBundle>, a: seq<RawBundle>, b: seq<RawBundle>)
    requires DistinctOrders(inputs) && OneLedger(LedgerEvents(inputs))
    requires IsCoalescing(inputs, a) && Finished(a)
    requires IsCoalescing(inputs, b) && Finished(b)
    ensures a == b
  {
    hide Summarizes, Tight, OneLedger, DistinctOrders;
    forall n ensures CoveredBy(a, n) <==> CoveredBy(b, n) {
      CoverageOfInputs(inputs, a, n);
      CoverageOfInputs(inputs, b, n);
    }
    assert forall i :: 0 <= i < |a| ==> a[i] in a;
    assert forall i :: 0 <= i < |b| ==> b[i] in b;
    SameRuns(a, b);
    forall i | 0 <= i < |a| ensures a[i] == b[i] {
      SameSummary(inputs, a[i], b[i]);
    }
  }

  // The order in which the windows were found does not matter.
  lemma CoalescingIgnoresOrder(a: seq<RawBundle>, b: seq<RawBundle>, ra: seq<RawBundle>, rb: seq<RawBundle>)
    requires multiset(a) == multiset(b)
    requires DistinctOrders(a) && OneLedger(LedgerEvents(a))
    requires IsCoalescing(a, ra) && Finished(ra) && IsCoalescing(b, rb) && Finished(rb)
    ensures ra == rb
  {
    hide IsCoalescing, Finished, OneLedger, DistinctOrders;
    forall r ensures r in a <==> r in b {
      assert (r in a <==> r in multiset(a)) && (r in b <==> r in multiset(b));
    }
    CoalescingForgetsOrder(b, a, rb);
    CoalescingUnique(a, ra, rb);
  }

  // ---- applying it again ------------------------------------------------------------------

  lemma SelfInside(windows: seq<RawBundle>, r: RawBundle, w: RawBundle)
    requires Runs(windows) && r in windows && w in windows
    ensures Inside(r, w) <==> r == w
  {
    var i :| 0 <= i < |windows| && windows[i] == r;
    var j :| 0 <= j < |windows| && windows[j] == w;
    assert i < j ==> windows[i].windowEnd + 1 < windows[j].windowStart;
    assert j < i ==> windows[j].windowEnd + 1 < windows[i].windowStart;
  }

  lemma CoalescingRuns(inputs: seq<RawBundle>, windows: seq<RawBundle>)
    requires IsCoalescing(inputs, windows)
    ensures Runs(windows) && Separated(windows)
  {
    hide Tight, Summarizes;
    assert forall i :: 0 <= i < |windows| ==> windows[i] in windows;
  }

  // Coalesced windows are their own coalescing, so coalescing twice changes nothing.
  lemma CoalescingIdempotent(inputs: seq<RawBundle>, windows: seq<RawBundle>)
    requires IsCoalescing(inputs, windows) && Finished(windows)
    ensures IsCoalescing(windows, windows)
  {
    CoalescingRuns(inputs, windows);
    hide Tight, Summarizes, Separated, InsideSome, Runs;
    forall w | w in windows ensures Tight(windows, w) && Summarizes(windows, w) && InsideSome(w, windows) {
      OwnSummary(inputs, windows, w);
    }
  }

  lemma OwnSummary(inputs: seq<RawBundle>, windows: seq<RawBundle>, w: RawBundle)
    requires Runs(windows) && w in windows && Summarizes(inputs, w)
    ensures Summarizes(windows, w) && Tight(windows, w) && InsideSome(w, windows)
  {
    forall r | r in windows ensures Inside(r, w) <==> r == w {
      SelfInside(windows, r, w);
    }
  }

  // ---- conservation -------------------------------------------------------------------------

  function Events(windows: seq<RawBundle>): seq<Event> {
    if windows == [] then [] else windows[0].events + Events(windows[1..])
  }

  lemma {:induction false} EventsMembers(windows: seq<RawBundle>, e: Event)
    ensures e in Events(windows) <==> exists w :: w in windows && e in w.events
  {
    if windows != [] {
      EventsMembers(windows[1..], e);
      assert windows[0] in windows && forall w :: w in windows <==> w == windows[0] || w in windows[1..];
    }
  }

  ghost predicate WithinBounds(windows: seq<RawBundle>) {
    forall w, e :: w in windows && e in w.events ==> Covers(w, e.sequence)
  }

  // Each input event is in exactly one window, and within its bounds.
  lemma EveryEventOnce(inputs: seq<RawBundle>, windows: seq<RawBundle>)
    requires IsCoalescing(inputs, windows) && Distinct(Events(inputs)) && WithinBounds(inputs)
    ensures WithinBounds(windows)
    ensures Distinct(Events(windows)) && multiset(Events(windows)) == multiset(Events(inputs))
  {
    hide Summarizes, Tight, Distinct;
    forall w, e | w in windows && e in w.events ensures Covers(w, e.sequence) {
      var r := EventOrigin(inputs, w, e);
    }
    forall e ensures e in Events(windows) <==> e in Events(inputs) {
      SameEventMembers(inputs, windows, e);
    }
    forall w | w in windows ensures Distinct(w.events) {
      EventsOfSummary(inputs, w);
    }
    WindowEventsDistinct(windows);
    SameElements(Events(windows), Events(inputs));
  }

  lemma EventsOfSummary(inputs: seq<RawBundle>, w: RawBundle)
    requires Summarizes(inputs, w)
    ensures Distinct(w.events)
  {
  }

  lemma EventOrigin(inputs: seq<RawBundle>, w: RawBundle, e: Event) returns (r: RawBundle)
    requires Summarizes(inputs, w) && e in w.events
    ensures r in inputs && Inside(r, w) && e in r.events
  {
    r :| r in inputs && Inside(r, w) && e in r.events;
  }

  lemma EventKept(inputs: seq<RawBundle>, w: RawBundle, r: RawBundle, e: Event)
    requires Summarizes(inputs, w) && r in inputs && Inside(r, w) && e in r.events
    ensures e in w.events
  {
  }

  lemma SameEventMembers(inputs: seq<RawBundle>, windows: seq<RawBundle>, e: Event)
    requires IsCoalescing(inputs, windows)
    ensures e in Events(windows) <==> e in Events(inputs)
  {
    hide Summarizes, Tight, Separated;
    EventsMembers(windows, e);
    EventsMembers(inputs, e);
    if e in Events(windows) {
      var w :| w in windows && e in w.events;
      var r := EventOrigin(inputs, w, e);
    }
    if e in Events(inputs) {
      var r :| r in inputs && e in r.events;
      var w :| w in windows && Inside(r, w);
      EventKept(inputs, w, r, e);
    }
  }

  lemma SeparatedTail(windows: seq<RawBundle>)
    requires Separated(windows) && windows != []
    ensures Separated(windows[1..])
    ensures forall w :: w in windows[1..] ==> windows[0].windowEnd + 1 < w.windowStart
  {
    var rest := windows[1..];
    forall i, j | 0 <= i < j < |rest| ensures rest[i].windowEnd + 1 < rest[j].windowStart {
      assert rest[i] == windows[i + 1] && rest[j] == windows[j + 1];
    }
    forall w | w in rest ensures windows[0].windowEnd + 1 < w.windowStart {
      var i :| 0 <= i < |rest| && rest[i] == w;
      assert windows[i + 1] == w;
    }
  }

  lemma {:induction false} WindowEventsDistinct(windows: seq<RawBundle>)
    requires Separated(windows) && WithinBounds(windows)
    requires forall w :: w in windows ==> Distinct(w.events)
    ensures Distinct(Events(windows))
  {
    hide Separated, Distinct;
    if windows == [] {
      PairwiseDistinct(Events(windows));
    } else {
      var rest := windows[1..];
      assert windows[0] in windows && forall w :: w in rest ==> w in windows;
      SeparatedTail(windows);
      WindowEventsDistinct(rest);
      forall e | e in windows[0].events ensures e !in Events(rest) {
        EventsMembers(rest, e);
        assert Covers(windows[0], e.sequence);
        forall w | w in rest ensures e !in w.events {
          assert windows[0].windowEnd + 1 < w.windowStart;
          assert !Covers(w, e.sequence);
        }
      }
      DistinctConcat(windows[0].events, Events(rest));
    }
  }

  function TokenCountOf(w: RawBundle): nat { w.tokenCount }

  lemma {:induction false} TokensOfEvents(windows: seq<RawBundle>)
    requires forall w :: w in windows ==> w.tokenCount == BundleTokens(w.events)
    ensures Sum(windows, TokenCountOf) == BundleTokens(Events(windows))
  {
    if windows != [] {
      assert windows[0] in windows && forall w :: w in windows[1..] ==> w in windows;
      TokensOfEvents(windows[1..]);
      SumConcat(windows[0].events, Events(windows[1..]), EventTokens);
    }
  }

  lemma TokensConserved(inputs: seq<RawBundle>, windows: seq<RawBundle>)
    requires IsCoalescing(inputs, windows) && Finished(windows) && Distinct(Events(inputs)) && WithinBounds(inputs)
    requires forall r :: r in inputs ==> r.tokenCount == BundleTokens(r.events)
    ensures Sum(windows, TokenCountOf) == Sum(inputs, TokenCountOf)
  {
    hide IsCoalescing;
    EveryEventOnce(inputs, windows);
    TokensOfEvents(inputs);
    TokensOfEvents(windows);
    SumPermutation(Events(windows), Events(inputs), EventTokens);
  }

  function CountIn(e: Event): RawBundle -> nat {
    (w: RawBundle) => multiset(w.events)[e]
  }

  lemma {:induction false} EventsCount(windows: seq<RawBundle>, e: Event)
    ensures multiset(Events(windows))[e] == Sum(windows, CountIn(e))
  {
    if windows != [] {
      EventsCount(windows[1..], e);
    }
  }

  lemma EventsPermutation(a: seq<RawBundle>, b: seq<RawBundle>)
    requires multiset(a) == multiset(b)
    ensures multiset(Events(a)) == multiset(Events(b))
  {
    forall e ensures multiset(Events(a))[e] == multiset(Events(b))[e] {
      EventsCount(a, e);
      EventsCount(b, e);
      SumPermutation(a, b, CountIn(e));
    }
  }
}
