// Coalescing the contenders of all retrieval hints into the final retrieval order.
module RetrievalCoalescing {
  import opened Sequences
  import opened BridgeCompression
  import opened WindowCoalescing
  import opened CoalescingLaws

  datatype BridgeContender =
    BridgeContender(hintIndex: nat, limit: nat, selectionOrder: nat, score: int, overlapCount: int,
                    specificityScore: int, evidenceScore: int, concreteCueCount: nat, tokenCount: nat,
                    candidate: Candidate)

  datatype Contender = Bridge(bridge: BridgeContender) | Raw(bundle: RawBundle)
  {
    function Order(): nat {
      match this
      case Bridge(b) => b.selectionOrder
      case Raw(r) => r.selectionOrder
    }
  }

  predicate OrderLeq(a: Contender, b: Contender) {
    a.Order() <= b.Order()
  }

  predicate IsBridge(c: Contender) { c.Bridge? }

  // The raw bundles of one hint, in order.
  function RawsOf(cs: seq<Contender>, hint: nat): seq<RawBundle> {
    if cs == [] then []
    else if cs[0].Raw? && cs[0].bundle.hintIndex == hint then [cs[0].bundle] + RawsOf(cs[1..], hint)
    else RawsOf(cs[1..], hint)
  }

  function Wrap(windows: seq<RawBundle>): (r: seq<Contender>)
    ensures |r| == |windows| && forall i :: 0 <= i < |r| ==> r[i] == Raw(windows[i])
  {
    if windows == [] then [] else [Raw(windows[0])] + Wrap(windows[1..])
  }

  lemma {:induction false} RawsOfCount(cs: seq<Contender>, hint: nat, x: RawBundle)
    ensures multiset(RawsOf(cs, hint))[x] == if x.hintIndex == hint then multiset(cs)[Raw(x)] else 0
  {
    if cs != [] {
      assert cs == [cs[0]] + cs[1..];
      RawsOfCount(cs[1..], hint, x);
    }
  }

  lemma RawsOfMember(cs: seq<Contender>, hint: nat, x: RawBundle)
    ensures x in RawsOf(cs, hint) <==> Raw(x) in cs && x.hintIndex == hint
  {
    RawsOfCount(cs, hint, x);
    assert x in RawsOf(cs, hint) <==> x in multiset(RawsOf(cs, hint));
    assert Raw(x) in cs <==> Raw(x) in multiset(cs);
  }

  lemma {:induction false} RawsOfConcat(a: seq<Contender>, b: seq<Contender>, hint: nat)
    ensures RawsOf(a + b, hint) == RawsOf(a, hint) + RawsOf(b, hint)
  {
    if a == [] {
      assert a + b == b;
    } else {
      assert (a + b)[1..] == a[1..] + b;
      RawsOfConcat(a[1..], b, hint);
    }
  }

  lemma {:induction false} RawsOfWrapped(windows: seq<RawBundle>, hint: nat, h: nat)
    requires forall w :: w in windows ==> w.hintIndex == hint
    ensures RawsOf(Wrap(windows), h) == if h == hint then windows else []
  {
    if windows != [] {
      assert windows[0] in windows && forall w :: w in windows[1..] ==> w in windows;
      RawsOfWrapped(windows[1..], hint, h);
    }
  }

  // ---- what the coalesced contenders are ------------------------------------------------

  ghost predicate HintCoalesced(inputs: seq<RawBundle>, outputs: seq<RawBundle>) {
    exists windows :: IsCoalescing(inputs, windows) && Finished(windows) && multiset(windows) == multiset(outputs)
  }

  // Bridges pass through, the raw bundles of each hint are coalesced, and everything is in
  // selection order.
  ghost predicate IsCoalesced(contenders: seq<Contender>, r: seq<Contender>) {
    && Sorted(r, OrderLeq)
    && multiset(Filter(r, IsBridge)) == multiset(Filter(contenders, IsBridge))
    && forall hint: nat :: HintCoalesced(RawsOf(contenders, hint), RawsOf(r, hint))
  }

  // What the retrieval pass hands over: one limit per hint, windows that are not inverted, events
  // of one ledger.
  ghost predicate WellFormedContenders(cs: seq<Contender>, limits: nat -> nat) {
    && (forall c :: c in cs && c.Raw? ==>
          c.bundle.windowStart <= c.bundle.windowEnd && c.bundle.limit == limits(c.bundle.hintIndex))
    && OneLedger(set c, e | c in cs && c.Raw? && e in c.bundle.events :: e)
  }

  lemma HintInputs(cs: seq<Contender>, limits: nat -> nat, hint: nat)
    requires WellFormedContenders(cs, limits)
    ensures SameHint(RawsOf(cs, hint), hint, limits(hint))
  {
    hide OneLedger, RawsOf;
    var inputs := RawsOf(cs, hint);
    var events := set c, e | c in cs && c.Raw? && e in c.bundle.events :: e;
    forall r | r in inputs ensures Raw(r) in cs && r.hintIndex == hint {
      RawsOfMember(cs, hint, r);
    }
    forall e | e in LedgerEvents(inputs) ensures e in events {
      var r :| r in inputs && e in r.events;
      assert Raw(r) in cs && e in Raw(r).bundle.events;
    }
    PartOfLedger(LedgerEvents(inputs), events);
  }

  lemma PartOfLedger(part: set<Event>, whole: set<Event>)
    requires OneLedger(whole) && part <= whole
    ensures OneLedger(part)
  {
  }

  lemma RawsOfNext(contenders: seq<Contender>, c: Contender)
    ensures forall h: nat ::
      RawsOf(contenders + [c], h)
        == RawsOf(contenders, h) + (if c.Raw? && c.bundle.hintIndex == h then [c.bundle] else [])
  {
    forall h: nat ensures RawsOf(contenders + [c], h)
        == RawsOf(contenders, h) + (if c.Raw? && c.bundle.hintIndex == h then [c.bundle] else [])
    {
      RawsOfConcat(contenders, [c], h);
      assert [c][1..] == [];
    }
  }

  method GroupByHint(contenders: seq<Contender>) returns (groups: map<nat, seq<RawBundle>>, hints: seq<nat>)
    ensures forall h :: h in hints <==> h in groups
    ensures Distinct(hints)
    ensures forall h: nat :: (if h in groups then groups[h] else []) == RawsOf(contenders, h)
  {
    groups, hints := map[], [];
    for i := 0 to |contenders|
      invariant forall h :: h in hints <==> h in groups
      invariant Distinct(hints)
      invariant forall h: nat :: (if h in groups then groups[h] else []) == RawsOf(contenders[..i], h)
    {
      var c := contenders[i];
      PrefixStep(contenders, i);
      RawsOfNext(contenders[..i], c);
      if c.Raw? {
        var h := c.bundle.hintIndex;
        if h !in groups {
          DistinctConcat(hints, [h]);
          groups, hints := groups[h := [c.bundle]], hints + [h];
        } else {
          groups := groups[h := groups[h] + [c.bundle]];
        }
      }
    }
    assert contenders[..|contenders|] == contenders;
  }

  lemma WindowsKeepHint(inputs: seq<RawBundle>, windows: seq<RawBundle>, hint: nat, limit: nat)
    requires SameHint(inputs, hint, limit) && IsCoalescing(inputs, windows)
    ensures forall w :: w in windows ==> w.hintIndex == hint && w.limit == limit
  {
    hide IsMax, Tight, Separated, OneLedger;
    forall w | w in windows ensures w.hintIndex == hint && w.limit == limit {
      assert Summarizes(inputs, w);
    }
  }

  lemma NothingForHint()
    ensures HintCoalesced([], [])
  {
    NothingToCoalesce();
    var none: seq<RawBundle> := [];
    assert multiset(none) == multiset(none);
  }

  // Appending the windows of one more hint settles that hint and leaves the others alone.
  lemma SettleHint(contenders: seq<Contender>, merged: seq<Contender>, windows: seq<RawBundle>, hint: nat,
                   limits: nat -> nat)
    requires WellFormedContenders(contenders, limits)
    requires IsCoalescing(RawsOf(contenders, hint), windows) && Finished(windows)
    requires RawsOf(merged, hint) == []
    ensures HintCoalesced(RawsOf(contenders, hint), RawsOf(merged + Wrap(windows), hint))
    ensures forall h: nat :: h != hint ==> RawsOf(merged + Wrap(windows), h) == RawsOf(merged, h)
  {
    hide IsCoalescing, Finished, WellFormedContenders;
    HintInputs(contenders, limits, hint);
    WindowsKeepHint(RawsOf(contenders, hint), windows, hint, limits(hint));
    forall h: nat ensures RawsOf(merged + Wrap(windows), h) == RawsOf(merged, h) + if h == hint then windows else [] {
      RawsOfConcat(merged, Wrap(windows), h);
      RawsOfWrapped(windows, hint, h);
    }
    assert RawsOf(merged + Wrap(windows), hint) == windows;
  }

  lemma SameHintWindows(a: seq<Contender>, b: seq<Contender>, hint: nat)
    requires multiset(a) == multiset(b)
    ensures multiset(RawsOf(a, hint)) == multiset(RawsOf(b, hint))
  {
    forall x ensures multiset(RawsOf(a, hint))[x] == multiset(RawsOf(b, hint))[x] {
      RawsOfCount(a, hint, x);
      RawsOfCount(b, hint, x);
    }
  }

  lemma {:induction false} OnlyBridges(bridges: seq<Contender>, hint: nat)
    requires forall c :: c in bridges ==> c.Bridge?
    ensures RawsOf(bridges, hint) == []
  {
    if bridges != [] {
      assert bridges[0] in bridges && forall c :: c in bridges[1..] ==> c in bridges;
      OnlyBridges(bridges[1..], hint);
    }
  }

  // Putting bridges and windows in selection order yields the result.
  lemma InSelectionOrder(contenders: seq<Contender>, merged: seq<Contender>, r: seq<Contender>)
    requires forall c :: c in merged ==> c.Raw?
    requires forall hint: nat :: HintCoalesced(RawsOf(contenders, hint), RawsOf(merged, hint))
    requires r == SortBy(Filter(contenders, IsBridge) + merged, OrderLeq)
    ensures IsCoalesced(contenders, r)
  {
    hide HintCoalesced;
    var bridges := Filter(contenders, IsBridge);
    SortByOrder(bridges + merged);
    BridgesKept(contenders, merged, r);
    forall hint: nat ensures HintCoalesced(RawsOf(contenders, hint), RawsOf(r, hint)) {
      SameHintWindows(bridges + merged, r, hint);
      RawsOfConcat(bridges, merged, hint);
      OnlyBridges(bridges, hint);
      assert [] + RawsOf(merged, hint) == RawsOf(merged, hint);
      OutputOrderIrrelevant(RawsOf(contenders, hint), RawsOf(merged, hint), RawsOf(r, hint));
    }
  }

  lemma SortByOrder(cs: seq<Contender>)
    ensures Sorted(SortBy(cs, OrderLeq), OrderLeq)
  {
    assert TotalPreorder(OrderLeq);
    SortSorts(cs, OrderLeq);
  }

  lemma BridgesKept(contenders: seq<Contender>, merged: seq<Contender>, r: seq<Contender>)
    requires forall c :: c in merged ==> c.Raw?
    requires multiset(r) == multiset(Filter(contenders, IsBridge)) + multiset(merged)
    ensures multiset(Filter(r, IsBridge)) == multiset(Filter(contenders, IsBridge))
  {
    forall x ensures multiset(Filter(r, IsBridge))[x] == multiset(Filter(contenders, IsBridge))[x] {
      FilterCount(r, IsBridge, x);
      FilterCount(contenders, IsBridge, x);
      assert x in merged <==> x in multiset(merged);
    }
  }

  lemma OutputOrderIrrelevant(inputs: seq<RawBundle>, a: seq<RawBundle>, b: seq<RawBundle>)
    requires HintCoalesced(inputs, a) && multiset(a) == multiset(b)
    ensures HintCoalesced(inputs, b)
  {
    hide IsCoalescing, Finished;
    var windows: seq<RawBundle> :| IsCoalescing(inputs, windows) && Finished(windows)
      && multiset(windows) == multiset(a);
    assert multiset(windows) == multiset(b);
  }

  method CoalesceRawRetrievalContenders(contenders: seq<Contender>, ghost limits: nat -> nat)
    returns (r: seq<Contender>)
    requires WellFormedContenders(contenders, limits)
    ensures IsCoalesced(contenders, r)
  {
    hide IsCoalescing, Finished, WellFormedContenders, HintCoalesced, IsCoalesced, SameHint;
    var groups, hints := GroupByHint(contenders);
    var merged: seq<Contender> := [];
    for i := 0 to |hints|
      invariant forall c :: c in merged ==> c.Raw?
      invariant forall h: nat :: h !in hints[..i] ==> RawsOf(merged, h) == []
      invariant forall h: nat :: h in hints[..i] ==> HintCoalesced(RawsOf(contenders, h), RawsOf(merged, h))
    {
      var hint := hints[i];
      PrefixStep(hints, i);
      NotYet(hints, i);
      HintInputs(contenders, limits, hint);
      var windows := CoalesceWindows(groups[hint], hint, limits(hint));
      SettleHint(contenders, merged, windows, hint, limits);
      merged := merged + Wrap(windows);
    }
    assert hints[..|hints|] == hints;
    forall h: nat ensures HintCoalesced(RawsOf(contenders, h), RawsOf(merged, h)) {
      if h !in hints {
        NothingForHint();
      }
    }
    r := SortBy(Filter(contenders, IsBridge) + merged, OrderLeq);
    InSelectionOrder(contenders, merged, r);
  }

  lemma NotYet(hints: seq<nat>, i: nat)
    requires Distinct(hints) && i < |hints|
    ensures hints[i] !in hints[..i]
  {
    forall j | 0 <= j < i ensures hints[j] != hints[i] {
      DistinctAt(hints, j, i);
    }
  }

  // ---- conservation over all hints --------------------------------------------------------

  function AllEvents(cs: seq<Contender>): seq<Event> {
    if cs == [] then []
    else (if cs[0].Raw? then cs[0].bundle.events else []) + AllEvents(cs[1..])
  }

  ghost predicate BundlesInBounds(cs: seq<Contender>) {
    forall c, e :: c in cs && c.Raw? && e in c.bundle.events ==> Covers(c.bundle, e.sequence)
  }

  lemma {:induction false} AllEventsMember(cs: seq<Contender>, e: Event)
    ensures e in AllEvents(cs) <==> exists c :: c in cs && c.Raw? && e in c.bundle.events
  {
    if cs != [] {
      AllEventsMember(cs[1..], e);
      assert cs[0] in cs && forall c :: c in cs <==> c == cs[0] || c in cs[1..];
    }
  }

  ghost predicate OnlyInHint(cs: seq<Contender>, e: Event, hint: nat) {
    forall c :: c in cs && c.Raw? && e in c.bundle.events ==> c.bundle.hintIndex == hint
  }

  lemma {:induction false} EventsOfHint(cs: seq<Contender>, e: Event, hint: nat)
    ensures multiset(Events(RawsOf(cs, hint)))[e] <= multiset(AllEvents(cs))[e]
    ensures OnlyInHint(cs, e, hint) ==> multiset(Events(RawsOf(cs, hint)))[e] == multiset(AllEvents(cs))[e]
  {
    if cs != [] {
      EventsOfHint(cs[1..], e, hint);
      assert cs[0] in cs && forall c :: c in cs[1..] ==> c in cs;
      if cs[0].Raw? && cs[0].bundle.hintIndex != hint && OnlyInHint(cs, e, hint) {
        assert e !in cs[0].bundle.events;
      }
    }
  }

  // An event repeated nowhere belongs to the bundles of one hint only.
  lemma {:induction false} OneHintPerEvent(cs: seq<Contender>, e: Event) returns (hint: nat)
    requires Distinct(AllEvents(cs))
    ensures OnlyInHint(cs, e, hint)
  {
    if cs == [] {
      hint := 0;
    } else {
      var first := if cs[0].Raw? then cs[0].bundle.events else [];
      assert AllEvents(cs) == first + AllEvents(cs[1..]);
      assert multiset(AllEvents(cs))[e] == multiset(first)[e] + multiset(AllEvents(cs[1..]))[e];
      forall x ensures multiset(AllEvents(cs[1..]))[x] <= 1 {
        assert multiset(AllEvents(cs))[x] == multiset(first)[x] + multiset(AllEvents(cs[1..]))[x];
      }
      hint := OneHintPerEvent(cs[1..], e);
      AllEventsMember(cs[1..], e);
      assert forall c :: c in cs <==> c == cs[0] || c in cs[1..];
      if cs[0].Raw? && e in cs[0].bundle.events {
        hint := cs[0].bundle.hintIndex;
        assert e in multiset(first);
        assert e !in AllEvents(cs[1..]);
      }
    }
  }

  lemma HintEvents(contenders: seq<Contender>, r: seq<Contender>, hint: nat)
    requires IsCoalesced(contenders, r)
    requires Distinct(AllEvents(contenders)) && BundlesInBounds(contenders)
    ensures multiset(Events(RawsOf(r, hint))) == multiset(Events(RawsOf(contenders, hint)))
  {
    hide IsCoalescing, Finished;
    var inputs, outputs := RawsOf(contenders, hint), RawsOf(r, hint);
    var windows: seq<RawBundle> :| IsCoalescing(inputs, windows) && Finished(windows)
      && multiset(windows) == multiset(outputs);
    forall e ensures multiset(Events(inputs))[e] <= 1 {
      EventsOfHint(contenders, e, hint);
    }
    forall w | w in inputs ensures Raw(w) in contenders {
      RawsOfMember(contenders, hint, w);
    }
    forall w, e | w in inputs && e in w.events ensures Covers(w, e.sequence) {
      assert Raw(w) in contenders && Raw(w).Raw? && e in Raw(w).bundle.events;
    }
    EveryEventOnce(inputs, windows);
    EventsPermutation(windows, outputs);
  }

  lemma OutputsStayInHint(contenders: seq<Contender>, r: seq<Contender>, e: Event, hint: nat)
    requires IsCoalesced(contenders, r) && OnlyInHint(contenders, e, hint)
    requires Distinct(AllEvents(contenders)) && BundlesInBounds(contenders)
    ensures OnlyInHint(r, e, hint)
  {
    hide IsCoalesced, Distinct;
    forall c | c in r && c.Raw? && e in c.bundle.events ensures c.bundle.hintIndex == hint {
      var h := c.bundle.hintIndex;
      RawsOfMember(r, h, c.bundle);
      EventsMembers(RawsOf(r, h), e);
      HintEvents(contenders, r, h);
      assert e in multiset(Events(RawsOf(contenders, h)));
      EventsMembers(RawsOf(contenders, h), e);
      var w :| w in RawsOf(contenders, h) && e in w.events;
      RawsOfMember(contenders, h, w);
    }
  }

  // Coalescing neither loses nor repeats a retrieved message, over all hints together.
  lemma CoalescingConservesEvents(contenders: seq<Contender>, r: seq<Contender>)
    requires IsCoalesced(contenders, r)
    requires Distinct(AllEvents(contenders)) && BundlesInBounds(contenders)
    ensures multiset(AllEvents(r)) == multiset(AllEvents(contenders))
  {
    hide IsCoalesced, Distinct;
    forall e ensures multiset(AllEvents(r))[e] == multiset(AllEvents(contenders))[e] {
      var hint := OneHintPerEvent(contenders, e);
      OutputsStayInHint(contenders, r, e, hint);
      HintEvents(contenders, r, hint);
      EventsOfHint(contenders, e, hint);
      EventsOfHint(r, e, hint);
    }
  }

  // ---- independence of the order of the contenders ------------------------------------------

  ghost predicate DistinctSelectionOrders(cs: seq<Contender>) {
    forall c, d :: c in cs && d in cs && c.Order() == d.Order() ==> c == d
  }

  lemma HintOrders(cs: seq<Contender>, limits: nat -> nat, hint: nat)
    requires WellFormedContenders(cs, limits) && DistinctSelectionOrders(cs)
    ensures DistinctOrders(RawsOf(cs, hint)) && OneLedger(LedgerEvents(RawsOf(cs, hint)))
  {
    hide OneLedger;
    HintInputs(cs, limits, hint);
    forall r, q | r in RawsOf(cs, hint) && q in RawsOf(cs, hint) && r.selectionOrder == q.selectionOrder
      ensures r == q {
      RawsOfMember(cs, hint, r);
      RawsOfMember(cs, hint, q);
      assert Raw(r).Order() == Raw(q).Order();
    }
  }

  lemma SameWindowsOfHint(a: seq<Contender>, b: seq<Contender>, ra: seq<Contender>, rb: seq<Contender>,
                          limits: nat -> nat, hint: nat)
    requires multiset(a) == multiset(b)
    requires WellFormedContenders(a, limits) && DistinctSelectionOrders(a)
    requires HintCoalesced(RawsOf(a, hint), RawsOf(ra, hint)) && HintCoalesced(RawsOf(b, hint), RawsOf(rb, hint))
    ensures multiset(RawsOf(ra, hint)) == multiset(RawsOf(rb, hint))
  {
    hide IsCoalescing, Finished, OneLedger, DistinctOrders, WellFormedContenders, DistinctSelectionOrders;
    HintOrders(a, limits, hint);
    SameHintWindows(a, b, hint);
    var wa :| IsCoalescing(RawsOf(a, hint), wa) && Finished(wa) && multiset(wa) == multiset(RawsOf(ra, hint));
    var wb :| IsCoalescing(RawsOf(b, hint), wb) && Finished(wb) && multiset(wb) == multiset(RawsOf(rb, hint));
    CoalescingIgnoresOrder(RawsOf(a, hint), RawsOf(b, hint), wa, wb);
  }

  lemma SamePermutation(a: seq<Contender>, b: seq<Contender>, ra: seq<Contender>, rb: seq<Contender>,
                        limits: nat -> nat)
    requires multiset(a) == multiset(b)
    requires WellFormedContenders(a, limits) && DistinctSelectionOrders(a)
    requires IsCoalesced(a, ra) && IsCoalesced(b, rb)
    ensures multiset(ra) == multiset(rb)
  {
    hide HintCoalesced, WellFormedContenders, DistinctSelectionOrders, Sorted;
    forall x ensures multiset(ra)[x] == multiset(rb)[x] {
      FilterCount(ra, IsBridge, x);
      FilterCount(rb, IsBridge, x);
      FilterCount(a, IsBridge, x);
      FilterCount(b, IsBridge, x);
      assert multiset(Filter(ra, IsBridge))[x] == multiset(Filter(a, IsBridge))[x];
      assert multiset(Filter(rb, IsBridge))[x] == multiset(Filter(b, IsBridge))[x];
      if x.Raw? {
        SameWindowsOfHint(a, b, ra, rb, limits, x.bundle.hintIndex);
        RawsOfCount(ra, x.bundle.hintIndex, x.bundle);
        RawsOfCount(rb, x.bundle.hintIndex, x.bundle);
      }
    }
  }

  lemma CoalescedBridge(contenders: seq<Contender>, coalesced: seq<Contender>, x: Contender)
    requires IsCoalesced(contenders, coalesced) && x in coalesced && x.Bridge?
    ensures x in contenders
  {
    hide Sorted, HintCoalesced;
    assert x in Filter(coalesced, IsBridge);
    assert x in multiset(Filter(contenders, IsBridge));
  }

  lemma CoalescedSummary(contenders: seq<Contender>, coalesced: seq<Contender>, x: Contender)
    requires IsCoalesced(contenders, coalesced) && x in coalesced && x.Raw?
    ensures Summarizes(RawsOf(contenders, x.bundle.hintIndex), x.bundle)
  {
    hide Sorted, Summarizes, Tight, Separated, InsideSome, Finished, Filter;
    var hint := x.bundle.hintIndex;
    var inputs := RawsOf(contenders, hint);
    var windows: seq<RawBundle> :|
      IsCoalescing(inputs, windows) && Finished(windows) && multiset(windows) == multiset(RawsOf(coalesced, hint));
    RawsOfMember(coalesced, hint, x.bundle);
    assert x.bundle in multiset(windows);
  }

  // Every output carries the selection order of one input that it stands for.
  lemma OutputOrigin(a: seq<Contender>, ra: seq<Contender>, limits: nat -> nat, x: Contender)
    returns (origin: Contender)
    requires WellFormedContenders(a, limits) && IsCoalesced(a, ra) && x in ra
    ensures origin in a && origin.Order() == x.Order()
    ensures x.Bridge? ==> origin == x
    ensures x.Raw? ==> origin.Raw? && origin.bundle.hintIndex == x.bundle.hintIndex && Inside(origin.bundle, x.bundle)
  {
    hide IsCoalesced, WellFormedContenders, IsMax, Distinct, RawsOf;
    if x.Bridge? {
      CoalescedBridge(a, ra, x);
      origin := x;
    } else {
      CoalescedSummary(a, ra, x);
      var r :| r in RawsOf(a, x.bundle.hintIndex) && Inside(r, x.bundle) && r.selectionOrder == x.bundle.selectionOrder;
      RawsOfMember(a, x.bundle.hintIndex, r);
      origin := Raw(r);
    }
  }

  lemma OneWindowPerInput(a: seq<Contender>, ra: seq<Contender>, r: RawBundle, v: RawBundle, w: RawBundle)
    requires IsCoalesced(a, ra) && Raw(v) in ra && Raw(w) in ra
    requires v.hintIndex == w.hintIndex && Inside(r, v) && Inside(r, w) && r.windowStart <= r.windowEnd
    ensures v == w
  {
    hide Summarizes, Tight, Finished, Sorted;
    var hint := v.hintIndex;
    var windows: seq<RawBundle> :| IsCoalescing(RawsOf(a, hint), windows) && Finished(windows)
      && multiset(windows) == multiset(RawsOf(ra, hint));
    RawsOfMember(ra, hint, v);
    RawsOfMember(ra, hint, w);
    assert v in multiset(windows) && w in multiset(windows);
    var i :| 0 <= i < |windows| && windows[i] == v;
    var j :| 0 <= j < |windows| && windows[j] == w;
  }

  lemma OutputOrdersDistinct(a: seq<Contender>, ra: seq<Contender>, limits: nat -> nat)
    requires WellFormedContenders(a, limits) && DistinctSelectionOrders(a) && IsCoalesced(a, ra)
    ensures AntisymmetricOn(ra, OrderLeq)
  {
    hide IsCoalesced, OneLedger;
    forall x, y | x in ra && y in ra && OrderLeq(x, y) && OrderLeq(y, x) ensures x == y {
      var ox := OutputOrigin(a, ra, limits, x);
      var oy := OutputOrigin(a, ra, limits, y);
      assert ox == oy;
      if x.Raw? && y.Raw? {
        OneWindowPerInput(a, ra, ox.bundle, x.bundle, y.bundle);
      }
    }
  }

  // Shuffling the contenders does not change the coalesced list.
  lemma CoalescedIgnoresOrder(a: seq<Contender>, b: seq<Contender>, ra: seq<Contender>, rb: seq<Contender>,
                              limits: nat -> nat)
    requires multiset(a) == multiset(b)
    requires WellFormedContenders(a, limits) && DistinctSelectionOrders(a)
    requires IsCoalesced(a, ra) && IsCoalesced(b, rb)
    ensures ra == rb
  {
    SamePermutation(a, b, ra, rb, limits);
    OutputOrdersDistinct(a, ra, limits);
    SortedUnique(ra, rb, OrderLeq);
  }
}
