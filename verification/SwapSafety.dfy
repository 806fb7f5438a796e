// Exactly when a swap can leave the budget.
module SwapSafety {
  import opened Sequences
  import opened Text
  import opened BridgeCompression
  import opened RetrievalCoalescing
  import opened ContextPacking
  import opened BridgeSwaps
  import opened SwapLaws

  // A larger limit never turns success into failure.
  ghost predicate SucceedsUpwards(c: Candidate, tokens: Tokenizer) {
    forall l: int, m: int :: l <= m && Compress(c, l, tokens, false).Some? ==> Compress(c, m, tokens, false).Some?
  }

  // A summary whose size is what the tokenizer says.
  ghost predicate Ordinary(c: Candidate, tokens: Tokenizer) {
    Numbered(c) && c.tokenCount == tokens(c.content) && SucceedsUpwards(c, tokens)
  }

  // Every summary with facts succeeds upwards, whatever the tokenizer.
  lemma FactsSucceedUpwards(c: Candidate, tokens: Tokenizer)
    requires Numbered(c) && c.facts != []
    ensures SucceedsUpwards(c, tokens)
  {
    forall l: int, m: int | l <= m && Compress(c, l, tokens, false).Some? ensures Compress(c, m, tokens, false).Some? {
      FactsSucceedAt(c, tokens, l, m);
    }
  }

  lemma FactsSucceedAt(c: Candidate, tokens: Tokenizer, l: int, m: int)
    requires Numbered(c) && c.facts != [] && l <= m && Compress(c, l, tokens, false).Some?
    ensures Compress(c, m, tokens, false).Some?
  {
    hide CompressToFacts;
    if !KeepsWhole(c, l, false) {
      FactsSliceAt(c, tokens, l, m);
    }
  }

  lemma FactsSliceAt(c: Candidate, tokens: Tokenizer, l: int, m: int)
    requires Numbered(c) && c.facts != [] && l <= m && CompressToFacts(c, l, tokens).Some?
    ensures CompressToFacts(c, m, tokens).Some?
  {
    hide CompressToFacts, Variants, Numbered, BestFact, Compose;
    CompressToFactsSucceedsIff(c, l, tokens);
    CompressToFactsSucceedsIff(c, m, tokens);
    var v :| v in Variants(BestFact(c).fact) && BestFits(c, v, l, tokens);
    assert BestFits(c, v, m, tokens);
  }

  // ---- which bundles are accepted -------------------------------------------------------------

  predicate Eligible(b: BridgeContender, u: PackUnit, used: int, available: int) {
    u.RawUnit? && CanReplaceCompressed(b, u.bundle) && RoomWithout(u, used, available) > 0
  }

  function EligibleFrom(b: BridgeContender, used: int, available: int, size: nat): PackUnit -> bool {
    (u: PackUnit) => Eligible(b, u, used, available) && u.Tokens() >= size
  }

  // The eligible bundles of at least a given size, weakest first.
  function Large(raws: seq<PackUnit>, b: BridgeContender, used: int, available: int, size: nat): seq<PackUnit> {
    Filter(raws, EligibleFrom(b, used, available, size))
  }

  function AcceptedBy(b: BridgeContender, used: int, available: int, tokens: Tokenizer): PackUnit -> bool {
    (u: PackUnit) => Accepts(b, u, used, available, tokens)
  }

  lemma {:induction false} AcceptedIsFilter(raws: seq<PackUnit>, b: BridgeContender, used: int, available: int,
                                            tokens: Tokenizer)
    ensures Accepted(raws, b, used, available, tokens) == Filter(raws, AcceptedBy(b, used, available, tokens))
  {
    hide Accepts;
    if raws != [] {
      AcceptedIsFilter(raws[1..], b, used, available, tokens);
    }
  }

  lemma {:induction false} Smallest(units: seq<PackUnit>) returns (u: PackUnit)
    requires units != []
    ensures u in units && forall v :: v in units ==> u.Tokens() <= v.Tokens()
  {
    if |units| == 1 {
      u := units[0];
    } else {
      u := Smallest(units[1..]);
      if units[0].Tokens() <= u.Tokens() {
        u := units[0];
      }
      assert forall v :: v in units <==> v == units[0] || v in units[1..];
    }
  }

  // What is accepted are the eligible bundles from some size on.
  lemma AcceptedIsLarge(raws: seq<PackUnit>, b: BridgeContender, used: int, available: int, tokens: Tokenizer)
    returns (u: PackUnit)
    requires SucceedsUpwards(b.candidate, tokens) && Accepted(raws, b, used, available, tokens) != []
    ensures u in raws && Eligible(b, u, used, available)
    ensures Accepted(raws, b, used, available, tokens) == Large(raws, b, used, available, u.Tokens())
  {
    hide Compress, CanReplaceCompressed, Accepted, Filter;
    u := Smallest(Accepted(raws, b, used, available, tokens));
    AcceptedIsFilter(raws, b, used, available, tokens);
    forall v | v in raws ensures AcceptedBy(b, used, available, tokens)(v)
      <==> EligibleFrom(b, used, available, u.Tokens())(v) {
      assert AcceptedBy(b, used, available, tokens)(v) ==> v in Accepted(raws, b, used, available, tokens);
      assert RoomWithout(u, used, available) <= RoomWithout(v, used, available) <==> u.Tokens() <= v.Tokens();
    }
    FilterSame(raws, AcceptedBy(b, used, available, tokens), EligibleFrom(b, used, available, u.Tokens()));
  }

  // Among the eligible bundles from any size on, the strongest is no larger than the weakest.
  ghost predicate NeverUpsized(raws: seq<PackUnit>, b: BridgeContender, used: int, available: int) {
    forall u :: u in raws && Eligible(b, u, used, available) ==> NotUpsizedFrom(raws, b, used, available, u.Tokens())
  }

  predicate NotUpsizedFrom(raws: seq<PackUnit>, b: BridgeContender, used: int, available: int, size: nat) {
    var large := Large(raws, b, used, available, size);
    large == [] || Last(large).Tokens() <= large[0].Tokens()
  }

  // ---- a summary for every threshold --------------------------------------------------------------

  const TEXT := "text"

  // The text of the summary has one size, everything else another.
  function TwoSizes(whole: nat, other: nat): Tokenizer {
    (s: string) => if s == TEXT then whole else other
  }

  function TextCandidate(size: nat): Candidate {
    Candidate("summary", 0, 0, size, TEXT, [], NO_EVIDENCE, false)
  }

  // Its base line has the other size, cut short or not.
  lemma TextLine(size: nat, other: nat, limit: int)
    ensures var line, tokens := BaseLine(TextCandidate(size)), TwoSizes(size, other);
      tokens(line) == other && tokens(Truncate(line, limit, tokens)) == other
  {
    hide Truncate, Trim, BaseLine;
    var line, tokens := BaseLine(TextCandidate(size)), TwoSizes(size, other);
    BaseLineNotBlank(TextCandidate(size));
    TrimKeepsPrefix(line);
    TruncateIsPrefix(line, limit, tokens);
    var cut := Truncate(line, limit, tokens);
    assert TEXT[0] == 't' && line[0] == '[' && (cut == "" || cut[0] == '[');
  }

  // It compresses exactly to limits from the smaller size on, and stays whole from its own size on.
  lemma TextCompression(size: nat, other: nat, limit: int)
    requires other <= size
    ensures var r := Compress(TextCandidate(size), limit, TwoSizes(size, other), false);
      && (r.Some? <==> limit > 0 && other <= limit)
      && (r.Some? && size <= limit ==> r.value.tokenCount == size)
      && (r.Some? && limit < size ==> r.value.tokenCount == other)
  {
    hide Truncate, BaseLine, CompressToFacts;
    TextLine(size, other, limit);
  }

  lemma TextIsOrdinary(size: nat, other: nat)
    requires other <= size
    ensures Ordinary(TextCandidate(size), TwoSizes(size, other))
  {
    hide Compress;
    forall l: int, m: int | l <= m && Compress(TextCandidate(size), l, TwoSizes(size, other), false).Some?
      ensures Compress(TextCandidate(size), m, TwoSizes(size, other), false).Some?
    {
      TextCompression(size, other, l);
      TextCompression(size, other, m);
    }
  }

  // ---- both directions -----------------------------------------------------------------------------

  lemma UpsizedOverruns(load: Load, order: nat, b: BridgeContender, available: int, u: PackUnit)
    returns (candidate: Candidate, tokens: Tokenizer)
    requires var raws := WeakestFirst(load.kept, b.hintIndex);
      u in raws && Eligible(b, u, load.used, available) && !NotUpsizedFrom(raws, b, load.used, available, u.Tokens())
    requires DirectVictim(load, b, available).None?
    ensures Ordinary(candidate, tokens)
    ensures SwapBridge(load, order, b.(candidate := candidate), available, tokens).used > available
  {
    hide Compress, CanReplace, CanReplaceCompressed, WeakerLeq, Filter;
    var raws := WeakestFirst(load.kept, b.hintIndex);
    var large := Large(raws, b, load.used, available, u.Tokens());
    assert Last(large) in large;
    var size, other := RoomWithout(Last(large), load.used, available), RoomWithout(u, load.used, available);
    candidate, tokens := TextCandidate(size), TwoSizes(size, other);
    TextIsOrdinary(size, other);
    var b' := b.(candidate := candidate);
    LargeIsAccepted(raws, b, load.used, available, u, size);
    TextCompression(size, other, size);
    SameVictim(load, b, candidate, available);
    assert Accepted(raws, b', load.used, available, tokens) == large;
  }

  lemma SameVictim(load: Load, b: BridgeContender, candidate: Candidate, available: int)
    ensures DirectVictim(load, b.(candidate := candidate), available) == DirectVictim(load, b, available)
  {
    hide WeakerLeq;
    SameFirstVictim(WeakestFirst(load.kept, b.hintIndex), b, candidate, load.used, available);
  }

  lemma {:induction false} SameFirstVictim(raws: seq<PackUnit>, b: BridgeContender, candidate: Candidate, used: int,
                                           available: int)
    ensures FirstVictim(raws, b.(candidate := candidate), used, available) == FirstVictim(raws, b, used, available)
  {
    if raws != [] {
      SameFirstVictim(raws[1..], b, candidate, used, available);
    }
  }

  lemma LargeIsAccepted(raws: seq<PackUnit>, b: BridgeContender, used: int, available: int, u: PackUnit, size: nat)
    requires Eligible(b, u, used, available) && RoomWithout(u, used, available) <= size
    ensures var other := RoomWithout(u, used, available);
      Accepted(raws, b.(candidate := TextCandidate(size)), used, available, TwoSizes(size, other))
        == Large(raws, b, used, available, u.Tokens())
  {
    hide Compress, Accepted, Filter;
    var other := RoomWithout(u, used, available);
    var b', tokens := b.(candidate := TextCandidate(size)), TwoSizes(size, other);
    AcceptedIsFilter(raws, b', used, available, tokens);
    forall v | v in raws ensures AcceptedBy(b', used, available, tokens)(v)
      <==> EligibleFrom(b, used, available, u.Tokens())(v) {
      TextCompression(size, other, RoomWithout(v, used, available));
      assert v.RawUnit? ==> (CanReplaceCompressed(b', v.bundle) <==> CanReplaceCompressed(b, v.bundle));
    }
    FilterSame(raws, AcceptedBy(b', used, available, tokens), EligibleFrom(b, used, available, u.Tokens()));
  }

  lemma NotUpsizedFits(load: Load, order: nat, b: BridgeContender, available: int, tokens: Tokenizer)
    requires load.used <= available && SucceedsUpwards(b.candidate, tokens)
    requires NeverUpsized(WeakestFirst(load.kept, b.hintIndex), b, load.used, available)
    ensures SwapBridge(load, order, b, available, tokens).used <= available
  {
    hide SwapBridge, Accepted, Large, Eligible, WeakerLeq, FirstVictim;
    var raws := WeakestFirst(load.kept, b.hintIndex);
    SwapBudget(load, order, b, available, tokens);
    if DirectVictim(load, b, available).None? && Accepted(raws, b, load.used, available, tokens) != [] {
      var u := AcceptedIsLarge(raws, b, load.used, available, tokens);
      assert NotUpsizedFrom(raws, b, load.used, available, u.Tokens());
    }
  }

  lemma SameEligible(raws: seq<PackUnit>, b: BridgeContender, candidate: Candidate, used: int, available: int)
    ensures NeverUpsized(raws, b.(candidate := candidate), used, available) <==> NeverUpsized(raws, b, used, available)
  {
    hide Filter;
    var b' := b.(candidate := candidate);
    forall u ensures Eligible(b', u, used, available) <==> Eligible(b, u, used, available) {
    }
    forall size: nat ensures Large(raws, b', used, available, size) == Large(raws, b, used, available, size) {
      FilterSame(raws, EligibleFrom(b', used, available, size), EligibleFrom(b, used, available, size));
    }
  }

  // However many bundles a hint keeps: a swap stays in budget for every ordinary summary and tokenizer if
  // and only if a direct swap applies, or no eligible bundle is followed by a larger one in the sense of
  // NeverUpsized.
  lemma SwapSafeIff(load: Load, order: nat, b: BridgeContender, available: int)
    requires load.used <= available
    ensures (forall candidate, tokens :: Ordinary(candidate, tokens) ==>
               SwapBridge(load, order, b.(candidate := candidate), available, tokens).used <= available)
      <==> DirectVictim(load, b, available).Some?
           || NeverUpsized(WeakestFirst(load.kept, b.hintIndex), b, load.used, available)
  {
    hide SwapBridge, WeakerLeq, Eligible, NotUpsizedFrom, Ordinary, DirectVictim;
    var raws := WeakestFirst(load.kept, b.hintIndex);
    if DirectVictim(load, b, available).Some? || NeverUpsized(raws, b, load.used, available) {
      forall candidate, tokens | Ordinary(candidate, tokens)
        ensures SwapBridge(load, order, b.(candidate := candidate), available, tokens).used <= available
      {
        SafeSwap(load, order, b, candidate, available, tokens);
      }
    } else {
      var u :| u in raws && Eligible(b, u, load.used, available)
        && !NotUpsizedFrom(raws, b, load.used, available, u.Tokens());
      var candidate, tokens := UpsizedOverruns(load, order, b, available, u);
    }
  }

  lemma SafeSwap(load: Load, order: nat, b: BridgeContender, candidate: Candidate, available: int, tokens: Tokenizer)
    requires load.used <= available && Ordinary(candidate, tokens)
    requires DirectVictim(load, b, available).Some?
      || NeverUpsized(WeakestFirst(load.kept, b.hintIndex), b, load.used, available)
    ensures SwapBridge(load, order, b.(candidate := candidate), available, tokens).used <= available
  {
    hide SwapBridge, WeakerLeq, NeverUpsized, DirectVictim, Accepted, SucceedsUpwards;
    var b' := b.(candidate := candidate);
    SameVictim(load, b, candidate, available);
    if DirectVictim(load, b, available).Some? {
      SwapBudget(load, order, b', available, tokens);
    } else {
      SameEligible(WeakestFirst(load.kept, b.hintIndex), b, candidate, load.used, available);
      NotUpsizedFits(load, order, b', available, tokens);
    }
  }

  // ---- particular loads -----------------------------------------------------------------------------

  lemma {:induction false} AcceptsAll(raws: seq<PackUnit>, b: BridgeContender, used: int, available: int,
                                      tokens: Tokenizer)
    requires forall u :: u in raws ==> Accepts(b, u, used, available, tokens)
    ensures Accepted(raws, b, used, available, tokens) == raws
  {
    hide Accepts;
    if raws != [] {
      assert raws[0] in raws && forall u :: u in raws[1..] ==> u in raws;
      AcceptsAll(raws[1..], b, used, available, tokens);
    }
  }

  // The bound is attained: whenever the strongest replaceable bundle of a hint is larger than the
  // weakest one and no direct swap applies, some candidate makes the swap overrun by their difference.
  lemma OverrunAttained(load: Load, order: nat, b: BridgeContender, available: int)
    returns (candidate: Candidate, tokens: Tokenizer)
    requires var raws := WeakestFirst(load.kept, b.hintIndex);
      && raws != [] && |raws| < b.limit
      && (forall u :: u in raws ==> CanReplaceCompressed(b, u.bundle) && RoomWithout(u, load.used, available) > 0)
      && raws[0].Tokens() < Last(raws).Tokens()
    ensures Ordinary(candidate, tokens)
    ensures var raws := WeakestFirst(load.kept, b.hintIndex);
      SwapBridge(load, order, b.(candidate := candidate), available, tokens).used
        == available + (Last(raws).Tokens() - raws[0].Tokens())
  {
    hide Compress, WeakerLeq;
    var raws := WeakestFirst(load.kept, b.hintIndex);
    var room := RoomWithout(Last(raws), load.used, available);
    assert Last(raws) in raws;
    candidate, tokens := TextCandidate(room), TwoSizes(room, 1);
    TextIsOrdinary(room, 1);
    var b' := b.(candidate := candidate);
    forall u | u in raws ensures Accepts(b', u, load.used, available, tokens) {
      TextCompression(room, 1, RoomWithout(u, load.used, available));
    }
    AcceptsAll(raws, b', load.used, available, tokens);
    TextCompression(room, 1, room);
  }

  // For a hint with two kept bundles this is exact: the swap is safe for every summary and every
  // tokenizer if and only if the stronger bundle is no larger than the weaker one.
  lemma TwoBundlesSafeIff(load: Load, order: nat, b: BridgeContender, available: int)
    requires load.used <= available
    requires var raws := WeakestFirst(load.kept, b.hintIndex);
      && |raws| == 2 && b.limit > 2
      && forall u :: u in raws ==> CanReplaceCompressed(b, u.bundle) && RoomWithout(u, load.used, available) > 0
    ensures var raws := WeakestFirst(load.kept, b.hintIndex);
      (forall candidate, tokens ::
         SwapBridge(load, order, b.(candidate := candidate), available, tokens).used <= available)
      <==> raws[1].Tokens() <= raws[0].Tokens()
  {
    hide SwapBridge, WeakerLeq;
    var raws := WeakestFirst(load.kept, b.hintIndex);
    if raws[1].Tokens() <= raws[0].Tokens() {
      forall candidate, tokens
        ensures SwapBridge(load, order, b.(candidate := candidate), available, tokens).used <= available
      {
        SwapWithinBudget(load, order, b.(candidate := candidate), available, tokens);
      }
    } else {
      var candidate, tokens := OverrunAttained(load, order, b, available);
    }
  }
}
