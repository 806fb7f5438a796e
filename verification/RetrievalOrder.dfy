// Why the retrieval comparator is not an order, and exactly when it goes round in circles.
module RetrievalOrder {
  import opened Sequences
  import opened WindowCoalescing
  import opened ContextPacking

  // A bundle as the retrieval pass scores the window of one message: its specificity counts 180 times, each
  // stage that found it ten times.  Merged bundles and those found below a summary need not look like this.
  ghost predicate Scored(r: RawBundle) {
    && r.specificityScore >= 0 && r.overlapCount >= 0
    && r.score >= 180 * r.specificityScore + 10 + r.overlapCount
    && r.events != [] && r.tokenCount == BundleTokens(r.events)
  }

  function OneEvent(id: string, sequence: int, tokens: nat): seq<Event> {
    [Event(id, sequence, tokens)]
  }

  lemma OneEventTokens(id: string, sequence: int, tokens: nat)
    ensures BundleTokens(OneEvent(id, sequence, tokens)) == tokens
  {
    var e := Event(id, sequence, tokens);
    SumAppend([], e, EventTokens);
    assert [] + [e] == [e];
  }

  // The comparator has cycles, so the order it sorts into is left to the sorting algorithm; the packing
  // laws assume no more of the ranking than that it lists the units.
  lemma RetrievalOrderCycles() returns (a: RawBundle, b: RawBundle, c: RawBundle)
    ensures CompareRaw(a, b) < 0 && CompareRaw(b, c) < 0 && CompareRaw(c, a) < 0
    ensures Scored(a) && Scored(b) && Scored(c)
  {
    OneEventTokens("x", 1, 400);
    OneEventTokens("y", 5, 50);
    OneEventTokens("z", 9, 300);
    a := RawBundle(0, 3, 0, 371, 1, 2, 0, BridgeScoped, "x", 0, 2, OneEvent("x", 1, 400), 400);
    b := RawBundle(0, 3, 1, 191, 1, 1, 0, Generic, "y", 4, 6, OneEvent("y", 5, 50), 50);
    c := RawBundle(0, 3, 2, 551, 1, 3, 0, Generic, "z", 8, 10, OneEvent("z", 9, 300), 300);
  }

  // ---- density alone is an order --------------------------------------------------------------

  // Whatever is found has a positive score; its size may be anything.
  function Density(a: PackUnit, b: PackUnit): int
    requires a.IsRetrieval() && b.IsRetrieval()
  {
    CompareScoreDensity(a.Score(), a.Tokens(), b.Score(), b.Tokens())
  }

  predicate Found(u: PackUnit) {
    u.IsRetrieval() && u.Score() > 0
  }

  lemma Signs(x: int, k: int)
    requires k > 0
    ensures (x < 0 <==> k * x < 0) && (x == 0 <==> k * x == 0)
  {
  }

  lemma CrossProducts(sa: int, ta: int, sb: int, tb: int, sc: int, tc: int)
    ensures sb * (sc * ta - sa * tc) == sc * (sb * ta - sa * tb) + sa * (sc * tb - sb * tc)
  {
    var x, y, z := sb * sc, sa * sb, sa * sc;
    assert sb * (sc * ta - sa * tc) == x * ta - y * tc;
    assert sc * (sb * ta - sa * tb) == x * ta - z * tb;
    assert sa * (sc * tb - sb * tc) == z * tb - y * tc;
  }

  // At least as dense is transitive, and equally dense only if equal at both steps.
  lemma DensityChain(a: PackUnit, b: PackUnit, c: PackUnit)
    requires Found(a) && Found(b) && Found(c) && Density(a, b) <= 0 && Density(b, c) <= 0
    ensures Density(a, c) <= 0
    ensures Density(a, c) == 0 ==> Density(a, b) == 0 && Density(b, c) == 0
  {
    CrossProducts(a.Score(), a.Tokens(), b.Score(), b.Tokens(), c.Score(), c.Tokens());
    assert b.Score() * Density(a, c) == c.Score() * Density(a, b) + a.Score() * Density(b, c);
    hide Density;
    Signs(Density(a, c), b.Score());
    Signs(Density(a, b), c.Score());
    Signs(Density(b, c), a.Score());
  }

  // The comparator without the rule for scoped bundles: density, then kind, then selection order.
  function KindRank(u: PackUnit): int { if u.BridgeUnit? then 0 else 1 }

  function SelectionOrder(u: PackUnit): int
    requires u.IsRetrieval()
  {
    if u.BridgeUnit? then u.bridge.selectionOrder else u.bundle.selectionOrder
  }

  function PlainCompare(a: PackUnit, b: PackUnit): int
    requires a.IsRetrieval() && b.IsRetrieval()
  {
    if Density(a, b) != 0 then Density(a, b)
    else if KindRank(a) != KindRank(b) then KindRank(a) - KindRank(b)
    else SelectionOrder(a) - SelectionOrder(b)
  }

  lemma PlainChain(a: PackUnit, b: PackUnit, c: PackUnit)
    requires Found(a) && Found(b) && Found(c) && PlainCompare(a, b) <= 0 && PlainCompare(b, c) <= 0
    ensures PlainCompare(a, c) <= 0
    ensures PlainCompare(a, c) == 0 ==> PlainCompare(a, b) == 0 && PlainCompare(b, c) == 0
  {
    DensityChain(a, b, c);
  }

  // ---- without inverted pairs the comparator is an order ---------------------------------------------

  predicate Beats(a: PackUnit, b: PackUnit) {
    a.RawUnit? && b.RawUnit? && ScopedBeats(a.bundle, b.bundle)
  }

  // A scoped bundle goes first although density, kind and selection order put the other one first.
  predicate Inverted(a: PackUnit, b: PackUnit)
    requires a.IsRetrieval() && b.IsRetrieval()
  {
    Beats(a, b) && PlainCompare(b, a) < 0
  }

  lemma PlainOpposite(a: PackUnit, b: PackUnit)
    requires a.IsRetrieval() && b.IsRetrieval()
    ensures PlainCompare(a, b) < 0 <==> PlainCompare(b, a) > 0
    ensures PlainCompare(a, b) == 0 <==> PlainCompare(b, a) == 0
  {
  }

  lemma CompareIsPlain(a: PackUnit, b: PackUnit)
    requires a.IsRetrieval() && b.IsRetrieval() && !Inverted(a, b) && !Inverted(b, a)
    ensures CompareUnits(a, b) < 0 ==> PlainCompare(a, b) <= 0 && !Beats(b, a)
    ensures CompareUnits(a, b) < 0 && PlainCompare(a, b) == 0 ==> Beats(a, b)
    ensures PlainCompare(a, b) < 0 ==> CompareUnits(a, b) < 0
    ensures Beats(a, b) ==> CompareUnits(a, b) < 0
  {
    PlainOpposite(a, b);
  }

  // Units of positive score, bridges and bundles without tokens included, never compare in a circle unless
  // some pair of them is inverted.
  lemma OrderedUnlessInverted(a: PackUnit, b: PackUnit, c: PackUnit)
    requires Found(a) && Found(b) && Found(c)
    requires !Inverted(a, b) && !Inverted(b, a) && !Inverted(b, c) && !Inverted(c, b) && !Inverted(a, c)
      && !Inverted(c, a)
    requires CompareUnits(a, b) < 0 && CompareUnits(b, c) < 0
    ensures CompareUnits(a, c) < 0
  {
    hide PlainCompare, CompareUnits, ScopedBeats;
    CompareIsPlain(a, b);
    CompareIsPlain(b, c);
    CompareIsPlain(a, c);
    PlainChain(a, b, c);
    if PlainCompare(a, c) == 0 {
      BeatsChain(a, b, c);
    }
  }

  lemma BeatsChain(a: PackUnit, b: PackUnit, c: PackUnit)
    ensures !(Beats(a, b) && Beats(b, c))
  {
  }

  // So every circle has an inverted pair in it, and bundles of one source have none.
  lemma CircleHasInvertedPair(a: PackUnit, b: PackUnit, c: PackUnit)
    requires Found(a) && Found(b) && Found(c)
    requires CompareUnits(a, b) < 0 && CompareUnits(b, c) < 0 && CompareUnits(c, a) < 0
    ensures Inverted(a, b) || Inverted(b, c) || Inverted(c, a) || Inverted(b, a) || Inverted(c, b) || Inverted(a, c)
    ensures exists u, v ::
      u in [a, b, c] && v in [a, b, c] && u.RawUnit? && v.RawUnit? && u.bundle.source != v.bundle.source
  {
    if !(Inverted(a, b) || Inverted(b, c) || Inverted(c, a) || Inverted(b, a) || Inverted(c, b) || Inverted(a, c)) {
      OrderedUnlessInverted(a, b, c);
      Opposite(a, c);
    }
    assert a in [a, b, c] && b in [a, b, c] && c in [a, b, c];
  }

  lemma Opposite(a: PackUnit, b: PackUnit)
    requires a.IsRetrieval() && b.IsRetrieval() && CompareUnits(a, b) < 0
    ensures CompareUnits(b, a) >= 0
  {
  }

  // Bundles of one source never compare in a circle.
  lemma OneSourceIsTransitive(a: RawBundle, b: RawBundle, c: RawBundle)
    requires a.score > 0 && b.score > 0 && c.score > 0 && a.source == b.source == c.source
    requires CompareRaw(a, b) < 0 && CompareRaw(b, c) < 0
    ensures CompareRaw(a, c) < 0
  {
    OrderedUnlessInverted(Unit(a), Unit(b), Unit(c));
  }

  // ---- exactly when a pair lies on a circle ------------------------------------------------------------

  function Unit(r: RawBundle): PackUnit { RawUnit(0, r) }

  function DensityOf(a: RawBundle, b: RawBundle): int {
    CompareScoreDensity(a.score, a.tokenCount, b.score, b.tokenCount)
  }

  // A generic bundle that a does not beat.  Its score and size are k times the given ones, with k large
  // enough for its specificity.
  function Factor(a: RawBundle): nat { 180 * Max(a.specificityScore, 0) + 10 }

  function Third(a: RawBundle, order: nat, score: nat, tokens: nat): RawBundle {
    RawBundle(a.hintIndex, a.limit, order, Factor(a) * score, 0, Max(a.specificityScore, 0), a.anchorCoverageCount,
              Generic, "third", 0, 2, OneEvent("third", 1, Factor(a) * tokens), Factor(a) * tokens)
  }

  lemma ThirdFacts(a: RawBundle, order: nat, score: nat, tokens: nat)
    requires score > 0
    ensures Scored(Third(a, order, score, tokens)) && Third(a, order, score, tokens).score > 0
    ensures !ScopedBeats(a, Third(a, order, score, tokens))
  {
    OneEventTokens("third", 1, Factor(a) * tokens);
    AtLeastOnce(Factor(a), score);
    hide BundleTokens;
  }

  lemma AtLeastOnce(k: nat, n: nat)
    requires n > 0
    ensures k * n >= k
  {
  }

  // Between two densities lies that of both bundles together.
  lemma Between(a: RawBundle, b: RawBundle, c: RawBundle)
    requires DensityOf(b, a) < 0 && c.score == Factor(a) * (a.score + b.score)
      && c.tokenCount == Factor(a) * (a.tokenCount + b.tokenCount)
    ensures DensityOf(b, c) < 0 && DensityOf(c, a) < 0
  {
    assert DensityOf(b, c) == Factor(a) * DensityOf(b, a);
    assert DensityOf(c, a) == Factor(a) * DensityOf(b, a);
    Signs(DensityOf(b, a), Factor(a));
  }

  lemma SameDensity(a: RawBundle, b: RawBundle, c: RawBundle)
    requires DensityOf(b, a) == 0 && c.score == Factor(a) * a.score && c.tokenCount == Factor(a) * a.tokenCount
    ensures DensityOf(b, c) == 0 && DensityOf(c, a) == 0
  {
    assert DensityOf(b, c) == Factor(a) * DensityOf(b, a);
  }

  predicate Circle(a: RawBundle, b: RawBundle, c: RawBundle) {
    CompareRaw(a, b) < 0 && CompareRaw(b, c) < 0 && CompareRaw(c, a) < 0
  }

  predicate DenserOrEarlier(b: RawBundle, a: RawBundle) {
    DensityOf(b, a) < 0 || (DensityOf(b, a) == 0 && b.selectionOrder + 1 < a.selectionOrder)
  }

  lemma CircleNeeds(a: RawBundle, b: RawBundle, c: RawBundle)
    requires a.source == BridgeScoped && b.source == Generic && c.source == Generic
    requires a.score > 0 && b.score > 0 && c.score > 0 && Circle(a, b, c)
    ensures ScopedBeats(a, b) && DenserOrEarlier(b, a)
  {
    assert !ScopedBeats(a, c) && !ScopedBeats(c, a) && !ScopedBeats(b, c) && !ScopedBeats(c, b);
    DensityChain(Unit(b), Unit(c), Unit(a));
    assert DensityOf(b, a) == -DensityOf(a, b);
  }

  // A scoped and a generic bundle lie on a circle with some generic third one if and only if the scoped one
  // goes first by its specificity although the generic one is denser, or as dense and found long enough
  // before it.  The third one can always be the window of a single message.
  lemma CycleIff(a: RawBundle, b: RawBundle)
    requires a.source == BridgeScoped && b.source == Generic && a.score > 0 && b.score > 0
    ensures (exists c: RawBundle :: c.source == Generic && c.score > 0 && Circle(a, b, c))
      <==> ScopedBeats(a, b) && DenserOrEarlier(b, a)
    ensures (exists c: RawBundle :: c.source == Generic && Scored(c) && Circle(a, b, c))
      <==> ScopedBeats(a, b) && DenserOrEarlier(b, a)
  {
    if c: RawBundle :| c.source == Generic && c.score > 0 && Circle(a, b, c) {
      CircleNeeds(a, b, c);
    }
    if ScopedBeats(a, b) && DenserOrEarlier(b, a) {
      var c := ClosesCircle(a, b);
    }
  }

  lemma ClosesCircle(a: RawBundle, b: RawBundle) returns (c: RawBundle)
    requires a.source == BridgeScoped && b.source == Generic && a.score > 0 && b.score > 0
    requires ScopedBeats(a, b) && DenserOrEarlier(b, a)
    ensures c.source == Generic && Scored(c) && c.score > 0 && Circle(a, b, c)
  {
    hide Scored;
    if DensityOf(b, a) < 0 {
      c := Third(a, 0, a.score + b.score, a.tokenCount + b.tokenCount);
      ThirdFacts(a, 0, a.score + b.score, a.tokenCount + b.tokenCount);
      Between(a, b, c);
    } else {
      c := Third(a, b.selectionOrder + 1, a.score, a.tokenCount);
      ThirdFacts(a, b.selectionOrder + 1, a.score, a.tokenCount);
      SameDensity(a, b, c);
    }
  }
}
