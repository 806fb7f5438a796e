// Which raw bundle a dropped bridge replaces.
module SwapChoices {
  import opened Sequences
  import opened BridgeCompression
  import opened RetrievalCoalescing
  import opened WindowCoalescing
  import opened ContextPacking
  import opened RetrievalOrder
  import opened BridgeSwaps

  // ---- weakest first -----------------------------------------------------------------------------

  // Less specific, then fewer anchors, then less overlap, then less score for its tokens, then selected later.
  predicate WeakerOrSame(a: RawBundle, b: RawBundle) {
    || a.specificityScore < b.specificityScore
    || (&& a.specificityScore == b.specificityScore
        && (|| a.anchorCoverageCount < b.anchorCoverageCount
            || (&& a.anchorCoverageCount == b.anchorCoverageCount
                && (|| a.overlapCount < b.overlapCount
                    || (a.overlapCount == b.overlapCount && LessDenseOrSame(a, b))))))
  }

  predicate LessDenseOrSame(a: RawBundle, b: RawBundle) {
    || a.score * b.tokenCount < b.score * a.tokenCount
    || (a.score * b.tokenCount == b.score * a.tokenCount && a.selectionOrder >= b.selectionOrder)
  }

  lemma LessDenseChain(a: RawBundle, b: RawBundle, c: RawBundle)
    requires a.score > 0 && b.score > 0 && c.score > 0 && LessDenseOrSame(a, b) && LessDenseOrSame(b, c)
    ensures LessDenseOrSame(a, c)
  {
    DensityChain(RawUnit(0, c), RawUnit(0, b), RawUnit(0, a));
  }

  ghost predicate AllScored(raws: seq<PackUnit>) {
    forall u :: u in raws ==> u.RawUnit? && u.bundle.score > 0
  }

  lemma WeakerIs(a: PackUnit, b: PackUnit)
    requires a.RawUnit? && b.RawUnit?
    ensures WeakerLeq(a, b) <==> WeakerOrSame(a.bundle, b.bundle)
  {
  }

  lemma WeakerOrders(raws: seq<PackUnit>)
    requires AllScored(raws)
    ensures PreorderOn(raws, WeakerLeq)
  {
    hide LessDenseOrSame, WeakerLeq;
    forall x, y | x in raws && y in raws ensures WeakerLeq(x, y) || WeakerLeq(y, x) {
      WeakerIs(x, y);
      WeakerIs(y, x);
      OneIsLessDense(x.bundle, y.bundle);
    }
    forall x, y, z | x in raws && y in raws && z in raws && WeakerLeq(x, y) && WeakerLeq(y, z) ensures WeakerLeq(x, z) {
      WeakerIs(x, y);
      WeakerIs(y, z);
      WeakerIs(x, z);
      if LessDenseOrSame(x.bundle, y.bundle) && LessDenseOrSame(y.bundle, z.bundle) {
        LessDenseChain(x.bundle, y.bundle, z.bundle);
      }
    }
  }

  lemma OneIsLessDense(a: RawBundle, b: RawBundle)
    ensures LessDenseOrSame(a, b) || LessDenseOrSame(b, a)
  {
  }

  // The raw bundles of a hint are looked at from the weakest to the strongest.
  lemma WeakestFirstIs(kept: seq<PackUnit>, hint: nat)
    requires forall u :: u in kept && u.RawUnit? ==> u.bundle.score > 0
    ensures var raws := WeakestFirst(kept, hint);
      && (forall u :: u in raws <==> u in kept && u.RawUnit? && u.bundle.hintIndex == hint)
      && forall i, j :: 0 <= i < j < |raws| ==> WeakerInOrder(raws[i], raws[j])
  {
    hide WeakerLeq, WeakerOrSame;
    var own := Filter(kept, RawOfHint(hint));
    var raws := WeakestFirst(kept, hint);
    WeakerOrders(own);
    SortSortsOn(own, WeakerLeq, own);
    SortKeepsElements(own, WeakerLeq);
    forall i, j | 0 <= i < j < |raws| ensures WeakerInOrder(raws[i], raws[j]) {
      assert raws[i] in own && raws[j] in own && WeakerLeq(raws[i], raws[j]);
      WeakerIs(raws[i], raws[j]);
    }
  }

  predicate WeakerInOrder(u: PackUnit, v: PackUnit) {
    u.RawUnit? && v.RawUnit? && WeakerOrSame(u.bundle, v.bundle)
  }

  // ---- which bundle goes -----------------------------------------------------------------------------

  // More specific than the bundle, or as specific and overlapping as much; a lone message is never replaced.
  predicate Outranks(b: BridgeContender, r: RawBundle) {
    && |r.events| > 1
    && (|| b.specificityScore > r.specificityScore
        || (b.specificityScore == r.specificityScore && b.overlapCount >= r.overlapCount))
  }

  // Good evidence makes up for one point of specificity.
  predicate OutranksCompressed(b: BridgeContender, r: RawBundle) {
    || Outranks(b, r)
    || (&& |r.events| > 1 && b.evidenceScore >= 120 && b.concreteCueCount > 0
        && b.overlapCount >= r.overlapCount && b.specificityScore + 1 >= r.specificityScore)
  }

  predicate Replaceable(u: PackUnit, b: BridgeContender, used: int, available: int) {
    u.RawUnit? && Outranks(b, u.bundle) && used - u.bundle.tokenCount + b.tokenCount <= available
  }

  lemma {:induction false} FirstVictimIs(raws: seq<PackUnit>, b: BridgeContender, used: int, available: int)
    ensures match FirstVictim(raws, b, used, available)
      case None => forall i :: 0 <= i < |raws| ==> !Replaceable(raws[i], b, used, available)
      case Some(victim) => exists i ::
        && 0 <= i < |raws| && raws[i] == victim && Replaceable(victim, b, used, available)
        && forall j :: 0 <= j < i ==> !Replaceable(raws[j], b, used, available)
  {
    hide Outranks;
    if raws != [] {
      CanReplaceIs(raws[0], b, used, available);
      FirstVictimIs(raws[1..], b, used, available);
      var r := FirstVictim(raws, b, used, available);
      if !Replaceable(raws[0], b, used, available) && r.Some? {
        var i :| 0 <= i < |raws[1..]| && raws[1..][i] == r.value && Replaceable(r.value, b, used, available)
          && forall j :: 0 <= j < i ==> !Replaceable(raws[1..][j], b, used, available);
        assert raws[i + 1] == r.value;
        forall j | 0 <= j < i + 1 ensures !Replaceable(raws[j], b, used, available) {
          assert j > 0 ==> raws[j] == raws[1..][j - 1];
        }
      }
    }
  }

  lemma CanReplaceIs(u: PackUnit, b: BridgeContender, used: int, available: int)
    ensures u.RawUnit? && CanReplace(b, u.bundle) && used - u.Tokens() + b.tokenCount <= available
       <==> Replaceable(u, b, used, available)
  {
  }

  // The bridge could be compressed to the room that the bundle leaves.
  predicate Compressible(u: PackUnit, b: BridgeContender, used: int, available: int, tokens: Tokenizer) {
    && u.RawUnit? && OutranksCompressed(b, u.bundle)
    && var room := available - (used - u.bundle.tokenCount);
       room > 0 && Compress(b.candidate, room, tokens, false).Some?
  }

  function CompressibleBy(b: BridgeContender, used: int, available: int, tokens: Tokenizer): PackUnit -> bool {
    (u: PackUnit) => Compressible(u, b, used, available, tokens)
  }

  lemma {:induction false} AcceptedIs(raws: seq<PackUnit>, b: BridgeContender, used: int, available: int,
                                      tokens: Tokenizer)
    ensures Accepted(raws, b, used, available, tokens) == Filter(raws, CompressibleBy(b, used, available, tokens))
  {
    hide Compress;
    if raws != [] {
      AcceptedIs(raws[1..], b, used, available, tokens);
    }
  }

  ghost predicate Exchanged(before: Load, after: Load, victim: PackUnit, u: PackUnit) {
    && after.used == before.used - victim.Tokens() + u.Tokens()
    && exists i :: 0 <= i < |before.kept| && before.kept[i] == victim && after.kept == before.kept[i := u]
  }

  lemma ExchangeIs(load: Load, victim: PackUnit, u: PackUnit)
    requires victim in load.kept
    ensures Exchanged(load, Load(Exchange(load.kept, victim, u), load.used - victim.Tokens() + u.Tokens()), victim, u)
  {
  }

  ghost predicate FirstReplaceable(raws: seq<PackUnit>, victim: PackUnit, b: BridgeContender, used: int,
                                   available: int) {
    exists i ::
      && 0 <= i < |raws| && raws[i] == victim && Replaceable(victim, b, used, available)
      && forall j :: 0 <= j < i ==> !Replaceable(raws[j], b, used, available)
  }

  lemma DirectVictimIs(load: Load, b: BridgeContender, available: int)
    ensures var raws := WeakestFirst(load.kept, b.hintIndex);
      match DirectVictim(load, b, available)
      case None => |raws| < b.limit || forall u :: u in raws ==> !Replaceable(u, b, load.used, available)
      case Some(victim) =>
        |raws| >= b.limit && victim in load.kept && FirstReplaceable(raws, victim, b, load.used, available)
  {
    hide WeakerLeq, Replaceable;
    FirstVictimIs(WeakestFirst(load.kept, b.hintIndex), b, load.used, available);
  }

  lemma DirectSwap(load: Load, order: nat, b: BridgeContender, available: int, tokens: Tokenizer)
    requires DirectVictim(load, b, available).Some?
    ensures var victim := DirectVictim(load, b, available).value;
      Exchanged(load, SwapBridge(load, order, b, available, tokens), victim, BridgeUnit(order, b))
  {
    hide FirstVictim, WeakerLeq, Exchanged, Exchange;
    ExchangeIs(load, DirectVictim(load, b, available).value, BridgeUnit(order, b));
  }

  lemma SizeIs(fits: seq<PackUnit>, b: BridgeContender, used: int, available: int, tokens: Tokenizer)
    requires fits != [] && Accepts(b, Last(fits), used, available, tokens)
    ensures CompressedSize(fits, b, used, available, tokens) == SizeFor(Last(fits), b, used, available, tokens)
  {
    hide Compress, CanReplaceCompressed;
  }

  lemma CompressedSwap(load: Load, order: nat, b: BridgeContender, available: int, tokens: Tokenizer)
    requires DirectVictim(load, b, available).None?
    ensures var r := SwapBridge(load, order, b, available, tokens);
      var fits := Filter(WeakestFirst(load.kept, b.hintIndex), CompressibleBy(b, load.used, available, tokens));
      if fits == [] then r == load
      else
        var size := SizeFor(Last(fits), b, load.used, available, tokens);
        Exchanged(load, r, fits[0], BridgeUnit(order, b.(tokenCount := size)))
  {
    hide FirstVictim, WeakerLeq, Exchanged, Exchange, Accepts, Compressible, Filter, CompressedSize, SizeFor;
    var raws := WeakestFirst(load.kept, b.hintIndex);
    AcceptedIs(raws, b, load.used, available, tokens);
    var fits := Accepted(raws, b, load.used, available, tokens);
    if fits != [] {
      assert fits[0] in fits && Last(fits) in fits;
      SizeIs(fits, b, load.used, available, tokens);
      ExchangeIs(load, fits[0], Resized(order, b, CompressedSize(fits, b, load.used, available, tokens)));
    }
  }

  // What one dropped bridge does.  If its hint is full, it takes the place of the weakest bundle it outranks
  // that leaves
  // room for it.  Otherwise, or if there is none, it is compressed for every bundle that it outranks as
  // evidence: it takes
  // the place of the weakest of these, in the size it was given for the strongest.  If there is none either, nothing
  // happens.
  lemma SwapIs(load: Load, order: nat, b: BridgeContender, available: int, tokens: Tokenizer)
    ensures var raws, r := WeakestFirst(load.kept, b.hintIndex), SwapBridge(load, order, b, available, tokens);
      var fits := Filter(raws, CompressibleBy(b, load.used, available, tokens));
      if |raws| >= b.limit && exists u :: u in raws && Replaceable(u, b, load.used, available) then
        exists victim ::
          && FirstReplaceable(raws, victim, b, load.used, available)
          && Exchanged(load, r, victim, BridgeUnit(order, b))
      else if fits == [] then r == load
      else
        var size := SizeFor(Last(fits), b, load.used, available, tokens);
        Exchanged(load, r, fits[0], BridgeUnit(order, b.(tokenCount := size)))
  {
    hide SwapBridge, DirectVictim, Exchanged, Replaceable, Filter, SizeFor, WeakerLeq, Compressible;
    DirectVictimIs(load, b, available);
    if DirectVictim(load, b, available).Some? {
      DirectSwap(load, order, b, available, tokens);
    } else {
      CompressedSwap(load, order, b, available, tokens);
    }
  }

  // The size in which the bridge fits the room that the bundle leaves.
  function SizeFor(u: PackUnit, b: BridgeContender, used: int, available: int, tokens: Tokenizer): nat {
    var r := Compress(b.candidate, available - (used - u.Tokens()), tokens, false);
    if r.Some? then r.value.tokenCount else 0
  }
}
