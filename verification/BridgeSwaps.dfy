// The swap phase: dropped bridge summaries may take the place of weaker raw bundles of their hint.
module BridgeSwaps {
  import opened Sequences
  import opened BridgeCompression
  import opened WindowCoalescing
  import opened RetrievalCoalescing
  import opened ContextPacking

  const MIN_ANSWER_BEARING_BRIDGE_EVIDENCE_SCORE := 120

  predicate CanReplace(b: BridgeContender, r: RawBundle) {
    && |r.events| > 1
    && (b.specificityScore > r.specificityScore
        || (b.specificityScore == r.specificityScore && b.overlapCount >= r.overlapCount))
  }

  predicate CanReplaceCompressed(b: BridgeContender, r: RawBundle) {
    || CanReplace(b, r)
    || (&& |r.events| > 1
        && b.evidenceScore >= MIN_ANSWER_BEARING_BRIDGE_EVIDENCE_SCORE && b.concreteCueCount > 0
        && r.overlapCount <= b.overlapCount && r.specificityScore <= b.specificityScore + 1)
  }

  // Weakest first: less specific, fewer anchors, less overlap, less dense, later found.
  predicate WeakerLeq(a: PackUnit, b: PackUnit) {
    if !a.RawUnit? || !b.RawUnit? then true
    else
      var l, r := a.bundle, b.bundle;
      var density := CompareScoreDensity(l.score, l.tokenCount, r.score, r.tokenCount);
      if l.specificityScore != r.specificityScore then l.specificityScore < r.specificityScore
      else if l.anchorCoverageCount != r.anchorCoverageCount then l.anchorCoverageCount < r.anchorCoverageCount
      else if l.overlapCount != r.overlapCount then l.overlapCount < r.overlapCount
      else if density != 0 then density > 0
      else l.selectionOrder >= r.selectionOrder
  }

  function RawOfHint(hint: nat): PackUnit -> bool {
    (u: PackUnit) => u.RawUnit? && u.bundle.hintIndex == hint
  }

  function WeakestFirst(kept: seq<PackUnit>, hint: nat): (r: seq<PackUnit>)
    ensures forall u :: u in r ==> u in kept && u.RawUnit? && u.bundle.hintIndex == hint
  {
    SortKeepsElements(Filter(kept, RawOfHint(hint)), WeakerLeq);
    SortBy(Filter(kept, RawOfHint(hint)), WeakerLeq)
  }

  // ---- exchanging one kept unit -----------------------------------------------------------

  function IndexOf(kept: seq<PackUnit>, u: PackUnit): (i: nat)
    requires u in kept
    ensures i < |kept| && kept[i] == u
  {
    if kept[0] == u then 0 else 1 + IndexOf(kept[1..], u)
  }

  function Exchange(kept: seq<PackUnit>, victim: PackUnit, u: PackUnit): seq<PackUnit>
    requires victim in kept
  {
    kept[IndexOf(kept, victim) := u]
  }

  lemma ExchangeSum(kept: seq<PackUnit>, victim: PackUnit, u: PackUnit, weight: PackUnit -> nat)
    requires victim in kept
    ensures Sum(Exchange(kept, victim, u), weight) == Sum(kept, weight) - weight(victim) + weight(u)
  {
    var i := IndexOf(kept, victim);
    SumSplitAt(kept, i, weight);
    SumSplitAt(Exchange(kept, victim, u), i, weight);
    assert Exchange(kept, victim, u)[..i] == kept[..i] && Exchange(kept, victim, u)[i + 1..] == kept[i + 1..];
  }

  // ---- one swap ------------------------------------------------------------------------------

  datatype Load = Load(kept: seq<PackUnit>, used: int)

  // A bridge in its full size replaces the weakest raw bundle it can, if that frees enough.
  function FirstVictim(raws: seq<PackUnit>, b: BridgeContender, used: int, available: int): (r: Option<PackUnit>)
    ensures r.Some? ==> r.value in raws
  {
    if raws == [] then None
    else if raws[0].RawUnit? && CanReplace(b, raws[0].bundle) && used - raws[0].Tokens() + b.tokenCount <= available
    then Some(raws[0])
    else FirstVictim(raws[1..], b, used, available)
  }

  // What the bridge may cost when it takes the place of a raw bundle.
  function RoomWithout(u: PackUnit, used: int, available: int): int {
    available - (used - u.Tokens())
  }

  predicate Accepts(b: BridgeContender, u: PackUnit, used: int, available: int, tokens: Tokenizer) {
    && RoomWithout(u, used, available) > 0
    && u.RawUnit? && CanReplaceCompressed(b, u.bundle)
    && Compress(b.candidate, RoomWithout(u, used, available), tokens, false).Some?
  }

  // The raw bundles for which the bridge could be compressed, weakest first.
  function Accepted(raws: seq<PackUnit>, b: BridgeContender, used: int, available: int,
                    tokens: Tokenizer): (r: seq<PackUnit>)
    ensures forall u :: u in r ==> u in raws && Accepts(b, u, used, available, tokens)
  {
    if raws == [] then []
    else if Accepts(b, raws[0], used, available, tokens)
    then [raws[0]] + Accepted(raws[1..], b, used, available, tokens)
    else Accepted(raws[1..], b, used, available, tokens)
  }

  // Every successful compression overwrites the size of the bridge, so it ends with that of the last.
  function CompressedSize(accepted: seq<PackUnit>, b: BridgeContender, used: int, available: int,
                          tokens: Tokenizer): nat
    requires accepted != [] && Accepts(b, Last(accepted), used, available, tokens)
  {
    Compress(b.candidate, RoomWithout(Last(accepted), used, available), tokens, false).value.tokenCount
  }

  function Resized(order: nat, b: BridgeContender, size: nat): PackUnit {
    BridgeUnit(order, b.(tokenCount := size))
  }

  function DirectVictim(load: Load, b: BridgeContender, available: int): Option<PackUnit> {
    var raws := WeakestFirst(load.kept, b.hintIndex);
    if |raws| >= b.limit then FirstVictim(raws, b, load.used, available) else None
  }

  function SwapBridge(load: Load, order: nat, b: BridgeContender, available: int, tokens: Tokenizer): Load {
    var direct := DirectVictim(load, b, available);
    if direct.Some? then
      Load(Exchange(load.kept, direct.value, BridgeUnit(order, b)), load.used - direct.value.Tokens() + b.tokenCount)
    else
      var accepted := Accepted(WeakestFirst(load.kept, b.hintIndex), b, load.used, available, tokens);
      if accepted == [] then load
      else
        var size := CompressedSize(accepted, b, load.used, available, tokens);
        Load(Exchange(load.kept, accepted[0], Resized(order, b, size)), load.used - accepted[0].Tokens() + size)
  }

  function SwapAll(load: Load, dropped: seq<PackUnit>, available: int, tokens: Tokenizer): Load
    requires forall u :: u in dropped ==> u.BridgeUnit?
    decreases |dropped|
  {
    if dropped == [] then load
    else
      assert dropped[0] in dropped;
      SwapAll(SwapBridge(load, dropped[0].order, dropped[0].bridge, available, tokens), dropped[1..], available, tokens)
  }

  method FindVictim(raws: seq<PackUnit>, b: BridgeContender, used: int, available: int)
    returns (victim: Option<PackUnit>)
    ensures victim == FirstVictim(raws, b, used, available)
  {
    for i := 0 to |raws|
      invariant FirstVictim(raws, b, used, available) == FirstVictim(raws[i..], b, used, available)
    {
      PrefixStep(raws, i);
      if raws[i].RawUnit? && CanReplace(b, raws[i].bundle) && used - raws[i].Tokens() + b.tokenCount <= available {
        return Some(raws[i]);
      }
    }
    victim := None;
  }

  // The eager compression loop: it visits every raw bundle, keeps the first success and overwrites
  // the size with each success.
  method CompressForSwap(raws: seq<PackUnit>, b: BridgeContender, used: int, available: int, tokens: Tokenizer)
    returns (first: Option<PackUnit>, size: nat)
    requires Numbered(b.candidate) && forall u :: u in raws ==> u.RawUnit?
    ensures var accepted := Accepted(raws, b, used, available, tokens);
      && (first.Some? <==> accepted != [])
      && (accepted != [] ==> first.value == accepted[0] && size == CompressedSize(accepted, b, used, available, tokens))
  {
    hide Compress, CanReplaceCompressed;
    first, size := None, b.tokenCount;
    ghost var accepted: seq<PackUnit> := [];
    for i := 0 to |raws|
      invariant accepted == Accepted(raws[..i], b, used, available, tokens)
      invariant first.Some? <==> accepted != []
      invariant accepted != [] ==>
        first.value == accepted[0] && size == CompressedSize(accepted, b, used, available, tokens)
    {
      AcceptedStep(raws, i, b, used, available, tokens);
      var u := raws[i];
      assert u in raws;
      var room := RoomWithout(u, used, available);
      if room > 0 && CanReplaceCompressed(b, u.bundle) {
        var compressed := CompressBridgeSummaryContent(b.candidate, room, tokens, false);
        if compressed.Some? {
          size := compressed.value.tokenCount;
          if first.None? {
            first := Some(u);
          }
          accepted := accepted + [u];
        }
      }
    }
    assert raws[..|raws|] == raws;
  }

  lemma {:induction false} AcceptedStep(raws: seq<PackUnit>, i: nat, b: BridgeContender, used: int, available: int,
                                        tokens: Tokenizer)
    requires i < |raws|
    ensures Accepted(raws[..i + 1], b, used, available, tokens)
         == Accepted(raws[..i], b, used, available, tokens)
            + if Accepts(b, raws[i], used, available, tokens) then [raws[i]] else []
    decreases i
  {
    hide Accepts;
    if i == 0 {
      assert raws[..1][1..] == [] && raws[..1][0] == raws[0];
    } else {
      AcceptedStep(raws[1..], i - 1, b, used, available, tokens);
      assert raws[..i + 1][1..] == raws[1..][..i] && raws[..i][1..] == raws[1..][..i - 1];
    }
  }

  method SwapInBridges(load: Load, dropped: seq<PackUnit>, available: int, tokens: Tokenizer) returns (r: Load)
    requires forall u :: u in dropped ==> u.BridgeUnit? && Numbered(u.bridge.candidate)
    ensures r == SwapAll(load, dropped, available, tokens)
  {
    var kept, used := load.kept, load.used;
    for i := 0 to |dropped|
      invariant SwapAll(Load(kept, used), dropped[i..], available, tokens) == SwapAll(load, dropped, available, tokens)
    {
      PrefixStep(dropped, i);
      kept, used := SwapInBridge(kept, used, dropped[i].order, dropped[i].bridge, available, tokens);
    }
    r := Load(kept, used);
  }

  method SwapInBridge(kept: seq<PackUnit>, used: int, order: nat, b: BridgeContender, available: int, tokens: Tokenizer)
    returns (keptNow: seq<PackUnit>, usedNow: int)
    requires Numbered(b.candidate)
    ensures Load(keptNow, usedNow) == SwapBridge(Load(kept, used), order, b, available, tokens)
  {
    hide Compress, CanReplace, Accepted, FirstVictim, WeakerLeq;
    var raws := WeakestFirst(kept, b.hintIndex);
    if |raws| >= b.limit {
      var victim := FindVictim(raws, b, used, available);
      if victim.Some? {
        return Exchange(kept, victim.value, BridgeUnit(order, b)), used - victim.value.Tokens() + b.tokenCount;
      }
    }
    var first, size := CompressForSwap(raws, b, used, available, tokens);
    if first.Some? {
      keptNow := Exchange(kept, first.value, Resized(order, b, size));
      usedNow := used - first.value.Tokens() + size;
    } else {
      keptNow, usedNow := kept, used;
    }
  }

  // ---- what a swap keeps ---------------------------------------------------------------------

  // Shapes of a swap: nothing, or one raw bundle of the hint exchanged for the bridge.
  lemma SwapShape(load: Load, order: nat, b: BridgeContender, available: int, tokens: Tokenizer)
    ensures var r := SwapBridge(load, order, b, available, tokens);
      r == load || exists victim, size: nat ::
        && victim in load.kept && victim.RawUnit? && victim.bundle.hintIndex == b.hintIndex
        && r.kept == Exchange(load.kept, victim, Resized(order, b, size))
        && r.used == load.used - victim.Tokens() + size
  {
    hide Compress, WeakerLeq, Exchange, Accepts, CompressedSize, FirstVictim;
    var direct := DirectVictim(load, b, available);
    if direct.Some? {
      assert BridgeUnit(order, b) == Resized(order, b, b.tokenCount);
      assert direct.value in load.kept;
    } else {
      var accepted := Accepted(WeakestFirst(load.kept, b.hintIndex), b, load.used, available, tokens);
      if accepted != [] {
        assert accepted[0] in accepted;
      }
    }
  }
}
