// What the greedy pass and the swap phase keep together, and how far a swap can overrun the budget.
module SwapLaws {
  import opened Sequences
  import opened BridgeCompression
  import opened RetrievalCoalescing
  import opened ContextPacking
  import opened BridgeSwaps

  ghost predicate Dropped(dropped: seq<PackUnit>) {
    forall u :: u in dropped ==> u.BridgeUnit?
  }

  // ---- invariants ------------------------------------------------------------------------

  function BaseWeight(u: PackUnit): PackUnit -> nat {
    (v: PackUnit) => if v.BaseUnit? && v == u then 1 else 0
  }

  lemma SwapKeeps(load: Load, order: nat, b: BridgeContender, available: int, tokens: Tokenizer)
    ensures var r := SwapBridge(load, order, b, available, tokens);
      && (load.used == Sum(load.kept, UnitTokens) ==> r.used == Sum(r.kept, UnitTokens))
      && |r.kept| == |load.kept|
      && (forall hint: nat :: CountHint(r.kept, hint) == CountHint(load.kept, hint))
      && (forall o: nat :: CountOrder(r.kept, o) <= CountOrder(load.kept, o) + if o == order then 1 else 0)
      && (forall u :: Sum(r.kept, BaseWeight(u)) == Sum(load.kept, BaseWeight(u)))
  {
    hide SwapBridge;
    SwapShape(load, order, b, available, tokens);
    var r := SwapBridge(load, order, b, available, tokens);
    if r != load {
      var victim, size: nat :| victim in load.kept && victim.RawUnit? && victim.bundle.hintIndex == b.hintIndex
        && r.kept == Exchange(load.kept, victim, Resized(order, b, size))
        && r.used == load.used - victim.Tokens() + size;
      var u := Resized(order, b, size);
      ExchangeSum(load.kept, victim, u, UnitTokens);
      forall hint: nat ensures CountHint(r.kept, hint) == CountHint(load.kept, hint) {
        ExchangeSum(load.kept, victim, u, HintWeight(hint));
      }
      forall o: nat ensures CountOrder(r.kept, o) <= CountOrder(load.kept, o) + if o == order then 1 else 0 {
        ExchangeSum(load.kept, victim, u, OrderWeight(o));
      }
      forall v ensures Sum(r.kept, BaseWeight(v)) == Sum(load.kept, BaseWeight(v)) {
        ExchangeSum(load.kept, victim, u, BaseWeight(v));
      }
    }
  }

  // Through all swaps the books stay right, hint counts and base units are untouched, and no unit
  // is kept twice.
  lemma {:induction false} SwapAllKeeps(load: Load, dropped: seq<PackUnit>, available: int, tokens: Tokenizer)
    requires Dropped(dropped)
    ensures var r := SwapAll(load, dropped, available, tokens);
      && (load.used == Sum(load.kept, UnitTokens) ==> r.used == Sum(r.kept, UnitTokens))
      && |r.kept| == |load.kept|
      && (forall hint: nat :: CountHint(r.kept, hint) == CountHint(load.kept, hint))
      && (forall o: nat :: CountOrder(r.kept, o) <= CountOrder(load.kept, o) + CountOrder(dropped, o))
      && (forall u :: Sum(r.kept, BaseWeight(u)) == Sum(load.kept, BaseWeight(u)))
    decreases |dropped|
  {
    if dropped != [] {
      assert dropped[0] in dropped && forall u :: u in dropped[1..] ==> u in dropped;
      var next := SwapBridge(load, dropped[0].order, dropped[0].bridge, available, tokens);
      SwapKeeps(load, dropped[0].order, dropped[0].bridge, available, tokens);
      SwapAllKeeps(next, dropped[1..], available, tokens);
    }
  }

  // ---- the budget --------------------------------------------------------------------------

  // Kept raw bundles of one hint differ by at most this many tokens.
  ghost predicate Spread(kept: seq<PackUnit>, bound: nat) {
    forall u, v :: u in kept && v in kept && u.RawUnit? && v.RawUnit? && u.bundle.hintIndex == v.bundle.hintIndex ==>
      u.Tokens() <= v.Tokens() + bound
  }

  lemma SwapSpread(load: Load, order: nat, b: BridgeContender, available: int, tokens: Tokenizer, bound: nat)
    requires Spread(load.kept, bound)
    ensures Spread(SwapBridge(load, order, b, available, tokens).kept, bound)
  {
    hide SwapBridge;
    SwapShape(load, order, b, available, tokens);
    var r := SwapBridge(load, order, b, available, tokens);
    assert |r.kept| == |load.kept|;
    assert forall i :: 0 <= i < |r.kept| ==> r.kept[i] == load.kept[i] || r.kept[i].BridgeUnit?;
    forall u | u in r.kept && u.RawUnit? ensures u in load.kept {
      var i :| 0 <= i < |r.kept| && r.kept[i] == u;
    }
  }

  // A direct swap fits the budget.  A compressed swap evicts the first accepted bundle but sizes
  // the bridge for the last one, so it may overrun by the difference of the two.
  lemma SwapBudget(load: Load, order: nat, b: BridgeContender, available: int, tokens: Tokenizer)
    ensures var r := SwapBridge(load, order, b, available, tokens);
      var accepted := Accepted(WeakestFirst(load.kept, b.hintIndex), b, load.used, available, tokens);
      if DirectVictim(load, b, available).Some? then r.used <= available
      else if accepted == [] then r == load
      else r.used <= available + Last(accepted).Tokens() - accepted[0].Tokens()
  {
    hide Compress, CanReplace, CanReplaceCompressed, WeakerLeq;
    var raws := WeakestFirst(load.kept, b.hintIndex);
    var direct := DirectVictim(load, b, available);
    if direct.Some? {
      VictimFits(raws, b, load.used, available);
    } else {
      var accepted := Accepted(raws, b, load.used, available, tokens);
      if accepted != [] {
        var last := Last(accepted);
        assert accepted[0] in accepted && last in accepted;
        CompressWithinLimit(b.candidate, RoomWithout(last, load.used, available), tokens, false);
      }
    }
  }

  lemma AcceptedAreKept(load: Load, b: BridgeContender, available: int, tokens: Tokenizer)
    ensures forall u :: u in Accepted(WeakestFirst(load.kept, b.hintIndex), b, load.used, available, tokens) ==>
      u in load.kept && u.RawUnit? && u.bundle.hintIndex == b.hintIndex
  {
    hide Accepts, WeakerLeq;
  }

  lemma {:induction false} VictimFits(raws: seq<PackUnit>, b: BridgeContender, used: int, available: int)
    requires FirstVictim(raws, b, used, available).Some?
    ensures var v := FirstVictim(raws, b, used, available).value; used - v.Tokens() + b.tokenCount <= available
  {
    if !(raws[0].RawUnit? && CanReplace(b, raws[0].bundle) && used - raws[0].Tokens() + b.tokenCount <= available) {
      VictimFits(raws[1..], b, used, available);
    }
  }

  // However many swaps follow each other, the overrun never exceeds the spread of one hint.
  lemma {:induction false} SwapAllBudget(load: Load, dropped: seq<PackUnit>, available: int, tokens: Tokenizer,
                                         bound: nat)
    requires Dropped(dropped) && Spread(load.kept, bound) && load.used <= available + bound
    ensures SwapAll(load, dropped, available, tokens).used <= available + bound
    decreases |dropped|
  {
    hide SwapBridge;
    if dropped != [] {
      assert dropped[0] in dropped && forall u :: u in dropped[1..] ==> u in dropped;
      var order, b := dropped[0].order, dropped[0].bridge;
      SwapBudget(load, order, b, available, tokens);
      AcceptedAreKept(load, b, available, tokens);
      SwapSpread(load, order, b, available, tokens, bound);
      SwapAllBudget(SwapBridge(load, order, b, available, tokens), dropped[1..], available, tokens, bound);
    }
  }

  lemma {:induction false} OneUnitPerHint(kept: seq<PackUnit>, hint: nat, u: PackUnit, v: PackUnit)
    requires CountHint(kept, hint) <= 1 && u in kept && v in kept && u.OfHint(hint) && v.OfHint(hint)
    ensures u == v
  {
    var i :| 0 <= i < |kept| && kept[i] == u;
    SumSplitAt(kept, i, HintWeight(hint));
    if v in kept[..i] {
      SumMember(kept[..i], v, HintWeight(hint));
    } else if v in kept[i + 1..] {
      SumMember(kept[i + 1..], v, HintWeight(hint));
    } else {
      assert kept == kept[..i] + [u] + kept[i + 1..];
    }
  }

  // With at most one kept retrieval unit per hint, in particular when every limit is one, the
  // swaps never leave the budget.
  lemma OneRawPerHintKeepsBudget(load: Load, dropped: seq<PackUnit>, available: int, tokens: Tokenizer)
    requires Dropped(dropped) && load.used <= available
    requires forall hint: nat :: CountHint(load.kept, hint) <= 1
    ensures SwapAll(load, dropped, available, tokens).used <= available
  {
    forall u, v | u in load.kept && v in load.kept && u.RawUnit? && v.RawUnit?
      && u.bundle.hintIndex == v.bundle.hintIndex
      ensures u.Tokens() <= v.Tokens()
    {
      OneUnitPerHint(load.kept, u.bundle.hintIndex, u, v);
    }
    SwapAllBudget(load, dropped, available, tokens, 0);
  }

  // When no replaceable bundle is larger than a weaker one, every swap stays within the budget.
  lemma SwapWithinBudget(load: Load, order: nat, b: BridgeContender, available: int, tokens: Tokenizer)
    requires load.used <= available
    requires var raws := WeakestFirst(load.kept, b.hintIndex);
      forall i, j :: 0 <= i < j < |raws| ==> raws[j].Tokens() <= raws[i].Tokens()
    ensures SwapBridge(load, order, b, available, tokens).used <= available
  {
    hide Compress, CanReplace, CanReplaceCompressed, WeakerLeq;
    var raws := WeakestFirst(load.kept, b.hintIndex);
    var direct := DirectVictim(load, b, available);
    if direct.Some? {
      VictimFits(raws, b, load.used, available);
    } else {
      var accepted := Accepted(raws, b, load.used, available, tokens);
      if accepted != [] {
        AcceptedInOrder(raws, b, load.used, available, tokens);
        CompressWithinLimit(b.candidate, RoomWithout(Last(accepted), load.used, available), tokens, false);
      }
    }
  }

  lemma {:induction false} AcceptedInOrder(raws: seq<PackUnit>, b: BridgeContender, used: int, available: int,
                                           tokens: Tokenizer)
    requires forall i, j :: 0 <= i < j < |raws| ==> raws[j].Tokens() <= raws[i].Tokens()
    requires Accepted(raws, b, used, available, tokens) != []
    ensures var accepted := Accepted(raws, b, used, available, tokens);
      Last(accepted).Tokens() <= accepted[0].Tokens()
  {
    hide Accepts;
    var accepted := Accepted(raws, b, used, available, tokens);
    if Accepts(b, raws[0], used, available, tokens) {
      var last := Last(accepted);
      assert last in accepted;
      var j :| 0 <= j < |raws| && raws[j] == last;
    } else {
      forall i, j | 0 <= i < j < |raws[1..]| ensures raws[1..][j].Tokens() <= raws[1..][i].Tokens() {
        assert raws[1..][i] == raws[i + 1] && raws[1..][j] == raws[j + 1];
      }
      AcceptedInOrder(raws[1..], b, used, available, tokens);
    }
  }
}
