// How much of the budget is for the context itself, and that it gets all of it when nothing is to be retrieved.
module BaseContext {
  import opened Sequences
  import opened ContextItems
  import opened BaseTrim
  import opened BridgeBudgets
  import opened WindowCoalescing
  import opened RetrievalCoalescing
  import opened RetrievalCollection
  import opened ContextPacking
  import opened BridgeSwaps
  import opened PackedUnits
  import opened MaterializedContext
  import opened PackedLaws
  import opened ContextLaws
  import opened PackingOrder

  // The smaller of budget and window, less the overhead, is available; a fifth of it, at most 256 tokens, is
  // kept back for
  // retrieval if there are hints; the context is trimmed to the rest.  Bridges are preferably as small as what
  // is kept back
  // and what the context lends.
  lemma BaseShare(q: Request, ledger: set<Event>, p: Parts)
    requires WellFormedRequest(q, ledger) && PartsOf(q, ledger, p) && q.Available() >= 0
    ensures var available := (if q.budgetTokens <= q.contextWindow then q.budgetTokens
                              else q.contextWindow) - q.overheadTokens;
      var reserve := if q.hints == [] then 0 else if available / 5 <= 256 then available / 5 else 256;
      && p.world.available == available && IsTrim(q.items, available - reserve, q.rules, p.trim)
      && p.world.room.selectionBudget == reserve + BorrowedSlack(SlackOrder(p.trim.selected, q.rules), 0, 0)
  {
    hide IsTrim, IsCoalesced, CollectFrom, WellFormedRequest, RefIds;
  }

  // ---- nothing to retrieve -----------------------------------------------------------------------

  lemma NothingCoalesced(q: Request, ledger: set<Event>, p: Parts)
    requires WellFormedRequest(q, ledger) && PartsOf(q, ledger, p) && q.hints == []
    ensures p.pool.contenders == [] && p.coalesced == []
  {
    hide IsCoalesced, IsTrim, Summarizes;
    if p.coalesced != [] {
      var x := p.coalesced[0];
      if x.Bridge? {
        CoalescedBridge([], p.coalesced, x);
      } else {
        CoalescedSummary([], p.coalesced, x);
        NothingSummarized(x.bundle);
      }
    }
  }

  lemma NothingSummarized(r: RawBundle)
    ensures !Summarizes([], r)
  {
  }

  lemma {:induction false} UnitsCost(selected: seq<ContextItem>, rules: seq<PinRule>, first: nat)
    ensures Sum(BaseUnits(selected, rules, first), UnitTokens) == Tokens(selected)
  {
    if selected != [] {
      UnitsCost(selected[1..], rules, first + 1);
      assert BaseUnits(selected, rules, first)[1..] == BaseUnits(selected[1..], rules, first + 1);
    }
  }

  lemma WithOneMore(kept: seq<PackUnit>, base: seq<PackUnit>, u: PackUnit)
    requires multiset(kept) <= multiset(base) && u in base && u !in kept
    ensures Sum(kept, UnitTokens) + u.Tokens() <= Sum(base, UnitTokens)
  {
    assert multiset(kept)[u] == 0 && multiset(base)[u] > 0;
    forall v ensures multiset(kept + [u])[v] <= multiset(base)[v] {
      assert multiset(kept + [u])[v] == multiset(kept)[v] + if v == u then 1 else 0;
    }
    SumOfPart(kept + [u], base, UnitTokens);
    SumAppend(kept, u, UnitTokens);
  }

  // Without retrieval units every base unit fits.
  lemma AllBaseKept(q: Request, base: seq<PackUnit>, limits: nat -> nat)
    requires WellFormedUnits(q, base, [], limits) && Sum(base, UnitTokens) <= q.Available()
    ensures multiset(Greedy(q, base, []).kept) == multiset(base)
  {
    hide WellFormedUnits, Sound, Greedy;
    var kept := Greedy(q, base, []).kept;
    assert base + [] == base;
    GreedyFacts(q, base, [], limits);
    forall u | u in base ensures u in kept {
      if u !in kept {
        BaseLeftOut(q, base, limits, u);
        WithOneMore(kept, base, u);
      }
    }
    BaseNumbered(q, base, limits);
    NumberedBase(base);
    forall u ensures multiset(kept)[u] == multiset(base)[u] {
      assert u in base <==> u in multiset(base);
      assert u in kept <==> u in multiset(kept);
    }
  }

  lemma NumberedBase(base: seq<PackUnit>)
    requires NumberedUnits(base)
    ensures forall u :: multiset(base)[u] <= 1
  {
    PairwiseDistinct(base);
  }

  lemma BaseLeftOut(q: Request, base: seq<PackUnit>, limits: nat -> nat, u: PackUnit)
    requires WellFormedUnits(q, base, [], limits) && u in base && u !in Greedy(q, base, []).kept
    ensures Sum(Greedy(q, base, []).kept, UnitTokens) + u.Tokens() > q.Available()
  {
    hide Sound, UniformLimits, PlaceAll, NumberedUnits, InRankOrder, WellFormedUnits, Filter;
    var pinned, ranked := Filter(base, PinnedUnit), InRankOrder(q, base, []);
    assert base + [] == base;
    GreedyFacts(q, base, [], limits);
    GreedyStarts(q, base, [], limits);
    RankedMembers(q, base, [], limits);
    assert PinnedUnit(u) ==> u in pinned;
    AreBase(q, base, limits, u);
    LeftOutUnits(Packing(pinned, Sum(pinned, UnitTokens), map[]), ranked, q.Available(), limits, u);
    SoundBooks(Greedy(q, base, []), limits);
  }

  lemma AreBase(q: Request, base: seq<PackUnit>, limits: nat -> nat, u: PackUnit)
    requires WellFormedUnits(q, base, [], limits) && u in base
    ensures !u.IsRetrieval()
  {
  }

  lemma SoundBooks(p: Packing, limits: nat -> nat)
    requires Sound(p, limits)
    ensures p.used == Sum(p.kept, UnitTokens)
  {
  }

  lemma NothingSwapped(q: Request, base: seq<PackUnit>, limits: nat -> nat)
    requires WellFormedUnits(q, base, [], limits)
    ensures var p := Greedy(q, base, []); Swapped(q, base, []) == Load(p.kept, p.used)
  {
    hide PlaceAll, Greedy;
    var p := Greedy(q, base, []);
    assert Filter([], DroppedBridge(p.kept)) == [];
    assert multiset(q.rank([])) == multiset([]);
    assert |multiset(q.rank([]))| == 0;
    assert DroppedBridges(q, [], p.kept) == [];
  }

  lemma NothingRanked(q: Request, base: seq<PackUnit>, limits: nat -> nat, kept: seq<PackUnit>)
    requires WellFormedUnits(q, base, [], limits) && multiset(kept) == multiset(base)
    ensures Filter(InRankOrder(q, base, []), NotKeptIn(kept)) == []
    ensures |kept| == |InRankOrder(q, base, [])| + |Filter(base, PinnedUnit)|
  {
    hide NumberedUnits, UniformLimits;
    var ranked, pinned := InRankOrder(q, base, []), Filter(base, PinnedUnit);
    assert base + [] == base;
    RankedPartition(base, [], q.rank);
    assert |multiset(kept)| == |multiset(ranked) + multiset(pinned)|;
    forall u | u in ranked ensures KeepsOrder(kept, u.order) {
      assert u in multiset(base) && u in multiset(kept);
      var i :| 0 <= i < |kept| && kept[i] == u;
    }
    FilterNone(ranked, NotKeptIn(kept));
  }

  lemma SortedBase(base: seq<PackUnit>, kept: seq<PackUnit>)
    requires NumberedUnits(base) && multiset(kept) == multiset(base)
    ensures SortBy(kept, UnitOrderLeq) == base
  {
    SortedUnits(kept);
    forall x, y | x in base && y in base && x.order == y.order ensures x == y {
      var i :| 0 <= i < |base| && base[i] == x;
      var j :| 0 <= j < |base| && base[j] == y;
    }
    SortedUnique(base, SortBy(kept, UnitOrderLeq), UnitOrderLeq);
  }

  // With nothing to retrieve, materializing is trimming to all that is available: the context consists of the selected
  // items in order, nothing else is dropped and nothing added.
  lemma NothingRetrieved(q: Request, ledger: set<Event>, p: Parts, c: Context)
    requires WellFormedRequest(q, ledger) && PartsOf(q, ledger, p) && Materializes(q, p, c)
    requires q.hints == [] && q.Available() >= 0
    ensures IsTrim(q.items, q.Available(), q.rules, p.trim)
    ensures c.kept == BaseUnits(p.trim.selected, q.rules, 0) && c.budgetUsed == p.trim.budgetUsed
    ensures c.trimmedToFit == p.trim.trimmedToFit && c.addedMessages == c.addedSummaries == 0
    ensures c.droppedMessages == p.trim.droppedMessageCount && c.droppedSummaries == p.trim.droppedSummaryCount
  {
    hide IsTrim, WellFormedUnits, Greedy, InRankOrder, Swapped, NotKeptIn, Filter, SortBy;
    NothingCoalesced(q, ledger, p);
    BaseShare(q, ledger, p);
    PartsUnits(q, ledger, p);
    hide PartsOf, WellFormedRequest;
    var base, limits := BaseOf(q, p), LimitsOfHints(q.hints);
    assert RetrievalOf(p) == [];
    UnitsCost(p.trim.selected, q.rules, 0);
    KeepsEverything(q, base, limits, p.trim);
    var load := Swapped(q, base, []);
    NothingRanked(q, base, limits, load.kept);
    BaseNumbered(q, base, limits);
    SortedBase(base, load.kept);
    NothingAdded(p.pool, load.kept);
  }

  lemma KeepsEverything(q: Request, base: seq<PackUnit>, limits: nat -> nat, trim: TrimResult)
    requires WellFormedUnits(q, base, [], limits) && Sum(base, UnitTokens) <= q.Available()
    ensures var load := Swapped(q, base, []);
      multiset(load.kept) == multiset(base) && load.used == Sum(base, UnitTokens)
  {
    hide Greedy, Swapped, UniformLimits, NumberedUnits;
    AllBaseKept(q, base, limits);
    NothingSwapped(q, base, limits);
    GreedyFacts(q, base, [], limits);
    SoundBooks(Greedy(q, base, []), limits);
    SumPermutation(Greedy(q, base, []).kept, base, UnitTokens);
  }

  lemma BaseNumbered(q: Request, base: seq<PackUnit>, limits: nat -> nat)
    requires WellFormedUnits(q, base, [], limits)
    ensures NumberedUnits(base)
  {
    assert base + [] == base;
  }

  lemma NothingAdded(pool: Pool, kept: seq<PackUnit>)
    requires pool.contenders == []
    ensures AddedMessages(pool, kept) == 0 && AddedSummaries(pool, kept) == 0
  {
  }
}
