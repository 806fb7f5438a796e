// Trimming the resolved context to a token budget.
module BaseTrim {
  import opened Sequences
  import opened ContextItems

  datatype TrimResult =
    | Trimmed(selected: seq<ContextItem>, budgetUsed: nat, trimmedToFit: bool,
              droppedMessageCount: nat, droppedSummaryCount: nat)
    | PinnedOverBudget(availableBudget: int, requiredBudget: nat)

  // An item stays when it is pinned, or when it still fits on top of all pinned items and of
  // the selected items that rank ahead of it.  Nothing here mentions how the choice is made.
  predicate Belongs(selected: seq<ContextItem>, pinnedTokens: nat, budget: int, rules: seq<PinRule>,
                    item: ContextItem)
  {
    IsPinned(item, rules)
    || pinnedTokens + TokensAhead(selected, rules, item) + item.tokenCount <= budget
  }

  ghost predicate IsTrim(items: seq<ContextItem>, budget: int, rules: seq<PinRule>, r: TrimResult) {
    match r
    case PinnedOverBudget(available, required) =>
      available == budget && required == PinnedTokens(items, rules) && required > budget
    case Trimmed(selected, used, trimmed, droppedMessages, droppedSummaries) =>
      && PinnedTokens(items, rules) <= budget
      && Sorted(selected, PositionLeq) && Distinct(selected)
      && (forall x :: x in selected ==> x in items)
      && (forall x :: x in items ==>
            (x in selected <==> Belongs(selected, PinnedTokens(items, rules), budget, rules, x)))
      && used == Tokens(selected)
      && (trimmed <==> exists x :: x in items && x !in selected)
      && CountKind(items, Message) == CountKind(selected, Message) + droppedMessages
      && CountKind(items, Summary) == CountKind(selected, Summary) + droppedSummaries
  }

  lemma SelectionPartition(items: seq<ContextItem>, selected: seq<ContextItem>)
    requires DistinctPositions(items) && Distinct(selected)
    requires forall x :: x in selected ==> x in items
    ensures multiset(items) == multiset(selected) + multiset(Filter(items, OutsideOf(selected)))
  {
    DistinctPositionsOf(items);
    var dropped := Filter(items, OutsideOf(selected));
    forall x ensures multiset(items)[x] == multiset(selected)[x] + multiset(dropped)[x] {
      assert x in items <==> x in multiset(items);
      assert x in selected <==> x in multiset(selected);
      FilterCount(items, OutsideOf(selected), x);
    }
  }

  // What is ahead of an item, what is pinned and the item itself are disjoint costs.
  lemma {:induction false} AheadAndPinned(selected: seq<ContextItem>, rules: seq<PinRule>, item: ContextItem)
    requires !IsPinned(item, rules)
    ensures TokensAhead(selected, rules, item) + PinnedTokens(selected, rules)
            + (if item in selected then item.tokenCount else 0) <= Tokens(selected)
  {
    if selected != [] {
      AheadAndPinned(selected[1..], rules, item);
    }
  }

  lemma BelongsPermuted(a: seq<ContextItem>, b: seq<ContextItem>, pinned: nat, budget: int, rules: seq<PinRule>,
                        x: ContextItem)
    requires multiset(a) == multiset(b)
    ensures Belongs(a, pinned, budget, rules, x) <==> Belongs(b, pinned, budget, rules, x)
  {
    SumPermutation(a, b, AheadWeight(rules, x));
  }

  // A selection made in position order meets the specification once membership does.
  lemma SelectionIsTrim(items: seq<ContextItem>, budget: int, rules: seq<PinRule>,
                        chosen: seq<ContextItem>, r: TrimResult)
    requires DistinctPositions(items) && Distinct(chosen)
    requires PinnedTokens(items, rules) <= budget
    requires forall x :: x in chosen ==> x in items
    requires forall x :: x in items ==>
      (x in chosen <==> Belongs(chosen, PinnedTokens(items, rules), budget, rules, x))
    requires r.Trimmed? && r.selected == SortBy(chosen, PositionLeq) && r.budgetUsed == Tokens(chosen)
    requires r.trimmedToFit <==> exists x :: x in items && x !in chosen
    requires var dropped := Filter(items, OutsideOf(r.selected));
      r.droppedMessageCount == CountKind(dropped, Message)
      && r.droppedSummaryCount == CountKind(dropped, Summary)
    ensures IsTrim(items, budget, rules, r)
  {
    hide Belongs, DistinctPositions, Distinct, Sorted, Tokens, CountKind, PinnedTokens, SortBy, Filter;
    var selected := r.selected;
    SortByPosition(chosen);
    SelectedOnce(chosen, selected);
    forall x | x in items
      ensures x in selected <==> Belongs(selected, PinnedTokens(items, rules), budget, rules, x)
    {
      BelongsPermuted(chosen, selected, PinnedTokens(items, rules), budget, rules, x);
    }
    KindsSplit(items, selected);
  }

  lemma SelectedOnce(chosen: seq<ContextItem>, selected: seq<ContextItem>)
    requires Distinct(chosen) && multiset(chosen) == multiset(selected)
    ensures Distinct(selected) && Tokens(selected) == Tokens(chosen)
  {
    SumPermutation(chosen, selected, TokensOf);
  }

  lemma KindsSplit(items: seq<ContextItem>, selected: seq<ContextItem>)
    requires DistinctPositions(items) && Distinct(selected) && forall x :: x in selected ==> x in items
    ensures var dropped := Filter(items, OutsideOf(selected));
      && CountKind(items, Message) == CountKind(selected, Message) + CountKind(dropped, Message)
      && CountKind(items, Summary) == CountKind(selected, Summary) + CountKind(dropped, Summary)
  {
    SelectionPartition(items, selected);
    var dropped := Filter(items, OutsideOf(selected));
    SumPartition(items, selected, dropped, KindWeight(Message));
    SumPartition(items, selected, dropped, KindWeight(Summary));
  }

  lemma EverythingFits(items: seq<ContextItem>, budget: int, rules: seq<PinRule>, r: TrimResult)
    requires DistinctPositions(items) && Tokens(items) <= budget
    requires r == Trimmed(SortBy(items, PositionLeq), Tokens(items), false, 0, 0)
    ensures IsTrim(items, budget, rules, r)
  {
    DistinctPositionsOf(items);
    PinnedSplit(items, rules);
    forall x | x in items ensures Belongs(items, PinnedTokens(items, rules), budget, rules, x) {
      if !IsPinned(x, rules) {
        AheadAndPinned(items, rules, x);
      }
    }
    SortByPosition(items);
    FilterNone(items, OutsideOf(r.selected));
    SelectionIsTrim(items, budget, rules, items, r);
  }

  // Choosing an item leaves what is ahead of every earlier-ranked item unchanged.
  lemma AddingBehind(selected: seq<ContextItem>, rules: seq<PinRule>, item: ContextItem, before: seq<ContextItem>)
    requires forall x :: x in before ==> RanksAhead(x, item)
    ensures forall x :: x in before ==>
      TokensAhead(selected + [item], rules, x) == TokensAhead(selected, rules, x)
  {
    forall x | x in before
      ensures TokensAhead(selected + [item], rules, x) == TokensAhead(selected, rules, x)
    {
      SumAppend(selected, item, AheadWeight(rules, x));
    }
  }

  lemma RankedFacts(items: seq<ContextItem>, rules: seq<PinRule>, ranked: seq<ContextItem>)
    requires DistinctPositions(items)
    requires ranked == SortBy(Filter(items, UnpinnedBy(rules)), RankLeq)
    ensures forall x :: x in ranked <==> x in items && !IsPinned(x, rules)
    ensures Ranking(ranked, rules)
  {
    var unpinned := Filter(items, UnpinnedBy(rules));
    DistinctPositionsOf(items);
    SortByRank(unpinned);
    FilterDistinct(items, UnpinnedBy(rules));
    forall i, j | 0 <= i < j < |ranked| ensures RanksAhead(ranked[i], ranked[j]) {
      assert RankLeq(ranked[i], ranked[j]);
      DistinctAt(ranked, i, j);
      if ranked[i].position == ranked[j].position {
        SamePosition(items, ranked[i], ranked[j]);
      }
    }
  }

  // Once the ranked items before it are settled, everything chosen is ahead of the next item.
  lemma EveryoneAhead(pinned: seq<ContextItem>, chosen: seq<ContextItem>, rules: seq<PinRule>, item: ContextItem)
    requires forall x :: x in pinned ==> IsPinned(x, rules)
    requires forall x :: x in chosen ==> !IsPinned(x, rules) && RanksAhead(x, item)
    ensures TokensAhead(pinned + chosen, rules, item) == Tokens(chosen)
  {
    SumConcat(pinned, chosen, AheadWeight(rules, item));
    SumZero(pinned, AheadWeight(rules, item));
    SumCongruent(chosen, AheadWeight(rules, item), TokensOf);
  }

  lemma OverBudgetDropsSomething(items: seq<ContextItem>, selected: seq<ContextItem>, budget: int)
    requires DistinctPositions(items) && Distinct(selected)
    requires forall x :: x in selected ==> x in items
    requires Tokens(selected) <= budget < Tokens(items)
    ensures exists x :: x in items && x !in selected
  {
    var dropped := Filter(items, OutsideOf(selected));
    SelectionPartition(items, selected);
    SumPartition(items, selected, dropped, TokensOf);
    assert dropped != [];
    assert dropped[0] in dropped;
  }

  ghost predicate Ranking(ranked: seq<ContextItem>, rules: seq<PinRule>) {
    && Distinct(ranked)
    && (forall x :: x in ranked ==> !IsPinned(x, rules))
    && (forall i, j :: 0 <= i < j < |ranked| ==> RanksAhead(ranked[i], ranked[j]))
  }

  // The choice among the items walked so far.
  ghost predicate Chosen(pinned: seq<ContextItem>, chosen: seq<ContextItem>, walked: seq<ContextItem>, budget: int,
                         rules: seq<PinRule>)
  {
    && Distinct(chosen) && Tokens(pinned) + Tokens(chosen) <= budget
    && (forall x :: x in chosen ==> x in walked)
    && (forall x :: x in walked ==> (x in chosen <==> Belongs(pinned + chosen, Tokens(pinned), budget, rules, x)))
  }

  lemma NextChoice(pinned: seq<ContextItem>, chosen: seq<ContextItem>, ranked: seq<ContextItem>, i: nat, budget: int,
                   rules: seq<PinRule>)
    requires Ranking(ranked, rules) && i < |ranked| && Chosen(pinned, chosen, ranked[..i], budget, rules)
    requires forall x :: x in pinned ==> IsPinned(x, rules)
    ensures var fits := Tokens(pinned) + Tokens(chosen) + ranked[i].tokenCount <= budget;
      Chosen(pinned, if fits then chosen + [ranked[i]] else chosen, ranked[..i + 1], budget, rules)
  {
    hide RanksAhead, IsPinned;
    var item := ranked[i];
    NextIsNew(ranked, i, rules);
    EveryoneAhead(pinned, chosen, rules, item);
    if Tokens(pinned) + Tokens(chosen) + item.tokenCount <= budget {
      TakeItem(pinned, chosen, rules, item, ranked[..i]);
    }
    assert ranked[..i + 1] == ranked[..i] + [item];
  }

  // The greedy pass: walk the ranking and take whatever still fits.
  method FillBudget(pinned: seq<ContextItem>, ranked: seq<ContextItem>, budget: int, rules: seq<PinRule>)
    returns (selected: seq<ContextItem>, used: nat)
    requires forall x :: x in pinned ==> IsPinned(x, rules)
    requires Distinct(pinned) && Tokens(pinned) <= budget
    requires Ranking(ranked, rules)
    ensures used == Tokens(selected) && used <= budget
    ensures Distinct(selected)
    ensures forall x :: x in pinned ==> x in selected
    ensures forall x :: x in selected ==> x in pinned || x in ranked
    ensures forall x :: x in ranked ==> (x in selected <==> Belongs(selected, Tokens(pinned), budget, rules, x))
  {
    hide RanksAhead, IsPinned, Belongs;
    selected := pinned;
    used := Tokens(pinned);
    ghost var chosen: seq<ContextItem> := [];
    for i := 0 to |ranked|
      invariant selected == pinned + chosen && used == Tokens(pinned) + Tokens(chosen)
      invariant Chosen(pinned, chosen, ranked[..i], budget, rules)
    {
      hide Chosen;
      var item := ranked[i];
      NextChoice(pinned, chosen, ranked, i, budget, rules);
      if used + item.tokenCount <= budget {
        SumAppend(chosen, item, TokensOf);
        selected := selected + [item];
        used := used + item.tokenCount;
        chosen := chosen + [item];
      }
    }
    assert ranked[..|ranked|] == ranked;
    SumConcat(pinned, chosen, TokensOf);
    DistinctConcat(pinned, chosen);
  }

  lemma NextIsNew(ranked: seq<ContextItem>, i: nat, rules: seq<PinRule>)
    requires Ranking(ranked, rules) && i < |ranked|
    ensures ranked[i] !in ranked[..i] && !IsPinned(ranked[i], rules)
    ensures forall x :: x in ranked[..i] ==> RanksAhead(x, ranked[i]) && !IsPinned(x, rules)
  {
    assert ranked[i] in ranked;
    forall j | 0 <= j < i ensures ranked[j] != ranked[i] {
      DistinctAt(ranked, j, i);
    }
  }

  lemma TakeItem(pinned: seq<ContextItem>, chosen: seq<ContextItem>, rules: seq<PinRule>, item: ContextItem,
                 before: seq<ContextItem>)
    requires Distinct(chosen) && item !in before
    requires forall x :: x in chosen ==> x in before
    requires forall x :: x in before ==> RanksAhead(x, item)
    ensures Distinct(chosen + [item])
    ensures Tokens(chosen + [item]) == Tokens(chosen) + item.tokenCount
    ensures pinned + (chosen + [item]) == pinned + chosen + [item]
    ensures forall x :: x in before || x == item ==>
      TokensAhead(pinned + (chosen + [item]), rules, x) == TokensAhead(pinned + chosen, rules, x)
  {
    assert pinned + (chosen + [item]) == pinned + chosen + [item];
    AddingBehind(pinned + chosen, rules, item, before);
    SumAppend(pinned + chosen, item, AheadWeight(rules, item));
    SumAppend(chosen, item, TokensOf);
    DistinctConcat(chosen, [item]);
  }

  method TrimResolvedItemsToBudget(items: seq<ContextItem>, tokenBudget: int, pinRules: seq<PinRule>)
    returns (r: TrimResult)
    requires DistinctPositions(items)
    ensures IsTrim(items, tokenBudget, pinRules, r)
    ensures r.Trimmed? ==> r.budgetUsed <= tokenBudget
  {
    DistinctPositionsOf(items);
    PinnedSplit(items, pinRules);
    var totalTokens := Tokens(items);
    if totalTokens <= tokenBudget {
      r := Trimmed(SortBy(items, PositionLeq), totalTokens, false, 0, 0);
      EverythingFits(items, tokenBudget, pinRules, r);
      return;
    }

    var pinned := Filter(items, PinnedBy(pinRules));
    var pinnedTokens := Tokens(pinned);
    if pinnedTokens > tokenBudget {
      return PinnedOverBudget(tokenBudget, pinnedTokens);
    }

    var unpinnedRanked := SortBy(Filter(items, UnpinnedBy(pinRules)), RankLeq);
    RankedFacts(items, pinRules, unpinnedRanked);
    FilterDistinct(items, PinnedBy(pinRules));
    var selected, used := FillBudget(pinned, unpinnedRanked, tokenBudget, pinRules);

    var selectedItems := SortBy(selected, PositionLeq);
    var dropped := Filter(items, OutsideOf(selectedItems));
    r := Trimmed(selectedItems, used, true, CountKind(dropped, Message), CountKind(dropped, Summary));
    OverBudgetDropsSomething(items, selected, tokenBudget);
    SelectionIsTrim(items, tokenBudget, pinRules, selected, r);
  }

  // ---- what the specification implies -----------------------------------------

  lemma DroppedDoesNotFit(items: seq<ContextItem>, budget: int, rules: seq<PinRule>, r: TrimResult, x: ContextItem)
    requires DistinctPositions(items) && IsTrim(items, budget, rules, r) && r.Trimmed?
    requires x in items && x !in r.selected
    ensures !IsPinned(x, rules) && r.budgetUsed + x.tokenCount > budget
  {
    AheadAndPinned(r.selected, rules, x);
    PinnedAllKept(items, budget, rules, r);
  }

  lemma PinnedAllKept(items: seq<ContextItem>, budget: int, rules: seq<PinRule>, r: TrimResult)
    requires DistinctPositions(items) && IsTrim(items, budget, rules, r) && r.Trimmed?
    ensures forall x :: x in items && IsPinned(x, rules) ==> x in r.selected
    ensures PinnedTokens(r.selected, rules) == PinnedTokens(items, rules)
  {
    DistinctPositionsOf(items);
    var dropped := Filter(items, OutsideOf(r.selected));
    SelectionPartition(items, r.selected);
    SumPartition(items, r.selected, dropped, PinnedWeight(rules));
    SumZero(dropped, PinnedWeight(rules));
  }

  // ---- the specification admits one result ------------------------------------

  function AheadOf(rules: seq<PinRule>, item: ContextItem): ContextItem -> bool {
    (s: ContextItem) => !IsPinned(s, rules) && RanksAhead(s, item)
  }

  lemma {:induction false} TokensAheadFiltered(s: seq<ContextItem>, rules: seq<PinRule>, item: ContextItem)
    ensures TokensAhead(s, rules, item) == Tokens(Filter(s, AheadOf(rules, item)))
  {
    if s != [] {
      TokensAheadFiltered(s[1..], rules, item);
    }
  }

  lemma SameAhead(a: seq<ContextItem>, b: seq<ContextItem>, rules: seq<PinRule>, item: ContextItem)
    requires Distinct(a) && Distinct(b)
    requires forall x :: !IsPinned(x, rules) && RanksAhead(x, item) ==> (x in a <==> x in b)
    ensures TokensAhead(a, rules, item) == TokensAhead(b, rules, item)
  {
    var keep := AheadOf(rules, item);
    FilterDistinct(a, keep);
    FilterDistinct(b, keep);
    SameElements(Filter(a, keep), Filter(b, keep));
    SumPermutation(Filter(a, keep), Filter(b, keep), TokensOf);
    TokensAheadFiltered(a, rules, item);
    TokensAheadFiltered(b, rules, item);
  }

  lemma {:induction false} SameMembers(items: seq<ContextItem>, budget: int, rules: seq<PinRule>,
                                       a: seq<ContextItem>, b: seq<ContextItem>,
                                       ranked: seq<ContextItem>, k: nat)
    requires Distinct(a) && Distinct(b) && k <= |ranked| && Ranking(ranked, rules)
    requires forall x :: x in a || x in b ==> x in items
    requires forall x :: x in ranked <==> x in items && !IsPinned(x, rules)
    requires forall x :: x in items ==> (x in a <==> Belongs(a, PinnedTokens(items, rules), budget, rules, x))
    requires forall x :: x in items ==> (x in b <==> Belongs(b, PinnedTokens(items, rules), budget, rules, x))
    ensures forall x :: x in ranked[..k] ==> (x in a <==> x in b)
  {
    if k > 0 {
      SameMembers(items, budget, rules, a, b, ranked, k - 1);
      var item := ranked[k - 1];
      assert item in ranked && ranked[..k] == ranked[..k - 1] + [item];
      forall x | !IsPinned(x, rules) && RanksAhead(x, item) ensures x in a <==> x in b {
        if x in ranked {
          var j :| 0 <= j < |ranked| && ranked[j] == x;
          assert j < k - 1;
          assert x == ranked[..k - 1][j];
        }
      }
      SameAhead(a, b, rules, item);
    }
  }

  lemma SameSelection(items: seq<ContextItem>, budget: int, rules: seq<PinRule>,
                      a: seq<ContextItem>, b: seq<ContextItem>)
    requires DistinctPositions(items) && Distinct(a) && Distinct(b)
    requires forall x :: x in a || x in b ==> x in items
    requires forall x :: x in items ==> (x in a <==> Belongs(a, PinnedTokens(items, rules), budget, rules, x))
    requires forall x :: x in items ==> (x in b <==> Belongs(b, PinnedTokens(items, rules), budget, rules, x))
    ensures multiset(a) == multiset(b)
  {
    var ranked := SortBy(Filter(items, UnpinnedBy(rules)), RankLeq);
    RankedFacts(items, rules, ranked);
    SameMembers(items, budget, rules, a, b, ranked, |ranked|);
    assert ranked[..|ranked|] == ranked;
    forall x ensures x in a <==> x in b {
      if x in items && !IsPinned(x, rules) {
        assert x in ranked;
      }
    }
    SameElements(a, b);
  }

  lemma PositionsAntisymmetric(items: seq<ContextItem>, s: seq<ContextItem>)
    requires DistinctPositions(items) && forall x :: x in s ==> x in items
    ensures AntisymmetricOn(s, PositionLeq)
  {
    forall x, y | x in s && y in s && PositionLeq(x, y) && PositionLeq(y, x) ensures x == y {
      SamePosition(items, x, y);
    }
  }

  lemma TrimUnique(items: seq<ContextItem>, budget: int, rules: seq<PinRule>, r: TrimResult, q: TrimResult)
    requires DistinctPositions(items)
    requires IsTrim(items, budget, rules, r) && IsTrim(items, budget, rules, q)
    ensures r == q
  {
    if r.Trimmed? {
      SameSelection(items, budget, rules, r.selected, q.selected);
      PositionsAntisymmetric(items, r.selected);
      SortedUnique(r.selected, q.selected, PositionLeq);
    }
  }
}
