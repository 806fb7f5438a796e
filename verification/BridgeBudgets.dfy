// Token budgets a bridge summary may be fitted to beside the selected base context.
module BridgeBudgets {
  import opened Sequences
  import opened ContextItems

  const MAX_BRIDGE_BASE_SLACK_TOKENS := 128
  const MAX_BRIDGE_BASE_SLACK_UNITS := 2

  // Messages first, then the more recent, then the larger.
  predicate SlackLeq(a: ContextItem, b: ContextItem) {
    if a.kind != b.kind then a.kind.Message?
    else if a.recencyScore != b.recencyScore then a.recencyScore > b.recencyScore
    else a.tokenCount >= b.tokenCount
  }

  // Summaries first, then the less recent, then the smaller.
  predicate ReclaimLeq(a: ContextItem, b: ContextItem) {
    if a.kind != b.kind then a.kind.Summary?
    else if a.recencyScore != b.recencyScore then a.recencyScore < b.recencyScore
    else a.tokenCount <= b.tokenCount
  }

  function ReclaimOrder(selected: seq<ContextItem>, rules: seq<PinRule>): seq<ContextItem> {
    SortBy(Filter(selected, UnpinnedBy(rules)), ReclaimLeq)
  }

  // ---- fit budgets --------------------------------------------------------------

  // What is free once the first k reclaimable items have been given up.
  function FreeAfter(selected: seq<ContextItem>, rules: seq<PinRule>, available: int, k: nat): int
    requires k <= |ReclaimOrder(selected, rules)|
  {
    available - Tokens(selected) + Tokens(ReclaimOrder(selected, rules)[..k])
  }

  ghost predicate StrictlyIncreasing(s: seq<int>) {
    forall i, j :: 0 <= i < j < |s| ==> s[i] < s[j]
  }

  // The budgets are exactly the positive amounts freed by giving up a prefix of the reclaim order.
  ghost predicate IsFitBudgets(selected: seq<ContextItem>, rules: seq<PinRule>, available: int, budgets: seq<int>) {
    && StrictlyIncreasing(budgets)
    && (forall b :: b in budgets <==>
        b > 0 && FreedWithin(selected, rules, available, |ReclaimOrder(selected, rules)|, b))
  }

  ghost predicate FreedWithin(selected: seq<ContextItem>, rules: seq<PinRule>, available: int, n: nat, b: int)
    requires n <= |ReclaimOrder(selected, rules)|
  {
    exists k: nat :: k <= n && b == FreeAfter(selected, rules, available, k)
  }

  lemma ReclaimSplit(selected: seq<ContextItem>, rules: seq<PinRule>)
    ensures Tokens(selected) == PinnedTokens(selected, rules) + Tokens(ReclaimOrder(selected, rules))
  {
    var pinned, unpinned := Filter(selected, PinnedBy(rules)), Filter(selected, UnpinnedBy(rules));
    PinnedSplit(selected, rules);
    SumPartition(selected, pinned, unpinned, TokensOf);
    SumPermutation(unpinned, ReclaimOrder(selected, rules), TokensOf);
  }

  lemma FreeGrows(selected: seq<ContextItem>, rules: seq<PinRule>, available: int, j: nat, k: nat)
    requires j <= k <= |ReclaimOrder(selected, rules)|
    ensures FreeAfter(selected, rules, available, j) <= FreeAfter(selected, rules, available, k)
  {
    var order := ReclaimOrder(selected, rules);
    assert order[..k] == order[..j] + order[j..k];
    SumConcat(order[..j], order[j..k], TokensOf);
  }

  // The last budget gives up everything but the pinned items.
  lemma LastFitBudget(selected: seq<ContextItem>, rules: seq<PinRule>, available: int, budgets: seq<int>)
    requires IsFitBudgets(selected, rules, available, budgets)
    ensures budgets == [] <==> available <= PinnedTokens(selected, rules)
    ensures budgets != [] ==> budgets[|budgets| - 1] == available - PinnedTokens(selected, rules)
    ensures forall b :: b in budgets ==> 0 < b <= available - PinnedTokens(selected, rules)
  {
    var order := ReclaimOrder(selected, rules);
    ReclaimSplit(selected, rules);
    assert order[..|order|] == order;
    var last := FreeAfter(selected, rules, available, |order|);
    forall b | b in budgets ensures 0 < b <= last {
      var k: nat :| k <= |order| && b == FreeAfter(selected, rules, available, k);
      FreeGrows(selected, rules, available, k, |order|);
    }
    assert budgets != [] ==> budgets[0] in budgets;
    if last > 0 {
      assert last in budgets;
      var i :| 0 <= i < |budgets| && budgets[i] == last;
      assert budgets[|budgets| - 1] in budgets;
    }
  }

  lemma FreedStep(selected: seq<ContextItem>, rules: seq<PinRule>, available: int, n: nat)
    requires n < |ReclaimOrder(selected, rules)|
    ensures forall b :: FreedWithin(selected, rules, available, n + 1, b) <==>
      FreedWithin(selected, rules, available, n, b) || b == FreeAfter(selected, rules, available, n + 1)
  {
    forall b ensures FreedWithin(selected, rules, available, n + 1, b) <==>
      FreedWithin(selected, rules, available, n, b) || b == FreeAfter(selected, rules, available, n + 1)
    {
    }
  }

  predicate IntLeq(a: int, b: int) { a <= b }

  lemma FitBudgetsUnique(selected: seq<ContextItem>, rules: seq<PinRule>, available: int, a: seq<int>, b: seq<int>)
    requires IsFitBudgets(selected, rules, available, a) && IsFitBudgets(selected, rules, available, b)
    ensures a == b
  {
    PairwiseDistinct(a);
    PairwiseDistinct(b);
    forall x ensures x in a <==> x in b {
    }
    SameElements(a, b);
    SortedUnique(a, b, IntLeq);
  }

  // The budgets found after the first n items of the reclaim order.
  ghost predicate FoundWithin(selected: seq<ContextItem>, rules: seq<PinRule>, available: int, n: nat,
                              budgets: seq<int>)
    requires n <= |ReclaimOrder(selected, rules)|
  {
    StrictlyIncreasing(budgets) && forall b :: b in budgets <==> b > 0 && FreedWithin(selected, rules, available, n, b)
  }

  lemma NextBudget(selected: seq<ContextItem>, rules: seq<PinRule>, available: int, n: nat, budgets: seq<int>)
    requires n < |ReclaimOrder(selected, rules)| && FoundWithin(selected, rules, available, n, budgets)
    ensures var freed := FreeAfter(selected, rules, available, n + 1);
      FoundWithin(selected, rules, available, n + 1,
                  if freed > 0 && freed !in budgets then budgets + [freed] else budgets)
  {
    var freed := FreeAfter(selected, rules, available, n + 1);
    FreedStep(selected, rules, available, n);
    forall b | b in budgets ensures b <= freed {
      var k: nat :| k <= n && b == FreeAfter(selected, rules, available, k);
      FreeGrows(selected, rules, available, k, n + 1);
    }
    hide FreedWithin;
    assert forall j :: 0 <= j < |budgets| ==> budgets[j] in budgets;
  }

  method GetBridgeFitBudgets(selected: seq<ContextItem>, rules: seq<PinRule>, available: int)
    returns (budgets: seq<int>)
    ensures IsFitBudgets(selected, rules, available, budgets)
  {
    hide FoundWithin, FreeAfter, ReclaimOrder;
    var order := ReclaimOrder(selected, rules);
    var retained: int := Tokens(selected);
    var seen: set<int> := {};
    budgets := [];
    NothingReclaimed(selected, rules, available);
    if available - retained > 0 {
      seen := seen + {available - retained};
      budgets := [available - retained];
    }
    for i := 0 to |order|
      invariant available - retained == FreeAfter(selected, rules, available, i)
      invariant forall b :: b in seen <==> b in budgets
      invariant FoundWithin(selected, rules, available, i, budgets)
    {
      OneMoreReclaimed(selected, rules, available, i);
      NextBudget(selected, rules, available, i, budgets);
      retained := retained - order[i].tokenCount;
      var tokenBudget := available - retained;
      if tokenBudget > 0 && tokenBudget !in seen {
        seen := seen + {tokenBudget};
        budgets := budgets + [tokenBudget];
      }
    }
    AllReclaimed(selected, rules, available, budgets);
  }

  lemma NothingReclaimed(selected: seq<ContextItem>, rules: seq<PinRule>, available: int)
    ensures FreeAfter(selected, rules, available, 0) == available - Tokens(selected)
    ensures var free := available - Tokens(selected);
      FoundWithin(selected, rules, available, 0, if free > 0 then [free] else [])
  {
    assert ReclaimOrder(selected, rules)[..0] == [];
    assert forall b :: FreedWithin(selected, rules, available, 0, b) <==> b == FreeAfter(selected, rules, available, 0);
  }

  lemma OneMoreReclaimed(selected: seq<ContextItem>, rules: seq<PinRule>, available: int, i: nat)
    requires i < |ReclaimOrder(selected, rules)|
    ensures FreeAfter(selected, rules, available, i + 1)
         == FreeAfter(selected, rules, available, i) + ReclaimOrder(selected, rules)[i].tokenCount
  {
    var order := ReclaimOrder(selected, rules);
    PrefixStep(order, i);
    SumAppend(order[..i], order[i], TokensOf);
  }

  lemma AllReclaimed(selected: seq<ContextItem>, rules: seq<PinRule>, available: int, budgets: seq<int>)
    requires FoundWithin(selected, rules, available, |ReclaimOrder(selected, rules)|, budgets)
    ensures IsFitBudgets(selected, rules, available, budgets)
  {
  }

  // ---- the budget a bridge is preferably chosen for ------------------------------

  function SlackOrder(selected: seq<ContextItem>, rules: seq<PinRule>): seq<ContextItem> {
    SortBy(Filter(selected, UnpinnedBy(rules)), SlackLeq)
  }

  // At most two items, at most 128 tokens, skipping what would overshoot.
  function BorrowedSlack(candidates: seq<ContextItem>, slack: nat, units: nat): nat {
    if candidates == [] || units >= MAX_BRIDGE_BASE_SLACK_UNITS then slack
    else if slack + candidates[0].tokenCount > MAX_BRIDGE_BASE_SLACK_TOKENS
    then BorrowedSlack(candidates[1..], slack, units)
    else BorrowedSlack(candidates[1..], slack + candidates[0].tokenCount, units + 1)
  }

  // The sizes of some of the candidates, within both limits.
  ghost predicate Borrowable(candidates: seq<ContextItem>, taken: seq<ContextItem>, slack: nat, units: nat) {
    && multiset(taken) <= multiset(candidates) && units + |taken| <= MAX_BRIDGE_BASE_SLACK_UNITS
    && slack + Tokens(taken) <= MAX_BRIDGE_BASE_SLACK_TOKENS
  }

  lemma {:induction false} SlackItems(candidates: seq<ContextItem>, slack: nat, units: nat)
    returns (taken: seq<ContextItem>)
    requires slack <= MAX_BRIDGE_BASE_SLACK_TOKENS && units <= MAX_BRIDGE_BASE_SLACK_UNITS
    ensures Borrowable(candidates, taken, slack, units)
      && BorrowedSlack(candidates, slack, units) == slack + Tokens(taken)
  {
    if candidates == [] || units >= MAX_BRIDGE_BASE_SLACK_UNITS {
      taken := [];
    } else {
      assert candidates == [candidates[0]] + candidates[1..];
      if slack + candidates[0].tokenCount > MAX_BRIDGE_BASE_SLACK_TOKENS {
        taken := SlackItems(candidates[1..], slack, units);
      } else {
        taken := SlackItems(candidates[1..], slack + candidates[0].tokenCount, units + 1);
        taken := [candidates[0]] + taken;
      }
    }
  }

  lemma {:induction false} SlackBounds(candidates: seq<ContextItem>, slack: nat, units: nat)
    requires slack <= MAX_BRIDGE_BASE_SLACK_TOKENS
    ensures slack <= BorrowedSlack(candidates, slack, units) <= MAX_BRIDGE_BASE_SLACK_TOKENS
    ensures BorrowedSlack(candidates, slack, units) <= slack + Tokens(candidates)
  {
    if candidates != [] && units < MAX_BRIDGE_BASE_SLACK_UNITS {
      if slack + candidates[0].tokenCount > MAX_BRIDGE_BASE_SLACK_TOKENS {
        SlackBounds(candidates[1..], slack, units);
      } else {
        SlackBounds(candidates[1..], slack + candidates[0].tokenCount, units + 1);
      }
    }
  }

  method GetBridgeSelectionBudget(retrievalReserve: nat, selected: seq<ContextItem>, rules: seq<PinRule>)
    returns (budget: nat)
    ensures budget == retrievalReserve + BorrowedSlack(SlackOrder(selected, rules), 0, 0)
    ensures exists taken ::
      Borrowable(SlackOrder(selected, rules), taken, 0, 0) && budget == retrievalReserve + Tokens(taken)
  {
    hide Borrowable, SlackOrder, Tokens;
    ghost var borrowed := SlackItems(SlackOrder(selected, rules), 0, 0);
    var candidates := SlackOrder(selected, rules);
    var extraSlack: nat, usedUnits: nat := 0, 0;
    for i := 0 to |candidates|
      invariant BorrowedSlack(candidates[i..], extraSlack, usedUnits) == BorrowedSlack(candidates, 0, 0)
    {
      if usedUnits >= MAX_BRIDGE_BASE_SLACK_UNITS {
        break;
      }
      assert candidates[i..][1..] == candidates[i + 1..];
      if extraSlack + candidates[i].tokenCount <= MAX_BRIDGE_BASE_SLACK_TOKENS {
        extraSlack := extraSlack + candidates[i].tokenCount;
        usedUnits := usedUnits + 1;
      }
    }
    budget := retrievalReserve + extraSlack;
  }

  // The preferred budget never exceeds the last fit budget, so taking the minimum of the two
  // (materialize-context.ts:1582, 1599, 1616) always yields the preferred one.
  lemma PreferredWithinLastFit(selected: seq<ContextItem>, rules: seq<PinRule>, available: int, reserve: nat)
    requires Tokens(selected) <= available - reserve
    ensures reserve + BorrowedSlack(SlackOrder(selected, rules), 0, 0) <= available - PinnedTokens(selected, rules)
  {
    var unpinned := Filter(selected, UnpinnedBy(rules));
    PinnedSplit(selected, rules);
    SumPartition(selected, Filter(selected, PinnedBy(rules)), unpinned, TokensOf);
    SumPermutation(unpinned, SlackOrder(selected, rules), TokensOf);
    SlackBounds(SlackOrder(selected, rules), 0, 0);
  }
}
