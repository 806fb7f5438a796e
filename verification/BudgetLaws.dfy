// In which order base items make room for a bridge, and how much they lend it.
module BudgetLaws {
  import opened Sequences
  import opened ContextItems
  import opened BridgeBudgets

  // Summaries are given up before messages, then the less recent item, then the smaller one.
  predicate GivenUpBefore(a: ContextItem, b: ContextItem) {
    || (a.kind.Summary? && b.kind.Message?)
    || (&& a.kind == b.kind
        && (|| a.recencyScore < b.recencyScore
            || (a.recencyScore == b.recencyScore && a.tokenCount <= b.tokenCount)))
  }

  // Messages lend before summaries, then the more recent item, then the larger one.
  predicate LendsBefore(a: ContextItem, b: ContextItem) {
    || (a.kind.Message? && b.kind.Summary?)
    || (&& a.kind == b.kind
        && (|| a.recencyScore > b.recencyScore
            || (a.recencyScore == b.recencyScore && a.tokenCount >= b.tokenCount)))
  }

  lemma OrdersAreTotal()
    ensures TotalPreorder(ReclaimLeq) && TotalPreorder(SlackLeq)
  {
  }

  // Only unpinned items make room, all of them, in that order.
  lemma ReclaimOrderIs(selected: seq<ContextItem>, rules: seq<PinRule>)
    ensures var order := ReclaimOrder(selected, rules);
      && multiset(order) == multiset(Filter(selected, UnpinnedBy(rules)))
      && forall i, j :: 0 <= i < j < |order| ==> GivenUpBefore(order[i], order[j])
  {
    hide TotalPreorder;
    OrdersAreTotal();
    SortSorts(Filter(selected, UnpinnedBy(rules)), ReclaimLeq);
    var order := ReclaimOrder(selected, rules);
    forall i, j | 0 <= i < j < |order| ensures GivenUpBefore(order[i], order[j]) {
      assert ReclaimLeq(order[i], order[j]);
    }
  }

  lemma SlackOrderIs(selected: seq<ContextItem>, rules: seq<PinRule>)
    ensures var order := SlackOrder(selected, rules);
      && multiset(order) == multiset(Filter(selected, UnpinnedBy(rules)))
      && forall i, j :: 0 <= i < j < |order| ==> LendsBefore(order[i], order[j])
  {
    hide TotalPreorder;
    OrdersAreTotal();
    SortSorts(Filter(selected, UnpinnedBy(rules)), SlackLeq);
    var order := SlackOrder(selected, rules);
    forall i, j | 0 <= i < j < |order| ensures LendsBefore(order[i], order[j]) {
      assert SlackLeq(order[i], order[j]);
    }
  }

  // ---- what is borrowed ------------------------------------------------------------------------

  function Lenders(items: seq<ContextItem>, lends: seq<bool>): (r: seq<ContextItem>)
    requires |lends| == |items|
    ensures |r| <= |items|
  {
    if items == [] then []
    else Lenders(Front(items), Front(lends)) + if Last(lends) then [Last(items)] else []
  }

  // An item lends its size if and only if fewer than two do before it and their total stays within 128 tokens.
  ghost predicate LendsInTurn(items: seq<ContextItem>, lends: seq<bool>, k: nat)
    requires |lends| == |items| && k < |items|
  {
    var before := Lenders(items[..k], lends[..k]);
    lends[k] <==> |before| < 2 && Tokens(before) + items[k].tokenCount <= 128
  }

  ghost predicate AllInTurn(items: seq<ContextItem>, lends: seq<bool>) {
    |lends| == |items| && forall k :: 0 <= k < |items| ==> LendsInTurn(items, lends, k)
  }

  lemma NextLender(items: seq<ContextItem>, lends: seq<bool>, i: nat, lend: bool)
    requires i < |items| && |lends| == i
    ensures Lenders(items[..i + 1], lends + [lend]) == Lenders(items[..i], lends) + if lend then [items[i]] else []
  {
    assert Front(items[..i + 1]) == items[..i] && Front(lends + [lend]) == lends;
  }

  lemma NoMoreLenders(rest: seq<ContextItem>, slack: nat, units: nat)
    requires units >= 2
    ensures BorrowedSlack(rest, slack, units) == slack
  {
  }

  lemma SlackStep(items: seq<ContextItem>, i: nat, slack: nat, units: nat)
    requires i < |items|
    ensures BorrowedSlack(items[i..], slack, units)
      == if units < 2 && slack + items[i].tokenCount <= 128
         then BorrowedSlack(items[i + 1..], slack + items[i].tokenCount, units + 1)
         else BorrowedSlack(items[i + 1..], slack, units)
  {
    assert items[i..][0] == items[i] && items[i..][1..] == items[i + 1..];
    if units >= 2 {
      NoMoreLenders(items[i..], slack, units);
      NoMoreLenders(items[i + 1..], slack, units);
    }
  }

  lemma TurnsStay(items: seq<ContextItem>, lends: seq<bool>, i: nat, lend: bool)
    requires i < |items| && AllInTurn(items[..i], lends)
    requires var before := Lenders(items[..i], lends);
      lend <==> |before| < 2 && Tokens(before) + items[i].tokenCount <= 128
    ensures AllInTurn(items[..i + 1], lends + [lend])
  {
    hide Lenders, Tokens;
    var ahead, next := items[..i + 1], lends + [lend];
    forall k | 0 <= k <= i ensures LendsInTurn(ahead, next, k) {
      assert ahead[..k] == items[..k] && next[..k] == if k < i then lends[..k] else lends;
      if k < i {
        assert LendsInTurn(items[..i], lends, k) && items[..i][..k] == items[..k];
      }
    }
  }

  // What is borrowed is lent greedily, in the given order, by at most two items.
  lemma BorrowedIs(items: seq<ContextItem>) returns (lends: seq<bool>)
    ensures AllInTurn(items, lends)
    ensures BorrowedSlack(items, 0, 0) == Tokens(Lenders(items, lends))
  {
    lends := [];
    assert items[..0] == [] && items[0..] == items;
    for i := 0 to |items|
      invariant AllInTurn(items[..i], lends)
      invariant BorrowedSlack(items, 0, 0)
             == BorrowedSlack(items[i..], Tokens(Lenders(items[..i], lends)), |Lenders(items[..i], lends)|)
    {
      hide BorrowedSlack, Lenders, Tokens;
      var before := Lenders(items[..i], lends);
      var lend := |before| < 2 && Tokens(before) + items[i].tokenCount <= 128;
      SlackStep(items, i, Tokens(before), |before|);
      NextLender(items, lends, i, lend);
      OneMoreToken(before, items[i]);
      TurnsStay(items, lends, i, lend);
      lends := lends + [lend];
    }
    assert items[..|items|] == items;
  }

  lemma OneMoreToken(items: seq<ContextItem>, item: ContextItem)
    ensures Tokens(items + [item]) == Tokens(items) + item.tokenCount
    ensures items + [] == items
  {
    SumAppend(items, item, TokensOf);
  }
}
