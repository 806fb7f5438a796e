// Selecting benchmark examples from the categories in turn.
module RoundRobin {
  import opened Sequences

  datatype Example = Example(id: string, category: int)

  const CATEGORIES := 5

  function OfCategory(category: int): Example -> bool {
    (e: Example) => e.category == category
  }

  // Categories are numbered from one.
  function Bucket(examples: seq<Example>, c: nat): seq<Example> {
    Filter(examples, OfCategory(c + 1))
  }

  // What turn k contributes: in its round, the next example of the category whose turn it is.
  function Turn(examples: seq<Example>, k: nat): seq<Example> {
    var bucket := Bucket(examples, k % CATEGORIES);
    if k / CATEGORIES < |bucket| then [bucket[k / CATEGORIES]] else []
  }

  function Turns(examples: seq<Example>, k: nat): seq<Example> {
    if k == 0 then [] else Turns(examples, k - 1) + Turn(examples, k - 1)
  }

  // All turns: later rounds are empty.
  function Interleaved(examples: seq<Example>): seq<Example> {
    Turns(examples, CATEGORIES * |examples|)
  }

  function Selection(examples: seq<Example>, maxExamples: int): seq<Example> {
    if maxExamples >= |examples| then examples
    else
      var all := Interleaved(examples);
      if maxExamples <= 0 then [] else all[..Min(maxExamples, |all|)]
  }

  lemma {:induction false} TurnsGrow(examples: seq<Example>, j: nat, k: nat)
    requires j <= k
    ensures Turns(examples, j) <= Turns(examples, k)
  {
    if j < k {
      TurnsGrow(examples, j, k - 1);
    }
  }

  lemma LaterRound(j: nat, k: nat)
    requires j <= k
    ensures j / CATEGORIES <= k / CATEGORIES
  {
  }

  // Once a whole round has been empty, so are all later ones.
  lemma {:induction false} NothingLeft(examples: seq<Example>, j: nat, k: nat)
    requires j <= k && forall c :: 0 <= c < CATEGORIES ==> |Bucket(examples, c)| <= j / CATEGORIES
    ensures Turns(examples, k) == Turns(examples, j)
  {
    hide Bucket;
    if j < k {
      NothingLeft(examples, j, k - 1);
      LaterRound(j, k - 1);
    }
  }

  lemma SelectionIsTurns(examples: seq<Example>, maxExamples: int, k: nat)
    requires maxExamples < |examples|
    requires |Turns(examples, k)| == maxExamples
      || (|Turns(examples, k)| < maxExamples
          && forall c :: 0 <= c < CATEGORIES ==> |Bucket(examples, c)| <= k / CATEGORIES)
    ensures Selection(examples, maxExamples) == Turns(examples, k)
  {
    var n := CATEGORIES * |examples|;
    if |Turns(examples, k)| == maxExamples {
      if k <= n {
        TurnsGrow(examples, k, n);
      } else {
        assert n / CATEGORIES == |examples|;
        NothingLeft(examples, n, k);
      }
    } else if k <= n {
      NothingLeft(examples, k, n);
    } else {
      assert n / CATEGORIES == |examples|;
      NothingLeft(examples, n, k);
    }
  }

  function Buckets(examples: seq<Example>): seq<seq<Example>> {
    seq(CATEGORIES, c requires 0 <= c < CATEGORIES => Bucket(examples, c))
  }

  // The buckets after the first c turns of a round.
  ghost predicate Shifted(examples: seq<Example>, buckets: seq<seq<Example>>, round: nat, c: nat) {
    && |buckets| == CATEGORIES
    && forall d :: 0 <= d < CATEGORIES ==> buckets[d] == Rest(Bucket(examples, d), if d < c then round + 1 else round)
  }

  // No bucket had anything for the first c turns of a round.
  ghost predicate Exhausted(examples: seq<Example>, round: nat, c: nat) {
    forall d :: 0 <= d < c ==> |Bucket(examples, d)| <= round
  }

  method SelectRoundRobinByCategory(examples: seq<Example>, maxExamples: int) returns (selected: seq<Example>)
    ensures selected == Selection(examples, maxExamples)
  {
    if maxExamples >= |examples| {
      return examples;
    }
    var buckets := Buckets(examples);
    selected := [];
    if maxExamples <= 0 {
      return;
    }
    hide Buckets, Shifted, Exhausted, Turn, Turns, Selection;
    ghost var round: nat := 0;
    NothingTaken(examples);
    while |selected| < maxExamples
      invariant |selected| <= maxExamples
      invariant |selected| < maxExamples ==>
        selected == Turns(examples, CATEGORIES * round) && Shifted(examples, buckets, round, 0)
      invariant |selected| == maxExamples ==> selected == Selection(examples, maxExamples)
      decreases maxExamples - |selected|
    {
      var before := |selected|;
      buckets, selected := PlayRound(examples, maxExamples, round, buckets, selected);
      if |selected| == before {
        NothingTakenInRound(examples, maxExamples, round);
        break;
      }
      round := round + 1;
    }
  }

  method PlayRound(ghost examples: seq<Example>, maxExamples: nat, ghost round: nat, buckets: seq<seq<Example>>,
                   selected: seq<Example>)
    returns (left: seq<seq<Example>>, now: seq<Example>)
    requires |selected| < maxExamples < |examples|
    requires selected == Turns(examples, CATEGORIES * round) && Shifted(examples, buckets, round, 0)
    ensures |selected| <= |now| <= maxExamples
    ensures |now| == maxExamples ==> now == Selection(examples, maxExamples)
    ensures |now| < maxExamples ==>
      now == Turns(examples, CATEGORIES * (round + 1)) && Shifted(examples, left, round + 1, 0)
    ensures |now| == |selected| ==> now == selected && Exhausted(examples, round, CATEGORIES)
  {
    hide Bucket, Turn, Turns, Selection;
    left, now := buckets, selected;
    for c := 0 to CATEGORIES
      invariant |selected| <= |now| < maxExamples && now == Turns(examples, CATEGORIES * round + c)
      invariant Shifted(examples, left, round, c)
      invariant |now| == |selected| ==> now == selected && Exhausted(examples, round, c)
    {
      TurnOf(examples, round, c);
      var bucket := left[c];
      if bucket == [] {
        continue;
      }
      RestStep(Bucket(examples, c), round);
      now := now + [bucket[0]];
      left := left[c := bucket[1..]];
      if |now| >= maxExamples {
        SelectionIsTurns(examples, maxExamples, CATEGORIES * round + c + 1);
        return;
      }
    }
  }

  function Rest(s: seq<Example>, n: nat): seq<Example> {
    if n <= |s| then s[n..] else []
  }

  lemma RestStep(s: seq<Example>, n: nat)
    requires Rest(s, n) != []
    ensures n < |s| && Rest(s, n)[0] == s[n] && Rest(s, n)[1..] == Rest(s, n + 1)
  {
  }

  lemma NothingTaken(examples: seq<Example>)
    ensures Turns(examples, CATEGORIES * 0) == [] && Shifted(examples, Buckets(examples), 0, 0)
  {
  }

  // A round without progress is the end.
  lemma NothingTakenInRound(examples: seq<Example>, maxExamples: int, round: nat)
    requires maxExamples < |examples| && |Turns(examples, CATEGORIES * round)| < maxExamples
      && Exhausted(examples, round, CATEGORIES)
    ensures Selection(examples, maxExamples) == Turns(examples, CATEGORIES * round)
  {
    hide Bucket, Turns, Selection;
    SelectionIsTurns(examples, maxExamples, CATEGORIES * round);
  }

  lemma TurnOf(examples: seq<Example>, round: nat, c: nat)
    requires c < CATEGORIES
    ensures Turns(examples, CATEGORIES * round + c + 1)
      == Turns(examples, CATEGORIES * round + c) + Turn(examples, CATEGORIES * round + c)
    ensures var bucket := Bucket(examples, c);
      Turn(examples, CATEGORIES * round + c) == if round < |bucket| then [bucket[round]] else []
  {
    assert (CATEGORIES * round + c) % CATEGORIES == c && (CATEGORIES * round + c) / CATEGORIES == round;
  }

  // ---- what a selection is ------------------------------------------------------------------------

  // How many turns category c has had among the first k.
  function TurnsHad(k: nat, c: nat): nat
    requires c < CATEGORIES
  {
    (k + CATEGORIES - 1 - c) / CATEGORIES
  }

  lemma TurnsHadStep(k: nat, c: nat)
    requires c < CATEGORIES && k > 0
    ensures TurnsHad(k, c) == TurnsHad(k - 1, c) + if (k - 1) % CATEGORIES == c then 1 else 0
    ensures (k - 1) % CATEGORIES == c ==> TurnsHad(k - 1, c) == (k - 1) / CATEGORIES
  {
    var q, r := (k - 1) / CATEGORIES, (k - 1) % CATEGORIES;
    assert k - 1 == CATEGORIES * q + r;
  }

  lemma TurnCategory(examples: seq<Example>, k: nat, c: nat)
    requires c < CATEGORIES
    ensures Filter(Turn(examples, k), OfCategory(c + 1)) == if k % CATEGORIES == c then Turn(examples, k) else []
  {
    var turn := Turn(examples, k);
    if turn != [] {
      assert turn[0] in Bucket(examples, k % CATEGORIES);
      assert turn == [turn[0]] && turn[1..] == [];
    }
  }

  lemma {:induction false} CategoryOfTurns(examples: seq<Example>, k: nat, c: nat)
    requires c < CATEGORIES
    ensures var bucket := Bucket(examples, c);
      Filter(Turns(examples, k), OfCategory(c + 1)) == bucket[..Min(|bucket|, TurnsHad(k, c))]
  {
    hide Filter, Bucket, TurnsHad;
    if k == 0 {
      NoTurnsHad(c);
      FilterNone(Turns(examples, 0), OfCategory(c + 1));
    } else {
      CategoryOfTurns(examples, k - 1, c);
      FilterConcat(Turns(examples, k - 1), Turn(examples, k - 1), OfCategory(c + 1));
      TurnCategory(examples, k - 1, c);
      TurnsHadStep(k, c);
    }
  }

  lemma NoTurnsHad(c: nat)
    requires c < CATEGORIES
    ensures TurnsHad(0, c) == 0
  {
  }

  // Any first part of the turns ends with some turn.
  lemma {:induction false} CutAtTurn(examples: seq<Example>, k: nat, m: nat) returns (j: nat)
    requires m <= |Turns(examples, k)|
    ensures Turns(examples, j) == Turns(examples, k)[..m]
  {
    if |Turns(examples, k)| == m {
      j := k;
    } else {
      j := CutAtTurn(examples, k - 1, m);
    }
  }

  // A truncated selection takes a first part of each category, in the original order, and a category
  // that is behind another one by more than one example is used up.
  lemma SelectionIsFair(examples: seq<Example>, maxExamples: int, c: nat, d: nat)
    requires maxExamples < |examples| && c < CATEGORIES && d < CATEGORIES
    ensures var r := Selection(examples, maxExamples);
      && Filter(r, OfCategory(c + 1)) <= Bucket(examples, c)
      && (|Filter(r, OfCategory(c + 1))| < |Filter(r, OfCategory(d + 1))| - 1
          ==> Filter(r, OfCategory(c + 1)) == Bucket(examples, c))
  {
    var all := Interleaved(examples);
    var j := CutAtTurn(examples, CATEGORIES * |examples|, if maxExamples <= 0 then 0 else Min(maxExamples, |all|));
    assert Selection(examples, maxExamples) == Turns(examples, j);
    CategoryOfTurns(examples, j, c);
    CategoryOfTurns(examples, j, d);
  }

  function InRange(e: Example): bool { 1 <= e.category <= CATEGORIES }

  lemma {:induction false} TurnsInRange(examples: seq<Example>, k: nat)
    ensures forall e :: e in Turns(examples, k) ==> InRange(e)
  {
    if k > 0 {
      TurnsInRange(examples, k - 1);
      forall e | e in Turn(examples, k - 1) ensures InRange(e) {
        assert e in Bucket(examples, (k - 1) % CATEGORIES);
      }
    }
  }

  // Everything with a known category gets its turn, as often as it occurs.
  lemma InterleavedElements(examples: seq<Example>)
    ensures multiset(Interleaved(examples)) == multiset(Filter(examples, InRange))
  {
    var n := CATEGORIES * |examples|;
    TurnsInRange(examples, n);
    forall e ensures multiset(Interleaved(examples))[e] == multiset(Filter(examples, InRange))[e] {
      FilterCount(examples, InRange, e);
      assert e in Interleaved(examples) <==> e in multiset(Interleaved(examples));
      if InRange(e) {
        var c := e.category - 1;
        CategoryOfTurns(examples, n, c);
        assert TurnsHad(n, c) >= |examples| >= |Bucket(examples, c)|;
        assert Filter(Turns(examples, n), OfCategory(c + 1)) == Bucket(examples, c);
        FilterCount(Turns(examples, n), OfCategory(c + 1), e);
        FilterCount(examples, OfCategory(c + 1), e);
      }
    }
  }

  lemma MultisetPrefix(s: seq<Example>, m: nat)
    requires m <= |s|
    ensures multiset(s[..m]) <= multiset(s)
  {
    assert s == s[..m] + s[m..];
  }

  // As many examples as asked for or available, none more often than it was given.
  lemma SelectionSize(examples: seq<Example>, maxExamples: nat)
    ensures var r := Selection(examples, maxExamples);
      && multiset(r) <= multiset(examples)
      && (maxExamples < |examples| ==> |r| == Min(maxExamples, |Filter(examples, InRange)|))
      && ((forall e :: e in examples ==> InRange(e)) ==> |r| == Min(maxExamples, |examples|))
  {
    var all := Interleaved(examples);
    InterleavedElements(examples);
    assert |multiset(all)| == |multiset(Filter(examples, InRange))|;
    forall e ensures multiset(all)[e] <= multiset(examples)[e] {
      FilterCount(examples, InRange, e);
    }
    if maxExamples < |examples| {
      MultisetPrefix(all, Min(maxExamples, |all|));
    }
    if forall e :: e in examples ==> InRange(e) {
      FilterAll(examples, InRange);
    }
  }
}
