// Sums, filters and the stable sort shared by the other modules.
module Sequences {

  datatype Option<+T> = None | Some(value: T)

  function Min(a: int, b: int): int { if a <= b then a else b }

  function Max(a: int, b: int): int { if a >= b then a else b }

  function Last<T>(s: seq<T>): T
    requires s != []
  {
    s[|s| - 1]
  }

  function Front<T>(s: seq<T>): seq<T>
    requires s != []
  {
    s[..|s| - 1]
  }

  // ---- sums -----------------------------------------------------------------

  function Sum<T>(s: seq<T>, weight: T -> nat): (total: nat)
  {
    if s == [] then 0 else weight(s[0]) + Sum(s[1..], weight)
  }

  lemma {:induction false} SumConcat<T>(a: seq<T>, b: seq<T>, weight: T -> nat)
    ensures Sum(a + b, weight) == Sum(a, weight) + Sum(b, weight)
  {
    if a == [] {
      assert a + b == b;
    } else {
      assert (a + b)[1..] == a[1..] + b;
      SumConcat(a[1..], b, weight);
    }
  }

  lemma SumSplitAt<T>(s: seq<T>, i: nat, weight: T -> nat)
    requires i < |s|
    ensures Sum(s, weight) == Sum(s[..i], weight) + weight(s[i]) + Sum(s[i + 1..], weight)
  {
    assert s == s[..i] + s[i..];
    SumConcat(s[..i], s[i..], weight);
    assert s[i..][0] == s[i] && s[i..][1..] == s[i + 1..];
  }

  lemma SumAppend<T>(s: seq<T>, x: T, weight: T -> nat)
    ensures Sum(s + [x], weight) == Sum(s, weight) + weight(x)
  {
    SumConcat(s, [x], weight);
  }

  lemma SumMember<T>(s: seq<T>, x: T, weight: T -> nat)
    requires x in s
    ensures weight(x) <= Sum(s, weight)
  {
    var i :| 0 <= i < |s| && s[i] == x;
    SumSplitAt(s, i, weight);
  }

  // Removing one occurrence of the same element from two permutations leaves permutations.
  lemma RemoveCommonElement<T>(a: seq<T>, b: seq<T>, i: nat, j: nat)
    requires i < |a| && j < |b| && a[i] == b[j]
    requires multiset(a) == multiset(b)
    ensures multiset(a[..i] + a[i + 1..]) == multiset(b[..j] + b[j + 1..])
  {
    assert a == a[..i] + [a[i]] + a[i + 1..];
    assert b == b[..j] + [b[j]] + b[j + 1..];
    var ra, rb := a[..i] + a[i + 1..], b[..j] + b[j + 1..];
    assert multiset(a) == multiset(ra) + multiset{a[i]};
    assert multiset(b) == multiset(rb) + multiset{a[i]};
    forall x ensures multiset(ra)[x] == multiset(rb)[x] {
      assert multiset(a)[x] == multiset(b)[x];
    }
  }

  // A sum depends only on which elements occur and how often.
  lemma {:induction false} SumPermutation<T>(a: seq<T>, b: seq<T>, weight: T -> nat)
    requires multiset(a) == multiset(b)
    ensures Sum(a, weight) == Sum(b, weight)
  {
    if a == [] {
      assert |multiset(b)| == 0;
    } else {
      assert a[0] in multiset(b);
      var i :| 0 <= i < |b| && b[i] == a[0];
      var rest := b[..i] + b[i + 1..];
      RemoveCommonElement(a, b, 0, i);
      assert a[..0] + a[1..] == a[1..];
      SumPermutation(a[1..], rest, weight);
      SumConcat(b[..i], b[i + 1..], weight);
      SumSplitAt(b, i, weight);
    }
  }

  lemma {:induction false} SumCongruent<T>(s: seq<T>, v: T -> nat, w: T -> nat)
    requires forall x :: x in s ==> v(x) == w(x)
    ensures Sum(s, v) == Sum(s, w)
  {
    if s != [] {
      assert s[0] in s && forall x :: x in s[1..] ==> x in s;
      SumCongruent(s[1..], v, w);
    }
  }

  lemma {:induction false} SumZero<T>(s: seq<T>, w: T -> nat)
    requires forall x :: x in s ==> w(x) == 0
    ensures Sum(s, w) == 0
  {
    if s != [] {
      assert s[0] in s && forall x :: x in s[1..] ==> x in s;
      SumZero(s[1..], w);
    }
  }

  // A sum splits over a partition of the elements into kept and left-out ones.
  lemma SumPartition<T>(s: seq<T>, kept: seq<T>, rest: seq<T>, weight: T -> nat)
    requires multiset(s) == multiset(kept) + multiset(rest)
    ensures Sum(s, weight) == Sum(kept, weight) + Sum(rest, weight)
  {
    assert multiset(kept + rest) == multiset(kept) + multiset(rest);
    SumPermutation(s, kept + rest, weight);
    SumConcat(kept, rest, weight);
  }

  lemma PrefixStep<T>(s: seq<T>, i: nat)
    requires i < |s|
    ensures s[..i + 1] == s[..i] + [s[i]] && s[i] in s
    ensures s[i..][1..] == s[i + 1..] && s[i..][0] == s[i]
  {
  }

  // ---- filters --------------------------------------------------------------

  function Filter<T(!new)>(s: seq<T>, keep: T -> bool): (r: seq<T>)
    ensures forall x :: x in r <==> x in s && keep(x)
    ensures |r| <= |s|
  {
    if s == [] then []
    else if keep(s[0]) then [s[0]] + Filter(s[1..], keep)
    else Filter(s[1..], keep)
  }

  lemma {:induction false} FilterConcat<T(!new)>(a: seq<T>, b: seq<T>, keep: T -> bool)
    ensures Filter(a + b, keep) == Filter(a, keep) + Filter(b, keep)
  {
    if a == [] {
      assert a + b == b;
    } else {
      assert (a + b)[1..] == a[1..] + b;
      FilterConcat(a[1..], b, keep);
    }
  }

  lemma FilterPrefixStep<T(!new)>(s: seq<T>, i: nat, keep: T -> bool)
    requires i < |s|
    ensures Filter(s[..i + 1], keep) == if keep(s[i]) then Filter(s[..i], keep) + [s[i]] else Filter(s[..i], keep)
  {
    PrefixStep(s, i);
    FilterConcat(s[..i], [s[i]], keep);
    assert [s[i]][1..] == [];
  }

  lemma {:induction false} FilterCount<T(!new)>(s: seq<T>, keep: T -> bool, x: T)
    ensures multiset(Filter(s, keep))[x] == if keep(x) then multiset(s)[x] else 0
  {
    if s != [] {
      assert s == [s[0]] + s[1..];
      FilterCount(s[1..], keep, x);
    }
  }

  lemma {:induction false} FilterNone<T(!new)>(s: seq<T>, keep: T -> bool)
    requires forall x :: x in s ==> !keep(x)
    ensures Filter(s, keep) == []
  {
    if s != [] {
      assert s[0] in s && forall x :: x in s[1..] ==> x in s;
      FilterNone(s[1..], keep);
    }
  }

  lemma {:induction false} FilterAll<T(!new)>(s: seq<T>, keep: T -> bool)
    requires forall x :: x in s ==> keep(x)
    ensures Filter(s, keep) == s
  {
    if s != [] {
      assert s[0] in s && forall x :: x in s[1..] ==> x in s;
      FilterAll(s[1..], keep);
    }
  }

  lemma FilterPartition<T(!new)>(s: seq<T>, keep: T -> bool, drop: T -> bool)
    requires forall x :: keep(x) <==> !drop(x)
    ensures multiset(s) == multiset(Filter(s, keep)) + multiset(Filter(s, drop))
  {
    forall x ensures multiset(s)[x] == multiset(Filter(s, keep))[x] + multiset(Filter(s, drop))[x] {
      FilterCount(s, keep, x);
      FilterCount(s, drop, x);
    }
  }

  lemma {:induction false} FilterSame<T(!new)>(s: seq<T>, p: T -> bool, q: T -> bool)
    requires forall x :: x in s ==> (p(x) <==> q(x))
    ensures Filter(s, p) == Filter(s, q)
  {
    if s != [] {
      assert s[0] in s && forall x :: x in s[1..] ==> x in s;
      FilterSame(s[1..], p, q);
    }
  }

  lemma {:induction false} FilterTwice<T(!new)>(s: seq<T>, p: T -> bool, q: T -> bool, both: T -> bool)
    requires forall x :: x in s ==> (both(x) <==> p(x) && q(x))
    ensures Filter(s, both) == Filter(Filter(s, p), q)
  {
    if s != [] {
      assert s[0] in s && forall x :: x in s[1..] ==> x in s;
      FilterTwice(s[1..], p, q, both);
      if p(s[0]) {
        assert Filter(s, p)[1..] == Filter(s[1..], p);
      }
    }
  }

  lemma {:induction false} FilterMiddle<T(!new)>(s: seq<T>, start: nat, end: nat, keep: T -> bool)
    requires start <= end <= |s|
    requires forall i :: 0 <= i < |s| ==> (keep(s[i]) <==> start <= i < end)
    ensures Filter(s, keep) == s[start..end]
  {
    if s != [] {
      var before, after := if start > 0 then start - 1 else 0, if end > 0 then end - 1 else 0;
      forall i | 0 <= i < |s[1..]| ensures keep(s[1..][i]) <==> before <= i < after {
        assert s[1..][i] == s[i + 1];
      }
      FilterMiddle(s[1..], before, after, keep);
      assert s[1..][before..after] == if start > 0 then s[start..end] else if end > 0 then s[1..end] else [];
    }
  }

  // ---- duplicates -----------------------------------------------------------

  ghost predicate Distinct<T(!new)>(s: seq<T>) {
    forall x :: multiset(s)[x] <= 1
  }

  lemma DistinctAt<T(!new)>(s: seq<T>, i: nat, j: nat)
    requires Distinct(s) && i < j < |s|
    ensures s[i] != s[j]
  {
    assert s == s[..j] + [s[j]] + s[j + 1..];
    assert multiset(s)[s[j]] == multiset(s[..j])[s[j]] + 1 + multiset(s[j + 1..])[s[j]];
    assert s[..j][i] == s[i];
    assert s[i] in multiset(s[..j]);
  }

  lemma DistinctCons<T(!new)>(s: seq<T>)
    requires Distinct(s) && s != []
    ensures Distinct(s[1..]) && s[0] !in s[1..]
  {
    assert s == [s[0]] + s[1..];
    assert multiset(s)[s[0]] == 1 + multiset(s[1..])[s[0]];
    forall x ensures multiset(s[1..])[x] <= 1 {
      assert multiset(s)[x] >= multiset(s[1..])[x];
    }
  }

  lemma {:induction false} PairwiseDistinct<T(!new)>(s: seq<T>)
    requires forall i, j :: 0 <= i < j < |s| ==> s[i] != s[j]
    ensures Distinct(s)
  {
    if s != [] {
      assert s == [s[0]] + s[1..];
      PairwiseDistinct(s[1..]);
      assert s[0] !in s[1..];
    }
  }

  lemma FilterDistinct<T(!new)>(s: seq<T>, keep: T -> bool)
    requires Distinct(s)
    ensures Distinct(Filter(s, keep))
  {
    forall x ensures multiset(Filter(s, keep))[x] <= 1 {
      FilterCount(s, keep, x);
    }
  }

  lemma DistinctConcat<T(!new)>(a: seq<T>, b: seq<T>)
    requires Distinct(a) && Distinct(b) && forall x :: x in a ==> x !in b
    ensures Distinct(a + b)
  {
    forall x ensures multiset(a + b)[x] <= 1 {
      assert x in a <==> x in multiset(a);
      assert x in b <==> x in multiset(b);
      assert multiset(a + b)[x] == multiset(a)[x] + multiset(b)[x];
    }
  }

  // Two duplicate-free sequences with the same elements are permutations of each other.
  lemma SameElements<T(!new)>(a: seq<T>, b: seq<T>)
    requires Distinct(a) && Distinct(b)
    requires forall x :: x in a <==> x in b
    ensures multiset(a) == multiset(b)
  {
    forall x ensures multiset(a)[x] == multiset(b)[x] {
      assert (x in a <==> x in multiset(a)) && (x in b <==> x in multiset(b));
    }
  }

  // ---- the stable sort of JavaScript's Array.prototype.sort ------------------

  ghost predicate TotalPreorder<T(!new)>(leq: (T, T) -> bool) {
    && (forall x, y :: leq(x, y) || leq(y, x))
    && (forall x, y, z :: leq(x, y) && leq(y, z) ==> leq(x, z))
  }

  ghost predicate Sorted<T>(s: seq<T>, leq: (T, T) -> bool) {
    forall i, j :: 0 <= i < j < |s| ==> leq(s[i], s[j])
  }

  ghost predicate AntisymmetricOn<T>(s: seq<T>, leq: (T, T) -> bool) {
    forall x, y :: x in s && y in s && leq(x, y) && leq(y, x) ==> x == y
  }

  function Insert<T>(x: T, s: seq<T>, leq: (T, T) -> bool): (r: seq<T>)
    ensures multiset(r) == multiset{x} + multiset(s)
    ensures |r| == |s| + 1
  {
    if s == [] then [x]
    else if leq(x, s[0]) then [x] + s
    else
      assert s == [s[0]] + s[1..];
      [s[0]] + Insert(x, s[1..], leq)
  }

  function SortBy<T>(s: seq<T>, leq: (T, T) -> bool): (r: seq<T>)
    ensures multiset(r) == multiset(s)
    ensures |r| == |s|
  {
    if s == [] then []
    else
      assert s == [s[0]] + s[1..];
      Insert(s[0], SortBy(s[1..], leq), leq)
  }

  lemma SortKeepsElements<T>(s: seq<T>, leq: (T, T) -> bool)
    ensures forall x :: x in SortBy(s, leq) <==> x in s
  {
    var r := SortBy(s, leq);
    forall x ensures x in r <==> x in s {
      assert x in r <==> x in multiset(r);
      assert x in s <==> x in multiset(s);
    }
  }

  lemma {:induction false} InsertSorts<T(!new)>(x: T, s: seq<T>, leq: (T, T) -> bool)
    requires TotalPreorder(leq) && Sorted(s, leq)
    ensures Sorted(Insert(x, s, leq), leq)
  {
    if s != [] && !leq(x, s[0]) {
      var rest := Insert(x, s[1..], leq);
      InsertSorts(x, s[1..], leq);
      forall y | y in rest ensures leq(s[0], y) {
        assert y in multiset(rest);
        assert y == x || y in s[1..];
      }
    }
  }

  lemma {:induction false} SortSorts<T(!new)>(s: seq<T>, leq: (T, T) -> bool)
    requires TotalPreorder(leq)
    ensures Sorted(SortBy(s, leq), leq)
  {
    if s != [] {
      SortSorts(s[1..], leq);
      InsertSorts(s[0], SortBy(s[1..], leq), leq);
    }
  }

  ghost predicate PreorderOn<T>(s: seq<T>, leq: (T, T) -> bool) {
    && (forall x, y :: x in s && y in s ==> leq(x, y) || leq(y, x))
    && (forall x, y, z :: x in s && y in s && z in s && leq(x, y) && leq(y, z) ==> leq(x, z))
  }

  ghost predicate AllIn<T>(s: seq<T>, all: seq<T>) {
    forall i :: 0 <= i < |s| ==> s[i] in all
  }

  lemma ConsSorted<T>(x: T, s: seq<T>, leq: (T, T) -> bool)
    requires Sorted(s, leq) && forall i :: 0 <= i < |s| ==> leq(x, s[i])
    ensures Sorted([x] + s, leq)
  {
  }

  lemma InsertAllIn<T>(x: T, s: seq<T>, leq: (T, T) -> bool, all: seq<T>)
    requires x in all && AllIn(s, all)
    ensures AllIn(Insert(x, s, leq), all)
    ensures forall y :: y in Insert(x, s, leq) ==> y == x || y in s
  {
    var r := Insert(x, s, leq);
    forall i | 0 <= i < |r| ensures r[i] == x || r[i] in s {
      assert r[i] in multiset(r);
    }
  }

  lemma {:induction false} InsertSortsOn<T>(x: T, s: seq<T>, leq: (T, T) -> bool, all: seq<T>)
    requires PreorderOn(all, leq) && x in all && AllIn(s, all) && Sorted(s, leq)
    ensures Sorted(Insert(x, s, leq), leq) && AllIn(Insert(x, s, leq), all)
  {
    InsertAllIn(x, s, leq, all);
    if s != [] {
      if leq(x, s[0]) {
        ConsSorted(x, s, leq);
      } else {
        InsertSortsOn(x, s[1..], leq, all);
        InsertAllIn(x, s[1..], leq, all);
        var rest := Insert(x, s[1..], leq);
        forall i | 0 <= i < |rest| ensures leq(s[0], rest[i]) {
          assert rest[i] == x || rest[i] in s[1..];
        }
        ConsSorted(s[0], rest, leq);
      }
    }
  }

  // It is enough that the comparison orders the elements at hand.
  lemma {:induction false} SortSortsOn<T>(s: seq<T>, leq: (T, T) -> bool, all: seq<T>)
    requires PreorderOn(all, leq) && AllIn(s, all)
    ensures Sorted(SortBy(s, leq), leq) && AllIn(SortBy(s, leq), all)
  {
    if s != [] {
      SortSortsOn(s[1..], leq, all);
      InsertSortsOn(s[0], SortBy(s[1..], leq), leq, all);
    }
  }

  // Elements that compare equal stay in the order they had.
  lemma {:induction false} InsertIsStable<T(!new)>(x: T, s: seq<T>, leq: (T, T) -> bool, alike: T -> bool)
    requires Sorted(s, leq) && forall y, z :: alike(y) && alike(z) ==> leq(y, z)
    ensures Filter(Insert(x, s, leq), alike) == (if alike(x) then [x] else []) + Filter(s, alike)
  {
    if s == [] {
      assert [x][1..] == [];
    } else if leq(x, s[0]) {
      assert ([x] + s)[1..] == s;
    } else {
      assert !(alike(x) && alike(s[0]));
      SortedTail(s, leq);
      InsertIsStable(x, s[1..], leq, alike);
      assert ([s[0]] + Insert(x, s[1..], leq))[1..] == Insert(x, s[1..], leq);
    }
  }

  lemma {:induction false} SortIsStable<T(!new)>(s: seq<T>, leq: (T, T) -> bool, alike: T -> bool)
    requires TotalPreorder(leq) && forall y, z :: alike(y) && alike(z) ==> leq(y, z)
    ensures Filter(SortBy(s, leq), alike) == Filter(s, alike)
  {
    if s != [] {
      SortIsStable(s[1..], leq, alike);
      SortSorts(s[1..], leq);
      InsertIsStable(s[0], SortBy(s[1..], leq), leq, alike);
    }
  }

  lemma SortedHead<T>(a: seq<T>, b: seq<T>, leq: (T, T) -> bool)
    requires |a| > 0 && multiset(a) == multiset(b)
    requires Sorted(a, leq) && Sorted(b, leq) && AntisymmetricOn(a, leq)
    ensures |b| > 0 && a[0] == b[0]
  {
    assert a[0] in multiset(b);
    assert b[0] in multiset(a);
    var i :| 0 <= i < |b| && b[i] == a[0];
    var j :| 0 <= j < |a| && a[j] == b[0];
    assert i == 0 || leq(b[0], b[i]);
    assert j == 0 || leq(a[0], a[j]);
  }

  lemma PermutedTails<T>(a: seq<T>, b: seq<T>)
    requires |a| > 0 && |b| > 0 && a[0] == b[0] && multiset(a) == multiset(b)
    ensures multiset(a[1..]) == multiset(b[1..])
  {
    RemoveCommonElement(a, b, 0, 0);
    assert a[..0] + a[1..] == a[1..] && b[..0] + b[1..] == b[1..];
  }

  lemma SortedTail<T>(s: seq<T>, leq: (T, T) -> bool)
    requires |s| > 0 && Sorted(s, leq)
    ensures Sorted(s[1..], leq)
  {
  }

  lemma SameHeadAndTail<T>(a: seq<T>, b: seq<T>)
    requires |a| > 0 && |b| > 0 && a[0] == b[0] && a[1..] == b[1..]
    ensures a == b
  {
    assert a == [a[0]] + a[1..] && b == [b[0]] + b[1..];
  }

  // Whatever the algorithm, a sorted permutation is unique once ties are identities.
  lemma {:induction false} SortedUnique<T(!new)>(a: seq<T>, b: seq<T>, leq: (T, T) -> bool)
    requires multiset(a) == multiset(b)
    requires Sorted(a, leq) && Sorted(b, leq) && AntisymmetricOn(a, leq)
    ensures a == b
  {
    if a == [] {
      assert |multiset(b)| == 0;
    } else {
      SortedHead(a, b, leq);
      PermutedTails(a, b);
      SortedTail(a, leq);
      SortedTail(b, leq);
      assert AntisymmetricOn(a[1..], leq);
      SortedUnique(a[1..], b[1..], leq);
      SameHeadAndTail(a, b);
    }
  }
}
