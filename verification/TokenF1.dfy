// The F1 score of a predicted answer, over the multisets of its tokens.
module TokenF1 {
  import opened Sequences

  // Token counts in the order in which tokens first occur.
  datatype Counts = Counts(keys: seq<string>, count: map<string, nat>)

  ghost predicate CountsOf(c: Counts, tokens: seq<string>) {
    && Distinct(c.keys)
    && (forall t :: t in c.keys <==> t in c.count)
    && (forall t :: t in c.count <==> t in tokens)
    && (forall t :: t in c.count ==> c.count[t] == multiset(tokens)[t])
  }

  method CountTokens(tokens: seq<string>) returns (c: Counts)
    ensures CountsOf(c, tokens)
  {
    c := Counts([], map[]);
    for i := 0 to |tokens|
      invariant CountsOf(c, tokens[..i])
    {
      var t := tokens[i];
      PrefixStep(tokens, i);
      if t in c.count {
        c := c.(count := c.count[t := c.count[t] + 1]);
      } else {
        DistinctConcat(c.keys, [t]);
        c := Counts(c.keys + [t], c.count[t := 1]);
      }
    }
    assert tokens[..|tokens|] == tokens;
  }

  function Overlap(prediction: seq<string>, truth: seq<string>): nat {
    |multiset(prediction) * multiset(truth)|
  }

  function CommonWeight(common: multiset<string>): string -> nat {
    (t: string) => common[t]
  }

  // Adding up the occurrences of each element counts a multiset.
  lemma {:induction false} AddUp(keys: seq<string>, m: multiset<string>)
    requires Distinct(keys) && forall t :: t in m ==> t in keys
    ensures Sum(keys, CommonWeight(m)) == |m|
  {
    if keys == [] {
      assert m == multiset{};
    } else {
      var rest := m[keys[0] := 0];
      DistinctCons(keys);
      AddUp(keys[1..], rest);
      SumCongruent(keys[1..], CommonWeight(m), CommonWeight(rest));
    }
  }

  method CountOverlap(prediction: seq<string>, truth: seq<string>) returns (overlap: nat)
    ensures overlap == Overlap(prediction, truth)
  {
    var predCounts := CountTokens(prediction);
    var truthCounts := CountTokens(truth);
    overlap := 0;
    ghost var common := multiset(prediction) * multiset(truth);
    for i := 0 to |predCounts.keys|
      invariant overlap == Sum(predCounts.keys[..i], CommonWeight(common))
    {
      var t := predCounts.keys[i];
      PrefixStep(predCounts.keys, i);
      SumAppend(predCounts.keys[..i], t, CommonWeight(common));
      overlap := overlap + Min(predCounts.count[t], if t in truthCounts.count then truthCounts.count[t] else 0);
    }
    assert predCounts.keys[..|predCounts.keys|] == predCounts.keys;
    AddUp(predCounts.keys, common);
  }

  // Twice the overlap over the sum of the lengths.
  function Dice(prediction: seq<string>, truth: seq<string>): real {
    if |prediction| + |truth| == 0 then 0.0
    else 2.0 * Overlap(prediction, truth) as real / (|prediction| + |truth|) as real
  }

  method F1Score(prediction: seq<string>, truth: seq<string>) returns (score: real)
    ensures score == Dice(prediction, truth)
  {
    if |prediction| == 0 || |truth| == 0 {
      NoTokens(prediction, truth);
      return 0.0;
    }
    var overlap := CountOverlap(prediction, truth);
    if overlap == 0 {
      return 0.0;
    }
    var precision := overlap as real / |prediction| as real;
    var recall := overlap as real / |truth| as real;
    HarmonicMean(overlap as real, |prediction| as real, |truth| as real);
    score := 2.0 * precision * recall / (precision + recall);
  }

  lemma NoTokens(prediction: seq<string>, truth: seq<string>)
    requires |prediction| == 0 || |truth| == 0
    ensures Overlap(prediction, truth) == 0
  {
    assert multiset(prediction) * multiset(truth) == multiset{};
  }

  lemma HarmonicMean(o: real, p: real, g: real)
    requires o > 0.0 && p > 0.0 && g > 0.0
    ensures o / p + o / g > 0.0
    ensures 2.0 * (o / p) * (o / g) / (o / p + o / g) == 2.0 * o / (p + g)
  {
    var a, b := o / p, o / g;
    assert a * p == o && b * g == o;
    assert a > 0.0 && b > 0.0;
    Scaled(a, b, p, g, o);
    Divided(2.0 * a * b, a + b, 2.0 * o, p + g);
  }

  lemma Scaled(a: real, b: real, p: real, g: real, o: real)
    requires a * p == o && b * g == o
    ensures 2.0 * a * b * (p + g) == 2.0 * o * (a + b)
  {
    assert a * b * (p + g) == b * (a * p) + a * (b * g);
  }

  lemma Divided(x: real, y: real, u: real, v: real)
    requires y > 0.0 && v > 0.0 && x * v == u * y
    ensures x / y == u / v
  {
    assert x / y * y == x && u / v * v == u;
    assert (x / y) * (y * v) == (u / v) * (y * v);
  }

  // ---- what the score means -----------------------------------------------------------------------

  lemma OverlapBounds(a: seq<string>, b: seq<string>)
    ensures Overlap(a, b) <= |a| && Overlap(a, b) <= |b| && Overlap(a, b) == Overlap(b, a)
    ensures Overlap(a, b) == |a| && Overlap(a, b) == |b| <==> multiset(a) == multiset(b)
  {
    var common := multiset(a) * multiset(b);
    assert common == multiset(b) * multiset(a);
    assert |multiset(a)| == |common| + |multiset(a) - common| by {
      assert multiset(a) == common + (multiset(a) - common);
    }
    assert |multiset(b)| == |common| + |multiset(b) - common| by {
      assert multiset(b) == common + (multiset(b) - common);
    }
    if |common| == |a| && |common| == |b| {
      assert multiset(a) - common == multiset{} && multiset(b) - common == multiset{};
      assert multiset(a) == common == multiset(b);
    }
    if multiset(a) == multiset(b) {
      assert common == multiset(a);
    }
  }

  lemma NothingShared(a: seq<string>, b: seq<string>)
    ensures Overlap(a, b) == 0 <==> forall t :: t in a ==> t !in b
  {
    var common := multiset(a) * multiset(b);
    forall t ensures common[t] > 0 <==> t in a && t in b {
      assert (t in a <==> t in multiset(a)) && (t in b <==> t in multiset(b));
    }
    if t :| t in a && t in b {
      assert t in common;
    } else {
      assert common == multiset{};
    }
  }

  // Symmetric, between zero and one: one exactly for the same tokens in the same numbers, zero exactly when
  // none is shared, // in particular when there are none.
  lemma DiceLaws(a: seq<string>, b: seq<string>)
    ensures Dice(a, b) == Dice(b, a)
    ensures 0.0 <= Dice(a, b) <= 1.0
    ensures Dice(a, b) == 1.0 <==> a != [] && multiset(a) == multiset(b)
    ensures Dice(a, b) == 0.0 <==> forall t :: t in a ==> t !in b
  {
    OverlapBounds(a, b);
    NothingShared(a, b);
    hide Overlap;
    if |a| + |b| > 0 {
      FractionLaws(2.0 * Overlap(a, b) as real, (|a| + |b|) as real);
      assert a == [] && multiset(a) == multiset(b) ==> |multiset(b)| == 0;
    }
  }

  lemma FractionLaws(n: real, m: real)
    requires 0.0 <= n <= m && m > 0.0
    ensures 0.0 <= n / m <= 1.0 && (n / m == 1.0 <==> n == m) && (n / m == 0.0 <==> n == 0.0)
  {
    assert n / m * m == n;
  }
}
