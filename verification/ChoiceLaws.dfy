// Which bridge summary a hint gets, and in which size.
module ChoiceLaws {
  import opened Sequences
  import opened ContextItems
  import opened BridgeBudgets
  import opened BridgeCompression
  import opened BridgeSelection

  // ---- the body of one candidate ----------------------------------------------------------------

  // A limit below its own size to which the candidate can be compressed.
  predicate Compressible(c: Candidate, limit: int, tokens: Tokenizer) {
    0 < limit < c.tokenCount && Compress(c, limit, tokens, false).Some?
  }

  lemma {:induction false} FirstCompressionIs(c: Candidate, limits: seq<int>, tokens: Tokenizer, limit: int)
    requires Sorted(limits, IntGeq) && limit in limits && Compressible(c, limit, tokens)
    requires forall l :: l in limits && Compressible(c, l, tokens) ==> l <= limit
    ensures FirstCompression(c, limits, tokens) == Compress(c, limit, tokens, false)
  {
    hide Compress;
    assert limits[0] in limits && limits == [limits[0]] + limits[1..];
    if Compressible(c, limits[0], tokens) {
      assert limits[0] == limit;
    } else {
      SortedTail(limits, IntGeq);
      FirstCompressionIs(c, limits[1..], tokens, limit);
    }
  }

  lemma {:induction false} NoCompression(c: Candidate, limits: seq<int>, tokens: Tokenizer)
    requires forall l :: l in limits ==> !Compressible(c, l, tokens)
    ensures FirstCompression(c, limits, tokens).None?
  {
    hide Compress;
    if limits != [] {
      assert limits[0] in limits && forall l :: l in limits[1..] ==> l in limits;
      NoCompression(c, limits[1..], tokens);
    }
  }

  lemma DescendingFacts(budgets: seq<int>)
    ensures Sorted(Descending(budgets), IntGeq) && forall b :: b in Descending(budgets) <==> b in budgets
  {
    assert TotalPreorder(IntGeq);
    SortSorts(budgets, IntGeq);
    SortKeepsElements(budgets, IntGeq);
  }

  // The size a summary is taken in: sliced to the preferred size if it only stands for its evidence; else whole if
  // that is preferred; else compressed to the preferred size; else compressed to the largest budget that works; else
  // whole if it fits at all.
  lemma BodyOfCandidate(c: Candidate, budgets: seq<int>, preferred: int, tokens: Tokenizer)
    requires budgets != []
    ensures var most := budgets[|budgets| - 1];
      var wanted, sliced := Min(most, preferred), Compress(c, Min(most, Max(preferred, 1)), tokens, true);
      var r := Materialize(c, budgets, preferred, tokens);
      if c.evidenceOnlyInRetrievalText && sliced.Some? then r == sliced
      else if c.tokenCount <= wanted then r == Some(Compressed(c.content, c.tokenCount, c.evidence))
      else if Compressible(c, wanted, tokens) then r == Compress(c, wanted, tokens, false)
      else if exists b :: b in budgets && Compressible(c, b, tokens) then
        exists b ::
          && b in budgets && Compressible(c, b, tokens) && r == Compress(c, b, tokens, false)
          && forall other :: other in budgets && Compressible(c, other, tokens) ==> other <= b
      else r == if c.tokenCount <= most then Some(Compressed(c.content, c.tokenCount, c.evidence)) else None
  {
    hide Compress, Descending;
    var wanted := Min(budgets[|budgets| - 1], preferred);
    DescendingFacts(budgets);
    FirstOfLimits(c, wanted, Descending(budgets), tokens);
    if b :| b in budgets && Compressible(c, b, tokens) {
      var largest := LargestCompressible(c, Descending(budgets), tokens, b);
      FirstCompressionIs(c, Descending(budgets), tokens, largest);
      assert forall other :: other in budgets ==> other in Descending(budgets);
    } else {
      NoCompression(c, Descending(budgets), tokens);
    }
  }

  lemma FirstOfLimits(c: Candidate, wanted: int, rest: seq<int>, tokens: Tokenizer)
    ensures FirstCompression(c, [wanted] + rest, tokens)
      == if Compressible(c, wanted, tokens) then Compress(c, wanted, tokens, false)
        else FirstCompression(c, rest, tokens)
  {
    hide Compress;
    assert ([wanted] + rest)[1..] == rest;
  }

  lemma {:induction false} LargestCompressible(c: Candidate, limits: seq<int>, tokens: Tokenizer, b: int)
    returns (r: int)
    requires Sorted(limits, IntGeq) && b in limits && Compressible(c, b, tokens)
    ensures r in limits && Compressible(c, r, tokens)
    ensures forall l :: l in limits && Compressible(c, l, tokens) ==> l <= r
  {
    hide Compressible;
    assert limits == [limits[0]] + limits[1..];
    if Compressible(c, limits[0], tokens) {
      r := limits[0];
    } else {
      SortedTail(limits, IntGeq);
      r := LargestCompressible(c, limits[1..], tokens, b);
    }
  }

  // ---- the primary candidate ---------------------------------------------------------------------------

  predicate NearlyAsGood(top: Candidate, c: Candidate, selectionBudget: int) {
    c.tokenCount <= selectionBudget && c.score >= top.score - 10
  }

  predicate BetterOrSame(a: Candidate, b: Candidate) {
    || a.score > b.score
    || (a.score == b.score && a.tokenCount < b.tokenCount)
    || (a.score == b.score && a.tokenCount == b.tokenCount && a.rankTieBreaker <= b.rankTieBreaker)
  }

  lemma HeadIsLeast<T(!new)>(s: seq<T>, leq: (T, T) -> bool)
    requires TotalPreorder(leq) && s != []
    ensures SortBy(s, leq)[0] in s && forall x :: x in s ==> leq(SortBy(s, leq)[0], x)
  {
    var sorted := SortBy(s, leq);
    SortSorts(s, leq);
    SortKeepsElements(s, leq);
    assert sorted[0] in sorted;
    forall x | x in s ensures leq(sorted[0], x) {
      assert x in sorted;
      var i :| 0 <= i < |sorted| && sorted[i] == x;
      assert i == 0 || leq(sorted[0], sorted[i]);
    }
  }

  lemma FitAwareOrdered()
    ensures TotalPreorder(FitAwareLeq)
    ensures forall a, b :: FitAwareLeq(a, b) ==> BetterOrSame(a, b)
  {
  }

  // The top candidate, unless it exceeds the preferred size while nearly as good ones do not: then the best of these.
  lemma PrimaryIs(viable: seq<Candidate>, selectionBudget: int)
    requires viable != []
    ensures var top, primary := viable[0], Primary(viable, selectionBudget);
      if top.tokenCount <= selectionBudget || forall c :: c in viable ==> !NearlyAsGood(top, c, selectionBudget)
      then primary == top
      else
        && primary in viable && NearlyAsGood(top, primary, selectionBudget)
        && forall c :: c in viable && NearlyAsGood(top, c, selectionBudget) ==> BetterOrSame(primary, c)
  {
    hide FitAwareLeq, BetterOrSame, TotalPreorder, SortBy;
    var soft := Filter(viable, SoftFitting(viable[0], selectionBudget));
    FitAwareOrdered();
    if soft != [] {
      HeadIsLeast(soft, FitAwareLeq);
      assert soft[0] in soft;
    }
  }

  // ---- the choice ----------------------------------------------------------------------------------------

  predicate BearsAnswer(e: Evidence) {
    e.score >= 120 && e.concreteCueCount > 0
  }

  // A candidate close to the top, other than the primary one, that fits as answer-bearing text.
  predicate Rival(c: Candidate, viable: seq<Candidate>, room: Room, tokens: Tokenizer)
    requires viable != []
  {
    && c in viable && c.id != Primary(viable, room.selectionBudget).id && c.score >= viable[0].score - 30
    && Fit(c, room, tokens).Some? && BearsAnswer(Fit(c, room, tokens).value.evidence)
  }

  // More evidence, then more concrete cues, then a better score, then a smaller body, then the better rank.
  predicate StrongerOrSame(a: Materialized, b: Materialized) {
    var x, y := a.body.evidence, b.body.evidence;
    || x.score > y.score
    || (x.score == y.score && x.concreteCueCount > y.concreteCueCount)
    || (x.score == y.score && x.concreteCueCount == y.concreteCueCount && a.candidate.score > b.candidate.score)
    || (&& x.score == y.score && x.concreteCueCount == y.concreteCueCount && a.candidate.score == b.candidate.score
        && (a.body.tokenCount < b.body.tokenCount
            || (a.body.tokenCount == b.body.tokenCount && a.candidate.rankTieBreaker <= b.candidate.rankTieBreaker)))
  }

  // The candidates the closing loop looks at: they fit, and are neither the primary one nor close to the top.
  predicate Remaining(c: Candidate, viable: seq<Candidate>, room: Room, tokens: Tokenizer)
    requires viable != []
  {
    c.id != Primary(viable, room.selectionBudget).id && c.score < viable[0].score - 30 && Fit(c, room, tokens).Some?
  }

  lemma {:induction false} FirstUntriedIs(viable: seq<Candidate>, rest: seq<Candidate>, room: Room, tokens: Tokenizer)
    requires viable != []
    ensures var r := FirstUntried(viable, rest, Primary(viable, room.selectionBudget), room, tokens);
      if r.None? then forall c :: c in rest ==> !Remaining(c, viable, room, tokens)
      else exists i ::
        && 0 <= i < |rest| && Remaining(rest[i], viable, room, tokens)
        && r.value == Materialized(rest[i], Fit(rest[i], room, tokens).value)
        && forall j :: 0 <= j < i ==> !Remaining(rest[j], viable, room, tokens)
  {
    hide Primary, Fit;
    if rest != [] {
      FirstUntriedIs(viable, rest[1..], room, tokens);
      var r := FirstUntried(viable, rest, Primary(viable, room.selectionBudget), room, tokens);
      if Remaining(rest[0], viable, room, tokens) {
        assert r.value == Materialized(rest[0], Fit(rest[0], room, tokens).value);
      } else if r.Some? {
        var i :| 0 <= i < |rest[1..]| && Remaining(rest[1..][i], viable, room, tokens)
          && r.value == Materialized(rest[1..][i], Fit(rest[1..][i], room, tokens).value)
          && forall j :: 0 <= j < i ==> !Remaining(rest[1..][j], viable, room, tokens);
        assert rest[i + 1] == rest[1..][i];
        forall j | 0 <= j < i + 1 ensures !Remaining(rest[j], viable, room, tokens) {
          assert j > 0 ==> rest[j] == rest[1..][j - 1];
        }
      }
    }
  }

  lemma StrongestRival(viable: seq<Candidate>, room: Room, tokens: Tokenizer)
    requires viable != []
    ensures var rivals := Filter(viable, Rivals(viable, Primary(viable, room.selectionBudget), room, tokens));
      && (forall c :: c in rivals <==> Rival(c, viable, room, tokens))
      && (rivals != [] ==>
            var m := SortBy(FitEach(rivals, room, tokens), EvidenceLeq)[0];
            && Rival(m.candidate, viable, room, tokens) && Fit(m.candidate, room, tokens) == Some(m.body)
            && forall c :: Rival(c, viable, room, tokens) ==>
                 StrongerOrSame(m, Materialized(c, Fit(c, room, tokens).value)))
  {
    hide Primary, Materialize;
    var rivals := Filter(viable, Rivals(viable, Primary(viable, room.selectionBudget), room, tokens));
    if rivals != [] {
      var options := FitEach(rivals, room, tokens);
      EvidenceOrdered();
      HeadIsLeast(options, EvidenceLeq);
      var m := SortBy(options, EvidenceLeq)[0];
      var i :| 0 <= i < |options| && options[i] == m;
      assert rivals[i] in rivals;
      forall c | Rival(c, viable, room, tokens) ensures StrongerOrSame(m, Materialized(c, Fit(c, room, tokens).value)) {
        var k :| 0 <= k < |rivals| && rivals[k] == c;
        assert options[k] in options && EvidenceLeq(m, options[k]);
      }
    }
  }

  lemma EvidenceOrdered()
    ensures TotalPreorder(EvidenceLeq)
  {
  }

  // The choice among the viable candidates of a hint, for every outcome.
  lemma ChoiceIs(viable: seq<Candidate>, room: Room, tokens: Tokenizer)
    requires viable != []
    ensures var primary, r := Primary(viable, room.selectionBudget), ChooseAmong(viable, room, tokens);
      var fitted := Fit(primary, room, tokens);
      if fitted.Some? && BearsAnswer(fitted.value.evidence) && fitted.value.evidence.directRelevance > 0
      then r == Some(Materialized(primary, fitted.value))
      else if exists c :: Rival(c, viable, room, tokens) then
        && r.Some? && Rival(r.value.candidate, viable, room, tokens)
        && Fit(r.value.candidate, room, tokens) == Some(r.value.body)
        && forall c :: Rival(c, viable, room, tokens) ==>
             StrongerOrSame(r.value, Materialized(c, Fit(c, room, tokens).value))
      else if fitted.Some? then r == Some(Materialized(primary, fitted.value))
      else if r.Some? then
        exists i ::
          && 0 <= i < |viable| && Remaining(viable[i], viable, room, tokens)
          && r.value == Materialized(viable[i], Fit(viable[i], room, tokens).value)
          && forall j :: 0 <= j < i ==> !Remaining(viable[j], viable, room, tokens)
      else forall c :: c in viable ==> !Remaining(c, viable, room, tokens)
  {
    hide Primary, Fit, Rival, Remaining, StrongerOrSame, EvidenceLeq;
    StrongestRival(viable, room, tokens);
    FirstUntriedIs(viable, viable, room, tokens);
    var rivals := Filter(viable, Rivals(viable, Primary(viable, room.selectionBudget), room, tokens));
    if rivals != [] {
      assert Rival(rivals[0], viable, room, tokens);
    }
  }

  // A candidate is set aside if it is in context already, or if it neither fits whole beside the pinned items nor has
  // facts to be sliced to, although something is pinned.
  predicate SetAside(c: Candidate, room: Room, inContext: set<string>) {
    || c.id in inContext
    || (c.tokenCount + room.pinnedTokens > room.available && room.pinnedTokens > 0 && c.facts == [])
  }

  // The choice is made among the candidates that are not set aside, as they are ranked.
  lemma ChosenAmong(ranked: seq<Candidate>, room: Room, inContext: set<string>, tokens: Tokenizer)
    returns (viable: seq<Candidate>)
    ensures forall c :: c in viable <==> c in ranked && !SetAside(c, room, inContext)
    ensures exists places :: Places(viable, ranked, places)
    ensures Choose(ranked, room, inContext, tokens) == if viable == [] then None else ChooseAmong(viable, room, tokens)
  {
    hide ChooseAmong;
    viable := Filter(ranked, ViableFor(room, inContext));
    var places := FilterPlaces(ranked, ViableFor(room, inContext));
  }

  // Where the parts stand in the whole, from left to right.
  ghost predicate Places(part: seq<Candidate>, whole: seq<Candidate>, places: seq<nat>) {
    && |places| == |part|
    && (forall i :: 0 <= i < |places| ==> places[i] < |whole| && whole[places[i]] == part[i])
    && forall i, j :: 0 <= i < j < |places| ==> places[i] < places[j]
  }

  lemma PlacesShifted(part: seq<Candidate>, whole: seq<Candidate>, later: seq<nat>) returns (places: seq<nat>)
    requires whole != [] && Places(part, whole[1..], later)
    ensures Places(part, whole, places) && forall i :: 0 <= i < |places| ==> places[i] > 0
  {
    places := seq(|later|, i requires 0 <= i < |later| => later[i] + 1);
    forall i | 0 <= i < |places| ensures places[i] < |whole| && whole[places[i]] == part[i] {
      assert whole[1..][later[i]] == whole[later[i] + 1];
    }
  }

  lemma PlacesCons(part: seq<Candidate>, whole: seq<Candidate>, later: seq<nat>)
    requires whole != [] && Places(part, whole, later) && forall i :: 0 <= i < |later| ==> later[i] > 0
    ensures Places([whole[0]] + part, whole, [0] + later)
  {
  }

  lemma {:induction false} FilterPlaces(s: seq<Candidate>, keep: Candidate -> bool) returns (places: seq<nat>)
    ensures Places(Filter(s, keep), s, places)
  {
    places := [];
    if s != [] {
      var later := FilterPlaces(s[1..], keep);
      places := PlacesShifted(Filter(s[1..], keep), s, later);
      if keep(s[0]) {
        PlacesCons(Filter(s[1..], keep), s, places);
        places := [0] + places;
      }
    }
  }
}
