// Choosing the bridge summary of a retrieval hint and fitting it beside the pinned base context.
module BridgeSelection {
  import opened Sequences
  import opened Text
  import opened ContextItems
  import opened BridgeBudgets
  import opened BridgeCompression

  datatype Materialized = Materialized(candidate: Candidate, body: Compressed)

  // ---- fitting one candidate ------------------------------------------------------

  function Whole(c: Candidate): Compressed {
    Compressed(c.content, c.tokenCount, c.evidence)
  }

  predicate IntGeq(a: int, b: int) { a >= b }

  function Descending(budgets: seq<int>): seq<int> {
    SortBy(budgets, IntGeq)
  }

  // The limits a compression is tried with: the preferred one, then every fit budget, largest first.
  function CompressionLimits(budgets: seq<int>, preferred: int): seq<int>
    requires budgets != []
  {
    [Min(budgets[|budgets| - 1], preferred)] + Descending(budgets)
  }

  function FirstCompression(c: Candidate, limits: seq<int>, tokens: Tokenizer): Option<Compressed> {
    if limits == [] then None
    else if 0 < limits[0] < c.tokenCount && Compress(c, limits[0], tokens, false).Some?
    then Compress(c, limits[0], tokens, false)
    else FirstCompression(c, limits[1..], tokens)
  }

  function Materialize(c: Candidate, budgets: seq<int>, preferred: int, tokens: Tokenizer): Option<Compressed> {
    if budgets == [] then None
    else
      var maxFit := budgets[|budgets| - 1];
      var sliced := Compress(c, Min(maxFit, Max(preferred, 1)), tokens, true);
      if c.evidenceOnlyInRetrievalText && sliced.Some? then sliced
      else if c.tokenCount <= Min(maxFit, preferred) then Some(Whole(c))
      else
        var compressed := FirstCompression(c, CompressionLimits(budgets, preferred), tokens);
        if compressed.Some? then compressed
        else if c.tokenCount <= maxFit then Some(Whole(c))
        else None
  }

  method MaterializeBridgeSummarySelection(c: Candidate, selected: seq<ContextItem>, rules: seq<PinRule>,
                                           available: int, preferred: int, tokens: Tokenizer)
    returns (r: Option<Compressed>, ghost budgets: seq<int>)
    requires Numbered(c)
    ensures IsFitBudgets(selected, rules, available, budgets)
    ensures r == Materialize(c, budgets, preferred, tokens)
    ensures r.Some? ==> r.value.tokenCount <= available - PinnedTokens(selected, rules)
  {
    hide Compress, IsFitBudgets;
    var fitBudgets := GetBridgeFitBudgets(selected, rules, available);
    budgets := fitBudgets;
    MaterializedFits(c, selected, rules, available, fitBudgets, preferred, tokens);
    if fitBudgets == [] {
      return None, budgets;
    }
    var maxFit := fitBudgets[|fitBudgets| - 1];
    if c.evidenceOnlyInRetrievalText {
      var compressed := CompressBridgeSummaryContent(c, Min(maxFit, Max(preferred, 1)), tokens, true);
      if compressed.Some? {
        return compressed, budgets;
      }
    }
    if c.tokenCount <= Min(maxFit, preferred) {
      return Some(Whole(c)), budgets;
    }
    var limits := CompressionLimits(fitBudgets, preferred);
    var seen: set<int> := {};
    for i := 0 to |limits|
      invariant FirstCompression(c, limits[i..], tokens) == FirstCompression(c, limits, tokens)
      invariant forall b :: b in seen ==> Compress(c, b, tokens, false).None?
    {
      assert limits[i..][1..] == limits[i + 1..];
      if 0 < limits[i] < c.tokenCount && limits[i] !in seen {
        seen := seen + {limits[i]};
        var compressed := CompressBridgeSummaryContent(c, limits[i], tokens, false);
        if compressed.Some? {
          return compressed, budgets;
        }
      }
    }
    r := if c.tokenCount <= maxFit then Some(Whole(c)) else None;
  }

  lemma {:induction false} FirstCompressionFacts(c: Candidate, limits: seq<int>, tokens: Tokenizer, bound: int)
    requires forall b :: b in limits ==> b <= bound
    ensures var r := FirstCompression(c, limits, tokens);
      && (r.Some? ==> r.value.tokenCount <= bound)
      && (r.Some? <==> exists b :: b in limits && 0 < b < c.tokenCount && Compress(c, b, tokens, false).Some?)
  {
    if limits != [] {
      CompressWithinLimit(c, limits[0], tokens, false);
      assert limits[0] in limits && forall b :: b in limits[1..] ==> b in limits;
      FirstCompressionFacts(c, limits[1..], tokens, bound);
      assert forall b :: b in limits ==> b == limits[0] || b in limits[1..];
    }
  }

  lemma LimitsOf(selected: seq<ContextItem>, rules: seq<PinRule>, available: int, budgets: seq<int>, preferred: int)
    requires IsFitBudgets(selected, rules, available, budgets) && budgets != []
    ensures forall b :: b in CompressionLimits(budgets, preferred) <==>
      b in budgets || b == Min(available - PinnedTokens(selected, rules), preferred)
    ensures forall b :: b in CompressionLimits(budgets, preferred) ==> b <= available - PinnedTokens(selected, rules)
  {
    hide IsFitBudgets, PinnedTokens, SortBy;
    LastFitBudget(selected, rules, available, budgets);
    SortKeepsElements(budgets, IntGeq);
    assert budgets[|budgets| - 1] in budgets;
  }

  // Every return path yields a body that fits beside the pinned items.
  lemma MaterializedFits(c: Candidate, selected: seq<ContextItem>, rules: seq<PinRule>, available: int,
                         budgets: seq<int>, preferred: int, tokens: Tokenizer)
    requires IsFitBudgets(selected, rules, available, budgets)
    ensures var r := Materialize(c, budgets, preferred, tokens);
      r.Some? ==> r.value.tokenCount <= available - PinnedTokens(selected, rules)
  {
    hide IsFitBudgets, PinnedTokens, Compress, FirstCompression, CompressionLimits;
    LastFitBudget(selected, rules, available, budgets);
    if budgets != [] {
      LimitsOf(selected, rules, available, budgets, preferred);
      FirstCompressionFacts(c, CompressionLimits(budgets, preferred), tokens,
                            available - PinnedTokens(selected, rules));
      CompressWithinLimit(c, Min(budgets[|budgets| - 1], Max(preferred, 1)), tokens, true);
    }
  }

  // A candidate is given up exactly when the pinned items leave nothing, or it neither fits whole beside them
  // nor can be compressed to any limit that was tried.
  lemma MaterializeFailsIff(c: Candidate, selected: seq<ContextItem>, rules: seq<PinRule>, available: int,
                            budgets: seq<int>, preferred: int, tokens: Tokenizer)
    requires IsFitBudgets(selected, rules, available, budgets)
    requires 0 <= preferred <= Max(available - PinnedTokens(selected, rules), 0)
    ensures Materialize(c, budgets, preferred, tokens).None? <==>
      || available <= PinnedTokens(selected, rules)
      || (&& c.tokenCount > available - PinnedTokens(selected, rules)
          && (preferred > 0 || c.evidenceOnlyInRetrievalText ==> Compress(c, Max(preferred, 1), tokens, false).None?)
          && forall b :: b in budgets ==> Compress(c, b, tokens, false).None?)
  {
    hide IsFitBudgets, PinnedTokens, Compress, FirstCompression, CompressionLimits;
    LastFitBudget(selected, rules, available, budgets);
    if available > PinnedTokens(selected, rules) {
      var free := available - PinnedTokens(selected, rules);
      LimitsOf(selected, rules, available, budgets, preferred);
      FirstCompressionFacts(c, CompressionLimits(budgets, preferred), tokens, free);
      if c.tokenCount > free {
        ForcedIsTheSame(c, Max(preferred, 1), tokens);
        NothingCompressesToNothing(c, tokens);
      }
    }
  }

  lemma ForcedIsTheSame(c: Candidate, limit: int, tokens: Tokenizer)
    requires limit < c.tokenCount
    ensures Compress(c, limit, tokens, true) == Compress(c, limit, tokens, false)
  {
  }

  lemma NothingCompressesToNothing(c: Candidate, tokens: Tokenizer)
    ensures forall limit: int :: limit <= 0 ==> Compress(c, limit, tokens, false).None?
  {
  }

  // ---- choosing among the candidates of a hint ----------------------------------------

  const MIN_ANSWER_BEARING_BRIDGE_EVIDENCE_SCORE := 120

  // What a choice depends on besides the candidates.
  datatype Room =
    Room(available: int, pinnedTokens: nat, budgets: seq<int>, selectionBudget: int)

  function Fit(c: Candidate, room: Room, tokens: Tokenizer): Option<Compressed> {
    Materialize(c, room.budgets, room.selectionBudget, tokens)
  }

  // Fitted to the room, the candidate takes so many tokens.
  predicate FitsAt(c: Candidate, room: Room, tokens: Tokenizer, size: nat) {
    Fit(c, room, tokens).Some? && Fit(c, room, tokens).value.tokenCount == size
  }

  predicate Viable(c: Candidate, room: Room, inContext: set<string>) {
    c.id !in inContext
    && (c.tokenCount + room.pinnedTokens <= room.available || room.pinnedTokens == 0 || c.facts != [])
  }

  function ViableFor(room: Room, inContext: set<string>): Candidate -> bool {
    (c: Candidate) => Viable(c, room, inContext)
  }

  predicate FitAwareLeq(a: Candidate, b: Candidate) {
    if a.score != b.score then a.score > b.score
    else if a.tokenCount != b.tokenCount then a.tokenCount < b.tokenCount
    else a.rankTieBreaker <= b.rankTieBreaker
  }

  function SoftFitting(top: Candidate, selectionBudget: int): Candidate -> bool {
    (c: Candidate) => c.tokenCount <= selectionBudget && c.score >= top.score - 10
  }

  // The top candidate if it meets the preferred budget, else a nearly as good one that does.
  function Primary(viable: seq<Candidate>, selectionBudget: int): (c: Candidate)
    requires viable != []
    ensures c in viable
  {
    var top := viable[0];
    var softFitting := Filter(viable, SoftFitting(top, selectionBudget));
    SortKeepsElements(softFitting, FitAwareLeq);
    if top.tokenCount <= selectionBudget || softFitting == [] then top
    else
      assert SortBy(softFitting, FitAwareLeq)[0] in SortBy(softFitting, FitAwareLeq);
      SortBy(softFitting, FitAwareLeq)[0]
  }

  predicate AnswerBearing(body: Compressed) {
    body.evidence.score >= MIN_ANSWER_BEARING_BRIDGE_EVIDENCE_SCORE && body.evidence.concreteCueCount > 0
  }

  predicate CloseTo(top: Candidate, c: Candidate) {
    c.score >= top.score - 30
  }

  // Close rivals of the primary candidate that materialize into answer-bearing text.
  function Rivals(viable: seq<Candidate>, primary: Candidate, room: Room, tokens: Tokenizer): Candidate -> bool
    requires viable != []
  {
    (c: Candidate) =>
      && CloseTo(viable[0], c) && c.id != primary.id
      && Fit(c, room, tokens).Some? && AnswerBearing(Fit(c, room, tokens).value)
  }

  function FitEach(cs: seq<Candidate>, room: Room, tokens: Tokenizer): (r: seq<Materialized>)
    requires forall c :: c in cs ==> Fit(c, room, tokens).Some?
    ensures |r| == |cs|
    ensures forall i :: 0 <= i < |r| ==> r[i] == Materialized(cs[i], Fit(cs[i], room, tokens).value)
  {
    if cs == [] then []
    else [Materialized(cs[0], Fit(cs[0], room, tokens).value)] + FitEach(cs[1..], room, tokens)
  }

  predicate EvidenceLeq(a: Materialized, b: Materialized) {
    if a.body.evidence.score != b.body.evidence.score then a.body.evidence.score > b.body.evidence.score
    else if a.body.evidence.concreteCueCount != b.body.evidence.concreteCueCount
    then a.body.evidence.concreteCueCount > b.body.evidence.concreteCueCount
    else if a.candidate.score != b.candidate.score then a.candidate.score > b.candidate.score
    else if a.body.tokenCount != b.body.tokenCount then a.body.tokenCount < b.body.tokenCount
    else a.candidate.rankTieBreaker <= b.candidate.rankTieBreaker
  }

  // The candidates the closing loop still considers: not the primary, and not close to the top.
  predicate Untried(viable: seq<Candidate>, primary: Candidate, c: Candidate)
    requires viable != []
  {
    c.id != primary.id && !CloseTo(viable[0], c)
  }

  function FirstUntried(viable: seq<Candidate>, rest: seq<Candidate>, primary: Candidate, room: Room, tokens: Tokenizer)
    : Option<Materialized>
    requires viable != []
  {
    if rest == [] then None
    else if Untried(viable, primary, rest[0]) && Fit(rest[0], room, tokens).Some?
    then Some(Materialized(rest[0], Fit(rest[0], room, tokens).value))
    else FirstUntried(viable, rest[1..], primary, room, tokens)
  }

  function Choose(ranked: seq<Candidate>, room: Room, inContext: set<string>, tokens: Tokenizer): Option<Materialized> {
    var viable := Filter(ranked, ViableFor(room, inContext));
    if viable == [] then None else ChooseAmong(viable, room, tokens)
  }

  function ChooseAmong(viable: seq<Candidate>, room: Room, tokens: Tokenizer): Option<Materialized>
    requires viable != []
  {
    var primary := Primary(viable, room.selectionBudget);
    var fitted := Fit(primary, room, tokens);
    var rivals := Filter(viable, Rivals(viable, primary, room, tokens));
    if fitted.Some? && AnswerBearing(fitted.value) && fitted.value.evidence.directRelevance > 0
    then Some(Materialized(primary, fitted.value))
    else if rivals != [] then Some(SortBy(FitEach(rivals, room, tokens), EvidenceLeq)[0])
    else if fitted.Some? then Some(Materialized(primary, fitted.value))
    else FirstUntried(viable, viable, primary, room, tokens)
  }

  lemma {:induction false} FirstUntriedFacts(viable: seq<Candidate>, rest: seq<Candidate>, primary: Candidate,
                                             room: Room, tokens: Tokenizer)
    requires viable != []
    ensures var r := FirstUntried(viable, rest, primary, room, tokens);
      && (r.Some? ==> r.value.candidate in rest && Fit(r.value.candidate, room, tokens) == Some(r.value.body))
      && (r.Some? <==> exists c :: c in rest && Untried(viable, primary, c) && Fit(c, room, tokens).Some?)
  {
    if rest != [] {
      FirstUntriedFacts(viable, rest[1..], primary, room, tokens);
      assert rest[0] in rest && forall c :: c in rest <==> c == rest[0] || c in rest[1..];
    }
  }

  // What is chosen is a viable candidate, fitted.
  lemma ChosenIsViable(ranked: seq<Candidate>, room: Room, inContext: set<string>, tokens: Tokenizer)
    requires Choose(ranked, room, inContext, tokens).Some?
    ensures var m := Choose(ranked, room, inContext, tokens).value;
      m.candidate in ranked && Viable(m.candidate, room, inContext) && Fit(m.candidate, room, tokens) == Some(m.body)
  {
    hide Viable, Fit, AnswerBearing, CloseTo, EvidenceLeq;
    var viable := Filter(ranked, ViableFor(room, inContext));
    var primary := Primary(viable, room.selectionBudget);
    var rivals := Filter(viable, Rivals(viable, primary, room, tokens));
    FirstUntriedFacts(viable, viable, primary, room, tokens);
    if rivals != [] {
      var options := FitEach(rivals, room, tokens);
      SortKeepsElements(options, EvidenceLeq);
      assert SortBy(options, EvidenceLeq)[0] in options;
    }
  }

  // Exactly when a hint is left without a bridge: the primary candidate cannot be fitted, no other
  // candidate close to the top fits with answer-bearing text, and none of the remaining ones fits.
  lemma ChooseFailsIff(viable: seq<Candidate>, room: Room, tokens: Tokenizer)
    requires viable != []
    ensures var primary := Primary(viable, room.selectionBudget);
      ChooseAmong(viable, room, tokens).None? <==>
        && Fit(primary, room, tokens).None?
        && forall c :: c in viable && c.id != primary.id && Fit(c, room, tokens).Some? ==>
             CloseTo(viable[0], c) && !AnswerBearing(Fit(c, room, tokens).value)
  {
    var primary := Primary(viable, room.selectionBudget);
    FirstUntriedFacts(viable, viable, primary, room, tokens);
    var rivals := Filter(viable, Rivals(viable, primary, room, tokens));
    if rivals != [] {
      assert rivals[0] in rivals;
    }
  }

  const TOP_TEXT := "top"
  const OTHER_TEXT := "other"

  function ExampleTokens(text: string): nat {
    if text == TOP_TEXT then 100 else if text == OTHER_TEXT then 4 else 7
  }

  lemma NothingCompressesToFive(c: Candidate, limits: seq<int>)
    requires c.facts == [] && forall b :: b in limits ==> b <= 5
    ensures FirstCompression(c, limits, ExampleTokens).None?
  {
    hide Compress, FirstCompression;
    FirstCompressionFacts(c, limits, ExampleTokens, 5);
    forall b | b in limits && 0 < b < c.tokenCount ensures Compress(c, b, ExampleTokens, false).None? {
      LineIsTooLong(c, b);
    }
  }

  // Neither the base line nor any beginning of it costs five tokens or less.
  lemma LineIsTooLong(c: Candidate, limit: int)
    requires c.facts == [] && 0 < limit <= 5 && limit < c.tokenCount
    ensures Compress(c, limit, ExampleTokens, false).None?
  {
    var line := BaseLine(c);
    BaseLineNotBlank(c);
    TrimKeepsPrefix(line);
    TruncateIsPrefix(line, limit, ExampleTokens);
    hide Truncate, Trim, BaseLine;
    var cut := Truncate(line, limit, ExampleTokens);
    assert TOP_TEXT[0] == 't' && OTHER_TEXT[0] == 'o' && (cut == "" || cut[0] == '[');
  }

  const TOP := Candidate("top", 150, 0, 100, TOP_TEXT, [], NO_EVIDENCE, false)
  const OTHER := Candidate("other", 145, 0, 4, OTHER_TEXT, [], NO_EVIDENCE, false)

  lemma TextsDiffer()
    ensures TOP_TEXT != OTHER_TEXT
  {
    assert |TOP_TEXT| == 3 && |OTHER_TEXT| == 5;
  }

  lemma TopOrWhole(c: Candidate)
    requires c == TOP || c == OTHER
    ensures Materialize(c, [5], 1, ExampleTokens) == if c == TOP then None else Some(Whole(OTHER))
  {
    hide Compress, FirstCompression;
    TextsDiffer();
    SortKeepsElements([5], IntGeq);
    NothingCompressesToFive(c, CompressionLimits([5], 1));
  }

  // So a candidate that would fit can be passed over: one close to the top whose text is not
  // answer-bearing is tried once and never again.  Five tokens are available, none of them taken, so one is
  // reserved for retrieval.
  lemma FittingCandidatePassedOver()
    returns (viable: seq<Candidate>, room: Room, tokens: Tokenizer, passedOver: Candidate)
    ensures RoomFor(room, [], [], 5, Min(256, 5 / 5))
    ensures forall c :: c in viable ==> c.tokenCount == tokens(c.content) && c.score >= 100
    ensures passedOver in viable && Fit(passedOver, room, tokens).Some?
    ensures ChooseAmong(viable, room, tokens).None?
  {
    hide Materialize, IsFitBudgets, ChooseAmong;
    passedOver := OTHER;
    viable, room, tokens := [TOP, OTHER], Room(5, 0, [5], 1), ExampleTokens;
    TextsDiffer();
    NothingSelected(5);
    TopOrWhole(TOP);
    TopOrWhole(OTHER);
    FilterNone(viable, SoftFitting(TOP, 1));
    ChooseFailsIff(viable, room, tokens);
  }

  // Without base items everything available is the one fit budget.
  lemma NothingSelected(available: nat)
    requires available > 0
    ensures IsFitBudgets([], [], available, [available]) && PinnedTokens([], []) == 0
  {
    assert ReclaimOrder([], []) == [];
    assert FreeAfter([], [], available, 0) == available;
    assert forall b :: FreedWithin([], [], available, 0, b) <==> b == available;
  }

  ghost predicate RoomFor(room: Room, selected: seq<ContextItem>, rules: seq<PinRule>, available: int,
                          selectionBudget: int) {
    && room.available == available && room.pinnedTokens == PinnedTokens(selected, rules)
    && room.selectionBudget == selectionBudget
    && IsFitBudgets(selected, rules, available, room.budgets)
  }

  ghost predicate DistinctIds(cs: seq<Candidate>) {
    forall c, d :: c in cs && d in cs && c.id == d.id ==> c == d
  }

  method FitCandidate(c: Candidate, ghost room: Room, selected: seq<ContextItem>, rules: seq<PinRule>,
                      available: int, selectionBudget: int, tokens: Tokenizer)
    returns (r: Option<Compressed>)
    requires Numbered(c) && RoomFor(room, selected, rules, available, selectionBudget)
    ensures r == Fit(c, room, tokens)
  {
    ghost var budgets;
    r, budgets := MaterializeBridgeSummarySelection(c, selected, rules, available, selectionBudget, tokens);
    FitBudgetsUnique(selected, rules, available, budgets, room.budgets);
  }

  // Fits every close rival in turn, remembering which ids were tried.
  method FitRivals(viable: seq<Candidate>, primary: Candidate, ghost room: Room, selected: seq<ContextItem>,
                   rules: seq<PinRule>, available: int, selectionBudget: int, tokens: Tokenizer)
    returns (options: seq<Materialized>, tried: set<string>)
    requires viable != [] && DistinctIds(viable) && forall c :: c in viable ==> Numbered(c)
    requires RoomFor(room, selected, rules, available, selectionBudget)
    ensures options == FitEach(Filter(viable, Rivals(viable, primary, room, tokens)), room, tokens)
    ensures forall c :: c in viable ==> (c.id !in tried <==> Untried(viable, primary, c))
  {
    hide Materialize, IsFitBudgets, RoomFor, Tried, FitEach, Filter, DistinctIds, Numbered, CloseTo, AnswerBearing,
         Untried;
    NothingTried(primary, viable[0], Rivals(viable, primary, room, tokens), room, tokens);
    options, tried := [], {primary.id};
    assert viable[..0] == [];
    ghost var keep := Rivals(viable, primary, room, tokens);
    for i := 0 to |viable|
      invariant options == FitEach(Filter(viable[..i], keep), room, tokens)
      invariant tried == Tried(primary, viable[0], viable[..i])
    {
      var c := viable[i];
      PrefixStep(viable, i);
      TriedStep(primary, viable[0], viable, i);
      FilterPrefixStep(viable, i, keep);
      if CloseTo(viable[0], c) && c.id != primary.id {
        tried := tried + {c.id};
        var fitted := FitCandidate(c, room, selected, rules, available, selectionBudget, tokens);
        if fitted.Some? && AnswerBearing(fitted.value) {
          FitEachAppend(Filter(viable[..i], keep), c, room, tokens);
          options := options + [Materialized(c, fitted.value)];
        }
      }
    }
    assert viable[..|viable|] == viable;
    CloseIdsUntried(viable, primary);
  }

  lemma NothingTried(primary: Candidate, top: Candidate, keep: Candidate -> bool, room: Room, tokens: Tokenizer)
    ensures Tried(primary, top, []) == {primary.id} && Filter([], keep) == [] && FitEach([], room, tokens) == []
  {
  }

  function Tried(primary: Candidate, top: Candidate, cs: seq<Candidate>): set<string> {
    {primary.id} + CloseIds(top, cs)
  }

  lemma TriedStep(primary: Candidate, top: Candidate, cs: seq<Candidate>, i: nat)
    requires i < |cs|
    ensures Tried(primary, top, cs[..i + 1])
      == Tried(primary, top, cs[..i]) + if CloseTo(top, cs[i]) && cs[i].id != primary.id then {cs[i].id} else {}
  {
    CloseIdsStep(top, cs, i);
  }

  function CloseIds(top: Candidate, cs: seq<Candidate>): set<string> {
    if cs == [] then {}
    else (if CloseTo(top, cs[0]) then {cs[0].id} else {}) + CloseIds(top, cs[1..])
  }

  lemma {:induction false} CloseIdsAppend(top: Candidate, cs: seq<Candidate>, c: Candidate)
    ensures CloseIds(top, cs + [c]) == CloseIds(top, cs) + if CloseTo(top, c) then {c.id} else {}
  {
    if cs != [] {
      assert (cs + [c])[1..] == cs[1..] + [c];
      CloseIdsAppend(top, cs[1..], c);
    }
  }

  lemma CloseIdsStep(top: Candidate, cs: seq<Candidate>, i: nat)
    requires i < |cs|
    ensures CloseIds(top, cs[..i + 1]) == CloseIds(top, cs[..i]) + if CloseTo(top, cs[i]) then {cs[i].id} else {}
  {
    PrefixStep(cs, i);
    CloseIdsAppend(top, cs[..i], cs[i]);
  }

  lemma {:induction false} CloseIdsMember(top: Candidate, cs: seq<Candidate>, id: string)
    ensures id in CloseIds(top, cs) <==> exists c :: c in cs && CloseTo(top, c) && c.id == id
  {
    if cs != [] {
      CloseIdsMember(top, cs[1..], id);
      assert cs[0] in cs && forall c :: c in cs <==> c == cs[0] || c in cs[1..];
    }
  }

  lemma CloseIdsUntried(viable: seq<Candidate>, primary: Candidate)
    requires viable != [] && DistinctIds(viable)
    ensures forall c :: c in viable ==>
      (c.id !in Tried(primary, viable[0], viable) <==> Untried(viable, primary, c))
  {
    forall c | c in viable
      ensures c.id !in Tried(primary, viable[0], viable) <==> Untried(viable, primary, c)
    {
      CloseIdsMember(viable[0], viable, c.id);
    }
  }

  lemma {:induction false} FitEachAppend(a: seq<Candidate>, c: Candidate, room: Room, tokens: Tokenizer)
    requires Fit(c, room, tokens).Some? && forall d :: d in a ==> Fit(d, room, tokens).Some?
    ensures FitEach(a + [c], room, tokens)
         == FitEach(a, room, tokens) + [Materialized(c, Fit(c, room, tokens).value)]
  {
    hide Materialize;
    if a != [] {
      assert (a + [c])[1..] == a[1..] + [c];
      FitEachAppend(a[1..], c, room, tokens);
    }
  }

  method ChooseBridgeSummaryCandidate(ranked: seq<Candidate>, inContext: set<string>, selected: seq<ContextItem>,
                                      rules: seq<PinRule>, available: int, selectionBudget: int, tokens: Tokenizer)
    returns (r: Option<Materialized>, ghost room: Room)
    requires DistinctIds(ranked) && forall c :: c in ranked ==> Numbered(c)
    ensures RoomFor(room, selected, rules, available, selectionBudget)
    ensures r == Choose(ranked, room, inContext, tokens)
    ensures r.Some? ==> r.value.candidate in ranked && r.value.candidate.id !in inContext
    ensures r.Some? ==> r.value.body.tokenCount <= available - PinnedTokens(selected, rules)
  {
    var budgets := GetBridgeFitBudgets(selected, rules, available);
    room := Room(available, PinnedTokens(selected, rules), budgets, selectionBudget);
    var viable := Filter(ranked, ViableFor(Room(available, PinnedTokens(selected, rules), budgets, selectionBudget),
                                           inContext));
    if viable == [] {
      return None, room;
    }
    r := ChooseAmongViable(viable, room, selected, rules, available, selectionBudget, tokens);
    if r.Some? {
      ChosenIsViable(ranked, room, inContext, tokens);
      MaterializedFits(r.value.candidate, selected, rules, available, budgets, selectionBudget, tokens);
    }
  }

  method ChooseAmongViable(viable: seq<Candidate>, ghost room: Room, selected: seq<ContextItem>, rules: seq<PinRule>,
                           available: int, selectionBudget: int, tokens: Tokenizer)
    returns (r: Option<Materialized>)
    requires viable != [] && DistinctIds(viable) && forall c :: c in viable ==> Numbered(c)
    requires RoomFor(room, selected, rules, available, selectionBudget)
    ensures r == ChooseAmong(viable, room, tokens)
  {
    var primary := Primary(viable, selectionBudget);
    var fitted := FitCandidate(primary, room, selected, rules, available, selectionBudget, tokens);
    if fitted.Some? && AnswerBearing(fitted.value) && fitted.value.evidence.directRelevance > 0 {
      return Some(Materialized(primary, fitted.value));
    }
    var options, tried := FitRivals(viable, primary, room, selected, rules, available, selectionBudget, tokens);
    if options != [] {
      SortKeepsElements(options, EvidenceLeq);
      return Some(SortBy(options, EvidenceLeq)[0]);
    }
    if fitted.Some? {
      return Some(Materialized(primary, fitted.value));
    }
    for i := 0 to |viable|
      invariant FirstUntried(viable, viable[i..], primary, room, tokens)
             == FirstUntried(viable, viable, primary, room, tokens)
    {
      var c := viable[i];
      assert c in viable && viable[i..][1..] == viable[i + 1..];
      if c.id !in tried {
        var late := FitCandidate(c, room, selected, rules, available, selectionBudget, tokens);
        if late.Some? {
          return Some(Materialized(c, late.value));
        }
      }
    }
    r := None;
  }
}
