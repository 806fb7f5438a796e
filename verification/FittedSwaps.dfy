// Exactly when a swap can leave the budget if the bridge has the size its own summary was fitted to.
module FittedSwaps {
  import opened Sequences
  import opened Text
  import opened BridgeCompression
  import opened BridgeSelection
  import opened RetrievalCoalescing
  import opened ContextPacking
  import opened RetrievalOrder
  import opened BridgeSwaps
  import opened SwapLaws
  import opened SwapSafety

  // Whatever a compression costs, a limit of that size can be met.
  ghost predicate Steady(c: Candidate, tokens: Tokenizer) {
    && Numbered(c) && c.tokenCount == tokens(c.content)
    && forall l: int, m: int, force: bool :: Reaches(c, l, m, force, tokens)
  }

  predicate Reaches(c: Candidate, l: int, m: int, force: bool, tokens: Tokenizer) {
    var r := Compress(c, l, tokens, force);
    r.Some? && 0 < m && r.value.tokenCount <= m ==> Compress(c, m, tokens, false).Some?
  }

  lemma SteadyIsOrdinary(c: Candidate, tokens: Tokenizer)
    requires Steady(c, tokens)
    ensures Ordinary(c, tokens)
  {
    forall l: int, m: int | l <= m && Compress(c, l, tokens, false).Some? ensures Compress(c, m, tokens, false).Some? {
      CompressWithinLimit(c, l, tokens, false);
      assert Reaches(c, l, m, false, tokens);
      assert l > 0;
    }
  }

  // What a summary was fitted to is a limit it can be compressed to.
  lemma FittedReaches(c: Candidate, room: Room, tokens: Tokenizer, size: nat, m: int)
    requires Steady(c, tokens) && FitsAt(c, room, tokens, size) && size <= m && 0 < m
    ensures Compress(c, m, tokens, false).Some?
  {
    hide CompressToFacts, CompressToBaseLine, CompressionLimits;
    var sliced := Min(room.budgets[|room.budgets| - 1], Max(room.selectionBudget, 1));
    assert Reaches(c, sliced, m, true, tokens);
    if c.tokenCount > m {
      var limits := CompressionLimits(room.budgets, room.selectionBudget);
      if FirstCompression(c, limits, tokens).Some? {
        var l := FirstCompressionOf(c, limits, tokens);
        assert Reaches(c, l, m, false, tokens);
      }
    }
  }

  lemma {:induction false} FirstCompressionOf(c: Candidate, limits: seq<int>, tokens: Tokenizer) returns (l: int)
    requires FirstCompression(c, limits, tokens).Some?
    ensures FirstCompression(c, limits, tokens) == Compress(c, l, tokens, false)
  {
    l := limits[0];
    if !(0 < l < c.tokenCount && Compress(c, l, tokens, false).Some?) {
      l := FirstCompressionOf(c, limits[1..], tokens);
    }
  }

  // ---- summaries with facts are steady -----------------------------------------------------------

  // No line costs more than a text it is a line of.
  ghost predicate LinesCostLess(tokens: Tokenizer) {
    forall lines: seq<string>, i :: 0 <= i < |lines| ==> tokens(lines[i]) <= tokens(Join(lines, "\n"))
  }

  lemma FactsAreSteady(c: Candidate, tokens: Tokenizer)
    requires Numbered(c) && c.facts != [] && c.tokenCount == tokens(c.content) && LinesCostLess(tokens)
    ensures Steady(c, tokens)
  {
    hide LinesCostLess, Numbered, CompressToFacts;
    forall l: int, m: int, force: bool ensures Reaches(c, l, m, force, tokens) {
      if Compress(c, l, tokens, force).Some? && !KeepsWhole(c, l, force) {
        SliceReaches(c, l, m, tokens);
      }
    }
  }

  lemma SliceReaches(c: Candidate, l: int, m: int, tokens: Tokenizer)
    requires Numbered(c) && c.facts != [] && LinesCostLess(tokens) && CompressToFacts(c, l, tokens).Some?
    ensures CompressToFacts(c, l, tokens).value.tokenCount <= m ==> CompressToFacts(c, m, tokens).Some?
  {
    hide LinesCostLess, Numbered, CompressToFacts, Variants, BestFact, WellFormed, IndexesIncrease, Texts, BaseLine,
         Join, Compose;
    CompressPrintsEvidence(c, l, tokens);
    CompressToFactsSucceedsIff(c, m, tokens);
    var r := CompressToFacts(c, l, tokens).value;
    var header: seq<string>, entries: seq<Entry> :| IsEvidenceSlice(c, r.content, header, entries);
    var i :| 0 <= i < |entries| && entries[i].fact.index == BestFact(c).fact.index;
    RenderedBest(c, entries, i);
    LineOfText(header, Texts(entries), i, tokens);
    SliceCost(c, l, tokens);
    if r.tokenCount <= m {
      assert BestFits(c, entries[i].text, m, tokens);
    }
  }

  lemma RenderedBest(c: Candidate, entries: seq<Entry>, i: nat)
    requires Numbered(c) && c.facts != [] && WellFormed(c, entries)
    requires i < |entries| && entries[i].fact.index == BestFact(c).fact.index
    ensures entries[i].text in Variants(BestFact(c).fact)
  {
    hide Variants, BestFact;
    BestFactTopRanked(c);
    assert Renders(c, entries[i]);
  }

  lemma LineOfText(header: seq<string>, lines: seq<string>, i: nat, tokens: Tokenizer)
    requires LinesCostLess(tokens) && i < |lines|
    ensures tokens(lines[i]) <= tokens(Join(header + lines, "\n"))
  {
    assert (header + lines)[|header| + i] == lines[i];
  }

  lemma SliceCost(c: Candidate, l: int, tokens: Tokenizer)
    requires c.facts != [] && CompressToFacts(c, l, tokens).Some?
    ensures var r := CompressToFacts(c, l, tokens).value; r.tokenCount == tokens(r.content)
  {
    hide Select, Compose;
  }

  // ---- the condition ---------------------------------------------------------------------------

  // What the bridge lacks to be added as it is.
  function Shortfall(b: BridgeContender, used: int, available: int): nat {
    Max(used + b.tokenCount - available, 0)
  }

  // As NeverUpsized, but only for the sizes up to the shortfall.
  ghost predicate NeverUpsizedWithin(raws: seq<PackUnit>, b: BridgeContender, used: int, available: int) {
    forall size: nat :: size <= Shortfall(b, used, available) ==> NotUpsizedFrom(raws, b, used, available, size)
  }

  // ---- safe --------------------------------------------------------------------------------------

  // What a fitted bridge can replace are the eligible bundles from some size within its shortfall on.
  lemma AcceptedWithinShortfall(raws: seq<PackUnit>, b: BridgeContender, room: Room, used: int, available: int,
                                tokens: Tokenizer)
    returns (size: nat)
    requires Steady(b.candidate, tokens) && FitsAt(b.candidate, room, tokens, b.tokenCount)
    requires Accepted(raws, b, used, available, tokens) != []
    ensures size <= Shortfall(b, used, available)
    ensures Accepted(raws, b, used, available, tokens) == Large(raws, b, used, available, size)
  {
    hide Compress, CanReplaceCompressed, Accepted, Filter, FitsAt, Steady, Reaches, SucceedsUpwards;
    SteadyIsOrdinary(b.candidate, tokens);
    var u := AcceptedIsLarge(raws, b, used, available, tokens);
    size := Min(u.Tokens(), Shortfall(b, used, available));
    AcceptedIsFilter(raws, b, used, available, tokens);
    forall v | v in raws ensures AcceptedBy(b, used, available, tokens)(v)
      <==> EligibleFrom(b, used, available, size)(v) {
      if Eligible(b, v, used, available) && v.Tokens() >= Shortfall(b, used, available) {
        FittedReaches(b.candidate, room, tokens, b.tokenCount, RoomWithout(v, used, available));
      }
      assert EligibleFrom(b, used, available, u.Tokens())(v) <==> v in Large(raws, b, used, available, u.Tokens()) by {
        LargeMember(raws, b, used, available, u.Tokens(), v);
      }
      assert AcceptedBy(b, used, available, tokens)(v) <==> v in Accepted(raws, b, used, available, tokens) by {
        AcceptedMember(raws, b, used, available, tokens, v);
      }
    }
    FilterSame(raws, AcceptedBy(b, used, available, tokens), EligibleFrom(b, used, available, size));
  }

  lemma LargeMember(raws: seq<PackUnit>, b: BridgeContender, used: int, available: int, size: nat, v: PackUnit)
    requires v in raws
    ensures v in Large(raws, b, used, available, size) <==> EligibleFrom(b, used, available, size)(v)
  {
    hide Eligible;
  }

  lemma AcceptedMember(raws: seq<PackUnit>, b: BridgeContender, used: int, available: int, tokens: Tokenizer,
                       v: PackUnit)
    requires v in raws
    ensures v in Accepted(raws, b, used, available, tokens) <==> AcceptedBy(b, used, available, tokens)(v)
  {
    hide Accepts, Accepted;
    AcceptedIsFilter(raws, b, used, available, tokens);
  }

  lemma FittedSwapFits(load: Load, order: nat, b: BridgeContender, available: int, room: Room, tokens: Tokenizer)
    requires load.used <= available && Steady(b.candidate, tokens) && FitsAt(b.candidate, room, tokens, b.tokenCount)
    requires NeverUpsizedWithin(WeakestFirst(load.kept, b.hintIndex), b, load.used, available)
    ensures SwapBridge(load, order, b, available, tokens).used <= available
  {
    hide SwapBridge, Accepted, Large, Steady, FitsAt, WeakerLeq, FirstVictim;
    var raws := WeakestFirst(load.kept, b.hintIndex);
    SwapBudget(load, order, b, available, tokens);
    if DirectVictim(load, b, available).None? && Accepted(raws, b, load.used, available, tokens) != [] {
      var size := AcceptedWithinShortfall(raws, b, room, load.used, available, tokens);
      assert NotUpsizedFrom(raws, b, load.used, available, size);
    }
  }

  // ---- a summary of three sizes ----------------------------------------------------------------------

  const LINE := "[Summary] text"

  // The text, its base line, and everything else.
  function ThreeSizes(whole: nat, line: nat, cut: nat): Tokenizer {
    (s: string) => if s == TEXT then whole else if s == LINE then line else cut
  }

  function SlicedCandidate(whole: nat, sliced: bool): Candidate {
    TextCandidate(whole).(evidenceOnlyInRetrievalText := sliced)
  }

  lemma {:induction false} ShrinkWithin(normalized: string, cutoff: nat, cut: string, maxTokens: int, tokens: Tokenizer)
    requires |cut| <= cutoff
    ensures |Shrink(normalized, cutoff, cut, maxTokens, tokens)| <= cutoff
    decreases cutoff
  {
    if |cut| > 1 && tokens(cut) > maxTokens {
      var next: nat := Max(1, cutoff * 9 / 10);
      ShrinkWithin(normalized, next, CutAtWord(normalized, next), maxTokens, tokens);
    }
  }

  lemma SmallerShare(n: nat, part: int, whole: nat)
    requires n > 1 && 0 < part < whole
    ensures 1 <= Max(1, n * part / Max(1, whole)) < n
  {
    Signs(part - whole, n);
    var share := n * part / whole;
    assert whole * share <= n * part;
    assert whole * (share - n) == whole * share - n * whole;
    assert n * (part - whole) == n * part - n * whole;
    Signs(share - n, whole);
  }

  // A text over the limit is cut shorter.
  lemma TruncateIsShorter(text: string, maxTokens: int, tokens: Tokenizer)
    requires |Trim(text)| > 1 && 0 < maxTokens < tokens(Trim(text))
    ensures |Truncate(text, maxTokens, tokens)| < |Trim(text)|
  {
    hide Trim, Shrink, CutAt;
    var normalized := Trim(text);
    var cutoff: nat := Max(1, (|normalized| * maxTokens) / Max(1, tokens(normalized)));
    SmallerShare(|normalized|, maxTokens, tokens(normalized));
    CutWithin(normalized, cutoff);
    ShrinkWithin(normalized, cutoff, CutAt(normalized, cutoff), maxTokens, tokens);
  }

  lemma CutWithin(normalized: string, cutoff: nat)
    ensures |CutAt(normalized, cutoff)| <= cutoff
  {
    hide Trim;
  }

  lemma LineFacts()
    ensures Trim(LINE) == LINE && |LINE| == 14 && LINE[0] == '[' && TEXT[0] == 't'
    ensures LINE == SUMMARY_PREFIX + " " + TEXT
  {
    assert LINE[0] == '[' && LINE[|LINE| - 1] == 't';
    TrimTrimmed(LINE);
  }

  lemma TextWithoutPrefix()
    ensures WithoutPrefix(TEXT) == TEXT && !(AGGRESSIVE_PREFIX <= TEXT)
  {
    assert TEXT[0] == 't' && SUMMARY_PREFIX[0] == '[' && AGGRESSIVE_PREFIX[0] == '[';
  }

  lemma TextLines()
    ensures SplitLines(TEXT) == [TEXT] && Trim(TEXT) == TEXT
  {
    assert TEXT[0] == 't' && |TEXT| == 4;
    TrimTrimmed(TEXT);
  }

  lemma TextSynopsis()
    ensures IsSynopsis(TEXT)
  {
    hide Includes;
    assert TEXT[0] == 't' && "summary_call:"[0] == 's';
    IncludedBegins(TEXT, "ID:");
  }

  lemma SlicedCompression(whole: nat, line: nat, cut: nat, sliced: bool, limit: int, force: bool)
    requires cut <= line <= whole
    ensures var r := Compress(SlicedCandidate(whole, sliced), limit, ThreeSizes(whole, line, cut), force);
      && (r.Some? <==> 0 < limit && cut <= limit)
      && (r.Some? ==> r.value.tokenCount == if !force && whole <= limit then whole else if line <= limit then line
          else cut)
  {
    hide Truncate, BaseLine, Trim, CompressToFacts;
    var tokens := ThreeSizes(whole, line, cut);
    LineFacts();
    SameLine(whole, sliced);
    if 0 < limit < line {
      TruncateIsShorter(LINE, limit, tokens);
      TruncateIsPrefix(LINE, limit, tokens);
    }
  }

  lemma SameLine(whole: nat, sliced: bool)
    ensures BaseLine(SlicedCandidate(whole, sliced)) == LINE
  {
    hide SplitLines, Trim, WithoutPrefix, IsSynopsis;
    TextLines();
    TextSynopsis();
    TextWithoutPrefix();
    LineFacts();
  }

  lemma SlicedIsSteady(whole: nat, line: nat, cut: nat, sliced: bool)
    requires cut <= line <= whole
    ensures Steady(SlicedCandidate(whole, sliced), ThreeSizes(whole, line, cut))
  {
    hide Compress;
    var c, tokens := SlicedCandidate(whole, sliced), ThreeSizes(whole, line, cut);
    forall l: int, m: int, force: bool ensures Reaches(c, l, m, force, tokens) {
      SlicedCompression(whole, line, cut, sliced, l, force);
      SlicedCompression(whole, line, cut, sliced, m, false);
    }
  }

  // There is room, and for this size within what is preferred.
  predicate Prefers(room: Room, size: nat) {
    && room.budgets != [] && room.budgets[|room.budgets| - 1] > 0
    && size <= Min(room.budgets[|room.budgets| - 1], Max(room.selectionBudget, 1))
  }

  // A summary that is always sliced is fitted to its base line, any other one that is preferred whole stays so.
  lemma SlicedFits(whole: nat, line: nat, cut: nat, sliced: bool, room: Room)
    requires cut <= line <= whole && Prefers(room, if sliced then line else whole)
    requires !sliced ==> whole > 1
    ensures FitsAt(SlicedCandidate(whole, sliced), room, ThreeSizes(whole, line, cut), if sliced then line else whole)
  {
    hide Compress, FirstCompression, CompressionLimits;
    SlicedCompression(whole, line, cut, sliced, Min(room.budgets[|room.budgets| - 1], Max(room.selectionBudget, 1)),
                      true);
  }

  // ---- both directions -----------------------------------------------------------------------------------

  lemma LargeFittedAccepted(raws: seq<PackUnit>, b: BridgeContender, used: int, available: int, size: nat,
                            tokens: Tokenizer, cut: nat)
    requires size <= Shortfall(b, used, available) && cut == Max(0, Min(size + available - used, b.tokenCount))
    requires forall limit: int :: Compress(b.candidate, limit, tokens, false).Some? <==> 0 < limit && cut <= limit
    ensures Accepted(raws, b, used, available, tokens) == Large(raws, b, used, available, size)
  {
    hide Compress, Accepted, Filter, CanReplaceCompressed;
    AcceptedIsFilter(raws, b, used, available, tokens);
    FilterSame(raws, AcceptedBy(b, used, available, tokens), EligibleFrom(b, used, available, size));
  }

  lemma FittedOverruns(load: Load, order: nat, b: BridgeContender, available: int, room: Room, size: nat)
    returns (candidate: Candidate, tokens: Tokenizer)
    requires var raws := WeakestFirst(load.kept, b.hintIndex);
      && size <= Shortfall(b, load.used, available) && !NotUpsizedFrom(raws, b, load.used, available, size)
    requires DirectVictim(load, b, available).None?
    requires Prefers(room, b.tokenCount)
    ensures Steady(candidate, tokens) && FitsAt(candidate, room, tokens, b.tokenCount)
    ensures SwapBridge(load, order, b.(candidate := candidate), available, tokens).used > available
  {
    hide Compress, CanReplaceCompressed, WeakerLeq, Filter, Accepted, Steady, FitsAt, Prefers, FirstVictim,
         ThreeSizes, SlicedCandidate;
    var raws := WeakestFirst(load.kept, b.hintIndex);
    var large := Large(raws, b, load.used, available, size);
    LargeMembers(raws, b, load.used, available, size);
    var free, own := RoomWithout(Last(large), load.used, available), b.tokenCount;
    assert RoomWithout(large[0], load.used, available) < free;
    var cut: nat := Max(0, Min(size + available - load.used, own));
    var sliced := own < free;
    var line, whole := if sliced then own else free, if sliced then free else own;
    candidate, tokens := SlicedCandidate(whole, sliced), ThreeSizes(whole, line, cut);
    SlicedIsSteady(whole, line, cut, sliced);
    SlicedFits(whole, line, cut, sliced, room);
    var b' := b.(candidate := candidate);
    forall limit: int ensures Compress(candidate, limit, tokens, false).Some? <==> 0 < limit && cut <= limit {
      SlicedCompression(whole, line, cut, sliced, limit, false);
    }
    LargeFittedAccepted(raws, b', load.used, available, size, tokens, cut);
    SameLarge(raws, b, candidate, load.used, available, size);
    SameVictim(load, b, candidate, available);
    SlicedCompression(whole, line, cut, sliced, free, false);
  }

  lemma LargeMembers(raws: seq<PackUnit>, b: BridgeContender, used: int, available: int, size: nat)
    ensures forall u :: u in Large(raws, b, used, available, size) ==>
      u.Tokens() >= size && RoomWithout(u, used, available) > 0
  {
    hide CanReplaceCompressed;
  }

  lemma SameLarge(raws: seq<PackUnit>, b: BridgeContender, candidate: Candidate, used: int, available: int, size: nat)
    ensures Large(raws, b.(candidate := candidate), used, available, size) == Large(raws, b, used, available, size)
  {
    hide Filter;
    FilterSame(raws, EligibleFrom(b.(candidate := candidate), used, available, size),
               EligibleFrom(b, used, available, size));
  }

  lemma SameWithin(raws: seq<PackUnit>, b: BridgeContender, candidate: Candidate, used: int, available: int)
    ensures NeverUpsizedWithin(raws, b.(candidate := candidate), used, available)
      <==> NeverUpsizedWithin(raws, b, used, available)
  {
    hide Large;
    forall size: nat ensures NotUpsizedFrom(raws, b.(candidate := candidate), used, available, size)
                        <==> NotUpsizedFrom(raws, b, used, available, size) {
      SameLarge(raws, b, candidate, used, available, size);
    }
  }

  lemma FittedSafe(load: Load, order: nat, b: BridgeContender, candidate: Candidate, available: int, room: Room,
                   tokens: Tokenizer)
    requires load.used <= available && Steady(candidate, tokens) && FitsAt(candidate, room, tokens, b.tokenCount)
    requires DirectVictim(load, b, available).Some?
      || NeverUpsizedWithin(WeakestFirst(load.kept, b.hintIndex), b, load.used, available)
    ensures SwapBridge(load, order, b.(candidate := candidate), available, tokens).used <= available
  {
    hide SwapBridge, WeakerLeq, NeverUpsizedWithin, DirectVictim, Accepted, Steady, FitsAt;
    var b' := b.(candidate := candidate);
    SameVictim(load, b, candidate, available);
    if DirectVictim(load, b, available).Some? {
      SwapBudget(load, order, b', available, tokens);
    } else {
      SameWithin(WeakestFirst(load.kept, b.hintIndex), b, candidate, load.used, available);
      FittedSwapFits(load, order, b', available, room, tokens);
    }
  }

  // The size of a bridge is what its summary was fitted to.  For a size that the room prefers, a swap stays in
  // budget for every steady summary fitted to this very size and every tokenizer if and only if a direct swap
  // applies, or among the eligible bundles from any size up to the shortfall on the strongest is no larger
  // than the weakest.
  lemma FittedSwapSafeIff(load: Load, order: nat, b: BridgeContender, available: int, room: Room)
    requires load.used <= available && Prefers(room, b.tokenCount)
    ensures (forall candidate, tokens :: Steady(candidate, tokens) && FitsAt(candidate, room, tokens, b.tokenCount) ==>
               SwapBridge(load, order, b.(candidate := candidate), available, tokens).used <= available)
      <==> DirectVictim(load, b, available).Some?
           || NeverUpsizedWithin(WeakestFirst(load.kept, b.hintIndex), b, load.used, available)
  {
    hide SwapBridge, WeakerLeq, NotUpsizedFrom, Steady, FitsAt, DirectVictim, Prefers;
    var raws := WeakestFirst(load.kept, b.hintIndex);
    if DirectVictim(load, b, available).Some? || NeverUpsizedWithin(raws, b, load.used, available) {
      forall candidate, tokens | Steady(candidate, tokens) && FitsAt(candidate, room, tokens, b.tokenCount)
        ensures SwapBridge(load, order, b.(candidate := candidate), available, tokens).used <= available
      {
        FittedSafe(load, order, b, candidate, available, room, tokens);
      }
    } else {
      var size: nat :| size <= Shortfall(b, load.used, available)
        && !NotUpsizedFrom(raws, b, load.used, available, size);
      var candidate, tokens := FittedOverruns(load, order, b, available, room, size);
    }
  }

  // Whatever the size: over all rooms of all requests the condition is exact.
  lemma SafeInEveryRoomIff(load: Load, order: nat, b: BridgeContender, available: int)
    requires load.used <= available
    ensures (forall room, candidate, tokens ::
               Steady(candidate, tokens) && FitsAt(candidate, room, tokens, b.tokenCount) ==>
               SwapBridge(load, order, b.(candidate := candidate), available, tokens).used <= available)
      <==> DirectVictim(load, b, available).Some?
           || NeverUpsizedWithin(WeakestFirst(load.kept, b.hintIndex), b, load.used, available)
  {
    hide SwapBridge, WeakerLeq, NeverUpsizedWithin, Steady, FitsAt, DirectVictim;
    if DirectVictim(load, b, available).Some?
      || NeverUpsizedWithin(WeakestFirst(load.kept, b.hintIndex), b, load.used, available)
    {
      forall room, candidate, tokens | Steady(candidate, tokens) && FitsAt(candidate, room, tokens, b.tokenCount)
        ensures SwapBridge(load, order, b.(candidate := candidate), available, tokens).used <= available
      {
        FittedSafe(load, order, b, candidate, available, room, tokens);
      }
    } else {
      var enough := Max(b.tokenCount, 1);
      FittedSwapSafeIff(load, order, b, available, Room(enough, 0, [enough], enough));
    }
  }
}
