// Which facts a compressed bridge prints, in which rendering, and in which order they are considered.
module CompressionLaws {
  import opened Sequences
  import opened Text
  import opened BridgeCompression

  // ---- the rendering of one fact -----------------------------------------------------------------

  // The text is the most complete rendering that fits: with date and anchors, else without the date, else without
  // both, else the minimal line.
  ghost predicate MostComplete(f: BridgeFact, text: string, fits: string -> bool) {
    if fits(FullLine(f, true, true)) then text == FullLine(f, true, true)
    else if fits(FullLine(f, false, true)) then text == FullLine(f, false, true)
    else if fits(FullLine(f, false, false)) then text == FullLine(f, false, false)
    else fits(text) && text == "ID:" + f.id + " | " + f.speaker + ": " + f.fact
  }

  ghost predicate NoneFits(f: BridgeFact, fits: string -> bool) {
    && !fits(FullLine(f, true, true)) && !fits(FullLine(f, false, true)) && !fits(FullLine(f, false, false))
    && !fits("ID:" + f.id + " | " + f.speaker + ": " + f.fact)
  }

  function Parted(parts: seq<string>): string {
    if parts == [] then "" else " | " + parts[0] + Parted(parts[1..])
  }

  lemma {:induction false} JoinIsParted(first: string, rest: seq<string>)
    ensures Join([first] + rest, " | ") == first + Parted(rest)
    decreases |rest|
  {
    if rest == [] {
      assert [first] + [] == [first];
    } else {
      assert ([first] + rest)[1..] == rest && rest == [rest[0]] + rest[1..];
      JoinIsParted(rest[0], rest[1..]);
      assert first + " | " + (rest[0] + Parted(rest[1..])) == first + (" | " + rest[0] + Parted(rest[1..]));
    }
  }

  lemma PartedConcat(a: seq<string>, b: seq<string>)
    ensures Parted(a + b) == Parted(a) + Parted(b)
    decreases |a|
  {
    if a == [] {
      assert a + b == b;
    } else {
      assert (a + b)[1..] == a[1..] + b;
      PartedConcat(a[1..], b);
    }
  }

  function Field(open: string, value: Option<string>, close: string): string {
    if value.None? || open + value.value + close == "" then "" else " | " + open + value.value + close
  }

  lemma OneField(open: string, value: Option<string>, close: string)
    ensures Parted(Present(Tagged(open, value, close))) == Field(open, value, close)
  {
    if value.Some? {
      var text := open + value.value + close;
      assert [text][1..] == [];
      assert " | " + text + "" == " | " + open + value.value + close;
    }
  }

  // A full line names, where they are known and asked for: the date, the id, the speaker, the fact, and both anchors.
  lemma FullLineIs(f: BridgeFact, includeDate: bool, includeAnchors: bool)
    ensures FullLine(f, includeDate, includeAnchors)
      == "[summary_fact]"
         + (if includeDate then Field("DATE:", f.date, "") else "")
         + Field("ID:", Some(f.id), "") + Field("", Some(f.speaker), "") + Field("", Some(f.fact), "")
         + (if includeAnchors then Field("[shared ", f.sharedId, "]")
            + Field("[shared_caption ", f.sharedCaptionId, "]")
            else "")
  {
    hide Parted, Present, Tagged, Field, Join;
    var date := if includeDate then Present(Tagged("DATE:", f.date, "")) else [];
    var shared, caption := Present(Tagged("[shared ", f.sharedId, "]")), Present(Tagged("[shared_caption ",
                                                                                        f.sharedCaptionId, "]"));
    var anchors := if includeAnchors then shared + caption else [];
    var id, speaker, fact := ["ID:" + f.id], Present(Some(f.speaker)), Present(Some(f.fact));
    OneField("DATE:", f.date, "");
    IdField(f.id);
    PlainField(f.speaker);
    PlainField(f.fact);
    OneField("[shared ", f.sharedId, "]");
    OneField("[shared_caption ", f.sharedCaptionId, "]");
    NothingParted();
    PartedConcat(shared, caption);
    PartedConcat(date, id);
    PartedConcat(date + id, speaker);
    PartedConcat(date + id + speaker, fact);
    PartedConcat(date + id + speaker + fact, anchors);
    var rest := date + id + speaker + fact + anchors;
    assert [SUMMARY_FACT_PREFIX] + date + id + speaker + fact + anchors == [SUMMARY_FACT_PREFIX] + rest;
    JoinIsParted(SUMMARY_FACT_PREFIX, rest);
  }

  lemma NothingParted()
    ensures Parted([]) == ""
  {
  }

  lemma IdField(id: string)
    ensures Parted(["ID:" + id]) == Field("ID:", Some(id), "")
  {
    assert ["ID:" + id][1..] == [];
    assert "ID:" + id + "" == "ID:" + id && " | " + "ID:" + id + "" == " | " + ("ID:" + id) + "";
  }

  lemma PlainField(text: string)
    ensures Parted(Present(Some(text))) == Field("", Some(text), "")
  {
    OneField("", Some(text), "");
    assert "" + text + "" == text;
  }

  function FirstFit(variants: seq<string>, fits: string -> bool): Option<string> {
    if variants == [] then None
    else if fits(variants[0]) then Some(variants[0])
    else FirstFit(variants[1..], fits)
  }

  lemma {:induction false} FirstFitConcat(a: seq<string>, b: seq<string>, fits: string -> bool)
    ensures FirstFit(a + b, fits) == if FirstFit(a, fits).Some? then FirstFit(a, fits) else FirstFit(b, fits)
    ensures FirstFit(a, fits).None? ==> forall v :: v in a ==> !fits(v)
  {
    if a == [] {
      assert a + b == b;
    } else {
      assert (a + b)[1..] == a[1..] + b;
      FirstFitConcat(a[1..], b, fits);
    }
  }

  lemma FirstFitPush(variants: seq<string>, line: string, fits: string -> bool)
    ensures FirstFit(PushNew(variants, line), fits)
      == if FirstFit(variants, fits).Some? then FirstFit(variants, fits) else if fits(line) then Some(line) else None
  {
    FirstFitConcat(variants, [line], fits);
    assert [line][1..] == [];
  }

  lemma FirstVariantIsMostComplete(f: BridgeFact, fits: string -> bool)
    ensures var r := FirstFit(Variants(f), fits);
      if r.Some? then MostComplete(f, r.value, fits) && fits(r.value) else NoneFits(f, fits)
  {
    hide FullLine, PushNew, FirstFit;
    var v1 := [FullLine(f, true, true)];
    var v2 := PushNew(v1, FullLine(f, false, true));
    var v3 := PushNew(v2, FullLine(f, false, false));
    FirstFitPush([], FullLine(f, true, true), fits);
    NothingPushed(FullLine(f, true, true), fits);
    FirstFitPush(v1, FullLine(f, false, true), fits);
    FirstFitPush(v2, FullLine(f, false, false), fits);
    FirstFitPush(v3, MinimalLine(f), fits);
  }

  lemma NothingPushed(line: string, fits: string -> bool)
    ensures FirstFit([], fits).None? && PushNew([], line) == [line]
  {
  }

  // ---- the best fact -------------------------------------------------------------------------------

  predicate StronglyRelevant(a: ScoredFact, b: ScoredFact) {
    || a.score > b.score
    || (a.score == b.score && a.concreteCueCount > b.concreteCueCount)
    || (a.score == b.score && a.concreteCueCount == b.concreteCueCount && a.directRelevance > b.directRelevance)
    || (&& a.score == b.score && a.concreteCueCount == b.concreteCueCount && a.directRelevance == b.directRelevance
        && a.fact.index < b.fact.index)
  }

  // The best fact has the highest score, then the most concrete cues, then the most direct relevance, then comes first.
  lemma BestFactIs(c: Candidate)
    requires Numbered(c) && c.facts != []
    ensures BestFact(c) in c.facts && forall f :: f in c.facts && f != BestFact(c) ==> StronglyRelevant(BestFact(c), f)
  {
    BestFactTopRanked(c);
  }

  // ---- renderings of the selected facts --------------------------------------------------------------

  ghost function FitsAsBest(c: Candidate, maxTokens: int, tokens: Tokenizer): string -> bool
    requires c.facts != []
  {
    (text: string) => BestFits(c, text, maxTokens, tokens)
  }

  ghost function FitsAfter(header: Option<string>, entries: seq<Entry>, fact: BridgeFact, maxTokens: int,
                           tokens: Tokenizer): string -> bool
  {
    (text: string) => tokens(Compose(header, entries + [Entry(fact, text)])) <= maxTokens
  }

  lemma {:induction false} AddVariantIsFirstFit(entries: seq<Entry>, fact: BridgeFact, variants: seq<string>,
                                                header: Option<string>, maxTokens: int, tokens: Tokenizer)
    ensures var first := FirstFit(variants, FitsAfter(header, entries, fact, maxTokens, tokens));
      AddVariant(entries, fact, variants, header, maxTokens, tokens)
        == if first.Some? then entries + [Entry(fact, first.value)] else entries
  {
    hide Compose;
    if variants != [] {
      AddVariantIsFirstFit(entries, fact, variants[1..], header, maxTokens, tokens);
    }
  }

  lemma {:induction false} FirstVariantIsFirstFit(c: Candidate, variants: seq<string>, maxTokens: int,
                                                  tokens: Tokenizer)
    requires c.facts != []
    ensures var fact, first := BestFact(c).fact, FirstFit(variants, FitsAsBest(c, maxTokens, tokens));
      FirstVariant(c, fact, variants, maxTokens, tokens)
        == if first.None? then None
           else Some(Selection([Entry(fact, first.value)],
                               tokens(Compose(Some(BaseLine(c)), [Entry(fact, first.value)])) <= maxTokens))
  {
    hide Compose, BaseLine, BestFact;
    if variants != [] {
      FirstVariantIsFirstFit(c, variants[1..], maxTokens, tokens);
    }
  }

  // One supporting fact: in its most complete rendering that fits beside the entries so far, or not at all.
  ghost predicate AddedInTurn(c: Candidate, before: seq<Entry>, after: seq<Entry>, index: int, header: Option<string>,
                              maxTokens: int, tokens: Tokenizer)
  {
    if Selected(before, index) || !(0 <= index < |c.facts|) then after == before
    else
      var fact := c.facts[index].fact;
      var fits := FitsAfter(header, before, fact, maxTokens, tokens);
      if NoneFits(fact, fits) then after == before
      else exists text :: MostComplete(fact, text, fits) && after == before + [Entry(fact, text)]
  }

  lemma SupportAddedInTurn(c: Candidate, entries: seq<Entry>, index: int, header: Option<string>, maxTokens: int,
                           tokens: Tokenizer)
    ensures AddedInTurn(c, entries, AddIndex(c, entries, index, header, maxTokens, tokens), index, header, maxTokens,
                        tokens)
  {
    hide Compose, FullLine, MinimalLine, Selected, Variants;
    if !Selected(entries, index) && 0 <= index < |c.facts| {
      var fact := c.facts[index].fact;
      var fits := FitsAfter(header, entries, fact, maxTokens, tokens);
      AddVariantIsFirstFit(entries, fact, Variants(fact), header, maxTokens, tokens);
      FirstVariantIsMostComplete(fact, fits);
      if FirstFit(Variants(fact), fits).Some? {
        assert !NoneFits(fact, fits);
      }
    }
  }

  // The entries from one position on are added in their most complete rendering.
  ghost predicate RenderedFrom(entries: seq<Entry>, first: nat, header: Option<string>, maxTokens: int,
                               tokens: Tokenizer)
  {
    forall k :: first <= k < |entries| ==>
      MostComplete(entries[k].fact, entries[k].text,
                   FitsAfter(header, entries[..k], entries[k].fact, maxTokens, tokens))
  }

  lemma {:induction false} SupportRendered(c: Candidate, entries: seq<Entry>, indexes: seq<int>, header: Option<string>,
                                           maxTokens: int, tokens: Tokenizer, first: nat)
    requires first <= |entries| && RenderedFrom(entries, first, header, maxTokens, tokens)
    ensures var r := AddSupport(c, entries, indexes, header, maxTokens, tokens);
      entries <= r && RenderedFrom(r, first, header, maxTokens, tokens)
    decreases |indexes|
  {
    hide MostComplete, NoneFits, FitsAfter, AddIndex, Selected;
    if indexes != [] {
      var next := AddIndex(c, entries, indexes[0], header, maxTokens, tokens);
      SupportAddedInTurn(c, entries, indexes[0], header, maxTokens, tokens);
      if next != entries {
        assert next[..|entries|] == entries;
        forall k | first <= k < |entries| ensures next[..k] == entries[..k] {
        }
      }
      SupportRendered(c, next, indexes[1..], header, maxTokens, tokens, first);
    }
  }

  // The facts of a compressed bridge in the order in which they were selected: the best one first, in the most complete
  // rendering that fits under the base line or alone, then each supporting one in the most complete rendering that
  // fits beside those before it.
  ghost predicate SelectedInTurn(c: Candidate, entries: seq<Entry>, header: Option<string>, maxTokens: int,
                                 tokens: Tokenizer)
    requires c.facts != []
  {
    && entries != [] && entries[0].fact == BestFact(c).fact
    && MostComplete(entries[0].fact, entries[0].text, FitsAsBest(c, maxTokens, tokens))
    && header == (if tokens(Compose(Some(BaseLine(c)), entries[..1])) <= maxTokens then Some(BaseLine(c)) else None)
    && RenderedFrom(entries, 1, header, maxTokens, tokens)
  }

  lemma SelectionInTurn(c: Candidate, maxTokens: int, tokens: Tokenizer)
    requires c.facts != []
    ensures var s := Select(c, maxTokens, tokens);
      if s.None? then NoneFits(BestFact(c).fact, FitsAsBest(c, maxTokens, tokens))
      else SelectedInTurn(c, s.value.entries, Header(c, s.value.includeHeader), maxTokens, tokens)
  {
    hide Compose, BaseLine, FullLine, MinimalLine, Variants, MostComplete, NoneFits, FitsAsBest, BestFact, FitsAfter;
    var fact := BestFact(c).fact;
    FirstVariantIsFirstFit(c, Variants(fact), maxTokens, tokens);
    FirstVariantIsMostComplete(fact, FitsAsBest(c, maxTokens, tokens));
    var first := FirstVariant(c, fact, Variants(fact), maxTokens, tokens);
    if first.Some? {
      var header := Header(c, first.value.includeHeader);
      SupportRendered(c, first.value.entries, SupportIndexes(c), header, maxTokens, tokens, 1);
      assert Select(c, maxTokens, tokens).value.entries[..1] == first.value.entries;
    }
  }

  // ---- in which order facts are considered --------------------------------------------------------------

  // The neighbours of the best fact first, the one before it and the one after it, then the others by relevance.
  predicate ConsideredBefore(c: Candidate, a: nat, b: nat)
    requires c.facts != [] && a < |c.facts| && b < |c.facts|
  {
    var best := BestFact(c).fact.index;
    if a == best - 1 || b == best - 1 then a != b && a == best - 1
    else if a == best + 1 || b == best + 1 then a != b && a == best + 1
    else StronglyRelevant(c.facts[a], c.facts[b])
  }

  ghost predicate TurnBefore(indexes: seq<int>, a: int, b: int) {
    exists i :: 0 <= i < |indexes| && indexes[i] == a && b !in indexes[..i + 1]
  }

  lemma RankedByRelevance(c: Candidate)
    requires Numbered(c)
    ensures Sorted(Ranked(c), FactLeq) && forall f :: f in Ranked(c) <==> f in c.facts
    ensures forall f, g :: StronglyRelevant(f, g) ==> !FactLeq(g, f) && f != g
  {
    assert TotalPreorder(FactLeq);
    SortSorts(c.facts, FactLeq);
    SortKeepsElements(c.facts, FactLeq);
  }

  lemma NumberOfFact(c: Candidate, f: ScoredFact)
    requires Numbered(c) && f in c.facts
    ensures f.fact.index < |c.facts| && c.facts[f.fact.index] == f
  {
  }

  lemma RankedTurns(c: Candidate, a: nat, b: nat)
    requires Numbered(c) && a < |c.facts| && b < |c.facts| && StronglyRelevant(c.facts[a], c.facts[b])
    ensures TurnBefore(IndexesOf(Ranked(c)), a, b)
  {
    hide FactLeq, StronglyRelevant, Ranked;
    var ranked, indexes := Ranked(c), IndexesOf(Ranked(c));
    RankedByRelevance(c);
    hide Numbered;
    NumberOfFact(c, c.facts[a]);
    var i :| 0 <= i < |ranked| && ranked[i] == c.facts[a];
    forall j | 0 <= j <= i ensures indexes[j] != b {
      assert ranked[j] in c.facts && (j < i ==> FactLeq(ranked[j], ranked[i]));
      NumberOfFact(c, ranked[j]);
    }
    NumberedAt(c, a);
    assert indexes[i] == a;
  }

  lemma NumberedAt(c: Candidate, i: nat)
    requires Numbered(c) && i < |c.facts|
    ensures c.facts[i].fact.index == i
  {
  }

  lemma TurnsOfSupport(c: Candidate, a: nat, b: nat)
    requires Numbered(c) && c.facts != [] && a < |c.facts| && b < |c.facts| && ConsideredBefore(c, a, b)
    ensures TurnBefore(SupportIndexes(c), a, b)
  {
    hide Ranked, BestFact, StronglyRelevant, Numbered;
    var best: int := BestFact(c).fact.index;
    var indexes, ranked := SupportIndexes(c), IndexesOf(Ranked(c));
    assert indexes == [best - 1, best + 1] + ranked;
    if a == best - 1 {
      assert indexes[0] == a && indexes[..1] == [best - 1];
    } else if a == best + 1 {
      assert indexes[1] == a && indexes[..2] == [best - 1, best + 1];
    } else {
      RankedTurns(c, a, b);
      LaterTurn([best - 1, best + 1], ranked, a, b);
    }
  }

  lemma LaterTurn(first: seq<int>, rest: seq<int>, a: int, b: int)
    requires TurnBefore(rest, a, b) && b !in first
    ensures TurnBefore(first + rest, a, b)
  {
    var i :| 0 <= i < |rest| && rest[i] == a && b !in rest[..i + 1];
    var k := |first| + i;
    assert (first + rest)[k] == a && (first + rest)[..k + 1] == first + rest[..i + 1];
  }

  lemma NoneFitsLater(f: BridgeFact, before: seq<Entry>, after: seq<Entry>, header: Option<string>, maxTokens: int,
                      tokens: Tokenizer)
    requires Monotone(tokens, header) && before <= after && NoneFits(f, FitsAfter(header, before, f, maxTokens, tokens))
    ensures NoneFits(f, FitsAfter(header, after, f, maxTokens, tokens))
  {
    hide Compose, FullLine, MinimalLine;
  }

  // The entry at a position was added only after every fact considered earlier had been added or found not to fit.
  lemma {:induction false} EarlierDoNotFit(c: Candidate, entries: seq<Entry>, indexes: seq<int>, header: Option<string>,
                                           maxTokens: int, tokens: Tokenizer, k: nat, a: nat)
    requires Numbered(c) && Monotone(tokens, header)
    requires var r := AddSupport(c, entries, indexes, header, maxTokens, tokens);
      && |entries| <= k < |r| && a < |c.facts| && TurnBefore(indexes, a, r[k].fact.index) && !Selected(r[..k], a)
    ensures var r := AddSupport(c, entries, indexes, header, maxTokens, tokens);
      NoneFits(c.facts[a].fact, FitsAfter(header, r[..k], c.facts[a].fact, maxTokens, tokens))
    decreases |indexes|
  {
    hide Monotone, NoneFits, FitsAfter, MostComplete, AddIndex;
    var r := AddSupport(c, entries, indexes, header, maxTokens, tokens);
    var next := AddIndex(c, entries, indexes[0], header, maxTokens, tokens);
    SupportAddedInTurn(c, entries, indexes[0], header, maxTokens, tokens);
    SupportGrows(c, next, indexes[1..], header, maxTokens, tokens);
    var b := r[k].fact.index;
    var i :| 0 <= i < |indexes| && indexes[i] == a && b !in indexes[..i + 1];
    assert indexes[0] in indexes[..i + 1];
    AddedIndex(c, entries, next, indexes[0], header, maxTokens, tokens);
    assert entries <= r[..k];
    SelectedGrows(entries, r[..k], a);
    assert next <= r && |next| <= k;
    assert next <= r[..k];
    if indexes[0] == a {
      SelectedGrows(next, r[..k], a);
      NoneFitsLater(c.facts[a].fact, entries, r[..k], header, maxTokens, tokens);
    } else {
      assert indexes[1..][i - 1] == a && indexes[..i + 1] == [indexes[0]] + indexes[1..][..i];
      EarlierDoNotFit(c, next, indexes[1..], header, maxTokens, tokens, k, a);
    }
  }

  lemma AddedIndex(c: Candidate, before: seq<Entry>, after: seq<Entry>, index: int, header: Option<string>,
                   maxTokens: int, tokens: Tokenizer)
    requires Numbered(c) && AddedInTurn(c, before, after, index, header, maxTokens, tokens)
    ensures after == before || (|after| == |before| + 1 && after[..|before|] == before
                                && after[|before|].fact.index == index)
    ensures before <= after
    ensures 0 <= index < |c.facts| && !Selected(after, index) ==>
      NoneFits(c.facts[index].fact, FitsAfter(header, before, c.facts[index].fact, maxTokens, tokens))
  {
    hide NoneFits, MostComplete, FitsAfter;
    if after != before {
      var fact := c.facts[index].fact;
      var text :| MostComplete(fact, text, FitsAfter(header, before, fact, maxTokens, tokens))
        && after == before + [Entry(fact, text)];
      assert after[|before|].fact.index == index;
    }
  }

  lemma {:induction false} SupportGrows(c: Candidate, entries: seq<Entry>, indexes: seq<int>, header: Option<string>,
                                        maxTokens: int, tokens: Tokenizer)
    ensures entries <= AddSupport(c, entries, indexes, header, maxTokens, tokens)
    decreases |indexes|
  {
    hide MostComplete, NoneFits, FitsAfter, AddIndex, Selected;
    if indexes != [] {
      SupportAddedInTurn(c, entries, indexes[0], header, maxTokens, tokens);
      SupportGrows(c, AddIndex(c, entries, indexes[0], header, maxTokens, tokens), indexes[1..], header, maxTokens,
                   tokens);
    }
  }

  // Under a monotone tokenizer: when a supporting fact was added, no fact that is considered before it and had not been
  // added would have fitted in any rendering.
  lemma SupportInOrder(c: Candidate, maxTokens: int, tokens: Tokenizer, k: nat, a: nat)
    requires Numbered(c) && c.facts != [] && Select(c, maxTokens, tokens).Some?
    requires var s := Select(c, maxTokens, tokens).value;
      && Monotone(tokens, Header(c, s.includeHeader)) && 1 <= k < |s.entries| && a < |c.facts|
      && !Selected(s.entries[..k], a)
    ensures var s := Select(c, maxTokens, tokens).value;
      && 0 <= s.entries[k].fact.index < |c.facts|
      && (ConsideredBefore(c, a, s.entries[k].fact.index) ==>
            NoneFits(c.facts[a].fact,
                     FitsAfter(Header(c, s.includeHeader), s.entries[..k], c.facts[a].fact, maxTokens, tokens)))
  {
    hide Compose, BaseLine, Variants, NoneFits, FitsAfter, BestFact, ConsideredBefore, Monotone, SupportIndexes,
         Selected;
    var fact := BestFact(c).fact;
    var s := Select(c, maxTokens, tokens).value;
    FirstVariantIsFirstFit(c, Variants(fact), maxTokens, tokens);
    var first := FirstVariant(c, fact, Variants(fact), maxTokens, tokens).value;
    SelectKeeps(c, maxTokens, tokens);
    assert Renders(c, s.entries[k]);
    if ConsideredBefore(c, a, s.entries[k].fact.index) {
      TurnsOfSupport(c, a, s.entries[k].fact.index);
      EarlierDoNotFit(c, first.entries, SupportIndexes(c), Header(c, first.includeHeader), maxTokens, tokens, k, a);
    }
  }

  // ---- the base line ----------------------------------------------------------------------------------------

  // A line without a statement of its own.
  predicate Boilerplate(line: string) {
    || line == "" || line == "[Summary]" || line == "[Aggressive Summary]"
    || "summary_call:" <= line || Includes(line, "ID:")
  }

  lemma {:induction false} SynopsisIs(lines: seq<string>)
    ensures match Synopsis(lines)
      case None => forall line :: line in lines ==> Boilerplate(Trim(line))
      case Some(synopsis) => exists i ::
        0 <= i < |lines| && synopsis == Trim(lines[i]) && !Boilerplate(synopsis)
        && forall j :: 0 <= j < i ==> Boilerplate(Trim(lines[j]))
  {
    hide Trim, Includes;
    if lines != [] {
      SynopsisIs(lines[1..]);
      var r := Synopsis(lines);
      if Boilerplate(Trim(lines[0])) && r.Some? {
        var i :| 0 <= i < |lines[1..]| && r.value == Trim(lines[1..][i]) && !Boilerplate(r.value)
          && forall j :: 0 <= j < i ==> Boilerplate(Trim(lines[1..][j]));
        assert lines[i + 1] == lines[1..][i];
        forall j | 0 <= j < i + 1 ensures Boilerplate(Trim(lines[j])) {
          assert j > 0 ==> lines[j] == lines[1..][j - 1];
        }
      }
    }
  }

  // The base line names the kind of the summary and repeats its synopsis, without naming the kind twice.
  lemma BaseLineIs(c: Candidate, rest: string)
    ensures var prefix := if "[Aggressive Summary]" <= c.content then "[Aggressive Summary]" else "[Summary]";
      var synopsis := Synopsis(SplitLines(c.content));
      && (synopsis.None? ==> BaseLine(c) == prefix)
      && (synopsis == Some("[Summary]" + rest) || synopsis == Some("[Aggressive Summary]" + rest) ==>
            BaseLine(c) == Trim(prefix + " " + TrimStart(rest)))
      && (synopsis.Some? && !("[Summary]" <= synopsis.value) && !("[Aggressive Summary]" <= synopsis.value) ==>
            BaseLine(c) == Trim(prefix + " " + synopsis.value))
  {
    hide Synopsis, SplitLines, Trim, TrimStart;
    assert ("[Summary]" + rest)[9..] == rest && ("[Aggressive Summary]" + rest)[20..] == rest;
    assert "[Summary]"[1] == 'S' && "[Aggressive Summary]"[1] == 'A';
  }

  // ---- cutting ------------------------------------------------------------------------------------------------

  // One cut after the other, each a tenth shorter than the last and, but for the first, at a word.
  ghost predicate Cuts(normalized: string, cutoffs: seq<nat>, cuts: seq<string>) {
    && |cutoffs| == |cuts| > 0
    && (forall i :: 0 < i < |cutoffs| ==> cutoffs[i] == Max(1, cutoffs[i - 1] * 9 / 10))
    && (forall i :: 0 < i < |cuts| ==> cuts[i] == CutAtWord(normalized, cutoffs[i]))
  }

  lemma WordCutWithin(normalized: string, cutoff: nat)
    ensures |CutAtWord(normalized, cutoff)| <= cutoff
  {
    hide Trim;
  }

  lemma {:induction false} ShrinkCuts(normalized: string, cutoff: nat, cut: string, maxTokens: int, tokens: Tokenizer)
    returns (cutoffs: seq<nat>, cuts: seq<string>)
    requires |cut| <= cutoff
    ensures Cuts(normalized, cutoffs, cuts) && cutoffs[0] == cutoff && cuts[0] == cut
    ensures Last(cuts) == Shrink(normalized, cutoff, cut, maxTokens, tokens)
    ensures |Last(cuts)| <= 1 || tokens(Last(cuts)) <= maxTokens
    ensures forall i :: 0 <= i < |cuts| - 1 ==> |cuts[i]| > 1 && tokens(cuts[i]) > maxTokens
    decreases cutoff
  {
    hide CutAtWord;
    cutoffs, cuts := [cutoff], [cut];
    if |cut| > 1 && tokens(cut) > maxTokens {
      var next: nat := Max(1, cutoff * 9 / 10);
      WordCutWithin(normalized, next);
      var laterCutoffs, laterCuts := ShrinkCuts(normalized, next, CutAtWord(normalized, next), maxTokens, tokens);
      cutoffs, cuts := [cutoff] + laterCutoffs, [cut] + laterCuts;
    }
  }

  // A text over the limit is cut in proportion and then shortened step by step, no further than needed.
  lemma TruncatedNoFurther(text: string, maxTokens: int, tokens: Tokenizer)
    returns (cutoffs: seq<nat>, cuts: seq<string>)
    requires !Blank(text) && tokens(Trim(text)) > maxTokens
    ensures Cuts(Trim(text), cutoffs, cuts) && Last(cuts) == Truncate(text, maxTokens, tokens)
    ensures cutoffs[0] == Max(1, |Trim(text)| * maxTokens / Max(1, tokens(Trim(text))))
    ensures cuts[0] == CutAt(Trim(text), cutoffs[0])
    ensures forall i :: 0 <= i < |cuts| - 1 ==> |cuts[i]| > 1 && tokens(cuts[i]) > maxTokens
  {
    hide CutAtWord, Trim;
    var normalized := Trim(text);
    var cutoff: nat := Max(1, (|normalized| * maxTokens) / Max(1, tokens(normalized)));
    assert |CutAt(normalized, cutoff)| <= cutoff;
    cutoffs, cuts := ShrinkCuts(normalized, cutoff, CutAt(normalized, cutoff), maxTokens, tokens);
  }

  // ---- the whole compression --------------------------------------------------------------------------------------

  // What comes back, for every outcome.
  lemma CompressionIs(c: Candidate, maxTokens: int, tokens: Tokenizer, force: bool)
    requires Numbered(c)
    ensures var r := Compress(c, maxTokens, tokens, force);
      if maxTokens <= 0 then r.None?
      else if !force && c.tokenCount <= maxTokens then r == Some(Compressed(c.content, c.tokenCount, c.evidence))
      else if c.facts == [] then
        var line := BaseLine(c);
        var cut := if tokens(line) <= maxTokens then line else Truncate(line, maxTokens, tokens);
        r == if tokens(cut) <= maxTokens then Some(Compressed(cut, tokens(cut), Evidence(0, 0, 0))) else None
      else if r.None? then NoneFits(BestFact(c).fact, FitsAsBest(c, maxTokens, tokens))
      else
        && r.value.evidence == Evidence(BestFact(c).score, BestFact(c).directRelevance, BestFact(c).concreteCueCount)
        && r.value.tokenCount == tokens(r.value.content) && exists header, entries ::
             SelectedInTurn(c, entries, header, maxTokens, tokens) && r.value.content == Compose(header, entries)
  {
    hide BaseLine, Truncate, Select, NoneFits, FitsAsBest, SelectedInTurn, Compose, BestFact, Variants;
    if c.facts != [] {
      SelectionInTurn(c, maxTokens, tokens);
      SelectKeeps(c, maxTokens, tokens);
    }
  }
}
