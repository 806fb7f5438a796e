// Compressing a bridge summary to its best evidence lines within a token limit.
module BridgeCompression {
  import opened Sequences
  import opened Text

  datatype BridgeFact =
    BridgeFact(index: nat, date: Option<string>, id: string, speaker: string, fact: string,
               sharedId: Option<string>, sharedCaptionId: Option<string>)

  // A fact with the evidence scores computed for the query.
  datatype ScoredFact =
    ScoredFact(fact: BridgeFact, score: int, directRelevance: int, concreteCueCount: nat)

  datatype Evidence = Evidence(score: int, directRelevance: int, concreteCueCount: nat)

  const NO_EVIDENCE := Evidence(0, 0, 0)

  // A summary found for a hint: its rank, its text, the facts read from it,
  // and whether its retrieval text carries answer evidence that its content lacks.
  datatype Candidate =
    Candidate(id: string, score: int, rankTieBreaker: int, tokenCount: nat, content: string,
              facts: seq<ScoredFact>, evidence: Evidence,
              evidenceOnlyInRetrievalText: bool)

  datatype Compressed = Compressed(content: string, tokenCount: nat, evidence: Evidence)

  type Tokenizer = string -> nat

  // Facts are numbered in the order in which they are read from the text.
  ghost predicate Numbered(c: Candidate) {
    forall i :: 0 <= i < |c.facts| ==> c.facts[i].fact.index == i
  }

  // ---- lines ------------------------------------------------------------------

  const SUMMARY_PREFIX := "[Summary]"
  const AGGRESSIVE_PREFIX := "[Aggressive Summary]"
  const SUMMARY_FACT_PREFIX := "[summary_fact]"

  predicate IsSynopsis(line: string) {
    && line != "" && line != SUMMARY_PREFIX && line != AGGRESSIVE_PREFIX
    && !("summary_call:" <= line) && !Includes(line, "ID:")
  }

  // The first line with something to say.
  function Synopsis(lines: seq<string>): Option<string> {
    if lines == [] then None
    else if IsSynopsis(Trim(lines[0])) then Some(Trim(lines[0]))
    else Synopsis(lines[1..])
  }

  function WithoutPrefix(line: string): string {
    if SUMMARY_PREFIX <= line then TrimStart(line[|SUMMARY_PREFIX|..])
    else if AGGRESSIVE_PREFIX <= line then TrimStart(line[|AGGRESSIVE_PREFIX|..])
    else line
  }

  function BaseLine(c: Candidate): string {
    var prefix := if AGGRESSIVE_PREFIX <= c.content then AGGRESSIVE_PREFIX else SUMMARY_PREFIX;
    match Synopsis(SplitLines(c.content))
    case None => prefix
    case Some(synopsis) => Trim(prefix + " " + WithoutPrefix(synopsis))
  }

  function Present(part: Option<string>): seq<string> {
    match part
    case None => []
    case Some(text) => if text == "" then [] else [text]
  }

  function Tagged(tag: string, value: Option<string>, close: string): Option<string> {
    match value
    case None => None
    case Some(text) => Some(tag + text + close)
  }

  function FullLine(f: BridgeFact, includeDate: bool, includeAnchors: bool): string {
    Join([SUMMARY_FACT_PREFIX]
         + (if includeDate then Present(Tagged("DATE:", f.date, "")) else [])
         + ["ID:" + f.id]
         + Present(Some(f.speaker)) + Present(Some(f.fact))
         + (if includeAnchors
            then Present(Tagged("[shared ", f.sharedId, "]"))
              + Present(Tagged("[shared_caption ", f.sharedCaptionId, "]"))
            else []),
         " | ")
  }

  function MinimalLine(f: BridgeFact): string {
    "ID:" + f.id + " | " + f.speaker + ": " + f.fact
  }

  function PushNew(lines: seq<string>, line: string): seq<string> {
    if line in lines then lines else lines + [line]
  }

  // From the most to the least complete rendering, each text once.
  function Variants(f: BridgeFact): seq<string> {
    PushNew(PushNew(PushNew([FullLine(f, true, true)], FullLine(f, false, true)), FullLine(f, false, false)),
            MinimalLine(f))
  }

  // ---- composition --------------------------------------------------------------

  datatype Entry = Entry(fact: BridgeFact, text: string)

  predicate IndexLeq(a: Entry, b: Entry) {
    a.fact.index <= b.fact.index
  }

  function Texts(entries: seq<Entry>): (r: seq<string>)
    ensures |r| == |entries|
    ensures forall i :: 0 <= i < |r| ==> r[i] == entries[i].text
  {
    if entries == [] then [] else [entries[0].text] + Texts(entries[1..])
  }

  predicate NotBlank(line: string) {
    !Blank(line)
  }

  function Compose(header: Option<string>, entries: seq<Entry>): string {
    var headerLines := match header case None => [] case Some(line) => [line];
    Join(Filter(headerLines + Texts(SortBy(entries, IndexLeq)), NotBlank), "\n")
  }

  // ---- ranking -------------------------------------------------------------------

  predicate FactLeq(a: ScoredFact, b: ScoredFact) {
    if a.score != b.score then a.score > b.score
    else if a.concreteCueCount != b.concreteCueCount then a.concreteCueCount > b.concreteCueCount
    else if a.directRelevance != b.directRelevance then a.directRelevance > b.directRelevance
    else a.fact.index <= b.fact.index
  }

  function Ranked(c: Candidate): (r: seq<ScoredFact>)
    ensures |r| == |c.facts|
  {
    SortKeepsElements(c.facts, FactLeq);
    SortBy(c.facts, FactLeq)
  }

  function BestFact(c: Candidate): ScoredFact
    requires c.facts != []
  {
    Ranked(c)[0]
  }

  lemma BestFactTopRanked(c: Candidate)
    requires c.facts != []
    ensures BestFact(c) in c.facts
    ensures forall f :: f in c.facts ==> FactLeq(BestFact(c), f)
  {
    assert TotalPreorder(FactLeq);
    SortSorts(c.facts, FactLeq);
    SortKeepsElements(c.facts, FactLeq);
    forall f | f in c.facts ensures FactLeq(BestFact(c), f) {
      assert f in Ranked(c);
    }
  }

  // ---- cutting a text down to a token limit ------------------------------------------

  function CutAt(normalized: string, cutoff: nat): string {
    Trim(normalized[..Min(cutoff, |normalized|)])
  }

  function CutAtWord(normalized: string, cutoff: nat): string {
    var cut := CutAt(normalized, cutoff);
    var boundary := LastIndexOf(cut, ' ');
    if boundary > 0 then Trim(cut[..boundary]) else cut
  }

  method TruncateTextToTokenBudget(text: string, maxTokens: int, tokens: Tokenizer) returns (r: string)
    ensures r <= Trim(text)
    ensures r == "" <==> Blank(text)
    ensures tokens(Trim(text)) <= maxTokens ==> r == Trim(text)
    ensures tokens(r) <= maxTokens || |r| <= 1
    ensures r == Truncate(text, maxTokens, tokens)
  {
    var normalized := Trim(text);
    if |normalized| == 0 || tokens(normalized) <= maxTokens {
      return normalized;
    }
    var cutoff: nat := Max(1, (|normalized| * maxTokens) / Max(1, tokens(normalized)));
    r := CutAt(normalized, cutoff);
    CutIsPrefix(normalized, cutoff);
    while |r| > 1 && tokens(r) > maxTokens
      invariant 1 <= |r| <= cutoff && r <= normalized
      invariant Shrink(normalized, cutoff, r, maxTokens, tokens) == Truncate(text, maxTokens, tokens)
      decreases cutoff
    {
      cutoff := Max(1, cutoff * 9 / 10);
      CutIsPrefix(normalized, cutoff);
      r := CutAt(normalized, cutoff);
      var boundary := LastIndexOf(r, ' ');
      if boundary > 0 {
        r := Trim(r[..boundary]);
      }
    }
  }

  function Truncate(text: string, maxTokens: int, tokens: Tokenizer): string {
    var normalized := Trim(text);
    if |normalized| == 0 || tokens(normalized) <= maxTokens then normalized
    else
      var cutoff: nat := Max(1, (|normalized| * maxTokens) / Max(1, tokens(normalized)));
      Shrink(normalized, cutoff, CutAt(normalized, cutoff), maxTokens, tokens)
  }

  function Shrink(normalized: string, cutoff: nat, cut: string, maxTokens: int, tokens: Tokenizer): string
    requires |cut| <= cutoff
    decreases cutoff
  {
    if |cut| > 1 && tokens(cut) > maxTokens then
      var next: nat := Max(1, cutoff * 9 / 10);
      Shrink(normalized, next, CutAtWord(normalized, next), maxTokens, tokens)
    else cut
  }

  lemma CutIsPrefix(normalized: string, cutoff: nat)
    requires normalized != "" && !IsSpace(normalized[0]) && cutoff >= 1
    ensures CutAt(normalized, cutoff) <= normalized && 1 <= |CutAt(normalized, cutoff)| <= cutoff
    ensures CutAtWord(normalized, cutoff) <= normalized && 1 <= |CutAtWord(normalized, cutoff)| <= cutoff
  {
    var head := normalized[..Min(cutoff, |normalized|)];
    TrimKeepsPrefix(head);
    var cut := CutAt(normalized, cutoff);
    var boundary := LastIndexOf(cut, ' ');
    if boundary > 0 {
      TrimKeepsPrefix(cut[..boundary]);
    }
  }

  lemma {:induction false} ShrinkIsPrefix(normalized: string, cutoff: nat, cut: string, maxTokens: int,
                                          tokens: Tokenizer)
    requires normalized != "" && !IsSpace(normalized[0]) && |cut| <= cutoff && cut <= normalized
    ensures Shrink(normalized, cutoff, cut, maxTokens, tokens) <= normalized
    decreases cutoff
  {
    if |cut| > 1 && tokens(cut) > maxTokens {
      var next: nat := Max(1, cutoff * 9 / 10);
      CutIsPrefix(normalized, next);
      ShrinkIsPrefix(normalized, next, CutAtWord(normalized, next), maxTokens, tokens);
    }
  }

  // A shortened text starts like the text.
  lemma TruncateIsPrefix(text: string, maxTokens: int, tokens: Tokenizer)
    ensures Truncate(text, maxTokens, tokens) <= Trim(text)
  {
    var normalized := Trim(text);
    if normalized != "" && tokens(normalized) > maxTokens {
      var cutoff: nat := Max(1, (|normalized| * maxTokens) / Max(1, tokens(normalized)));
      CutIsPrefix(normalized, cutoff);
      ShrinkIsPrefix(normalized, cutoff, CutAt(normalized, cutoff), maxTokens, tokens);
    }
  }

  // ---- choosing evidence lines -------------------------------------------------------

  datatype Selection = Selection(entries: seq<Entry>, includeHeader: bool)

  function Header(c: Candidate, includeHeader: bool): Option<string> {
    if includeHeader then Some(BaseLine(c)) else None
  }

  // The first rendering of the best fact that fits, preferably under the base line.
  function FirstVariant(c: Candidate, fact: BridgeFact, variants: seq<string>, maxTokens: int, tokens: Tokenizer)
    : Option<Selection>
  {
    if variants == [] then None
    else
      var alone := [Entry(fact, variants[0])];
      if tokens(Compose(Some(BaseLine(c)), alone)) <= maxTokens then Some(Selection(alone, true))
      else if tokens(variants[0]) <= maxTokens then Some(Selection(alone, false))
      else FirstVariant(c, fact, variants[1..], maxTokens, tokens)
  }

  predicate Selected(entries: seq<Entry>, index: int) {
    exists i :: 0 <= i < |entries| && entries[i].fact.index == index
  }

  // The most complete rendering of a further fact that still fits beside the chosen entries.
  function AddVariant(entries: seq<Entry>, fact: BridgeFact, variants: seq<string>, header: Option<string>,
                      maxTokens: int, tokens: Tokenizer): seq<Entry>
  {
    if variants == [] then entries
    else if tokens(Compose(header, entries + [Entry(fact, variants[0])])) <= maxTokens
    then entries + [Entry(fact, variants[0])]
    else AddVariant(entries, fact, variants[1..], header, maxTokens, tokens)
  }

  function AddIndex(c: Candidate, entries: seq<Entry>, index: int, header: Option<string>,
                    maxTokens: int, tokens: Tokenizer): seq<Entry>
  {
    if Selected(entries, index) || !(0 <= index < |c.facts|) then entries
    else AddVariant(entries, c.facts[index].fact, Variants(c.facts[index].fact), header, maxTokens, tokens)
  }

  function AddSupport(c: Candidate, entries: seq<Entry>, indexes: seq<int>, header: Option<string>,
                      maxTokens: int, tokens: Tokenizer): seq<Entry>
    decreases |indexes|
  {
    if indexes == [] then entries
    else AddSupport(c, AddIndex(c, entries, indexes[0], header, maxTokens, tokens), indexes[1..], header, maxTokens,
                    tokens)
  }

  function IndexesOf(facts: seq<ScoredFact>): (r: seq<int>)
    ensures |r| == |facts|
    ensures forall i :: 0 <= i < |r| ==> r[i] == facts[i].fact.index
  {
    if facts == [] then [] else [facts[0].fact.index] + IndexesOf(facts[1..])
  }

  // Neighbours of the best fact first, then every fact by rank.
  function SupportIndexes(c: Candidate): seq<int>
    requires c.facts != []
  {
    var best := BestFact(c).fact.index;
    [best - 1, best + 1] + IndexesOf(Ranked(c))
  }

  function Select(c: Candidate, maxTokens: int, tokens: Tokenizer): Option<Selection>
    requires c.facts != []
  {
    var best := BestFact(c).fact;
    match FirstVariant(c, best, Variants(best), maxTokens, tokens)
    case None => None
    case Some(first) =>
      Some(first.(entries := AddSupport(c, first.entries, SupportIndexes(c), Header(c, first.includeHeader),
                                        maxTokens, tokens)))
  }

  // ---- the whole compression ------------------------------------------------------------

  function Fitting(content: string, evidence: Evidence, maxTokens: int, tokens: Tokenizer): Option<Compressed> {
    if tokens(content) > maxTokens then None else Some(Compressed(content, tokens(content), evidence))
  }

  predicate KeepsWhole(c: Candidate, maxTokens: int, forceEvidenceSlice: bool) {
    !forceEvidenceSlice && c.tokenCount <= maxTokens
  }

  function CompressToBaseLine(c: Candidate, maxTokens: int, tokens: Tokenizer): Option<Compressed> {
    Fitting(if tokens(BaseLine(c)) > maxTokens then Truncate(BaseLine(c), maxTokens, tokens) else BaseLine(c),
            NO_EVIDENCE, maxTokens, tokens)
  }

  function CompressToFacts(c: Candidate, maxTokens: int, tokens: Tokenizer): Option<Compressed>
    requires c.facts != []
  {
    match Select(c, maxTokens, tokens)
    case None => None
    case Some(s) =>
      var best := BestFact(c);
      Fitting(Compose(Header(c, s.includeHeader), s.entries),
              Evidence(best.score, best.directRelevance, best.concreteCueCount), maxTokens, tokens)
  }

  function Compress(c: Candidate, maxTokens: int, tokens: Tokenizer, forceEvidenceSlice: bool): Option<Compressed> {
    if maxTokens <= 0 then None
    else if KeepsWhole(c, maxTokens, forceEvidenceSlice) then Some(Compressed(c.content, c.tokenCount, c.evidence))
    else if c.facts == [] then CompressToBaseLine(c, maxTokens, tokens)
    else CompressToFacts(c, maxTokens, tokens)
  }

  method CompressBridgeSummaryContent(c: Candidate, maxTokens: int, tokens: Tokenizer, forceEvidenceSlice: bool)
    returns (r: Option<Compressed>)
    requires Numbered(c)
    ensures r == Compress(c, maxTokens, tokens, forceEvidenceSlice)
  {
    if maxTokens <= 0 {
      return None;
    }
    if !forceEvidenceSlice && c.tokenCount <= maxTokens {
      return Some(Compressed(c.content, c.tokenCount, c.evidence));
    }
    if c.facts == [] {
      r := FitBaseLine(c, maxTokens, tokens);
    } else {
      r := FitFacts(c, maxTokens, tokens);
    }
  }

  method FitBaseLine(c: Candidate, maxTokens: int, tokens: Tokenizer) returns (r: Option<Compressed>)
    ensures r == CompressToBaseLine(c, maxTokens, tokens)
  {
    var baseLine := BaseLine(c);
    BaseLineNotBlank(c);
    if tokens(baseLine) > maxTokens {
      var truncated := TruncateTextToTokenBudget(baseLine, maxTokens, tokens);
      if |truncated| > 0 {
        return Fitting(truncated, NO_EVIDENCE, maxTokens, tokens);
      }
    }
    r := Fitting(baseLine, NO_EVIDENCE, maxTokens, tokens);
  }

  method FitFacts(c: Candidate, maxTokens: int, tokens: Tokenizer) returns (r: Option<Compressed>)
    requires Numbered(c) && c.facts != []
    ensures r == CompressToFacts(c, maxTokens, tokens)
  {
    var best := BestFact(c);
    var selected, includeHeader, foundBestFactVariant := SelectBestVariant(c, best.fact, maxTokens, tokens);
    if !foundBestFactVariant {
      return None;
    }
    selected := AddSupportingFacts(c, selected, SupportIndexes(c), Header(c, includeHeader), maxTokens, tokens);
    var content := Compose(Header(c, includeHeader), selected);
    var tokenCount := tokens(content);
    r := if tokenCount > maxTokens then None
         else Some(Compressed(content, tokenCount, Evidence(best.score, best.directRelevance, best.concreteCueCount)));
  }

  method SelectBestVariant(c: Candidate, best: BridgeFact, maxTokens: int, tokens: Tokenizer)
    returns (selected: seq<Entry>, includeHeader: bool, found: bool)
    ensures FirstVariant(c, best, Variants(best), maxTokens, tokens)
         == if found then Some(Selection(selected, includeHeader)) else None
    ensures found ==> |selected| == 1
  {
    hide Compose, Variants, BaseLine;
    var variants := Variants(best);
    for v := 0 to |variants|
      invariant FirstVariant(c, best, variants, maxTokens, tokens)
             == FirstVariant(c, best, variants[v..], maxTokens, tokens)
    {
      var alone := [Entry(best, variants[v])];
      if tokens(Compose(Some(BaseLine(c)), alone)) <= maxTokens {
        return alone, true, true;
      }
      if tokens(variants[v]) <= maxTokens {
        return alone, false, true;
      }
      assert variants[v..][1..] == variants[v + 1..];
    }
    selected, includeHeader, found := [], false, false;
  }

  method AddSupportingFacts(c: Candidate, best: seq<Entry>, indexes: seq<int>, header: Option<string>,
                            maxTokens: int, tokens: Tokenizer)
    returns (selected: seq<Entry>)
    requires Numbered(c) && |best| == 1
    ensures selected == AddSupport(c, best, indexes, header, maxTokens, tokens)
  {
    var seen: set<int> := {best[0].fact.index};
    selected := best;
    for i := 0 to |indexes|
      invariant forall index :: index in seen <==> Selected(selected, index)
      invariant AddSupport(c, selected, indexes[i..], header, maxTokens, tokens)
             == AddSupport(c, best, indexes, header, maxTokens, tokens)
    {
      assert indexes[i..][1..] == indexes[i + 1..];
      selected, seen := ConsiderIndex(c, selected, seen, indexes[i], header, maxTokens, tokens);
    }
  }

  method ConsiderIndex(c: Candidate, entries: seq<Entry>, seen: set<int>, index: int, header: Option<string>,
                       maxTokens: int, tokens: Tokenizer)
    returns (selected: seq<Entry>, seenNow: set<int>)
    requires Numbered(c)
    requires forall k :: k in seen <==> Selected(entries, k)
    ensures selected == AddIndex(c, entries, index, header, maxTokens, tokens)
    ensures forall k :: k in seenNow <==> Selected(selected, k)
  {
    selected, seenNow := entries, seen;
    if index !in seen && 0 <= index < |c.facts| {
      var added;
      selected, added := TryVariants(entries, c.facts[index].fact, header, maxTokens, tokens);
      SelectedAfterAdding(entries, selected, c.facts[index].fact);
      if added {
        seenNow := seen + {index};
      }
    }
  }

  method TryVariants(entries: seq<Entry>, fact: BridgeFact, header: Option<string>, maxTokens: int, tokens: Tokenizer)
    returns (r: seq<Entry>, added: bool)
    ensures r == AddVariant(entries, fact, Variants(fact), header, maxTokens, tokens)
    ensures if added then exists text :: r == entries + [Entry(fact, text)] else r == entries
  {
    hide Compose, Variants;
    var variants := Variants(fact);
    for v := 0 to |variants|
      invariant AddVariant(entries, fact, variants[v..], header, maxTokens, tokens)
             == AddVariant(entries, fact, variants, header, maxTokens, tokens)
    {
      var next := entries + [Entry(fact, variants[v])];
      if tokens(Compose(header, next)) <= maxTokens {
        return next, true;
      }
      assert variants[v..][1..] == variants[v + 1..];
    }
    r, added := entries, false;
  }

  lemma SelectedAfterAdding(before: seq<Entry>, after: seq<Entry>, fact: BridgeFact)
    requires after == before || exists text :: after == before + [Entry(fact, text)]
    ensures forall index :: Selected(after, index) <==>
      Selected(before, index) || (|after| > |before| && index == fact.index)
  {
    forall index ensures Selected(after, index) <==>
      Selected(before, index) || (|after| > |before| && index == fact.index)
    {
      if after != before {
        assert after[..|before|] == before && after[|before|].fact == fact;
        if Selected(before, index) {
          var i :| 0 <= i < |before| && before[i].fact.index == index;
          assert after[i] == before[i];
        }
      }
    }
  }

  lemma BaseLineNotBlank(c: Candidate)
    ensures !Blank(BaseLine(c)) && BaseLine(c)[0] == '['
  {
    var prefix := if AGGRESSIVE_PREFIX <= c.content then AGGRESSIVE_PREFIX else SUMMARY_PREFIX;
    assert prefix[0] == '[';
    var synopsis := Synopsis(SplitLines(c.content));
    if synopsis.Some? {
      var line := prefix + " " + WithoutPrefix(synopsis.value);
      assert line[0] == '[';
      TrimKeepsPrefix(line);
    }
  }

  // ---- what a compression result guarantees ---------------------------------------------

  lemma VariantsNotBlank(f: BridgeFact)
    ensures Variants(f) != []
    ensures forall v :: v in Variants(f) ==> NotBlank(v)
  {
    FullLineNotBlank(f, true, true);
    FullLineNotBlank(f, false, true);
    FullLineNotBlank(f, false, false);
    assert MinimalLine(f)[0] == 'I';
  }

  lemma FullLineNotBlank(f: BridgeFact, includeDate: bool, includeAnchors: bool)
    ensures NotBlank(FullLine(f, includeDate, includeAnchors))
  {
    assert SUMMARY_FACT_PREFIX[0] == '[';
    var parts := [SUMMARY_FACT_PREFIX]
      + (if includeDate then Present(Tagged("DATE:", f.date, "")) else [])
      + ["ID:" + f.id]
      + Present(Some(f.speaker)) + Present(Some(f.fact))
      + (if includeAnchors
         then Present(Tagged("[shared ", f.sharedId, "]")) + Present(Tagged("[shared_caption ", f.sharedCaptionId, "]"))
         else []);
    assert parts[0] == SUMMARY_FACT_PREFIX;
    JoinStartsWith(parts, " | ");
    assert !IsSpace(FullLine(f, includeDate, includeAnchors)[0]);
  }

  // Each entry renders one of the candidate's facts, and no fact is rendered twice.
  ghost predicate WellFormed(c: Candidate, entries: seq<Entry>) {
    && (forall e :: e in entries ==> Renders(c, e))
    && (forall i, j :: 0 <= i < j < |entries| ==> entries[i].fact.index != entries[j].fact.index)
  }

  predicate Renders(c: Candidate, e: Entry) {
    e.fact.index < |c.facts| && e.fact == c.facts[e.fact.index].fact && e.text in Variants(e.fact)
  }

  lemma AppendEntry(c: Candidate, entries: seq<Entry>, e: Entry)
    requires WellFormed(c, entries) && Renders(c, e) && !Selected(entries, e.fact.index)
    ensures WellFormed(c, entries + [e])
  {
  }

  lemma {:induction false} AddVariantFits(entries: seq<Entry>, fact: BridgeFact, variants: seq<string>,
                                          header: Option<string>, maxTokens: int, tokens: Tokenizer)
    requires tokens(Compose(header, entries)) <= maxTokens
    ensures var r := AddVariant(entries, fact, variants, header, maxTokens, tokens);
      && tokens(Compose(header, r)) <= maxTokens
      && (r == entries || exists text :: text in variants && r == entries + [Entry(fact, text)])
      && (r == entries ==> forall text :: text in variants ==>
          tokens(Compose(header, entries + [Entry(fact, text)])) > maxTokens)
  {
    hide Compose;
    if variants != [] && tokens(Compose(header, entries + [Entry(fact, variants[0])])) > maxTokens {
      AddVariantFits(entries, fact, variants[1..], header, maxTokens, tokens);
    }
  }

  lemma AddIndexKeeps(c: Candidate, entries: seq<Entry>, index: int, header: Option<string>,
                      maxTokens: int, tokens: Tokenizer)
    requires Numbered(c) && WellFormed(c, entries) && tokens(Compose(header, entries)) <= maxTokens
    ensures var r := AddIndex(c, entries, index, header, maxTokens, tokens);
      entries <= r && WellFormed(c, r) && tokens(Compose(header, r)) <= maxTokens
  {
    if !Selected(entries, index) && 0 <= index < |c.facts| {
      var fact := c.facts[index].fact;
      AddVariantFits(entries, fact, Variants(fact), header, maxTokens, tokens);
      forall text | text in Variants(fact) ensures WellFormed(c, entries + [Entry(fact, text)]) {
        AppendEntry(c, entries, Entry(fact, text));
      }
    }
  }

  lemma {:induction false} AddSupportKeeps(c: Candidate, entries: seq<Entry>, indexes: seq<int>,
                                           header: Option<string>, maxTokens: int, tokens: Tokenizer)
    requires Numbered(c) && WellFormed(c, entries) && tokens(Compose(header, entries)) <= maxTokens
    ensures var r := AddSupport(c, entries, indexes, header, maxTokens, tokens);
      entries <= r && WellFormed(c, r) && tokens(Compose(header, r)) <= maxTokens
    decreases |indexes|
  {
    if indexes != [] {
      AddIndexKeeps(c, entries, indexes[0], header, maxTokens, tokens);
      AddSupportKeeps(c, AddIndex(c, entries, indexes[0], header, maxTokens, tokens), indexes[1..], header, maxTokens,
                      tokens);
    }
  }

  // Without a header a single entry is printed as its own text.
  lemma ComposeAlone(fact: BridgeFact, text: string)
    requires NotBlank(text)
    ensures Compose(None, [Entry(fact, text)]) == text
  {
    var alone := [Entry(fact, text)];
    assert alone[1..] == [];
    assert SortBy(alone, IndexLeq) == alone;
    assert Texts(alone) == [text];
    assert [text][1..] == [];
    assert [] + [text] == [text];
  }

  predicate BestFits(c: Candidate, text: string, maxTokens: int, tokens: Tokenizer)
    requires c.facts != []
  {
    tokens(Compose(Some(BaseLine(c)), [Entry(BestFact(c).fact, text)])) <= maxTokens || tokens(text) <= maxTokens
  }

  lemma {:induction false} FirstVariantFits(c: Candidate, variants: seq<string>, maxTokens: int, tokens: Tokenizer)
    requires c.facts != [] && forall v :: v in variants ==> NotBlank(v)
    ensures var r := FirstVariant(c, BestFact(c).fact, variants, maxTokens, tokens);
      && (r.Some? <==> exists v :: v in variants && BestFits(c, v, maxTokens, tokens))
      && (r.Some? ==> exists v :: v in variants && r.value.entries == [Entry(BestFact(c).fact, v)])
      && (r.Some? ==> tokens(Compose(Header(c, r.value.includeHeader), r.value.entries)) <= maxTokens)
  {
    hide Compose, BestFact, BaseLine, NotBlank;
    if variants != [] {
      assert variants[0] in variants && forall v :: v in variants <==> v == variants[0] || v in variants[1..];
      ComposeAlone(BestFact(c).fact, variants[0]);
      FirstVariantFits(c, variants[1..], maxTokens, tokens);
    }
  }

  lemma BestWellFormed(c: Candidate, v: string)
    requires Numbered(c) && c.facts != [] && v in Variants(BestFact(c).fact)
    ensures WellFormed(c, [Entry(BestFact(c).fact, v)])
  {
    BestFactTopRanked(c);
  }

  lemma FirstKeeps(c: Candidate, maxTokens: int, tokens: Tokenizer)
    requires Numbered(c) && c.facts != []
    ensures var r := FirstVariant(c, BestFact(c).fact, Variants(BestFact(c).fact), maxTokens, tokens);
      && (r.Some? <==> exists v :: v in Variants(BestFact(c).fact) && BestFits(c, v, maxTokens, tokens))
      && (r.Some? ==>
            && |r.value.entries| == 1 && r.value.entries[0].fact == BestFact(c).fact
            && WellFormed(c, r.value.entries)
            && tokens(Compose(Header(c, r.value.includeHeader), r.value.entries)) <= maxTokens)
  {
    var variants := Variants(BestFact(c).fact);
    VariantsNotBlank(BestFact(c).fact);
    FirstVariantFits(c, variants, maxTokens, tokens);
    forall v | v in variants ensures WellFormed(c, [Entry(BestFact(c).fact, v)]) {
      BestWellFormed(c, v);
    }
  }

  lemma SelectKeeps(c: Candidate, maxTokens: int, tokens: Tokenizer)
    requires Numbered(c) && c.facts != []
    ensures Select(c, maxTokens, tokens).Some? <==>
      exists v :: v in Variants(BestFact(c).fact) && BestFits(c, v, maxTokens, tokens)
    ensures Select(c, maxTokens, tokens).Some? ==>
      var s := Select(c, maxTokens, tokens).value;
      && WellFormed(c, s.entries) && Selected(s.entries, BestFact(c).fact.index)
      && tokens(Compose(Header(c, s.includeHeader), s.entries)) <= maxTokens
  {
    var best := BestFact(c).fact;
    FirstKeeps(c, maxTokens, tokens);
    var first := FirstVariant(c, best, Variants(best), maxTokens, tokens);
    if first.Some? {
      AddSupportKeeps(c, first.value.entries, SupportIndexes(c), Header(c, first.value.includeHeader), maxTokens,
                      tokens);
      assert Select(c, maxTokens, tokens).value.entries[0].fact == best;
    }
  }

  // With facts, compression fails exactly when no rendering of the best fact fits; in particular
  // the closing over-budget check never rejects what the loops selected.
  lemma CompressToFactsSucceedsIff(c: Candidate, maxTokens: int, tokens: Tokenizer)
    requires Numbered(c) && c.facts != []
    ensures CompressToFacts(c, maxTokens, tokens).Some? <==>
      exists v :: v in Variants(BestFact(c).fact) && BestFits(c, v, maxTokens, tokens)
  {
    SelectKeeps(c, maxTokens, tokens);
  }

  // Every result is within the limit, and its count is the tokenizer's unless the summary was kept whole.
  lemma CompressWithinLimit(c: Candidate, maxTokens: int, tokens: Tokenizer, force: bool)
    ensures Compress(c, maxTokens, tokens, force).Some? ==>
      var r := Compress(c, maxTokens, tokens, force).value;
      && r.tokenCount <= maxTokens
      && (if KeepsWhole(c, maxTokens, force) then r.content == c.content && r.tokenCount == c.tokenCount
          else r.tokenCount == tokens(r.content))
  {
  }

  // ---- how the evidence is printed ---------------------------------------------------------

  ghost predicate IndexesIncrease(entries: seq<Entry>) {
    forall i, j :: 0 <= i < j < |entries| ==> entries[i].fact.index < entries[j].fact.index
  }

  // A text made of an optional base line and, in reading order, one rendering each of some of
  // the facts, the best one among them.
  ghost predicate IsEvidenceSlice(c: Candidate, content: string, header: seq<string>, entries: seq<Entry>)
    requires c.facts != []
  {
    && (header == [] || header == [BaseLine(c)])
    && WellFormed(c, entries) && IndexesIncrease(entries)
    && Selected(entries, BestFact(c).fact.index)
    && content == Join(header + Texts(entries), "\n")
  }

  lemma EntriesDistinct(c: Candidate, entries: seq<Entry>)
    requires WellFormed(c, entries)
    ensures Distinct(entries)
  {
    PairwiseDistinct(entries);
  }

  lemma SameIndexSameEntry(c: Candidate, entries: seq<Entry>, a: Entry, b: Entry)
    requires WellFormed(c, entries) && a in entries && b in entries
    ensures a.fact.index == b.fact.index ==> a == b
  {
  }

  lemma SortedEntries(c: Candidate, entries: seq<Entry>)
    requires WellFormed(c, entries)
    ensures WellFormed(c, SortBy(entries, IndexLeq)) && IndexesIncrease(SortBy(entries, IndexLeq))
    ensures forall index :: Selected(entries, index) ==> Selected(SortBy(entries, IndexLeq), index)
  {
    var sorted := SortBy(entries, IndexLeq);
    assert TotalPreorder(IndexLeq);
    SortSorts(entries, IndexLeq);
    SortKeepsElements(entries, IndexLeq);
    EntriesDistinct(c, entries);
    assert forall e :: e in sorted ==> e in entries;
    hide TotalPreorder, SortBy, Distinct;
    assert Distinct(sorted) by {
      SamplesDistinct(entries, sorted);
    }
    forall i, j | 0 <= i < j < |sorted| ensures sorted[i].fact.index < sorted[j].fact.index {
      DistinctAt(sorted, i, j);
      assert IndexLeq(sorted[i], sorted[j]);
      SameIndexSameEntry(c, entries, sorted[i], sorted[j]);
    }
    forall index | Selected(entries, index) ensures Selected(sorted, index) {
      SelectedIsMember(entries, sorted, index);
    }
  }

  lemma SamplesDistinct(a: seq<Entry>, b: seq<Entry>)
    requires Distinct(a) && multiset(a) == multiset(b)
    ensures Distinct(b)
  {
  }

  lemma SelectedIsMember(a: seq<Entry>, b: seq<Entry>, index: int)
    requires Selected(a, index) && forall e :: e in a ==> e in b
    ensures Selected(b, index)
  {
    var i :| 0 <= i < |a| && a[i].fact.index == index;
    assert a[i] in b;
  }

  lemma TextsNotBlank(c: Candidate, entries: seq<Entry>)
    requires WellFormed(c, entries)
    ensures forall line :: line in Texts(entries) ==> NotBlank(line)
  {
    forall i | 0 <= i < |entries| ensures NotBlank(entries[i].text) {
      assert Renders(c, entries[i]);
      VariantsNotBlank(entries[i].fact);
    }
  }

  lemma ComposePrintsInOrder(c: Candidate, header: Option<string>, entries: seq<Entry>)
    requires WellFormed(c, entries) && (header.Some? ==> header.value == BaseLine(c))
    ensures Compose(header, entries)
      == Join((if header.Some? then [BaseLine(c)] else []) + Texts(SortBy(entries, IndexLeq)), "\n")
  {
    var sorted := SortBy(entries, IndexLeq);
    SortedEntries(c, entries);
    var lines := (if header.Some? then [BaseLine(c)] else []) + Texts(sorted);
    BaseLineNotBlank(c);
    TextsNotBlank(c, sorted);
    FilterAll(lines, NotBlank);
  }

  lemma CompressPrintsEvidence(c: Candidate, maxTokens: int, tokens: Tokenizer)
    requires Numbered(c) && c.facts != [] && CompressToFacts(c, maxTokens, tokens).Some?
    ensures exists header, entries ::
      IsEvidenceSlice(c, CompressToFacts(c, maxTokens, tokens).value.content, header, entries)
  {
    SelectKeeps(c, maxTokens, tokens);
    var s := Select(c, maxTokens, tokens).value;
    SortedEntries(c, s.entries);
    ComposePrintsInOrder(c, Header(c, s.includeHeader), s.entries);
    assert IsEvidenceSlice(c, CompressToFacts(c, maxTokens, tokens).value.content,
                           if s.includeHeader then [BaseLine(c)] else [], SortBy(s.entries, IndexLeq));
  }

  // ---- nothing more would fit ----------------------------------------------------------------

  // Printing more facts never costs fewer tokens.
  ghost predicate Monotone(tokens: Tokenizer, header: Option<string>) {
    forall a: seq<Entry>, b: seq<Entry>, x: Entry :: a <= b ==>
      tokens(Compose(header, a + [x])) <= tokens(Compose(header, b + [x]))
  }

  lemma {:induction false} LeftOutDoesNotFit(c: Candidate, entries: seq<Entry>, indexes: seq<int>, index: int,
                                             header: Option<string>, maxTokens: int, tokens: Tokenizer)
    requires Numbered(c) && WellFormed(c, entries) && tokens(Compose(header, entries)) <= maxTokens
    requires Monotone(tokens, header)
    requires index in indexes && 0 <= index < |c.facts|
    requires !Selected(AddSupport(c, entries, indexes, header, maxTokens, tokens), index)
    ensures var r := AddSupport(c, entries, indexes, header, maxTokens, tokens);
      forall text :: text in Variants(c.facts[index].fact) ==>
        tokens(Compose(header, r + [Entry(c.facts[index].fact, text)])) > maxTokens
    decreases |indexes|
  {
    hide Compose, Variants, WellFormed, Selected, AddIndex;
    var r := AddSupport(c, entries, indexes, header, maxTokens, tokens);
    var next := AddIndex(c, entries, indexes[0], header, maxTokens, tokens);
    AddIndexKeeps(c, entries, indexes[0], header, maxTokens, tokens);
    AddSupportKeeps(c, next, indexes[1..], header, maxTokens, tokens);
    SelectedGrows(next, r, index);
    if indexes[0] == index {
      SelectedGrows(entries, r, index);
      TriedDoesNotFit(c, entries, index, header, maxTokens, tokens);
      NeitherBesideMore(c, entries, r, index, header, maxTokens, tokens);
    } else {
      LeftOutDoesNotFit(c, next, indexes[1..], index, header, maxTokens, tokens);
    }
  }

  // A fact that was tried and left out did not fit in any rendering.
  lemma TriedDoesNotFit(c: Candidate, entries: seq<Entry>, index: int, header: Option<string>, maxTokens: int,
                        tokens: Tokenizer)
    requires 0 <= index < |c.facts| && c.facts[index].fact.index == index
      && tokens(Compose(header, entries)) <= maxTokens
    requires !Selected(entries, index) && !Selected(AddIndex(c, entries, index, header, maxTokens, tokens), index)
    ensures forall text :: text in Variants(c.facts[index].fact) ==>
      tokens(Compose(header, entries + [Entry(c.facts[index].fact, text)])) > maxTokens
  {
    hide Compose, Variants;
    var fact := c.facts[index].fact;
    AddVariantFits(entries, fact, Variants(fact), header, maxTokens, tokens);
    forall text ensures Selected(entries + [Entry(fact, text)], index) {
      assert (entries + [Entry(fact, text)])[|entries|].fact.index == index;
    }
  }

  lemma NeitherBesideMore(c: Candidate, entries: seq<Entry>, more: seq<Entry>, index: int, header: Option<string>,
                          maxTokens: int, tokens: Tokenizer)
    requires 0 <= index < |c.facts| && entries <= more && Monotone(tokens, header)
    requires forall text :: text in Variants(c.facts[index].fact) ==>
      tokens(Compose(header, entries + [Entry(c.facts[index].fact, text)])) > maxTokens
    ensures forall text :: text in Variants(c.facts[index].fact) ==>
      tokens(Compose(header, more + [Entry(c.facts[index].fact, text)])) > maxTokens
  {
    hide Compose, Variants;
  }

  lemma SelectedGrows(a: seq<Entry>, b: seq<Entry>, index: int)
    requires a <= b && !Selected(b, index)
    ensures !Selected(a, index)
  {
    assert forall i :: 0 <= i < |a| ==> a[i] == b[i];
  }

  // With such a tokenizer the slice is maximal: no left-out fact fits beside it in any rendering.
  lemma CompressIsMaximal(c: Candidate, maxTokens: int, tokens: Tokenizer, index: nat)
    requires Numbered(c) && c.facts != [] && Select(c, maxTokens, tokens).Some?
    requires var s := Select(c, maxTokens, tokens).value;
      Monotone(tokens, Header(c, s.includeHeader)) && index < |c.facts| && !Selected(s.entries, index)
    ensures var s := Select(c, maxTokens, tokens).value;
      forall text :: text in Variants(c.facts[index].fact) ==>
        tokens(Compose(Header(c, s.includeHeader), s.entries + [Entry(c.facts[index].fact, text)])) > maxTokens
  {
    var best := BestFact(c).fact;
    FirstKeeps(c, maxTokens, tokens);
    EveryFactConsidered(c, index);
    var first := FirstVariant(c, best, Variants(best), maxTokens, tokens).value;
    LeftOutDoesNotFit(c, first.entries, SupportIndexes(c), index, Header(c, first.includeHeader), maxTokens, tokens);
  }

  lemma EveryFactConsidered(c: Candidate, index: nat)
    requires Numbered(c) && index < |c.facts|
    ensures index in SupportIndexes(c)
  {
    SortKeepsElements(c.facts, FactLeq);
    assert c.facts[index] in Ranked(c);
    var i :| 0 <= i < |Ranked(c)| && Ranked(c)[i] == c.facts[index];
    assert SupportIndexes(c)[i + 2] == index;
  }
}
