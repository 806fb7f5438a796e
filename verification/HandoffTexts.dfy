// The text of a handoff can be taken apart again: every list stands under its own heading.
module HandoffTexts {
  import opened Sequences
  import opened Text
  import opened Handoffs

  datatype Part = Part(heading: string, items: seq<string>)

  // ---- reading a list back -------------------------------------------------------------------------

  // The leading lines with a bullet, without it.
  function TakeBullets(lines: seq<string>): seq<string> {
    if lines != [] && "- " <= lines[0] then [lines[0][2..]] + TakeBullets(lines[1..]) else []
  }

  // The list under the first line that is the heading.
  function ItemsUnder(lines: seq<string>, heading: string): seq<string> {
    if lines == [] then []
    else if lines[0] == heading then TakeBullets(lines[1..])
    else ItemsUnder(lines[1..], heading)
  }

  // ---- the lines of the text --------------------------------------------------------------------------

  function Bullets(items: seq<string>): seq<string> {
    if items == [] then [] else ["- " + items[0]] + Bullets(items[1..])
  }

  function Blocks(parts: seq<Part>): seq<string> {
    if parts == [] then [] else Section(parts[0].heading, parts[0].items) + Blocks(parts[1..])
  }

  // The sections that are not empty, an empty line between them.
  function Lines(parts: seq<Part>): seq<string> {
    if parts == [] then []
    else
      var rest := Lines(parts[1..]);
      if parts[0].items == [] then rest
      else [parts[0].heading] + Bullets(parts[0].items) + if rest == [] then [] else [""] + rest
  }

  predicate OneLine(s: string) { '\n' !in s }

  ghost predicate AllOneLine(lines: seq<string>) {
    forall s :: s in lines ==> OneLine(s)
  }

  lemma Regroup(a: string, b: string, c: string)
    ensures a + "\n" + b + "\n" + c == a + "\n" + (b + "\n" + c)
  {
  }

  lemma Reassociate(a: seq<string>, b: seq<string>, c: seq<string>)
    ensures a + b + c == a + (b + c)
  {
  }

  lemma {:induction false} SplitConcat(a: string, b: string)
    ensures SplitLines(a + "\n" + b) == SplitLines(a) + SplitLines(b)
    decreases |a|
  {
    var i := IndexOf(a, '\n');
    if i == |a| {
      assert a[..i] == a;
      SplitAfter(a, b);
      NoBreak(a);
    } else {
      var head, tail := a[..i], a[i + 1..];
      assert a == head + "\n" + tail;
      hide SplitLines;
      Regroup(head, tail, b);
      SplitAfter(head, tail + "\n" + b);
      SplitAfter(head, tail);
      SplitConcat(tail, b);
      Reassociate([head], SplitLines(tail), SplitLines(b));
    }
  }

  lemma {:induction false} BlockLines(line: string, items: seq<string>)
    requires OneLine(line) && AllOneLine(items)
    ensures SplitLines(line + Items(items)) == [line] + Bullets(items)
    decreases |items|
  {
    if items == [] {
      assert line + "" == line;
      NoBreak(line);
    } else {
      var next, rest := "- " + items[0], Items(items[1..]);
      assert items[0] in items && forall s :: s in items[1..] ==> s in items;
      assert line + Items(items) == line + "\n" + (next + rest);
      SplitAfter(line, next + rest);
      BlockLines(next, items[1..]);
    }
  }

  lemma NoBreak(s: string)
    requires OneLine(s)
    ensures SplitLines(s) == [s]
  {
  }

  ghost predicate WellFormed(parts: seq<Part>) {
    forall p :: p in parts ==> OneLine(p.heading) && p.heading != "" && !("- " <= p.heading) && AllOneLine(p.items)
  }

  lemma {:induction false} ContentLines(parts: seq<Part>)
    requires WellFormed(parts)
    ensures Blocks(parts) == [] <==> Lines(parts) == []
    ensures Blocks(parts) != [] ==> SplitLines(Join(Blocks(parts), "\n\n")) == Lines(parts)
  {
    hide SplitLines, AllOneLine, OneLine;
    if parts != [] {
      var p, rest := parts[0], Blocks(parts[1..]);
      assert p in parts && forall q :: q in parts[1..] ==> q in parts;
      ContentLines(parts[1..]);
      if p.items == [] {
        assert [] + rest == rest;
      } else {
        var block := p.heading + Items(p.items);
        BlockLines(p.heading, p.items);
        assert Blocks(parts) == [block] + rest && ([block] + rest)[1..] == rest;
        if rest != [] {
          var text := Join(rest, "\n\n");
          BlankBetween(block, text);
          assert Join(Blocks(parts), "\n\n") == block + "\n\n" + text;
        }
      }
    }
  }

  lemma BlankBetween(block: string, text: string)
    ensures SplitLines(block + "\n\n" + text) == SplitLines(block) + ([""] + SplitLines(text))
  {
    hide SplitLines;
    assert block + "\n\n" + text == block + "\n" + ("" + "\n" + text);
    SplitConcat(block, "" + "\n" + text);
    SplitConcat("", text);
    NoBreak("");
  }

  // ---- reading a list of a text back --------------------------------------------------------------------

  lemma {:induction false} BulletsTaken(items: seq<string>, rest: seq<string>)
    requires rest == [] || !("- " <= rest[0])
    ensures TakeBullets(Bullets(items) + rest) == items
  {
    if items == [] {
      assert [] + rest == rest;
    } else {
      assert (Bullets(items) + rest)[1..] == Bullets(items[1..]) + rest && ("- " + items[0])[2..] == items[0];
      BulletsTaken(items[1..], rest);
    }
  }

  lemma {:induction false} BulletsSkipped(items: seq<string>, rest: seq<string>, heading: string)
    requires !("- " <= heading)
    ensures ItemsUnder(Bullets(items) + rest, heading) == ItemsUnder(rest, heading)
  {
    if items == [] {
      assert [] + rest == rest;
    } else {
      assert (Bullets(items) + rest)[1..] == Bullets(items[1..]) + rest;
      assert "- " <= "- " + items[0];
      BulletsSkipped(items[1..], rest, heading);
    }
  }

  ghost predicate NotAmong(parts: seq<Part>, heading: string) {
    forall p :: p in parts ==> p.heading != heading
  }

  lemma LinesCons(parts: seq<Part>)
    requires parts != []
    ensures var rest := Lines(parts[1..]);
      Lines(parts) == if parts[0].items == [] then rest
                      else [parts[0].heading] + (Bullets(parts[0].items) + if rest == [] then [] else [""] + rest)
  {
  }

  lemma OwnList(heading: string, items: seq<string>, rest: seq<string>)
    ensures ItemsUnder([heading] + (Bullets(items) + if rest == [] then [] else [""] + rest), heading) == items
  {
    var after := if rest == [] then [] else [""] + rest;
    assert ([heading] + (Bullets(items) + after))[1..] == Bullets(items) + after;
    BulletsTaken(items, after);
  }

  lemma OtherList(heading: string, items: seq<string>, rest: seq<string>, wanted: string)
    requires wanted != heading && wanted != "" && !("- " <= wanted)
    ensures ItemsUnder([heading] + (Bullets(items) + if rest == [] then [] else [""] + rest), wanted)
      == ItemsUnder(rest, wanted)
  {
    var after := if rest == [] then [] else [""] + rest;
    assert ([heading] + (Bullets(items) + after))[1..] == Bullets(items) + after;
    BulletsSkipped(items, after, wanted);
    assert rest != [] ==> after[1..] == rest;
  }

  lemma {:induction false} NothingUnder(parts: seq<Part>, heading: string)
    requires NotAmong(parts, heading) && heading != "" && !("- " <= heading)
    ensures ItemsUnder(Lines(parts), heading) == []
  {
    hide Lines, ItemsUnder;
    if parts == [] {
      NoLines(heading);
    } else {
      assert parts[0] in parts && forall p :: p in parts[1..] ==> p in parts;
      LinesCons(parts);
      OtherList(parts[0].heading, parts[0].items, Lines(parts[1..]), heading);
      NothingUnder(parts[1..], heading);
    }
  }

  lemma NoLines(heading: string)
    ensures ItemsUnder(Lines([]), heading) == []
  {
  }

  lemma {:induction false} ListRead(parts: seq<Part>, k: nat)
    requires k < |parts| && WellFormed(parts)
      && forall j :: 0 <= j < |parts| && j != k ==> parts[j].heading != parts[k].heading
    ensures ItemsUnder(Lines(parts), parts[k].heading) == parts[k].items
  {
    hide Lines, ItemsUnder, AllOneLine, OneLine;
    var p, rest := parts[0], parts[1..];
    assert p in parts && parts[k] in parts && forall q :: q in rest ==> q in parts;
    LinesCons(parts);
    if k == 0 {
      forall q | q in rest ensures q.heading != p.heading {
        var j :| 0 <= j < |rest| && rest[j] == q;
        assert parts[j + 1] == q;
      }
      OwnList(p.heading, p.items, Lines(rest));
      NothingUnder(rest, p.heading);
    } else {
      assert rest[k - 1] == parts[k];
      forall j | 0 <= j < |rest| && j != k - 1 ensures rest[j].heading != rest[k - 1].heading {
        assert parts[j + 1] == rest[j];
      }
      OtherList(p.heading, p.items, Lines(rest), parts[k].heading);
      ListRead(rest, k - 1);
    }
  }

  // ---- the handoff ------------------------------------------------------------------------------------------

  const HEADINGS := ["Goal:", "Completed:", "Next steps:", "Decisions:", "Constraints:", "Open questions:",
                     "Verification:", "Risks:", "Changed files:"]

  function Lists(input: HandoffInput): (r: seq<seq<string>>)
    ensures |r| == 9
  {
    [[Trim(input.goal)], TrimNonBlank(input.completed), Titles(input.nextSteps), TrimNonBlank(input.decisions),
     TrimNonBlank(input.constraints), TrimNonBlank(input.openQuestions), TrimNonBlank(input.verification),
     TrimNonBlank(input.risks), TrimNonBlank(input.changedFiles)]
  }

  // The lists of a handoff under their headings.
  function Parts(input: HandoffInput): (r: seq<Part>)
    ensures |r| == 9 && forall i :: 0 <= i < 9 ==> r[i] == Part(HEADINGS[i], Lists(input)[i])
  {
    seq(9, i requires 0 <= i < 9 => Part(HEADINGS[i], Lists(input)[i]))
  }

  lemma {:induction false} BlocksConcat(a: seq<Part>, b: seq<Part>)
    ensures Blocks(a + b) == Blocks(a) + Blocks(b)
  {
    hide Section;
    if a == [] {
      assert a + b == b;
    } else {
      assert (a + b)[1..] == a[1..] + b;
      BlocksConcat(a[1..], b);
    }
  }

  lemma NextBlock(parts: seq<Part>, i: nat)
    requires i < |parts|
    ensures Blocks(parts[..i + 1]) == Blocks(parts[..i]) + Section(parts[i].heading, parts[i].items)
  {
    hide Section;
    PrefixStep(parts, i);
    BlocksConcat(parts[..i], [parts[i]]);
    assert [parts[i]][1..] == [];
    assert Blocks([parts[i]]) == Section(parts[i].heading, parts[i].items) + [];
  }

  lemma ContentIsBlocks(input: HandoffInput)
    ensures HandoffContent(input) == Join(Blocks(Parts(input)), "\n\n")
  {
    hide Section, Join, Blocks, Trim, TrimNonBlank, Titles, Parts;
    var parts := Parts(input);
    NoBlocks(parts);
    assert [] + Section(HEADINGS[0], Lists(input)[0]) == Section("Goal:", [Trim(input.goal)]);
    NextBlock(parts, 0);
    NextBlock(parts, 1);
    NextBlock(parts, 2);
    NextBlock(parts, 3);
    NextBlock(parts, 4);
    NextBlock(parts, 5);
    NextBlock(parts, 6);
    NextBlock(parts, 7);
    NextBlock(parts, 8);
    assert parts[..9] == parts;
  }

  lemma NoBlocks(parts: seq<Part>)
    ensures Blocks(parts[..0]) == []
  {
  }

  ghost predicate AllOneLineTrimmed(values: seq<string>) {
    forall v :: v in values ==> OneLine(Trim(v))
  }

  // None of the texts goes over several lines.
  ghost predicate PlainHandoff(input: HandoffInput) {
    && OneLine(Trim(input.goal)) && AllOneLineTrimmed(input.completed)
    && (forall step :: step in input.nextSteps ==> OneLine(Trim(step.title)))
    && AllOneLineTrimmed(input.decisions) && AllOneLineTrimmed(input.constraints)
    && AllOneLineTrimmed(input.openQuestions) && AllOneLineTrimmed(input.verification)
    && AllOneLineTrimmed(input.risks) && AllOneLineTrimmed(input.changedFiles)
  }

  lemma {:induction false} TrimmedOneLine(values: seq<string>)
    requires AllOneLineTrimmed(values)
    ensures AllOneLine(TrimNonBlank(values))
  {
    hide Trim, OneLine;
    if values != [] {
      assert values[0] in values && forall v :: v in values[1..] ==> v in values;
      TrimmedOneLine(values[1..]);
    }
  }

  lemma {:induction false} TitlesOneLine(steps: seq<NextStepInput>)
    requires forall step :: step in steps ==> OneLine(Trim(step.title))
    ensures AllOneLine(Titles(steps))
  {
    hide Trim, OneLine;
    if steps != [] {
      assert steps[0] in steps && forall step :: step in steps[1..] ==> step in steps;
      TitlesOneLine(steps[1..]);
    }
  }

  lemma ListsOneLine(input: HandoffInput)
    requires PlainHandoff(input)
    ensures forall i :: 0 <= i < 9 ==> AllOneLine(Lists(input)[i])
  {
    hide Trim, TrimNonBlank, Titles;
    TrimmedOneLine(input.completed);
    TitlesOneLine(input.nextSteps);
    TrimmedOneLine(input.decisions);
    TrimmedOneLine(input.constraints);
    TrimmedOneLine(input.openQuestions);
    TrimmedOneLine(input.verification);
    TrimmedOneLine(input.risks);
    TrimmedOneLine(input.changedFiles);
  }

  lemma HeadingsDiffer()
    ensures forall i, j :: 0 <= i < j < 9 ==> HEADINGS[i] != HEADINGS[j]
  {
    assert forall i :: 0 <= i < 9 ==> HEADINGS[i][0] == "GCNDCOVRC"[i];
    assert HEADINGS[1][2] == 'm' && HEADINGS[4][2] == 'n' && HEADINGS[8][2] == 'a';
  }

  lemma HeadingsPlain()
    ensures forall i :: 0 <= i < 9 ==> OneLine(HEADINGS[i]) && HEADINGS[i] != "" && !("- " <= HEADINGS[i])
  {
    assert forall i :: 0 <= i < 9 ==> HEADINGS[i][0] == "GCNDCOVRC"[i];
  }

  lemma PartsWellFormed(input: HandoffInput)
    requires PlainHandoff(input)
    ensures WellFormed(Parts(input))
    ensures forall i, j :: 0 <= i < j < 9 ==> Parts(input)[i].heading != Parts(input)[j].heading
  {
    HeadingsDiffer();
    HeadingsPlain();
    ListsOneLine(input);
    hide Lists, AllOneLine, OneLine, PlainHandoff, HEADINGS;
    var parts := Parts(input);
    forall p | p in parts ensures OneLine(p.heading) && p.heading != "" && !("- " <= p.heading) && AllOneLine(p.items) {
      var i :| 0 <= i < 9 && parts[i] == p;
    }
  }

  lemma GoalPresent(input: HandoffInput)
    ensures Blocks(Parts(input)) != []
  {
    assert Lists(input)[0] != [];
  }

  lemma ListsRead(input: HandoffInput)
    requires PlainHandoff(input)
    ensures forall k :: 0 <= k < 9 ==> ItemsUnder(SplitLines(HandoffContent(input)), HEADINGS[k]) == Lists(input)[k]
  {
    hide SplitLines, ItemsUnder, Lists, HandoffContent, Join, Lines, WellFormed, PlainHandoff;
    var parts := Parts(input);
    PartsWellFormed(input);
    ContentIsBlocks(input);
    ContentLines(parts);
    GoalPresent(input);
    forall k | 0 <= k < 9 ensures ItemsUnder(Lines(parts), HEADINGS[k]) == Lists(input)[k] {
      ListRead(parts, k);
    }
  }

  // Whoever reads the text of a handoff finds each of its lists under the heading of that list.
  lemma HandoffRead(input: HandoffInput)
    requires PlainHandoff(input)
    ensures var lines := SplitLines(HandoffContent(input));
      && ItemsUnder(lines, "Goal:") == [Trim(input.goal)]
      && ItemsUnder(lines, "Completed:") == TrimNonBlank(input.completed)
      && ItemsUnder(lines, "Next steps:") == Titles(input.nextSteps)
      && ItemsUnder(lines, "Decisions:") == TrimNonBlank(input.decisions)
      && ItemsUnder(lines, "Constraints:") == TrimNonBlank(input.constraints)
      && ItemsUnder(lines, "Open questions:") == TrimNonBlank(input.openQuestions)
      && ItemsUnder(lines, "Verification:") == TrimNonBlank(input.verification)
      && ItemsUnder(lines, "Risks:") == TrimNonBlank(input.risks)
      && ItemsUnder(lines, "Changed files:") == TrimNonBlank(input.changedFiles)
  {
    hide SplitLines, ItemsUnder, Trim, TrimNonBlank, Titles, HandoffContent, PlainHandoff;
    ListsRead(input);
    var lines := SplitLines(HandoffContent(input));
    assert ItemsUnder(lines, HEADINGS[0]) == Lists(input)[0] && ItemsUnder(lines, HEADINGS[1]) == Lists(input)[1];
    assert ItemsUnder(lines, HEADINGS[2]) == Lists(input)[2] && ItemsUnder(lines, HEADINGS[3]) == Lists(input)[3];
    assert ItemsUnder(lines, HEADINGS[4]) == Lists(input)[4] && ItemsUnder(lines, HEADINGS[5]) == Lists(input)[5];
    assert ItemsUnder(lines, HEADINGS[6]) == Lists(input)[6] && ItemsUnder(lines, HEADINGS[7]) == Lists(input)[7];
    assert ItemsUnder(lines, HEADINGS[8]) == Lists(input)[8];
  }

  // A list keeps its texts in order, trimmed, without the blank ones.
  lemma {:induction false} TrimNonBlankIs(before: seq<string>, value: string, after: seq<string>)
    ensures TrimNonBlank(before + [value] + after)
      == TrimNonBlank(before) + (if Blank(value) then [] else [Trim(value)]) + TrimNonBlank(after)
    ensures TrimNonBlank([]) == []
  {
    hide Trim, Blank;
    if before == [] {
      assert [] + [value] + after == [value] + after && ([value] + after)[1..] == after;
    } else {
      assert (before + [value] + after)[1..] == before[1..] + [value] + after;
      TrimNonBlankIs(before[1..], value, after);
    }
  }
}
