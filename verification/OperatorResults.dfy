// The results of a run as lines of text, and reading them back.
module OperatorResults {
  import opened Sequences
  import opened Text
  import opened OperatorStore
  import opened OperatorFinalization

  // A failure is written without its retryable flag being on.
  function Normalized(e: Entry): Entry {
    match e
    case SucceededEntry(_, _) => e
    case FailedEntry(i, error) => FailedEntry(i, error.(retryable := false))
  }

  function NormalizedAll(entries: seq<Entry>): (r: seq<Entry>)
    ensures |r| == |entries| && forall i :: 0 <= i < |r| ==> r[i] == Normalized(entries[i])
  {
    if entries == [] then [] else [Normalized(entries[0])] + NormalizedAll(entries[1..])
  }

  function Lines(entries: seq<Entry>, encode: Entry -> string): seq<string> {
    if entries == [] then [] else [encode(Normalized(entries[0]))] + Lines(entries[1..], encode)
  }

  function JsonlContent(entries: seq<Entry>, encode: Entry -> string): string {
    Join(Lines(entries, encode), "\n") + if entries == [] then "" else "\n"
  }

  // ---- reading ---------------------------------------------------------------------------------

  predicate Visible(line: string) { !Blank(line) }

  predicate IndexLeq(a: Entry, b: Entry) { a.itemIndex <= b.itemIndex }

  function DecodeAll(lines: seq<string>, decode: string -> Option<Entry>): Option<seq<Entry>> {
    if lines == [] then Some([])
    else
      var first, rest := decode(lines[0]), DecodeAll(lines[1..], decode);
      if first.None? || rest.None? then None else Some([first.value] + rest.value)
  }

  datatype InlineResults = NoResults | TooLarge | Malformed | Results(entries: seq<Entry>)

  function Read(content: string, decode: string -> Option<Entry>): InlineResults {
    var parsed := DecodeAll(Filter(SplitLines(content), Visible), decode);
    if parsed.None? then Malformed else Results(SortBy(parsed.value, IndexLeq))
  }

  method ParseInlineResults(content: Option<string>, bytes: string -> nat, maxBytes: nat,
                            decode: string -> Option<Entry>)
    returns (r: InlineResults)
    ensures content.None? <==> r.NoResults?
    ensures content.Some? && bytes(content.value) > maxBytes <==> r.TooLarge?
    ensures content.Some? && bytes(content.value) <= maxBytes ==> r == Read(content.value, decode)
  {
    if content.None? {
      return NoResults;
    }
    if bytes(content.value) > maxBytes {
      return TooLarge;
    }
    var lines := Filter(SplitLines(content.value), Visible);
    var parsed: seq<Entry> := [];
    for i := 0 to |lines|
      invariant DecodeAll(lines[..i], decode) == Some(parsed)
    {
      var entry := decode(lines[i]);
      if entry.None? {
        DecodeFails(lines, i, decode);
        return Malformed;
      }
      PrefixStep(lines, i);
      DecodeAppend(lines[..i], lines[i], decode);
      parsed := parsed + [entry.value];
    }
    assert lines[..|lines|] == lines;
    r := Results(SortBy(parsed, IndexLeq));
  }

  lemma {:induction false} DecodeAppend(lines: seq<string>, line: string, decode: string -> Option<Entry>)
    requires DecodeAll(lines, decode).Some? && decode(line).Some?
    ensures DecodeAll(lines + [line], decode) == Some(DecodeAll(lines, decode).value + [decode(line).value])
  {
    if lines == [] {
      assert lines + [line] == [line] && [line][1..] == [];
      assert DecodeAll([line][1..], decode) == Some([]);
      assert [decode(line).value] + [] == [decode(line).value] == [] + [decode(line).value];
    } else {
      assert (lines + [line])[1..] == lines[1..] + [line];
      DecodeAppend(lines[1..], line, decode);
      var first, rest, last := [decode(lines[0]).value], DecodeAll(lines[1..], decode).value, [decode(line).value];
      assert first + (rest + last) == first + rest + last;
    }
  }

  lemma {:induction false} DecodeFails(lines: seq<string>, i: nat, decode: string -> Option<Entry>)
    requires i < |lines| && decode(lines[i]).None?
    ensures DecodeAll(lines, decode).None?
  {
    if i > 0 {
      DecodeFails(lines[1..], i - 1, decode);
    }
  }

  // ---- the round trip -----------------------------------------------------------------------------

  // An entry is written on one line, which is not blank, and can be read again.
  ghost predicate OneLineCodec(encode: Entry -> string, decode: string -> Option<Entry>) {
    forall e :: '\n' !in encode(e) && !Blank(encode(e)) && decode(encode(e)) == Some(e)
  }

  lemma JsonlStep(entries: seq<Entry>, encode: Entry -> string)
    requires entries != []
    ensures JsonlContent(entries, encode) == encode(Normalized(entries[0])) + "\n" + JsonlContent(entries[1..], encode)
  {
    var first, rest := encode(Normalized(entries[0])), Lines(entries[1..], encode);
    if entries[1..] == [] {
      assert Lines(entries, encode) == [first];
    } else {
      assert Lines(entries, encode)[1..] == rest;
      assert first + "\n" + Join(rest, "\n") + "\n" == first + "\n" + (Join(rest, "\n") + "\n");
    }
  }

  lemma {:induction false} ReadLines(entries: seq<Entry>, encode: Entry -> string, decode: string -> Option<Entry>)
    requires OneLineCodec(encode, decode)
    ensures DecodeAll(Filter(SplitLines(JsonlContent(entries, encode)), Visible), decode)
      == Some(NormalizedAll(entries))
  {
    if entries == [] {
      assert SplitLines("") == [""] && [""][1..] == [];
    } else {
      var first, rest := encode(Normalized(entries[0])), JsonlContent(entries[1..], encode);
      JsonlStep(entries, encode);
      SplitAfter(first, rest);
      FilterConcat([first], SplitLines(rest), Visible);
      assert [first][1..] == [];
      ReadLines(entries[1..], encode, decode);
      assert ([first] + Filter(SplitLines(rest), Visible))[1..] == Filter(SplitLines(rest), Visible);
    }
  }

  // Reading what was written gives the entries, failures normalized, in the order of the items.
  lemma ResultsRoundTrip(entries: seq<Entry>, encode: Entry -> string, decode: string -> Option<Entry>)
    requires OneLineCodec(encode, decode)
    ensures Read(JsonlContent(entries, encode), decode) == Results(SortBy(NormalizedAll(entries), IndexLeq))
    ensures Sorted(entries, IndexLeq) ==> Read(JsonlContent(entries, encode), decode) == Results(NormalizedAll(entries))
  {
    ReadLines(entries, encode, decode);
    hide OneLineCodec, JsonlContent, SplitLines, DecodeAll;
    if Sorted(entries, IndexLeq) {
      NormalizedSorted(entries);
      SortedStays(NormalizedAll(entries));
    }
  }

  // What is read is what was written, but that no error is read as retryable.
  ghost predicate ReadAs(written: Entry, read: Entry) {
    match written
    case SucceededEntry(_, _) => read == written
    case FailedEntry(i, error) =>
      read.FailedEntry? && read.itemIndex == i
      && read.error == Failure(error.code, error.message, false, error.attemptCount)
  }

  lemma EntriesReadBack(entries: seq<Entry>, encode: Entry -> string, decode: string -> Option<Entry>)
    requires OneLineCodec(encode, decode) && Sorted(entries, IndexLeq)
    ensures var r := Read(JsonlContent(entries, encode), decode);
      r.Results? && |r.entries| == |entries| && forall i :: 0 <= i < |entries| ==> ReadAs(entries[i], r.entries[i])
  {
    hide OneLineCodec, JsonlContent, Read;
    ResultsRoundTrip(entries, encode, decode);
  }

  lemma NormalizedSorted(entries: seq<Entry>)
    requires Sorted(entries, IndexLeq)
    ensures Sorted(NormalizedAll(entries), IndexLeq)
  {
    forall i, j | 0 <= i < j < |entries| ensures IndexLeq(NormalizedAll(entries)[i], NormalizedAll(entries)[j]) {
      assert IndexLeq(entries[i], entries[j]);
    }
  }

  lemma {:induction false} SortedStays(entries: seq<Entry>)
    requires Sorted(entries, IndexLeq)
    ensures SortBy(entries, IndexLeq) == entries
  {
    if entries != [] {
      SortedTail(entries, IndexLeq);
      SortedStays(entries[1..]);
      assert entries == [entries[0]] + entries[1..];
    }
  }

  lemma EntriesNormal(tasks: seq<Task>)
    ensures NormalizedAll(Entries(tasks)) == Entries(tasks) && Sorted(Entries(tasks), IndexLeq)
  {
    forall i | 0 <= i < |tasks| ensures NormalizedAll(Entries(tasks))[i] == Entries(tasks)[i] {
    }
  }

  // What the finalizer publishes is read back exactly.
  lemma PublishedReadBack(tasks: seq<Task>, encode: Entry -> string, decode: string -> Option<Entry>)
    requires OneLineCodec(encode, decode)
    ensures Read(JsonlContent(Entries(tasks), encode), decode) == Results(Entries(tasks))
  {
    hide OneLineCodec, Read, JsonlContent, NormalizedAll, Entries, Sorted;
    EntriesNormal(tasks);
    ResultsRoundTrip(Entries(tasks), encode, decode);
  }
}
