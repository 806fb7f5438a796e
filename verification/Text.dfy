// Trimming, joining and splitting of strings as JavaScript does it.
module Text {

  // White space and line terminators removed by String.prototype.trim.
  predicate IsSpace(c: char) {
    var n := c as int;
    || 0x9 <= n <= 0xD || n == 0x20 || n == 0xA0 || n == 0x1680 || 0x2000 <= n <= 0x200A
    || n == 0x2028 || n == 0x2029 || n == 0x202F || n == 0x205F || n == 0x3000 || n == 0xFEFF
  }

  predicate Blank(s: string) {
    forall i :: 0 <= i < |s| ==> IsSpace(s[i])
  }

  function TrimStart(s: string): (r: string)
    ensures r == "" || !IsSpace(r[0])
    ensures r == "" <==> Blank(s)
  {
    if s != "" && IsSpace(s[0]) then TrimStart(s[1..]) else s
  }

  function TrimEnd(s: string): (r: string)
    ensures r <= s
    ensures r == "" || !IsSpace(r[|r| - 1])
    ensures r == "" <==> Blank(s)
  {
    if s != "" && IsSpace(s[|s| - 1]) then TrimEnd(s[..|s| - 1]) else s
  }

  function Trim(s: string): (r: string)
    ensures |r| <= |s|
    ensures r == "" <==> Blank(s)
    ensures r != "" ==> !IsSpace(r[0]) && !IsSpace(r[|r| - 1])
  {
    TrimShorter(s);
    TrimEnd(TrimStart(s))
  }

  lemma TrimShorter(s: string)
    ensures |TrimStart(s)| <= |s|
  {
    if s != "" && IsSpace(s[0]) {
      TrimShorter(s[1..]);
    }
  }

  predicate IsTrimmed(s: string) {
    s == "" || (!IsSpace(s[0]) && !IsSpace(s[|s| - 1]))
  }

  lemma TrimTrimmed(s: string)
    ensures IsTrimmed(Trim(s))
    ensures IsTrimmed(s) <==> Trim(s) == s
  {
  }

  // A text that starts with a visible character only loses its tail.
  lemma TrimKeepsPrefix(s: string)
    requires s != "" && !IsSpace(s[0])
    ensures Trim(s) <= s && Trim(s) != ""
  {
  }

  function LastIndexOf(s: string, c: char): (i: int)
    ensures -1 <= i < |s|
    ensures i >= 0 ==> s[i] == c
    ensures forall j :: i < j < |s| ==> s[j] != c
  {
    if s == "" then -1
    else if s[|s| - 1] == c then |s| - 1
    else LastIndexOf(s[..|s| - 1], c)
  }

  function IndexOf(s: string, c: char): (i: nat)
    ensures i <= |s|
    ensures i < |s| ==> s[i] == c
    ensures c !in s[..i]
  {
    if s == "" || s[0] == c then 0 else 1 + IndexOf(s[1..], c)
  }

  lemma {:induction false} IndexOfFirst(a: string, c: char, b: string)
    requires c !in a
    ensures IndexOf(a + [c] + b, c) == |a|
  {
    if a == "" {
      assert a + [c] + b == [c] + b;
    } else {
      assert (a + [c] + b)[1..] == a[1..] + [c] + b;
      IndexOfFirst(a[1..], c, b);
    }
  }

  lemma {:induction false} IndexOfWithin(a: string, c: char, b: string)
    requires c in a
    ensures IndexOf(a + b, c) == IndexOf(a, c) < |a|
  {
    if a[0] != c {
      assert (a + b)[1..] == a[1..] + b;
      IndexOfWithin(a[1..], c, b);
    }
  }

  function SplitLines(s: string): seq<string>
    decreases |s|
  {
    var i := IndexOf(s, '\n');
    if i == |s| then [s] else [s[..i]] + SplitLines(s[i + 1..])
  }

  lemma SplitAfter(a: string, b: string)
    requires '\n' !in a
    ensures SplitLines(a + "\n" + b) == [a] + SplitLines(b)
  {
    IndexOfFirst(a, '\n', b);
    var s := a + "\n" + b;
    assert s == a + ['\n'] + b;
    assert s[..|a|] == a && s[|a| + 1..] == b;
  }

  // Whether the text occurs somewhere.
  predicate Includes(s: string, text: string) {
    exists i :: 0 <= i <= |s| && text <= s[i..]
  }

  lemma IncludedBegins(s: string, text: string)
    requires text != ""
    ensures Includes(s, text) ==> text[0] in s
  {
    if Includes(s, text) {
      var i :| 0 <= i <= |s| && text <= s[i..];
      assert s[i..][0] == s[i];
    }
  }

  function Join(parts: seq<string>, separator: string): string {
    if parts == [] then ""
    else if |parts| == 1 then parts[0]
    else parts[0] + separator + Join(parts[1..], separator)
  }

  lemma JoinStartsWith(parts: seq<string>, separator: string)
    requires parts != [] && parts[0] != ""
    ensures Join(parts, separator) != "" && Join(parts, separator)[0] == parts[0][0]
  {
  }
}
