/** The string operations the readers rely on: trimming, lines, searching. */
module Text {
  import opened Types

  /** The Unicode White_Space property. */
  predicate IsWhitespace(c: char) {
    var n := c as int;
    || 0x9 <= n <= 0xD || n == 0x20 || n == 0x85 || n == 0xA0 || n == 0x1680
    || 0x2000 <= n <= 0x200A || n == 0x2028 || n == 0x2029 || n == 0x202F || n == 0x205F || n == 0x3000
  }

  predicate IsTrimmed(s: string) {
    s == "" || (!IsWhitespace(s[0]) && !IsWhitespace(s[|s| - 1]))
  }

  /** Where the text without leading whitespace starts. */
  function TrimStart(s: string): (i: nat)
    ensures i <= |s| && (forall k | 0 <= k < i :: IsWhitespace(s[k])) && (i < |s| ==> !IsWhitespace(s[i]))
  {
    if s == "" || !IsWhitespace(s[0]) then 0 else 1 + TrimStart(s[1..])
  }

  /** Where the text without trailing whitespace ends. */
  function TrimEnd(s: string): (j: nat)
    ensures j <= |s| && (forall k | j <= k < |s| :: IsWhitespace(s[k])) && (j > 0 ==> !IsWhitespace(s[j - 1]))
  {
    if s == "" || !IsWhitespace(s[|s| - 1]) then |s| else TrimEnd(s[..|s| - 1])
  }

  /** The longest piece of the text that neither starts nor ends with whitespace. */
  function Trim(s: string): string {
    var rest := s[TrimStart(s)..];
    rest[..TrimEnd(rest)]
  }

  /** Trimming removes whitespace at both ends and nothing else. */
  lemma TrimIsPiece(s: string) returns (i: nat, j: nat)
    ensures i <= j <= |s| && Trim(s) == s[i..j] && IsTrimmed(Trim(s))
    ensures forall k | 0 <= k < i || j <= k < |s| :: IsWhitespace(s[k])
  {
    i := TrimStart(s);
    var rest := s[i..];
    j := i + TrimEnd(rest);
    assert rest[..TrimEnd(rest)] == s[i..j];
    forall k | j <= k < |s|
      ensures IsWhitespace(s[k])
    {
      assert s[k] == rest[k - i];
    }
  }

  lemma TrimOfTrimmed(s: string)
    requires IsTrimmed(s)
    ensures Trim(s) == s
  {
    assert TrimStart(s) == 0 && s[0..] == s;
  }

  predicate OccursAt(s: string, pattern: string, i: nat) {
    i + |pattern| <= |s| && s[i..i + |pattern|] == pattern
  }

  predicate Occurs(s: string, pattern: string) {
    exists i | 0 <= i <= |s| :: OccursAt(s, pattern, i)
  }

  /** First occurrence. */
  function Find(s: string, pattern: string): (r: Option<nat>)
    requires pattern != ""
    ensures r.Some? ==> OccursAt(s, pattern, r.value) && forall k: nat | k < r.value :: !OccursAt(s, pattern, k)
    ensures r.None? ==> forall k: nat :: !OccursAt(s, pattern, k)
  {
    FindFrom(s, pattern, 0)
  }

  function FindFrom(s: string, pattern: string, from: nat): (r: Option<nat>)
    requires pattern != "" && forall k: nat | k < from :: !OccursAt(s, pattern, k)
    ensures r.Some? ==> OccursAt(s, pattern, r.value) && forall k: nat | k < r.value :: !OccursAt(s, pattern, k)
    ensures r.None? ==> forall k: nat :: !OccursAt(s, pattern, k)
    decreases |s| - from
  {
    if from + |pattern| > |s| then None
    else if OccursAt(s, pattern, from) then Some(from)
    else FindFrom(s, pattern, from + 1)
  }

  /** Last occurrence. */
  function FindLast(s: string, pattern: string): (r: Option<nat>)
    requires pattern != ""
    ensures r.Some? ==> OccursAt(s, pattern, r.value) && forall k: nat | k > r.value :: !OccursAt(s, pattern, k)
    ensures r.None? ==> forall k: nat :: !OccursAt(s, pattern, k)
  {
    FindLastFrom(s, pattern, |s|)
  }

  function FindLastFrom(s: string, pattern: string, from: nat): (r: Option<nat>)
    requires pattern != "" && forall k: nat | k > from :: !OccursAt(s, pattern, k)
    ensures r.Some? ==> OccursAt(s, pattern, r.value) && forall k: nat | k > r.value :: !OccursAt(s, pattern, k)
    ensures r.None? ==> forall k: nat :: !OccursAt(s, pattern, k)
    decreases from
  {
    if OccursAt(s, pattern, from) then Some(from)
    else if from == 0 then None
    else FindLastFrom(s, pattern, from - 1)
  }

  predicate StartsWith(s: string, prefix: string) {
    |prefix| <= |s| && s[..|prefix|] == prefix
  }

  function StripCarriageReturn(line: string): string {
    if line != "" && line[|line| - 1] == '\r' then line[..|line| - 1] else line
  }

  /** Lines end at a line feed, which a carriage return may precede; the last one may be unterminated. */
  function Lines(text: string): seq<string>
    decreases |text|
  {
    if text == "" then []
    else match Find(text, "\n")
      case None => [text]
      case Some(i) => [StripCarriageReturn(text[..i])] + Lines(text[i + 1..])
  }

  // ---------------------------------------------------------------------
  // What the lines of a text are
  // ---------------------------------------------------------------------

  /** A line of its own: it has no line feed, and a carriage return at its end only where another one follows. */
  predicate IsLine(line: string, ending: string) {
    && '\n' !in line && (ending == "\n" || ending == "\r\n")
    && (ending == "\n" && line != "" ==> line[|line| - 1] != '\r')
  }

  predicate AreLines(lines: seq<string>, endings: seq<string>) {
    |endings| == |lines| && forall i | 0 <= i < |lines| :: IsLine(lines[i], endings[i])
  }

  /** The lines with their endings, and the rest that is not terminated. */
  function TextOf(lines: seq<string>, endings: seq<string>, last: string): string
    requires |endings| == |lines|
  {
    if lines == [] then last else lines[0] + endings[0] + TextOf(lines[1..], endings[1..], last)
  }

  function OfLast(last: string): seq<string> { if last == "" then [] else [last] }

  lemma LineFeedAt(text: string, k: nat)
    ensures OccursAt(text, "\n", k) <==> k < |text| && text[k] == '\n'
  {
    if k < |text| {
      assert text[k..k + 1] == [text[k]];
    }
  }

  lemma FindLineFeed(text: string, i: nat)
    requires i < |text| && text[i] == '\n' && '\n' !in text[..i]
    ensures Find(text, "\n") == Some(i)
  {
    LineFeedAt(text, i);
    forall k: nat | k < i
      ensures !OccursAt(text, "\n", k)
    {
      assert text[..i][k] == text[k];
      LineFeedAt(text, k);
    }
  }

  lemma NoLineFeed(text: string)
    requires '\n' !in text
    ensures Find(text, "\n") == None
  {
    forall k: nat
      ensures !OccursAt(text, "\n", k)
    {
      LineFeedAt(text, k);
    }
  }

  /** The first line of a text, and the text after it. */
  lemma FirstLine(line: string, ending: string, rest: string)
    requires IsLine(line, ending)
    ensures Lines(line + ending + rest) == [line] + Lines(rest)
  {
    var text := line + ending + rest;
    var i := |line| + |ending| - 1;
    assert text[..i] == if ending == "\n" then line else line + "\r";
    FindLineFeed(text, i);
    assert text[i + 1..] == rest;
    assert StripCarriageReturn(text[..i]) == line;
  }

  lemma RestAreLines(lines: seq<string>, endings: seq<string>)
    requires AreLines(lines, endings) && lines != []
    ensures IsLine(lines[0], endings[0]) && AreLines(lines[1..], endings[1..])
  {
  }

  /** Reading the lines of a text gives them back, whichever of the two endings each has. */
  lemma {:induction false} LinesOfText(lines: seq<string>, endings: seq<string>, last: string)
    requires AreLines(lines, endings) && '\n' !in last
    ensures Lines(TextOf(lines, endings, last)) == lines + OfLast(last)
    decreases |lines|
  {
    if lines == [] {
      NoLineFeed(last);
    } else {
      RestAreLines(lines, endings);
      LinesOfText(lines[1..], endings[1..], last);
      FirstLine(lines[0], endings[0], TextOf(lines[1..], endings[1..], last));
      assert lines == [lines[0]] + lines[1..];
    }
  }

  /** Every text is made of lines in this way, so its lines are known. */
  lemma {:induction false} TextIsLines(text: string) returns (lines: seq<string>, endings: seq<string>, last: string)
    ensures AreLines(lines, endings) && '\n' !in last
    ensures text == TextOf(lines, endings, last) && Lines(text) == lines + OfLast(last)
    decreases |text|
  {
    if '\n' !in text {
      lines, endings, last := [], [], text;
    } else {
      var i := FirstLineFeed(text);
      var carriage := i > 0 && text[i - 1] == '\r';
      var line := if carriage then text[..i - 1] else text[..i];
      var ending := if carriage then "\r\n" else "\n";
      assert text == line + ending + text[i + 1..];
      var more, ends;
      more, ends, last := TextIsLines(text[i + 1..]);
      lines, endings := [line] + more, [ending] + ends;
      assert lines[1..] == more && endings[1..] == ends;
    }
    LinesOfText(lines, endings, last);
  }

  /** No line has a line feed in it. */
  lemma LinesHaveNoLineFeed(text: string)
    ensures forall l | l in Lines(text) :: '\n' !in l
  {
    var lines, endings, last := TextIsLines(text);
    forall l | l in lines + OfLast(last)
      ensures '\n' !in l
    {
      if l in lines {
        var i :| 0 <= i < |lines| && lines[i] == l;
        assert IsLine(lines[i], endings[i]);
      }
    }
  }

  lemma {:induction false} FirstLineFeed(text: string) returns (i: nat)
    requires '\n' in text
    ensures i < |text| && text[i] == '\n' && '\n' !in text[..i]
    decreases |text|
  {
    if text[0] == '\n' {
      i := 0;
    } else {
      assert text == [text[0]] + text[1..];
      var j := FirstLineFeed(text[1..]);
      i := j + 1;
      assert text[..i] == [text[0]] + text[1..][..j];
    }
  }

  /** The white space that trimming removes: 25 characters. */
  lemma WhitespaceIs(c: char)
    ensures IsWhitespace(c) <==>
      c as int in {9, 10, 11, 12, 13, 32, 133, 160, 5760, 8192, 8193, 8194, 8195, 8196, 8197, 8198, 8199, 8200, 8201,
                   8202, 8232, 8233, 8239, 8287, 12288}
  {
  }

  /** There is only one way to trim a text. */
  lemma TrimIsUnique(s: string, i: nat, j: nat)
    requires i <= j <= |s| && IsTrimmed(s[i..j]) && s[i..j] != ""
    requires forall k | 0 <= k < i || j <= k < |s| :: IsWhitespace(s[k])
    ensures Trim(s) == s[i..j]
  {
    var m, n := TrimIsPiece(s);
    assert !IsWhitespace(s[i..j][0]) && !IsWhitespace(s[i..j][j - i - 1]);
    assert s[i..j][0] == s[i] && s[i..j][j - i - 1] == s[j - 1];
    assert m <= i && j <= n;
    assert s[m..n][0] == s[m] && s[m..n][n - m - 1] == s[n - 1];
  }
}
