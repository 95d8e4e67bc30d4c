/** Extracting the generated text from the output of the inference command line. */
module Completion {
  import opened Text

  const PROMPT := "\n> "
  const BLANK := "\n\n"
  const TIMING := "\n\n[ Prompt:"
  const EXITING := "\n\nExiting..."

  /** Where the completion starts: after the blank line that follows the last prompt marker,
      after the marker itself when no blank line follows, at the start when there is no marker. */
  ghost predicate IsStart(raw: string, start: nat) {
    && start <= |raw|
    && if Occurs(raw, PROMPT) then exists p: nat :: IsLastPrompt(raw, p) && StartsAfter(raw, p, start)
       else start == 0
  }

  ghost predicate IsLastPrompt(raw: string, p: nat) {
    OccursAt(raw, PROMPT, p) && forall k: nat | k > p :: !OccursAt(raw, PROMPT, k)
  }

  /** `start` follows the first blank line after the marker at p, or the marker if there is none. */
  ghost predicate StartsAfter(raw: string, p: nat, start: nat) {
    || (start == p + 3 && forall k: nat | p + 3 <= k :: !OccursAt(raw, BLANK, k))
    || (start >= p + 5 && OccursAt(raw, BLANK, start - 2)
        && forall k: nat | p + 3 <= k < start - 2 :: !OccursAt(raw, BLANK, k))
  }

  predicate TrailerAt(raw: string, k: nat) {
    OccursAt(raw, TIMING, k) || OccursAt(raw, EXITING, k)
  }

  /** Where it ends: at the first timing or exit trailer after the start, or at the end. */
  ghost predicate IsEnd(raw: string, start: nat, end: nat) {
    && start <= end <= |raw|
    && (end < |raw| ==> TrailerAt(raw, end))
    && forall k: nat | start <= k < end :: !TrailerAt(raw, k)
  }

  ghost predicate IsCompletion(raw: string, text: string) {
    exists start: nat, end: nat :: IsStart(raw, start) && IsEnd(raw, start, end) && text == Trim(raw[start..end])
  }

  lemma OccursInPiece(s: string, pattern: string, i: nat, j: nat, k: nat)
    requires i <= j <= |s|
    ensures OccursAt(s[i..j], pattern, k) <==> i + k + |pattern| <= j && OccursAt(s, pattern, i + k)
  {
    if i + k + |pattern| <= j {
      var a, b := s[i..j][k..k + |pattern|], s[i + k..i + k + |pattern|];
      assert |a| == |b| && forall x | 0 <= x < |a| :: a[x] == b[x];
      assert a == b;
    }
  }

  lemma CharOfOccurrence(s: string, pattern: string, i: nat, d: nat)
    requires OccursAt(s, pattern, i) && d < |pattern|
    ensures s[i + d] == pattern[d]
  {
    assert s[i..i + |pattern|][d] == s[i + d];
  }

  /** The two trailers cannot overlap, so cutting at one and then the other finds the first of both. */
  lemma TrailersDoNotOverlap(s: string, timing: nat, exiting: nat)
    requires OccursAt(s, TIMING, timing) && OccursAt(s, EXITING, exiting) && exiting < timing
    ensures exiting + |EXITING| <= timing
  {
    var d := if timing - exiting < |EXITING| then timing - exiting else 0;
    CharOfOccurrence(s, TIMING, timing, 0);
    CharOfOccurrence(s, TIMING, timing, 1);
    CharOfOccurrence(s, EXITING, exiting, 2);
    CharOfOccurrence(s, EXITING, exiting, d);
    assert forall k | 2 <= k < |EXITING| :: EXITING[k] != '\n';
  }

  method ExtractCompletion(rawOutput: string) returns (text: string)
    ensures IsCompletion(rawOutput, text)
  {
    var output := SkipPrompt(rawOutput);
    ghost var start, length := StartOf(rawOutput), CutLength(output);
    output := CutTrailers(output);
    assert rawOutput[start..][..length] == rawOutput[start..start + length];
    StartFound(rawOutput, start);
    EndFound(rawOutput, start, length);
    text := Trim(output);
  }

  method SkipPrompt(rawOutput: string) returns (output: string)
    ensures output == rawOutput[StartOf(rawOutput)..]
  {
    output := rawOutput;
    var promptStart := FindLast(output, PROMPT);
    if promptStart.Some? {
      output := output[promptStart.value + 3..];
      var completionStart := Find(output, BLANK);
      if completionStart.Some? {
        output := output[completionStart.value + 2..];
      }
    }
  }

  method CutTrailers(rest: string) returns (output: string)
    ensures output == rest[..CutLength(rest)]
  {
    output := rest;
    var timingStart := Find(output, TIMING);
    if timingStart.Some? {
      output := output[..timingStart.value];
    }
    var exitStart := Find(output, EXITING);
    if exitStart.Some? {
      output := output[..exitStart.value];
    }
  }

  /** The two searches for the start, as the method makes them. */
  function StartOf(raw: string): (start: nat)
    ensures start <= |raw|
  {
    match FindLast(raw, PROMPT)
    case None => 0
    case Some(p) =>
      match Find(raw[p + 3..], BLANK)
      case None => p + 3
      case Some(b) => p + 3 + b + 2
  }

  lemma StartFound(raw: string, start: nat)
    requires start == StartOf(raw)
    ensures IsStart(raw, start)
  {
    var found := FindLast(raw, PROMPT);
    if found.Some? {
      var p := found.value;
      var rest := raw[p + 3..];
      assert OccursAt(raw, PROMPT, p) && IsLastPrompt(raw, p) && Occurs(raw, PROMPT);
      forall k: nat | p + 3 <= k
        ensures OccursAt(rest, BLANK, k - (p + 3)) <==> OccursAt(raw, BLANK, k)
      {
        assert rest == raw[p + 3..|raw|];
        OccursInPiece(raw, BLANK, p + 3, |raw|, k - (p + 3));
      }
      assert StartsAfter(raw, p, start);
    }
  }

  /** The two cuts at the end, as the method makes them. */
  function CutLength(rest: string): (n: nat)
    ensures n <= |rest|
  {
    var kept := match Find(rest, TIMING) case None => rest case Some(t) => rest[..t];
    match Find(kept, EXITING) case None => |kept| case Some(e) => e
  }

  lemma EndFound(raw: string, start: nat, length: nat)
    requires start <= |raw| && length == CutLength(raw[start..])
    ensures IsEnd(raw, start, start + length)
  {
    var rest := raw[start..];
    CutFound(rest, length);
    forall k: nat
      ensures TrailerAt(rest, k) <==> TrailerAt(raw, start + k)
    {
      assert rest == raw[start..|raw|];
      OccursInPiece(raw, TIMING, start, |raw|, k);
      OccursInPiece(raw, EXITING, start, |raw|, k);
    }
    forall k: nat | start <= k < start + length
      ensures !TrailerAt(raw, k)
    {
      assert !TrailerAt(rest, k - start);
    }
  }

  lemma CutFound(rest: string, length: nat)
    requires length == CutLength(rest)
    ensures length < |rest| ==> TrailerAt(rest, length)
    ensures forall k: nat | k < length :: !TrailerAt(rest, k)
  {
    var timing := Find(rest, TIMING);
    var kept := match timing case None => rest case Some(t) => rest[..t];
    var exiting := Find(kept, EXITING);
    forall k: nat
      ensures OccursAt(kept, EXITING, k) <==> k + |EXITING| <= |kept| && OccursAt(rest, EXITING, k)
    {
      assert kept == rest[0..|kept|];
      OccursInPiece(rest, EXITING, 0, |kept|, k);
    }
    forall k: nat | k < length
      ensures !TrailerAt(rest, k)
    {
      if OccursAt(rest, EXITING, k) && timing.Some? {
        TrailersDoNotOverlap(rest, timing.value, k);
      }
    }
  }

  // ---------------------------------------------------------------------
  // What every completion is like
  // ---------------------------------------------------------------------

  lemma StartIsUnique(raw: string, a: nat, b: nat)
    requires IsStart(raw, a) && IsStart(raw, b)
    ensures a == b
  {
    if Occurs(raw, PROMPT) {
      var p: nat :| IsLastPrompt(raw, p) && StartsAfter(raw, p, a);
      var q: nat :| IsLastPrompt(raw, q) && StartsAfter(raw, q, b);
      assert p == q;
    }
  }

  lemma EndIsUnique(raw: string, start: nat, e: nat, f: nat)
    requires IsEnd(raw, start, e) && IsEnd(raw, start, f)
    ensures e == f
  {
  }

  /** The description has exactly one solution, so it says what the function returns. */
  lemma CompletionIsUnique(raw: string, a: string, b: string)
    requires IsCompletion(raw, a) && IsCompletion(raw, b)
    ensures a == b
  {
    var s: nat, e: nat :| IsStart(raw, s) && IsEnd(raw, s, e) && a == Trim(raw[s..e]);
    var t: nat, f: nat :| IsStart(raw, t) && IsEnd(raw, t, f) && b == Trim(raw[t..f]);
    StartIsUnique(raw, s, t);
    EndIsUnique(raw, s, e, f);
  }

  lemma NoPromptAfterStart(raw: string, start: nat, k: nat)
    requires IsStart(raw, start) && k >= start
    ensures !OccursAt(raw, PROMPT, k)
  {
    if Occurs(raw, PROMPT) {
      var p: nat :| IsLastPrompt(raw, p) && StartsAfter(raw, p, start);
    } else if OccursAt(raw, PROMPT, k) {
      assert Occurs(raw, PROMPT);
    }
  }

  lemma PieceIsClean(raw: string, start: nat, end: nat, i: nat, j: nat, k: nat)
    requires IsStart(raw, start) && IsEnd(raw, start, end) && start <= i <= j <= end
    ensures !OccursAt(raw[i..j], PROMPT, k) && !OccursAt(raw[i..j], TIMING, k) && !OccursAt(raw[i..j], EXITING, k)
  {
    OccursInPiece(raw, PROMPT, i, j, k);
    OccursInPiece(raw, TIMING, i, j, k);
    OccursInPiece(raw, EXITING, i, j, k);
    NoPromptAfterStart(raw, start, i + k);
    if i + k < end {
      assert !TrailerAt(raw, i + k);
    }
  }

  /** A completion is a contiguous piece of the output, trimmed, with none of the markers left in it. */
  lemma CompletionIsClean(raw: string, text: string)
    requires IsCompletion(raw, text)
    ensures IsTrimmed(text) && exists i, j :: 0 <= i <= j <= |raw| && text == raw[i..j]
    ensures !Occurs(text, PROMPT) && !Occurs(text, TIMING) && !Occurs(text, EXITING)
  {
    var start: nat, end: nat :| IsStart(raw, start) && IsEnd(raw, start, end) && text == Trim(raw[start..end]);
    var i, j := TrimmedPiece(raw, start, end);
    forall k: nat
      ensures !OccursAt(raw[i..j], PROMPT, k) && !OccursAt(raw[i..j], TIMING, k) && !OccursAt(raw[i..j], EXITING, k)
    {
      PieceIsClean(raw, start, end, i, j, k);
    }
  }

  lemma TrimmedPiece(raw: string, start: nat, end: nat) returns (i: nat, j: nat)
    requires start <= end <= |raw|
    ensures start <= i <= j <= end && Trim(raw[start..end]) == raw[i..j] && IsTrimmed(raw[i..j])
  {
    var a, b := TrimIsPiece(raw[start..end]);
    SliceOfSlice(raw, start, end, a, b);
    i, j := start + a, start + b;
  }

  lemma SliceOfSlice(s: string, a: nat, b: nat, i: nat, j: nat)
    requires a <= b <= |s| && i <= j <= b - a
    ensures s[a..b][i..j] == s[a + i..a + j]
  {
    var left, right := s[a..b][i..j], s[a + i..a + j];
    assert |left| == |right| && forall k | 0 <= k < |left| :: left[k] == right[k];
    assert left == right;
  }

  /** Extracting twice changes nothing more. */
  lemma ExtractionIsIdempotent(raw: string, text: string, again: string)
    requires IsCompletion(raw, text) && IsCompletion(text, again)
    ensures again == text
  {
    CompletionIsClean(raw, text);
    assert IsStart(text, 0);
    assert IsEnd(text, 0, |text|);
    assert text[0..|text|] == text;
    TrimOfTrimmed(text);
    assert IsCompletion(text, text);
    CompletionIsUnique(text, again, text);
  }

  // ---------------------------------------------------------------------
  // With the markers themselves
  // ---------------------------------------------------------------------

  /** From here the text runs up to the first timing or exit line, or to the end. */
  predicate RunsTo(raw: string, start: nat, end: nat) {
    && start <= end <= |raw|
    && (end < |raw| ==> OccursAt(raw, "\n\n[ Prompt:", end) || OccursAt(raw, "\n\nExiting...", end))
    && forall k: nat | start <= k < end ::
         !OccursAt(raw, "\n\n[ Prompt:", k) && !OccursAt(raw, "\n\nExiting...", k)
  }

  predicate LastPromptAt(raw: string, p: nat) {
    OccursAt(raw, "\n> ", p) && forall k: nat | p < k <= |raw| :: !OccursAt(raw, "\n> ", k)
  }

  lemma MarkersAre()
    ensures PROMPT == "\n> " && BLANK == "\n\n" && TIMING == "\n\n[ Prompt:" && EXITING == "\n\nExiting..."
  {
  }

  /** After the last "> " prompt and the blank line that ends it. */
  lemma CompletionAfterPrompt(raw: string, p: nat, blank: nat, end: nat)
    requires LastPromptAt(raw, p) && p + 3 <= blank && OccursAt(raw, "\n\n", blank)
    requires (forall k: nat | p + 3 <= k < blank :: !OccursAt(raw, "\n\n", k)) && RunsTo(raw, blank + 2, end)
    ensures IsCompletion(raw, Trim(raw[blank + 2..end]))
  {
    MarkersAre();
    assert Occurs(raw, PROMPT) && IsLastPrompt(raw, p) && StartsAfter(raw, p, blank + 2);
    assert IsStart(raw, blank + 2) && IsEnd(raw, blank + 2, end);
  }

  /** After the prompt itself when no blank line follows. */
  lemma CompletionWithoutBlank(raw: string, p: nat, end: nat)
    requires LastPromptAt(raw, p) && (forall k: nat | p + 3 <= k <= |raw| :: !OccursAt(raw, "\n\n", k))
    requires RunsTo(raw, p + 3, end)
    ensures IsCompletion(raw, Trim(raw[p + 3..end]))
  {
    MarkersAre();
    assert Occurs(raw, PROMPT) && IsLastPrompt(raw, p) && StartsAfter(raw, p, p + 3);
    assert IsStart(raw, p + 3) && IsEnd(raw, p + 3, end);
  }

  /** From the start when there is no prompt. */
  lemma CompletionWithoutPrompt(raw: string, end: nat)
    requires (forall k: nat | k <= |raw| :: !OccursAt(raw, "\n> ", k)) && RunsTo(raw, 0, end)
    ensures IsCompletion(raw, Trim(raw[..end]))
  {
    MarkersAre();
    assert raw[0..end] == raw[..end];
    assert IsStart(raw, 0) && IsEnd(raw, 0, end);
  }
}
