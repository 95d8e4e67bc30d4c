/**
 The two readers of the trusted-root PEM text: the strict allowlist validator that runs
 at start-up and the lax loader that fills the verifier's roots from the same text.
 */
module RootPem {
  import opened Types
  import opened Text

  const BEGIN := "-----BEGIN CERTIFICATE-----"
  const END := "-----END CERTIFICATE-----"
  const DASHES := "-----"

  datatype PemError = InvalidBase64 | NotAllowlisted | Malformed | NoCertificates

  function TrimAll(lines: seq<string>): (trimmed: seq<string>)
    ensures |trimmed| == |lines|
    ensures forall i | 0 <= i < |lines| :: trimmed[i] == Trim(lines[i])
  {
    if lines == [] then [] else [Trim(lines[0])] + TrimAll(lines[1..])
  }

  function NonBlank(lines: seq<string>): seq<string> {
    if lines == [] then []
    else if lines[0] == "" then NonBlank(lines[1..]) else [lines[0]] + NonBlank(lines[1..])
  }

  function Join(body: seq<string>): string {
    if body == [] then "" else Join(body[..|body| - 1]) + body[|body| - 1]
  }

  // ---------------------------------------------------------------------
  // The grammar
  // ---------------------------------------------------------------------

  predicate BodyLine(line: string) { line != "" && !StartsWith(line, DASHES) }

  predicate Body(lines: seq<string>) { forall l | l in lines :: BodyLine(l) }

  function Render(bodies: seq<seq<string>>): seq<string> {
    if bodies == [] then [] else [BEGIN] + bodies[0] + [END] + Render(bodies[1..])
  }

  /** The bodies between the markers, or None when a line is out of place. */
  function Blocks(lines: seq<string>, inCert: bool, body: seq<string>): Option<seq<seq<string>>> {
    if lines == [] then if inCert then None else Some([])
    else if lines[0] == BEGIN && !inCert then Blocks(lines[1..], true, [])
    else if lines[0] == END && inCert then
      match Blocks(lines[1..], false, [])
      case None => None
      case Some(bodies) => Some([body] + bodies)
    else if inCert && !StartsWith(lines[0], DASHES) then Blocks(lines[1..], true, body + [lines[0]])
    else None
  }

  lemma {:induction false} BlocksOfRendered(bodies: seq<seq<string>>)
    requires forall b | b in bodies :: Body(b)
    ensures Blocks(Render(bodies), false, []) == Some(bodies)
    decreases |bodies|
  {
    if bodies != [] {
      BlocksOfRendered(bodies[1..]);
      var rest := Render(bodies[1..]);
      assert Render(bodies) == [BEGIN] + (bodies[0] + ([END] + rest));
      BlocksOfOne(bodies[0], rest);
      assert [bodies[0]] + bodies[1..] == bodies;
    }
  }

  lemma BlocksOfOne(body: seq<string>, rest: seq<string>)
    requires Body(body) && Blocks(rest, false, []).Some?
    ensures Blocks([BEGIN] + (body + ([END] + rest)), false, []) == Some([body] + Blocks(rest, false, []).value)
  {
    BlocksOfBody(body, [], rest);
    assert ([BEGIN] + (body + ([END] + rest)))[1..] == body + ([END] + rest);
    assert [] + body == body;
  }

  lemma {:induction false} BlocksOfBody(body: seq<string>, before: seq<string>, rest: seq<string>)
    requires Body(body) && Blocks(rest, false, []).Some?
    ensures Blocks(body + ([END] + rest), true, before) == Some([before + body] + Blocks(rest, false, []).value)
    decreases |body|
  {
    var lines := body + ([END] + rest);
    if body == [] {
      assert lines[1..] == rest && before + body == before;
    } else {
      assert BodyLine(body[0]);
      assert lines[1..] == body[1..] + ([END] + rest);
      BlocksOfBody(body[1..], before + [body[0]], rest);
      assert before + [body[0]] + body[1..] == before + body;
    }
  }

  lemma {:induction false} RenderedBlocks(lines: seq<string>, inCert: bool, body: seq<string>)
    requires (forall l | l in lines :: l != "") && Body(body) && (!inCert ==> body == [])
    requires Blocks(lines, inCert, body).Some?
    ensures var bodies := Blocks(lines, inCert, body).value;
      && (forall b | b in bodies :: Body(b))
      && (inCert ==> bodies != [])
      && (if inCert then [BEGIN] + body + lines else lines) == Render(bodies)
    decreases |lines|
  {
    if lines != [] {
      var bodies := Blocks(lines, inCert, body).value;
      assert lines == [lines[0]] + lines[1..];
      assert forall l | l in lines[1..] :: l in lines;
      if lines[0] == BEGIN && !inCert {
        RenderedBlocks(lines[1..], true, []);
      } else if lines[0] == END && inCert {
        RenderedBlocks(lines[1..], false, []);
        assert bodies[1..] == Blocks(lines[1..], false, []).value;
      } else {
        assert lines[0] in lines;
        RenderedBlocks(lines[1..], true, body + [lines[0]]);
        assert [BEGIN] + (body + [lines[0]]) + lines[1..] == [BEGIN] + body + lines;
      }
    }
  }

  // ---------------------------------------------------------------------
  // The strict validator
  // ---------------------------------------------------------------------

  predicate Approved(decode: string -> Option<Bytes>, sha: Bytes -> Digest, allowlist: seq<Digest>, body: seq<string>) {
    decode(Join(body)).Some? && sha(decode(Join(body)).value) in allowlist
  }

  /** The text is one or more certificate blocks and blank lines, and every certificate is approved. */
  ghost predicate StrictlyValid(decode: string -> Option<Bytes>, sha: Bytes -> Digest,
      allowlist: seq<Digest>, pem: string) {
    exists bodies: seq<seq<string>> ::
      && bodies != []
      && NonBlank(TrimAll(Lines(pem))) == Render(bodies)
      && forall b | b in bodies :: Body(b) && Approved(decode, sha, allowlist, b)
  }

  /** What the rest of the text must still be, for the validator to succeed. */
  ghost predicate RestValid(decode: string -> Option<Bytes>, sha: Bytes -> Digest, allowlist: seq<Digest>,
                            lines: seq<string>, inCert: bool, body: seq<string>, count: nat) {
    var rest := Blocks(NonBlank(lines), inCert, body);
    && rest.Some? && count + |rest.value| > 0
    && forall b | b in rest.value :: Approved(decode, sha, allowlist, b)
  }

  lemma NonBlankHasNoBlank(lines: seq<string>)
    ensures forall l | l in NonBlank(lines) :: l != ""
  {
  }

  lemma StrictMeaning(decode: string -> Option<Bytes>, sha: Bytes -> Digest, allowlist: seq<Digest>, pem: string)
    ensures StrictlyValid(decode, sha, allowlist, pem)
      <==> RestValid(decode, sha, allowlist, TrimAll(Lines(pem)), false, [], 0)
  {
    var lines := NonBlank(TrimAll(Lines(pem)));
    NonBlankHasNoBlank(TrimAll(Lines(pem)));
    if Blocks(lines, false, []).Some? {
      RenderedBlocks(lines, false, []);
    }
    forall bodies: seq<seq<string>> | lines == Render(bodies) && forall b | b in bodies :: Body(b)
      ensures Blocks(lines, false, []) == Some(bodies)
    {
      BlocksOfRendered(bodies);
    }
  }

  /** The validator's state after one line, or None when it stops with an error. */
  function StrictStep(line: string, inCert: bool, body: seq<string>): Option<(bool, seq<string>)> {
    if line == "" then Some((inCert, body))
    else if line == BEGIN && !inCert then Some((true, []))
    else if line == END && inCert then Some((false, []))
    else if inCert && !StartsWith(line, DASHES) then Some((true, body + [line]))
    else None
  }

  lemma RestValidAfterEnd(decode: string -> Option<Bytes>, sha: Bytes -> Digest, allowlist: seq<Digest>,
                          rest: seq<string>, body: seq<string>, count: nat)
    ensures RestValid(decode, sha, allowlist, [END] + rest, true, body, count)
      <==> Approved(decode, sha, allowlist, body) && RestValid(decode, sha, allowlist, rest, false, [], count + 1)
  {
    assert ([END] + rest)[1..] == rest;
    assert NonBlank([END] + rest) == [END] + NonBlank(rest);
    assert ([END] + NonBlank(rest))[1..] == NonBlank(rest);
    var after := Blocks(NonBlank(rest), false, []);
    if after.Some? {
      assert forall b | b in [body] + after.value :: b == body || b in after.value;
      assert ([body] + after.value)[0] == body;
      assert forall b | b in after.value :: b in [body] + after.value;
    }
  }

  lemma RestValidAfterLine(decode: string -> Option<Bytes>, sha: Bytes -> Digest, allowlist: seq<Digest>,
                           line: string, rest: seq<string>, inCert: bool, body: seq<string>, count: nat)
    requires !(line == END && inCert)
    ensures var next := StrictStep(line, inCert, body);
      RestValid(decode, sha, allowlist, [line] + rest, inCert, body, count)
      <==> next.Some? && RestValid(decode, sha, allowlist, rest, next.value.0, next.value.1, count)
  {
    assert ([line] + rest)[1..] == rest;
    if line != "" {
      assert NonBlank([line] + rest) == [line] + NonBlank(rest);
      assert ([line] + NonBlank(rest))[1..] == NonBlank(rest);
    }
  }

  lemma AfterBlank(decode: string -> Option<Bytes>, sha: Bytes -> Digest, allowlist: seq<Digest>,
                   rest: seq<string>, inCert: bool, body: seq<string>, count: nat)
    ensures RestValid(decode, sha, allowlist, [""] + rest, inCert, body, count)
      <==> RestValid(decode, sha, allowlist, rest, inCert, body, count)
  {
    RestValidAfterLine(decode, sha, allowlist, "", rest, inCert, body, count);
  }

  lemma AfterBegin(decode: string -> Option<Bytes>, sha: Bytes -> Digest, allowlist: seq<Digest>,
                   rest: seq<string>, body: seq<string>, count: nat)
    ensures RestValid(decode, sha, allowlist, [BEGIN] + rest, false, body, count)
      <==> RestValid(decode, sha, allowlist, rest, true, [], count)
  {
    RestValidAfterLine(decode, sha, allowlist, BEGIN, rest, false, body, count);
  }

  lemma AfterBodyLine(decode: string -> Option<Bytes>, sha: Bytes -> Digest, allowlist: seq<Digest>,
                      line: string, rest: seq<string>, body: seq<string>, count: nat)
    requires line != "" && line != END && !StartsWith(line, DASHES)
    ensures RestValid(decode, sha, allowlist, [line] + rest, true, body, count)
      <==> RestValid(decode, sha, allowlist, rest, true, body + [line], count)
  {
    RestValidAfterLine(decode, sha, allowlist, line, rest, true, body, count);
  }

  lemma AfterStrayLine(decode: string -> Option<Bytes>, sha: Bytes -> Digest, allowlist: seq<Digest>,
                       line: string, rest: seq<string>, inCert: bool, body: seq<string>, count: nat)
    requires StrictStep(line, inCert, body) == None
    ensures !RestValid(decode, sha, allowlist, [line] + rest, inCert, body, count)
  {
    RestValidAfterLine(decode, sha, allowlist, line, rest, inCert, body, count);
  }

  lemma FromHere(lines: seq<string>, i: nat)
    requires i < |lines|
    ensures lines[i..] == [lines[i]] + lines[i + 1..]
  {
  }

  lemma JoinAppend(body: seq<string>, line: string)
    ensures Join(body + [line]) == Join(body) + line
  {
    assert (body + [line])[..|body|] == body;
  }

  // What is wrong with a text

  /** Complete blocks, and one that is still open. */
  function Open(done: seq<seq<string>>, inCert: bool, body: seq<string>): seq<string> {
    Render(done) + if inCert then [BEGIN] + body else []
  }

  /** What is wrong with one line that comes after an open block or outside any. */
  function LineFault(decode: string -> Option<Bytes>, sha: Bytes -> Digest, allowlist: seq<Digest>, inCert: bool,
                     body: seq<string>, line: string): Option<PemError> {
    if inCert && line == END then
      if decode(Join(body)).None? then Some(InvalidBase64)
      else if sha(decode(Join(body)).value) !in allowlist then Some(NotAllowlisted)
      else None
    else if StrictStep(line, inCert, body).None? then Some(Malformed)
    else None
  }

  /** The text begins with approved blocks, and then this is wrong: a line that does not belong there, a block
      that does not decode or is not approved, or an end without a complete block. */
  ghost predicate FailsWith(decode: string -> Option<Bytes>, sha: Bytes -> Digest, allowlist: seq<Digest>,
                            lines: seq<string>, e: PemError) {
    exists done, inCert, body, rest :: FailsAfter(decode, sha, allowlist, lines, done, inCert, body, rest, e)
  }

  predicate FailsAfter(decode: string -> Option<Bytes>, sha: Bytes -> Digest, allowlist: seq<Digest>,
                       lines: seq<string>, done: seq<seq<string>>, inCert: bool, body: seq<string>,
                       rest: seq<string>, e: PemError) {
    && lines == Open(done, inCert, body) + rest
    && Body(body) && (forall b | b in done :: Body(b) && Approved(decode, sha, allowlist, b))
    && if rest == [] then e == NoCertificates && (inCert || done == [])
       else LineFault(decode, sha, allowlist, inCert, body, rest[0]) == Some(e)
  }

  lemma {:induction false} RenderAppend(done: seq<seq<string>>, body: seq<string>)
    ensures Render(done + [body]) == Render(done) + [BEGIN] + body + [END]
    decreases |done|
  {
    if done == [] {
      assert done + [body] == [body] && [body][1..] == [];
    } else {
      assert (done + [body])[1..] == done[1..] + [body];
      RenderAppend(done[1..], body);
    }
  }

  lemma {:induction false} NonBlankAppend(a: seq<string>, b: seq<string>)
    ensures NonBlank(a + b) == NonBlank(a) + NonBlank(b)
    decreases |a|
  {
    if a == [] {
      assert a + b == b;
    } else {
      assert (a + b)[1..] == a[1..] + b;
      NonBlankAppend(a[1..], b);
    }
  }

  /** The blocks so far, with one more line. */
  function DoneAfter(done: seq<seq<string>>, inCert: bool, body: seq<string>, line: string): seq<seq<string>> {
    if inCert && line == END then done + [body] else done
  }

  lemma OpenStep(done: seq<seq<string>>, inCert: bool, body: seq<string>, line: string)
    requires StrictStep(line, inCert, body).Some? && (!inCert ==> body == [])
    ensures var (now, more) := StrictStep(line, inCert, body).value;
      Open(done, inCert, body) + NonBlank([line]) == Open(DoneAfter(done, inCert, body, line), now, more)
  {
    assert NonBlank([line]) == if line == "" then [] else [line];
    RenderAppend(done, body);
  }

  /** A complete block must decode to an allowlisted certificate. */
  method CheckBlock(decode: string -> Option<Bytes>, sha: Bytes -> Digest, allowlist: seq<Digest>, encoded: string,
                    ghost body: seq<string>) returns (refused: Option<PemError>)
    requires encoded == Join(body)
    ensures refused.None? <==> Approved(decode, sha, allowlist, body)
    ensures refused == LineFault(decode, sha, allowlist, true, body, END)
  {
    var der := decode(encoded);
    if der.None? {
      return Some(InvalidBase64);
    }
    if sha(der.value) !in allowlist {
      return Some(NotAllowlisted);
    }
    refused := None;
  }

  /** One line of the validator's loop. */
  method TakeLine(decode: string -> Option<Bytes>, sha: Bytes -> Digest, allowlist: seq<Digest>, line: string,
                  inCert0: bool, encoded0: string, count0: nat, ghost body0: seq<string>, ghost after: seq<string>)
    returns (refused: Option<PemError>, inCert: bool, encoded: string, count: nat, ghost body: seq<string>)
    requires inCert0 ==> encoded0 == Join(body0)
    ensures inCert ==> encoded == Join(body)
    ensures RestValid(decode, sha, allowlist, [line] + after, inCert0, body0, count0)
      <==> refused.None? && RestValid(decode, sha, allowlist, after, inCert, body, count)
    ensures refused == LineFault(decode, sha, allowlist, inCert0, body0, line)
    ensures refused.None? ==> StrictStep(line, inCert0, body0) == Some((inCert, body))
    ensures count == count0 + if inCert0 && line == END then 1 else 0
  {
    refused, inCert, encoded, count, body := None, inCert0, encoded0, count0, body0;
    if line == "" {
      AfterBlank(decode, sha, allowlist, after, inCert, body, count);
    } else if line == BEGIN && !inCert {
      AfterBegin(decode, sha, allowlist, after, body, count);
      inCert, encoded, body := true, "", [];
    } else if line == END && inCert {
      RestValidAfterEnd(decode, sha, allowlist, after, body, count);
      refused := CheckBlock(decode, sha, allowlist, encoded, body);
      inCert, count, body := false, count + 1, [];
    } else if inCert && !StartsWith(line, DASHES) {
      AfterBodyLine(decode, sha, allowlist, line, after, body, count);
      JoinAppend(body, line);
      encoded, body := encoded + line, body + [line];
    } else {
      AfterStrayLine(decode, sha, allowlist, line, after, inCert, body, count);
      refused := Some(Malformed);
    }
  }

  /** What the loop has read: approved blocks, and perhaps the beginning of one more. */
  predicate SoFar(decode: string -> Option<Bytes>, sha: Bytes -> Digest, allowlist: seq<Digest>, read: seq<string>,
                  done: seq<seq<string>>, inCert: bool, body: seq<string>, count: nat) {
    && NonBlank(read) == Open(done, inCert, body) && |done| == count
    && Body(body) && (!inCert ==> body == [])
    && forall b | b in done :: Body(b) && Approved(decode, sha, allowlist, b)
  }

  lemma SoFarStep(decode: string -> Option<Bytes>, sha: Bytes -> Digest, allowlist: seq<Digest>, lines: seq<string>,
                  i: nat, done: seq<seq<string>>, inCert: bool, body: seq<string>) returns (more: seq<seq<string>>)
    requires i < |lines| && SoFar(decode, sha, allowlist, lines[..i], done, inCert, body, |done|)
    requires LineFault(decode, sha, allowlist, inCert, body, lines[i]).None?
    ensures var (now, open) := StrictStep(lines[i], inCert, body).value;
      SoFar(decode, sha, allowlist, lines[..i + 1], more, now, open,
            |done| + if inCert && lines[i] == END then 1 else 0)
  {
    assert lines[..i + 1] == lines[..i] + [lines[i]];
    NonBlankAppend(lines[..i], [lines[i]]);
    OpenStep(done, inCert, body, lines[i]);
    more := DoneAfter(done, inCert, body, lines[i]);
  }

  lemma NonBlankAt(lines: seq<string>, i: nat)
    requires i < |lines| && lines[i] != ""
    ensures NonBlank(lines) == NonBlank(lines[..i]) + ([lines[i]] + NonBlank(lines[i + 1..]))
  {
    assert lines == lines[..i] + lines[i..];
    NonBlankAppend(lines[..i], lines[i..]);
    assert lines[i..][1..] == lines[i + 1..];
  }

  lemma FailsHere(decode: string -> Option<Bytes>, sha: Bytes -> Digest, allowlist: seq<Digest>, lines: seq<string>,
                  i: nat, done: seq<seq<string>>, inCert: bool, body: seq<string>, e: PemError)
    requires i < |lines| && SoFar(decode, sha, allowlist, lines[..i], done, inCert, body, |done|)
    requires LineFault(decode, sha, allowlist, inCert, body, lines[i]) == Some(e)
    ensures FailsWith(decode, sha, allowlist, NonBlank(lines), e)
  {
    var rest := [lines[i]] + NonBlank(lines[i + 1..]);
    NonBlankAt(lines, i);
    assert FailsAfter(decode, sha, allowlist, NonBlank(lines), done, inCert, body, rest, e);
  }

  lemma FailsAtEnd(decode: string -> Option<Bytes>, sha: Bytes -> Digest, allowlist: seq<Digest>, lines: seq<string>,
                   done: seq<seq<string>>, inCert: bool, body: seq<string>)
    requires SoFar(decode, sha, allowlist, lines, done, inCert, body, |done|) && (inCert || done == [])
    ensures FailsWith(decode, sha, allowlist, NonBlank(lines), NoCertificates)
  {
    assert Open(done, inCert, body) + [] == Open(done, inCert, body);
    assert FailsAfter(decode, sha, allowlist, NonBlank(lines), done, inCert, body, [], NoCertificates);
  }

  // Only one thing is the first that is wrong

  function FirstFault(decode: string -> Option<Bytes>, sha: Bytes -> Digest, allowlist: seq<Digest>,
                      lines: seq<string>, inCert: bool, body: seq<string>, some: bool): Option<PemError> {
    if lines == [] then if inCert || !some then Some(NoCertificates) else None
    else
      var fault := LineFault(decode, sha, allowlist, inCert, body, lines[0]);
      if fault.Some? then fault
      else
        var (now, more) := StrictStep(lines[0], inCert, body).value;
        FirstFault(decode, sha, allowlist, lines[1..], now, more, some || (inCert && lines[0] == END))
  }

  lemma {:induction false} FaultAfterBody(decode: string -> Option<Bytes>, sha: Bytes -> Digest, allowlist: seq<Digest>,
                                          before: seq<string>, body: seq<string>, rest: seq<string>, some: bool)
    requires Body(body)
    ensures FirstFault(decode, sha, allowlist, body + rest, true, before, some)
         == FirstFault(decode, sha, allowlist, rest, true, before + body, some)
    decreases |body|
  {
    if body == [] {
      assert body + rest == rest && before + body == before;
    } else {
      assert BodyLine(body[0]);
      assert (body + rest)[1..] == body[1..] + rest;
      FaultAfterBody(decode, sha, allowlist, before + [body[0]], body[1..], rest, some);
      assert before + [body[0]] + body[1..] == before + body;
    }
  }

  lemma RenderFirst(done: seq<seq<string>>, rest: seq<string>)
    requires done != []
    ensures var after := done[0] + ([END] + (Render(done[1..]) + rest));
      Render(done) + rest == [BEGIN] + after && ([BEGIN] + after)[1..] == after
  {
    Regrouped([BEGIN], done[0], [END], Render(done[1..]), rest);
    var after := done[0] + ([END] + (Render(done[1..]) + rest));
    assert ([BEGIN] + after)[1..] == after;
  }

  lemma Regrouped(a: seq<string>, b: seq<string>, c: seq<string>, d: seq<string>, e: seq<string>)
    ensures a + b + c + d + e == a + (b + (c + (d + e)))
  {
  }

  lemma {:induction false} FaultAfterBlocks(decode: string -> Option<Bytes>, sha: Bytes -> Digest,
                                            allowlist: seq<Digest>, done: seq<seq<string>>, rest: seq<string>,
                                            some: bool)
    requires forall b | b in done :: Body(b) && Approved(decode, sha, allowlist, b)
    ensures FirstFault(decode, sha, allowlist, Render(done) + rest, false, [], some)
         == FirstFault(decode, sha, allowlist, rest, false, [], some || done != [])
    decreases |done|
  {
    if done == [] {
      assert Render(done) + rest == rest;
    } else {
      var after := Render(done[1..]) + rest;
      RenderFirst(done, rest);
      FaultAfterBody(decode, sha, allowlist, [], done[0], [END] + after, some);
      assert [] + done[0] == done[0] && ([END] + after)[1..] == after;
      assert Approved(decode, sha, allowlist, done[0]);
      FaultAfterBlocks(decode, sha, allowlist, done[1..], rest, true);
    }
  }

  lemma FaultIsFirst(decode: string -> Option<Bytes>, sha: Bytes -> Digest, allowlist: seq<Digest>,
                     lines: seq<string>, done: seq<seq<string>>, inCert: bool, body: seq<string>,
                     rest: seq<string>, e: PemError)
    requires FailsAfter(decode, sha, allowlist, lines, done, inCert, body, rest, e)
    ensures FirstFault(decode, sha, allowlist, lines, false, [], false) == Some(e)
  {
    var open := if inCert then [BEGIN] + (body + rest) else rest;
    assert lines == Render(done) + open;
    FaultAfterBlocks(decode, sha, allowlist, done, open, false);
    if inCert {
      assert open[1..] == body + rest;
      FaultAfterBody(decode, sha, allowlist, [], body, rest, done != []);
      assert [] + body == body;
    }
  }

  /** The first thing that is wrong with a text is one thing, and nothing is wrong with a valid one. */
  lemma FaultIsUnique(decode: string -> Option<Bytes>, sha: Bytes -> Digest, allowlist: seq<Digest>, pem: string,
                      a: PemError, b: PemError)
    requires FailsWith(decode, sha, allowlist, NonBlank(TrimAll(Lines(pem))), a)
    ensures FailsWith(decode, sha, allowlist, NonBlank(TrimAll(Lines(pem))), b) ==> a == b
    ensures !StrictlyValid(decode, sha, allowlist, pem)
  {
    var lines := NonBlank(TrimAll(Lines(pem)));
    var done, inCert, body, rest :| FailsAfter(decode, sha, allowlist, lines, done, inCert, body, rest, a);
    FaultIsFirst(decode, sha, allowlist, lines, done, inCert, body, rest, a);
    if FailsWith(decode, sha, allowlist, lines, b) {
      var done', inCert', body', rest' :| FailsAfter(decode, sha, allowlist, lines, done', inCert', body', rest', b);
      FaultIsFirst(decode, sha, allowlist, lines, done', inCert', body', rest', b);
    }
    if StrictlyValid(decode, sha, allowlist, pem) {
      var bodies := ValidBodies(decode, sha, allowlist, pem);
      assert Render(bodies) + [] == Render(bodies);
      FaultAfterBlocks(decode, sha, allowlist, bodies, [], false);
    }
  }

  /** The start-up validator: accepts exactly the strictly valid texts, and says of any other the first thing
      that is wrong with it. */
  method ValidateRootPem(decode: string -> Option<Bytes>, sha: Bytes -> Digest, allowlist: seq<Digest>, pem: string)
    returns (r: Result<(), PemError>)
    ensures r.Ok? <==> StrictlyValid(decode, sha, allowlist, pem)
    ensures r.Err? ==> FailsWith(decode, sha, allowlist, NonBlank(TrimAll(Lines(pem))), r.error)
  {
    var lines := Lines(pem);
    var encoded, inCert, count := "", false, 0;
    ghost var trimmed, body: seq<string>, done: seq<seq<string>> := TrimAll(lines), [], [];
    StrictMeaning(decode, sha, allowlist, pem);
    assert trimmed[0..] == trimmed;
    for i := 0 to |lines|
      invariant inCert ==> encoded == Join(body)
      invariant StrictlyValid(decode, sha, allowlist, pem)
        <==> RestValid(decode, sha, allowlist, trimmed[i..], inCert, body, count)
      invariant SoFar(decode, sha, allowlist, trimmed[..i], done, inCert, body, count)
    {
      var line := Trim(lines[i]);
      FromHere(trimmed, i);
      ghost var inCert0, body0 := inCert, body;
      var refused;
      refused, inCert, encoded, count, body :=
        TakeLine(decode, sha, allowlist, line, inCert, encoded, count, body, trimmed[i + 1..]);
      if refused.Some? {
        FailsHere(decode, sha, allowlist, trimmed, i, done, inCert0, body0, refused.value);
        return Err(refused.value);
      }
      done := SoFarStep(decode, sha, allowlist, trimmed, i, done, inCert0, body0);
    }
    assert trimmed[|lines|..] == [] && trimmed[..|lines|] == trimmed;
    if inCert || count == 0 {
      FailsAtEnd(decode, sha, allowlist, trimmed, done, inCert, body);
      return Err(NoCertificates);
    }
    r := Ok(());
  }

  // ---------------------------------------------------------------------
  // The lax loader
  // ---------------------------------------------------------------------

  /** What the loader collects from the trimmed lines that remain. */
  function LaxRoots(decode: string -> Option<Bytes>, lines: seq<string>,
      inCert: bool, encoded: string): Option<seq<Bytes>> {
    if lines == [] then Some([])
    else if lines[0] == BEGIN then LaxRoots(decode, lines[1..], true, "")
    else if lines[0] == END then
      if !inCert then LaxRoots(decode, lines[1..], false, encoded)
      else if decode(encoded).None? then None
      else match LaxRoots(decode, lines[1..], false, encoded)
        case None => None
        case Some(roots) => Some([decode(encoded).value] + roots)
    else LaxRoots(decode, lines[1..], inCert, if inCert then encoded + lines[0] else encoded)
  }

  function After(roots: seq<Bytes>, rest: Option<seq<Bytes>>): Option<seq<Bytes>> {
    if rest.None? then None else Some(roots + rest.value)
  }

  lemma AfterOne(roots: seq<Bytes>, der: Bytes, rest: Option<seq<Bytes>>)
    ensures After(roots, After([der], rest)) == After(roots + [der], rest)
  {
    if rest.Some? {
      assert roots + ([der] + rest.value) == roots + [der] + rest.value;
    }
  }

  lemma LaxStep(decode: string -> Option<Bytes>, line: string, rest: seq<string>, inCert: bool, encoded: string)
    ensures LaxRoots(decode, [line] + rest, inCert, encoded) ==
      if line == BEGIN then LaxRoots(decode, rest, true, "")
      else if line == END then
        if !inCert then LaxRoots(decode, rest, false, encoded)
        else if decode(encoded).None? then None
        else After([decode(encoded).value], LaxRoots(decode, rest, false, encoded))
      else LaxRoots(decode, rest, inCert, if inCert then encoded + line else encoded)
  {
    assert ([line] + rest)[1..] == rest;
  }

  lemma AfterNothing(roots: seq<Bytes>)
    ensures After(roots, Some([])) == Some(roots)
  {
    assert roots + [] == roots;
  }

  lemma NothingBefore(rest: Option<seq<Bytes>>)
    ensures After([], rest) == rest
  {
    if rest.Some? {
      assert [] + rest.value == rest.value;
    }
  }

  method FromPem(decode: string -> Option<Bytes>, pem: string) returns (r: Result<seq<Bytes>, PemError>)
    ensures var roots := LaxRoots(decode, TrimAll(Lines(pem)), false, "");
      r == if roots.None? then Err(InvalidBase64)
           else if roots.value == [] then Err(NoCertificates)
           else Ok(roots.value)
  {
    var trustedRoots: seq<Bytes> := [];
    var base64 := "";
    var inCert := false;
    var lines := Lines(pem);
    ghost var trimmed := TrimAll(lines);
    ghost var whole := LaxRoots(decode, trimmed, false, "");
    assert trimmed[0..] == trimmed;
    NothingBefore(whole);
    for i := 0 to |lines|
      invariant whole == After(trustedRoots, LaxRoots(decode, trimmed[i..], inCert, base64))
    {
      var line := Trim(lines[i]);
      ghost var after := trimmed[i + 1..];
      FromHere(trimmed, i);
      LaxStep(decode, line, after, inCert, base64);
      if line == BEGIN {
        inCert := true;
        base64 := "";
      } else if line == END {
        if inCert {
          var der := decode(base64);
          if der.None? {
            return Err(InvalidBase64);
          }
          AfterOne(trustedRoots, der.value, LaxRoots(decode, after, false, base64));
          trustedRoots := trustedRoots + [der.value];
          inCert := false;
        }
      } else if inCert {
        base64 := base64 + line;
      }
    }
    assert trimmed[|lines|..] == [];
    AfterNothing(trustedRoots);
    if trustedRoots == [] {
      return Err(NoCertificates);
    }
    r := Ok(trustedRoots);
  }

  // ---------------------------------------------------------------------
  // The two agree
  // ---------------------------------------------------------------------

  function DecodeAll(decode: string -> Option<Bytes>, bodies: seq<seq<string>>): (ders: seq<Bytes>)
    requires forall b | b in bodies :: decode(Join(b)).Some?
    ensures |ders| == |bodies|
    ensures forall i | 0 <= i < |bodies| :: Some(ders[i]) == decode(Join(bodies[i]))
  {
    if bodies == [] then [] else [decode(Join(bodies[0])).value] + DecodeAll(decode, bodies[1..])
  }

  lemma {:induction false} BlanksDoNotMatter(decode: string -> Option<Bytes>, lines: seq<string>,
      inCert: bool, encoded: string)
    ensures LaxRoots(decode, NonBlank(lines), inCert, encoded) == LaxRoots(decode, lines, inCert, encoded)
    decreases |lines|
  {
    if lines != [] {
      var rest := lines[1..];
      if lines[0] == "" {
        assert encoded + "" == encoded;
        BlanksDoNotMatter(decode, rest, inCert, encoded);
      } else {
        assert NonBlank(lines)[1..] == NonBlank(rest);
        BlanksDoNotMatter(decode, rest, true, "");
        BlanksDoNotMatter(decode, rest, false, encoded);
        BlanksDoNotMatter(decode, rest, inCert, if inCert then encoded + lines[0] else encoded);
      }
    }
  }

  lemma {:induction false} LaxBody(decode: string -> Option<Bytes>, body: seq<string>, before: seq<string>,
      rest: seq<string>)
    requires Body(body)
    ensures LaxRoots(decode, body + ([END] + rest), true, Join(before))
         == LaxRoots(decode, [END] + rest, true, Join(before + body))
    decreases |body|
  {
    if body == [] {
      assert body + ([END] + rest) == [END] + rest && before + body == before;
    } else {
      var lines := body + ([END] + rest);
      assert BodyLine(body[0]);
      assert lines[1..] == body[1..] + ([END] + rest);
      JoinAppend(before, body[0]);
      LaxBody(decode, body[1..], before + [body[0]], rest);
      assert before + [body[0]] + body[1..] == before + body;
    }
  }

  /** Outside a block the accumulated text is dead: the next block clears it. */
  lemma {:induction false} StaleTextDoesNotMatter(decode: string -> Option<Bytes>, lines: seq<string>, a: string,
      b: string)
    ensures LaxRoots(decode, lines, false, a) == LaxRoots(decode, lines, false, b)
    decreases |lines|
  {
    if lines != [] && lines[0] != BEGIN {
      StaleTextDoesNotMatter(decode, lines[1..], a, b);
    }
  }

  lemma {:induction false} LaxOfRendered(decode: string -> Option<Bytes>, bodies: seq<seq<string>>)
    requires forall b | b in bodies :: Body(b) && decode(Join(b)).Some?
    ensures LaxRoots(decode, Render(bodies), false, "") == Some(DecodeAll(decode, bodies))
    decreases |bodies|
  {
    if bodies != [] {
      var rest := Render(bodies[1..]);
      assert Render(bodies) == [BEGIN] + (bodies[0] + ([END] + rest));
      assert Render(bodies)[1..] == bodies[0] + ([END] + rest);
      LaxBody(decode, bodies[0], [], rest);
      assert [] + bodies[0] == bodies[0];
      assert ([END] + rest)[1..] == rest;
      StaleTextDoesNotMatter(decode, rest, Join(bodies[0]), "");
      LaxOfRendered(decode, bodies[1..]);
    }
  }

  /** Every text the strict validator accepts is accepted by the lax loader, which yields exactly the
      blocks' certificates in order: at least one, and all of them approved. */
  lemma StrictImpliesLax(decode: string -> Option<Bytes>, sha: Bytes -> Digest, allowlist: seq<Digest>, pem: string)
    returns (bodies: seq<seq<string>>)
    requires StrictlyValid(decode, sha, allowlist, pem)
    ensures bodies != [] && NonBlank(TrimAll(Lines(pem))) == Render(bodies)
    ensures forall b | b in bodies :: Body(b) && decode(Join(b)).Some?
    ensures LaxRoots(decode, TrimAll(Lines(pem)), false, "") == Some(DecodeAll(decode, bodies))
    ensures forall der | der in DecodeAll(decode, bodies) :: sha(der) in allowlist
  {
    bodies := ValidBodies(decode, sha, allowlist, pem);
    BlanksDoNotMatter(decode, TrimAll(Lines(pem)), false, "");
    LaxOfRendered(decode, bodies);
    ApprovedAll(decode, sha, allowlist, bodies);
  }

  lemma ApprovedAll(decode: string -> Option<Bytes>, sha: Bytes -> Digest,
      allowlist: seq<Digest>, bodies: seq<seq<string>>)
    requires forall b | b in bodies :: decode(Join(b)).Some? && Approved(decode, sha, allowlist, b)
    ensures forall der | der in DecodeAll(decode, bodies) :: sha(der) in allowlist
  {
    var ders := DecodeAll(decode, bodies);
    forall i | 0 <= i < |ders|
      ensures sha(ders[i]) in allowlist
    {
      assert Approved(decode, sha, allowlist, bodies[i]);
    }
  }

  lemma ValidBodies(decode: string -> Option<Bytes>, sha: Bytes -> Digest, allowlist: seq<Digest>, pem: string)
    returns (bodies: seq<seq<string>>)
    requires StrictlyValid(decode, sha, allowlist, pem)
    ensures bodies != [] && NonBlank(TrimAll(Lines(pem))) == Render(bodies)
    ensures forall b | b in bodies :: Body(b) && Approved(decode, sha, allowlist, b)
  {
    bodies :| bodies != [] && NonBlank(TrimAll(Lines(pem))) == Render(bodies)
      && forall b | b in bodies :: Body(b) && Approved(decode, sha, allowlist, b);
  }

  /** Start-up as the service does it: in a build for real hardware what was validated is what is trusted, in
      any other build the loader alone decides. */
  method LoadTrustedRoots(realHardware: bool, decode: string -> Option<Bytes>, sha: Bytes -> Digest,
                          allowlist: seq<Digest>, pem: string) returns (r: Result<seq<Bytes>, PemError>)
    ensures realHardware ==> (r.Ok? <==> StrictlyValid(decode, sha, allowlist, pem))
    ensures realHardware && r.Ok? ==> r.value != [] && forall der | der in r.value :: sha(der) in allowlist
    ensures realHardware && r.Err? ==> FailsWith(decode, sha, allowlist, NonBlank(TrimAll(Lines(pem))), r.error)
    ensures var roots := LaxRoots(decode, TrimAll(Lines(pem)), false, "");
      && (r.Ok? ==> roots == Some(r.value) && r.value != [])
      && (!realHardware ==> (r.Ok? <==> roots.Some? && roots.value != []))
  {
    if realHardware {
      var validated := ValidateRootPem(decode, sha, allowlist, pem);
      if validated.Err? {
        return Err(validated.error);
      }
      ghost var bodies := StrictImpliesLax(decode, sha, allowlist, pem);
    }
    r := FromPem(decode, pem);
  }

  // ---------------------------------------------------------------------
  // From the text to the certificates
  // ---------------------------------------------------------------------

  lemma {:induction false} JoinConcat(a: seq<string>, b: seq<string>)
    ensures Join(a + b) == Join(a) + Join(b)
    decreases |b|
  {
    if b == [] {
      assert a + b == a && Join(a) + "" == Join(a);
    } else {
      var n := |b| - 1;
      JoinConcat(a, b[..n]);
      JoinAppend(a + b[..n], b[n]);
      assert a + b == a + b[..n] + [b[n]];
      assert Join(b) == Join(b[..n]) + b[n];
    }
  }

  lemma JoinOne(line: string)
    ensures Join([line]) == line && Join([]) == ""
  {
    assert [line][..0] == [];
  }

  function BodyText(body: seq<string>): string {
    if body == [] then "" else body[0] + "\n" + BodyText(body[1..])
  }

  /** A PEM text with these blocks. */
  function PemText(bodies: seq<seq<string>>): string {
    if bodies == [] then ""
    else "-----BEGIN CERTIFICATE-----" + "\n" + (BodyText(bodies[0]) + ("-----END CERTIFICATE-----" + "\n"
                                                                         + PemText(bodies[1..])))
  }

  /** Base64 text as it is written: no blank lines, no white space around them, no line that looks like a marker. */
  predicate PlainBody(body: seq<string>) {
    forall l | l in body :: l != "" && IsTrimmed(l) && '\n' !in l && !(|l| >= 5 && l[..5] == "-----")
  }

  lemma PlainLine(line: string, rest: string)
    requires IsTrimmed(line) && '\n' !in line
    ensures Lines(line + "\n" + rest) == [line] + Lines(rest)
  {
    WhitespaceIs('\r');
    FirstLine(line, "\n", rest);
  }

  lemma MarkersArePlain()
    ensures IsTrimmed("-----BEGIN CERTIFICATE-----") && '\n' !in "-----BEGIN CERTIFICATE-----"
    ensures IsTrimmed("-----END CERTIFICATE-----") && '\n' !in "-----END CERTIFICATE-----"
  {
    WhitespaceIs('-');
  }

  lemma BodyTextStep(body: seq<string>, rest: string)
    requires body != []
    ensures BodyText(body) + rest == body[0] + "\n" + (BodyText(body[1..]) + rest)
  {
    Glued(body[0], "\n", BodyText(body[1..]), rest);
  }

  lemma Glued(a: string, b: string, c: string, d: string)
    ensures a + b + c + d == a + b + (c + d)
  {
  }

  lemma GluedBlock(begin: string, feed: string, body: string, end: string, after: string, rest: string)
    ensures begin + feed + (body + (end + feed + after)) + rest
         == begin + feed + (body + (end + feed + (after + rest)))
  {
  }

  lemma {:induction false} LinesOfBody(body: seq<string>, rest: string)
    requires PlainBody(body)
    ensures Lines(BodyText(body) + rest) == body + Lines(rest)
    decreases |body|
  {
    if body == [] {
      assert BodyText(body) + rest == rest && body + Lines(rest) == Lines(rest);
    } else {
      RestIsPlain(body);
      LinesOfBody(body[1..], rest);
      BodyTextStep(body, rest);
      PlainLine(body[0], BodyText(body[1..]) + rest);
      OneThenRest(body, Lines(rest));
    }
  }

  lemma RestIsPlain(body: seq<string>)
    requires PlainBody(body) && body != []
    ensures IsTrimmed(body[0]) && '\n' !in body[0] && PlainBody(body[1..])
  {
    assert body[0] in body;
  }

  lemma OneThenRest(body: seq<string>, more: seq<string>)
    requires body != []
    ensures [body[0]] + (body[1..] + more) == body + more
  {
  }

  lemma LinesOfBlock(body: seq<string>, after: string)
    requires PlainBody(body)
    ensures Lines(BEGIN + "\n" + (BodyText(body) + (END + "\n" + after)))
         == [BEGIN] + (body + ([END] + Lines(after)))
  {
    MarkersArePlain();
    PlainLine(BEGIN, BodyText(body) + (END + "\n" + after));
    LinesOfBody(body, END + "\n" + after);
    PlainLine(END, after);
  }

  /** Its lines are the markers and the bodies, and then those of what follows. */
  lemma {:induction false} LinesOfPem(bodies: seq<seq<string>>, rest: string)
    requires forall b | b in bodies :: PlainBody(b)
    ensures Lines(PemText(bodies) + rest) == Render(bodies) + Lines(rest)
    decreases |bodies|
  {
    if bodies == [] {
      assert PemText(bodies) + rest == rest && Render(bodies) + Lines(rest) == Lines(rest);
    } else {
      LinesOfPem(bodies[1..], rest);
      GluedBlock(BEGIN, "\n", BodyText(bodies[0]), END, PemText(bodies[1..]), rest);
      LinesOfBlock(bodies[0], PemText(bodies[1..]) + rest);
      RenderFirst(bodies, Lines(rest));
    }
  }

  lemma {:induction false} TrimAllTrimmed(lines: seq<string>)
    requires forall l | l in lines :: IsTrimmed(l) && l != ""
    ensures TrimAll(lines) == lines && NonBlank(lines) == lines
    decreases |lines|
  {
    if lines != [] {
      assert lines[0] in lines && lines == [lines[0]] + lines[1..];
      TrimOfTrimmed(lines[0]);
      TrimAllTrimmed(lines[1..]);
    }
  }

  lemma {:induction false} RenderedAreTrimmed(bodies: seq<seq<string>>)
    requires forall b | b in bodies :: PlainBody(b)
    ensures forall l | l in Render(bodies) :: IsTrimmed(l) && l != ""
    decreases |bodies|
  {
    if bodies != [] {
      MarkersArePlain();
      RenderedAreTrimmed(bodies[1..]);
      assert PlainBody(bodies[0]);
    }
  }

  lemma PemTextLines(bodies: seq<seq<string>>)
    requires forall b | b in bodies :: PlainBody(b)
    ensures TrimAll(Lines(PemText(bodies))) == Render(bodies)
    ensures NonBlank(TrimAll(Lines(PemText(bodies)))) == Render(bodies)
  {
    assert PemText(bodies) + "" == PemText(bodies) && Render(bodies) + [] == Render(bodies);
    LinesOfPem(bodies, "");
    RenderedAreTrimmed(bodies);
    TrimAllTrimmed(Render(bodies));
  }

  predicate ApprovedText(decode: string -> Option<Bytes>, sha: Bytes -> Digest, allowlist: seq<Digest>,
                         encoded: string) {
    decode(encoded).Some? && sha(decode(encoded).value) in allowlist
  }

  function BlockFault(decode: string -> Option<Bytes>, encoded: string): PemError {
    if decode(encoded).None? then InvalidBase64 else NotAllowlisted
  }

  lemma PlainIsBody(body: seq<string>)
    requires PlainBody(body)
    ensures Body(body)
  {
    forall l | l in body
      ensures BodyLine(l)
    {
      assert |DASHES| == 5;
    }
  }

  /** Of the texts that consist of blocks the validator accepts exactly those with at least one, all of whose
      certificates decode and are allowlisted; the loader reads these certificates, in order. */
  lemma PemTextIsValid(decode: string -> Option<Bytes>, sha: Bytes -> Digest, allowlist: seq<Digest>,
                       bodies: seq<seq<string>>)
    requires forall b | b in bodies :: PlainBody(b)
    ensures StrictlyValid(decode, sha, allowlist, PemText(bodies)) <==>
      bodies != [] && forall b | b in bodies :: ApprovedText(decode, sha, allowlist, Join(b))
  {
    PemTextLines(bodies);
    PlainAreBodies(bodies);
    if StrictlyValid(decode, sha, allowlist, PemText(bodies)) {
      var found := ValidBodies(decode, sha, allowlist, PemText(bodies));
      BlocksOfRendered(found);
      BlocksOfRendered(bodies);
    }
  }

  lemma PemTextLoads(decode: string -> Option<Bytes>, bodies: seq<seq<string>>)
    requires forall b | b in bodies :: PlainBody(b) && decode(Join(b)).Some?
    ensures LaxRoots(decode, TrimAll(Lines(PemText(bodies))), false, "") == Some(DecodeAll(decode, bodies))
  {
    PemTextLines(bodies);
    PlainAreBodies(bodies);
    LaxOfRendered(decode, bodies);
  }

  /** Start-up on such a text, in a build for real hardware. */
  method LoadPemText(decode: string -> Option<Bytes>, sha: Bytes -> Digest, allowlist: seq<Digest>,
                     bodies: seq<seq<string>>) returns (r: Result<seq<Bytes>, PemError>)
    requires forall b | b in bodies :: PlainBody(b)
    ensures r.Ok? <==> bodies != [] && forall b | b in bodies :: ApprovedText(decode, sha, allowlist, Join(b))
    ensures r.Ok? ==>
      |r.value| == |bodies| && forall i | 0 <= i < |bodies| :: Some(r.value[i]) == decode(Join(bodies[i]))
    ensures r.Err? ==>
      if bodies == [] then r.error == NoCertificates
      else exists i: nat ::
        FirstBad(decode, sha, allowlist, bodies, i) && r.error == BlockFault(decode, Join(bodies[i]))
  {
    PemTextIsValid(decode, sha, allowlist, bodies);
    r := LoadTrustedRoots(true, decode, sha, allowlist, PemText(bodies));
    if r.Ok? {
      PemTextLoads(decode, bodies);
    } else {
      PemTextFails(decode, sha, allowlist, bodies, r.error);
    }
  }

  /** Block i is the first that does not decode to an allowlisted certificate. */
  predicate FirstBad(decode: string -> Option<Bytes>, sha: Bytes -> Digest, allowlist: seq<Digest>,
                     bodies: seq<seq<string>>, i: nat) {
    && i < |bodies| && !ApprovedText(decode, sha, allowlist, Join(bodies[i]))
    && forall j | 0 <= j < i :: ApprovedText(decode, sha, allowlist, Join(bodies[j]))
  }

  lemma {:induction false} FirstUnapproved(decode: string -> Option<Bytes>, sha: Bytes -> Digest,
                                           allowlist: seq<Digest>, bodies: seq<seq<string>>) returns (i: nat)
    requires exists b | b in bodies :: !ApprovedText(decode, sha, allowlist, Join(b))
    ensures FirstBad(decode, sha, allowlist, bodies, i)
    decreases |bodies|
  {
    if !ApprovedText(decode, sha, allowlist, Join(bodies[0])) {
      i := 0;
    } else {
      assert bodies == [bodies[0]] + bodies[1..];
      var k := FirstUnapproved(decode, sha, allowlist, bodies[1..]);
      i := k + 1;
    }
  }

  lemma PemTextFails(decode: string -> Option<Bytes>, sha: Bytes -> Digest, allowlist: seq<Digest>,
                     bodies: seq<seq<string>>, e: PemError)
    requires forall b | b in bodies :: PlainBody(b)
    requires !StrictlyValid(decode, sha, allowlist, PemText(bodies))
    requires FailsWith(decode, sha, allowlist, NonBlank(TrimAll(Lines(PemText(bodies)))), e)
    ensures if bodies == [] then e == NoCertificates
            else exists i: nat ::
              FirstBad(decode, sha, allowlist, bodies, i) && e == BlockFault(decode, Join(bodies[i]))
  {
    if bodies == [] {
      NothingToRead(decode, sha, allowlist, e);
    } else {
      PemTextIsValid(decode, sha, allowlist, bodies);
      var i := FirstUnapproved(decode, sha, allowlist, bodies);
      FaultOfFirst(decode, sha, allowlist, bodies, i, e);
    }
  }

  lemma NothingToRead(decode: string -> Option<Bytes>, sha: Bytes -> Digest, allowlist: seq<Digest>, e: PemError)
    requires FailsWith(decode, sha, allowlist, NonBlank(TrimAll(Lines(PemText([])))), e)
    ensures e == NoCertificates
  {
    PemTextLines([]);
    assert FailsAfter(decode, sha, allowlist, Render([]), [], false, [], [], NoCertificates);
    FaultIsUnique(decode, sha, allowlist, PemText([]), e, NoCertificates);
  }

  lemma FaultOfFirst(decode: string -> Option<Bytes>, sha: Bytes -> Digest, allowlist: seq<Digest>,
                     bodies: seq<seq<string>>, i: nat, e: PemError)
    requires FirstBad(decode, sha, allowlist, bodies, i) && forall b | b in bodies :: PlainBody(b)
    requires FailsWith(decode, sha, allowlist, NonBlank(TrimAll(Lines(PemText(bodies)))), e)
    ensures e == BlockFault(decode, Join(bodies[i]))
  {
    PemTextLines(bodies);
    FaultOfBlock(decode, sha, allowlist, bodies, i, BlockFault(decode, Join(bodies[i])));
    FaultIsUnique(decode, sha, allowlist, PemText(bodies), e, BlockFault(decode, Join(bodies[i])));
  }

  lemma {:induction false} RenderConcat(a: seq<seq<string>>, b: seq<seq<string>>)
    ensures Render(a + b) == Render(a) + Render(b)
    decreases |a|
  {
    if a == [] {
      assert a + b == b;
    } else {
      assert (a + b)[1..] == a[1..] + b;
      RenderConcat(a[1..], b);
    }
  }

  lemma RenderAround(bodies: seq<seq<string>>, i: nat)
    requires i < |bodies|
    ensures Render(bodies) == Open(bodies[..i], true, bodies[i]) + ([END] + Render(bodies[i + 1..]))
  {
    CutAt(bodies, i);
    RenderConcat(bodies[..i], bodies[i..]);
    RenderFrom(bodies, i);
    Around(Render(bodies[..i]), [BEGIN], bodies[i], [END], Render(bodies[i + 1..]));
  }

  lemma CutAt(bodies: seq<seq<string>>, i: nat)
    requires i <= |bodies|
    ensures bodies == bodies[..i] + bodies[i..]
  {
  }

  lemma Around(before: seq<string>, begin: seq<string>, body: seq<string>, end: seq<string>, rest: seq<string>)
    ensures before + (begin + body + end + rest) == before + (begin + body) + (end + rest)
  {
  }

  lemma RenderFrom(bodies: seq<seq<string>>, i: nat)
    requires i < |bodies|
    ensures Render(bodies[i..]) == [BEGIN] + bodies[i] + [END] + Render(bodies[i + 1..])
  {
    assert bodies[i..] != [] && bodies[i..][0] == bodies[i] && bodies[i..][1..] == bodies[i + 1..];
  }

  lemma PlainAreBodies(bodies: seq<seq<string>>)
    requires forall b | b in bodies :: PlainBody(b)
    ensures forall b | b in bodies :: Body(b)
  {
    forall b | b in bodies
      ensures Body(b)
    {
      PlainIsBody(b);
    }
  }

  lemma ApprovedBefore(decode: string -> Option<Bytes>, sha: Bytes -> Digest, allowlist: seq<Digest>,
                       bodies: seq<seq<string>>, i: nat)
    requires i < |bodies| && forall b | b in bodies :: Body(b)
    requires forall j | 0 <= j < i :: ApprovedText(decode, sha, allowlist, Join(bodies[j]))
    ensures forall b | b in bodies[..i] :: Body(b) && Approved(decode, sha, allowlist, b)
  {
  }

  lemma FaultOfBlock(decode: string -> Option<Bytes>, sha: Bytes -> Digest, allowlist: seq<Digest>,
                     bodies: seq<seq<string>>, i: nat, fault: PemError)
    requires FirstBad(decode, sha, allowlist, bodies, i) && forall b | b in bodies :: PlainBody(b)
    requires fault == BlockFault(decode, Join(bodies[i]))
    ensures FailsWith(decode, sha, allowlist, Render(bodies), fault)
  {
    PlainAreBodies(bodies);
    RenderAround(bodies, i);
    ApprovedBefore(decode, sha, allowlist, bodies, i);
    assert bodies[i] in bodies;
    BadBlockFails(decode, sha, allowlist, bodies[..i], bodies[i], Render(bodies[i + 1..]), fault);
  }

  lemma EndFault(decode: string -> Option<Bytes>, sha: Bytes -> Digest, allowlist: seq<Digest>, body: seq<string>)
    requires !ApprovedText(decode, sha, allowlist, Join(body))
    ensures LineFault(decode, sha, allowlist, true, body, END) == Some(BlockFault(decode, Join(body)))
  {
  }

  lemma BadBlockFails(decode: string -> Option<Bytes>, sha: Bytes -> Digest, allowlist: seq<Digest>,
                      done: seq<seq<string>>, body: seq<string>, tail: seq<string>, fault: PemError)
    requires Body(body) && forall b | b in done :: Body(b) && Approved(decode, sha, allowlist, b)
    requires !ApprovedText(decode, sha, allowlist, Join(body)) && fault == BlockFault(decode, Join(body))
    ensures FailsWith(decode, sha, allowlist, Open(done, true, body) + ([END] + tail), fault)
  {
    EndFault(decode, sha, allowlist, body);
    var rest := [END] + tail;
    assert rest[0] == END;
    assert FailsAfter(decode, sha, allowlist, Open(done, true, body) + rest, done, true, body, rest, fault);
  }

  lemma {:induction false} TrimAllConcat(a: seq<string>, b: seq<string>)
    ensures TrimAll(a + b) == TrimAll(a) + TrimAll(b)
    decreases |a|
  {
    if a == [] {
      assert a + b == b && TrimAll(a) + TrimAll(b) == TrimAll(b);
    } else {
      assert (a + b)[1..] == a[1..] + b;
      TrimAllConcat(a[1..], b);
    }
  }

  /** A line between the blocks that does not begin one makes the text malformed, whatever comes after it. */
  lemma StrayLineIsMalformed(decode: string -> Option<Bytes>, sha: Bytes -> Digest, allowlist: seq<Digest>,
                             bodies: seq<seq<string>>, line: string, rest: string)
    requires forall b | b in bodies :: PlainBody(b) && ApprovedText(decode, sha, allowlist, Join(b))
    requires line != "" && IsTrimmed(line) && '\n' !in line && line != "-----BEGIN CERTIFICATE-----"
    ensures FailsWith(decode, sha, allowlist,
                      NonBlank(TrimAll(Lines(PemText(bodies) + (line + "\n" + rest)))), Malformed)
  {
    LinesOfPem(bodies, line + "\n" + rest);
    PlainLine(line, rest);
    StrayAfter(bodies, line, Lines(rest));
    StrayFails(decode, sha, allowlist, bodies, line, NonBlank(TrimAll(Lines(rest))));
  }

  lemma StrayAfter(bodies: seq<seq<string>>, line: string, lines: seq<string>)
    requires (forall b | b in bodies :: PlainBody(b)) && line != "" && IsTrimmed(line)
    ensures NonBlank(TrimAll(Render(bodies) + ([line] + lines))) == Render(bodies) + ([line] + NonBlank(TrimAll(lines)))
  {
    RenderedAreTrimmed(bodies);
    TrimAllTrimmed(Render(bodies));
    TrimAllTrimmed([line]);
    TrimAllConcat(Render(bodies), [line] + lines);
    TrimAllConcat([line], lines);
    NonBlankAppend(Render(bodies), [line] + TrimAll(lines));
    NonBlankAppend([line], TrimAll(lines));
  }

  lemma NothingOpen(bodies: seq<seq<string>>)
    ensures Open(bodies, false, []) == Render(bodies)
  {
  }

  lemma StrayFault(decode: string -> Option<Bytes>, sha: Bytes -> Digest, allowlist: seq<Digest>, line: string)
    requires line != "" && line != BEGIN
    ensures LineFault(decode, sha, allowlist, false, [], line) == Some(Malformed)
  {
  }

  lemma StrayFails(decode: string -> Option<Bytes>, sha: Bytes -> Digest, allowlist: seq<Digest>,
                   bodies: seq<seq<string>>, line: string, tail: seq<string>)
    requires forall b | b in bodies :: PlainBody(b) && ApprovedText(decode, sha, allowlist, Join(b))
    requires line != "" && line != BEGIN
    ensures FailsWith(decode, sha, allowlist, Render(bodies) + ([line] + tail), Malformed)
  {
    PlainAreBodies(bodies);
    var rest := [line] + tail;
    NothingOpen(bodies);
    StrayFault(decode, sha, allowlist, line);
    assert rest[0] == line;
    assert FailsAfter(decode, sha, allowlist, Render(bodies) + rest, bodies, false, [], rest, Malformed);
  }

  // ---------------------------------------------------------------------
  // What the loader overlooks
  // ---------------------------------------------------------------------

  lemma {:induction false} LaxOutside(decode: string -> Option<Bytes>, junk: seq<string>, rest: seq<string>,
                                      stale: string)
    requires "-----BEGIN CERTIFICATE-----" !in junk
    ensures LaxRoots(decode, junk + rest, false, stale) == LaxRoots(decode, rest, false, stale)
    decreases |junk|
  {
    if junk == [] {
      assert junk + rest == rest;
    } else {
      assert junk[0] in junk && (junk + rest)[1..] == junk[1..] + rest;
      LaxOutside(decode, junk[1..], rest, stale);
    }
  }

  lemma {:induction false} LaxInside(decode: string -> Option<Bytes>, body: seq<string>, before: seq<string>,
                                     rest: seq<string>)
    requires "-----BEGIN CERTIFICATE-----" !in body && "-----END CERTIFICATE-----" !in body
    ensures LaxRoots(decode, body + rest, true, Join(before)) == LaxRoots(decode, rest, true, Join(before + body))
    decreases |body|
  {
    if body == [] {
      assert body + rest == rest && before + body == before;
    } else {
      assert body[0] in body && (body + rest)[1..] == body[1..] + rest;
      JoinAppend(before, body[0]);
      LaxInside(decode, body[1..], before + [body[0]], rest);
      assert before + [body[0]] + body[1..] == before + body;
    }
  }

  lemma LaxMarkers(decode: string -> Option<Bytes>, rest: seq<string>, inCert: bool, encoded: string)
    ensures LaxRoots(decode, ["-----BEGIN CERTIFICATE-----"] + rest, inCert, encoded)
         == LaxRoots(decode, rest, true, "")
    ensures LaxRoots(decode, ["-----END CERTIFICATE-----"] + rest, true, encoded)
         == if decode(encoded).None? then None
            else After([decode(encoded).value], LaxRoots(decode, rest, false, encoded))
  {
    LaxStep(decode, BEGIN, rest, inCert, encoded);
    LaxStep(decode, END, rest, true, encoded);
  }

  /** Between blocks anything is overlooked; a block that is begun again starts afresh; in a block every line but the
      markers belongs to the certificate; a block without an end yields nothing. */
  lemma LaxReads(decode: string -> Option<Bytes>, junk: seq<string>, dropped: seq<string>, body: seq<string>,
                 rest: seq<string>, stale: string)
    requires "-----BEGIN CERTIFICATE-----" !in junk
    requires "-----BEGIN CERTIFICATE-----" !in dropped && "-----END CERTIFICATE-----" !in dropped
    requires "-----BEGIN CERTIFICATE-----" !in body && "-----END CERTIFICATE-----" !in body
    ensures LaxRoots(decode, junk + (["-----BEGIN CERTIFICATE-----"] + (dropped + (["-----BEGIN CERTIFICATE-----"]
                     + (body + (["-----END CERTIFICATE-----"] + rest))))), false, stale)
         == if decode(Join(body)).None? then None
            else After([decode(Join(body)).value], LaxRoots(decode, rest, false, ""))
    ensures LaxRoots(decode, junk + (["-----BEGIN CERTIFICATE-----"] + body), false, stale) == Some([])
  {
    var tail := body + ([END] + rest);
    LaxOutside(decode, junk, [BEGIN] + (dropped + ([BEGIN] + tail)), stale);
    LaxMarkers(decode, dropped + ([BEGIN] + tail), false, stale);
    LaxInside(decode, dropped, [], [BEGIN] + tail);
    LaxMarkers(decode, tail, true, Join([] + dropped));
    LaxInside(decode, body, [], [END] + rest);
    assert [] + body == body;
    LaxMarkers(decode, rest, true, Join(body));
    StaleTextDoesNotMatter(decode, rest, Join(body), "");
    LaxUnended(decode, junk, body, stale);
  }

  lemma LaxUnended(decode: string -> Option<Bytes>, junk: seq<string>, body: seq<string>, stale: string)
    requires "-----BEGIN CERTIFICATE-----" !in junk
    requires "-----BEGIN CERTIFICATE-----" !in body && "-----END CERTIFICATE-----" !in body
    ensures LaxRoots(decode, junk + (["-----BEGIN CERTIFICATE-----"] + body), false, stale) == Some([])
  {
    LaxOutside(decode, junk, [BEGIN] + body, stale);
    LaxMarkers(decode, body, false, stale);
    assert body + [] == body;
    LaxInside(decode, body, [], []);
  }
}
