/**
 The stateful receipt verifier: the long sequence of early returns, proved to refine the
 order-free policy, and the arithmetic on times.
 */
module ReceiptVerifier {
  import opened Types
  import opened ClaimCodec
  import opened Cose
  import opened VerificationPolicy

  type Answer = Result<VerificationResult, VerifyError>

  const DEFAULT_CONFIG: Config := Config(64 * 1024, 300, 300)

  function Failed(info: Option<ReceiptInfo>, checks: seq<Check>, name: CheckName, error: VerifyError): Answer {
    Ok(VerificationResult(false, info, checks + [Check(name, false)], false, Some(error)))
  }

  /** Everything before this requirement has been examined: all met and recorded, or one is the first
      to fail. */
  ghost predicate Examined(
    c: Call, st: ReplayState, next: Stage, checks: seq<Check>, out: Option<Answer>, failed: Stage) {
    match out
    case None => Before(c, st, next) && checks == Passed(next, st.Some?)
    case Some(answer) => FirstFailure(c, st, failed) && answer == AnswerAt(c, st.Some?, failed)
  }

  // ---------------------------------------------------------------------
  // The phases of verification
  // ---------------------------------------------------------------------

  /** Sizes and the envelope of the receipt. */
  method CheckEnvelope(c: Call, ghost st: ReplayState)
    returns (out: Option<Answer>, cose: CoseSign1, checks: seq<Check>, ghost failed: Stage)
    ensures Examined(c, st, ClaimsParse, checks, out, failed)
    ensures out.None? ==> CoseOf(c) == Some(cose) && cose.payload.Some?
  {
    checks, failed, cose := [], SizeLimit, CoseSign1(None, None, false, false, false, None, None, None, [], []);
    OrderOfSizes(st.Some?);
    SizeStages(c, st);
    NothingRecorded(st.Some?);
    if |c.receipt| > c.config.maxReceiptSize {
      return Some(Err(ReceiptTooLarge)), cose, checks, SizeLimit;
    }
    assert Before(c, st, PcrLength) && checks == Passed(PcrLength, st.Some?);
    if |c.pcr0| != 48 {
      return Some(Err(InvalidPcrLength)), cose, checks, PcrLength;
    }
    assert Before(c, st, ReceiptParses) && checks == Passed(ReceiptParses, st.Some?);
    var parsed := c.lib.parseCose(c.receipt);
    if parsed.None? {
      return Some(Failed(None, checks, ReceiptFormat, MalformedReceipt)), cose, checks, ReceiptParses;
    }
    cose := parsed.value;
    assert Before(c, st, AlgPresent) && checks == Passed(AlgPresent, st.Some?);
    var refused: Option<VerifyError>;
    refused, failed := CheckAlgorithm(c, st, cose);
    if refused.Some? {
      return Some(Err(refused.value)), cose, checks, failed;
    }
    refused, failed := CheckHeaders(c, st, cose);
    if refused.Some? {
      return Some(Err(refused.value)), cose, checks, failed;
    }
    checks := checks + [Check(ReceiptFormat, true)];
    OrderOfPayload(st.Some?);
    PayloadStage(c, st, cose);
    if cose.payload.None? {
      return Some(Failed(None, checks, ReceiptPayload, MalformedReceipt)), cose, checks, PayloadPresent;
    }
    out := None;
  }

  lemma NothingRecorded(stateful: bool)
    ensures Passed(SizeLimit, stateful) == [] && Passed(PcrLength, stateful) == []
    ensures Passed(ReceiptParses, stateful) == [] && Passed(AlgPresent, stateful) == []
  {
    OrderOfSizes(stateful);
    assert Passed(PcrLength, stateful) == Recorded(Passed(SizeLimit, stateful), None);
    assert Passed(ReceiptParses, stateful) == Recorded(Passed(PcrLength, stateful), None);
    assert Passed(AlgPresent, stateful) == Recorded(Passed(ReceiptParses, stateful), None);
  }

  lemma SizeStages(c: Call, st: ReplayState)
    ensures Holds(c, st, SizeLimit) <==> |c.receipt| <= c.config.maxReceiptSize
    ensures Holds(c, st, PcrLength) <==> |c.pcr0| == 48
    ensures Holds(c, st, ReceiptParses) <==> c.lib.parseCose(c.receipt).Some?
    ensures c.lib.parseCose(c.receipt).None? ==> Described(c) == None
  {
  }

  lemma PayloadStage(c: Call, st: ReplayState, cose: CoseSign1)
    requires CoseOf(c) == Some(cose)
    ensures Holds(c, st, PayloadPresent) <==> cose.payload.Some?
    ensures cose.payload.None? ==> Described(c) == None
  {
  }

  /** The algorithm; every failure aborts. */
  method CheckAlgorithm(c: Call, ghost st: ReplayState, cose: CoseSign1)
    returns (out: Option<VerifyError>, ghost failed: Stage)
    requires Before(c, st, AlgPresent) && CoseOf(c) == Some(cose)
    ensures out.None? ==> Before(c, st, NoCrit) && Passed(NoCrit, st.Some?) == Passed(AlgPresent, st.Some?)
    ensures out.Some? ==> FirstFailure(c, st, failed) && AnswerAt(c, st.Some?, failed) == Err(out.value)
  {
    failed := AlgPresent;
    OrderOfAlgorithm(st.Some?);
    AlgorithmStages(c, st, cose);
    if cose.protectedAlg.None? {
      return Some(InvalidProtectedHeader), AlgPresent;
    }
    assert Before(c, st, AlgIsEdDSA) && Passed(AlgIsEdDSA, st.Some?) == Passed(AlgPresent, st.Some?);
    if cose.protectedAlg.value != EdDSA {
      return Some(UnsupportedAlgorithm), AlgIsEdDSA;
    }
    assert Before(c, st, NoUnprotectedAlg) && Passed(NoUnprotectedAlg, st.Some?) == Passed(AlgPresent, st.Some?);
    if cose.unprotectedAlg.Some? {
      return Some(AlgorithmInUnprotectedHeader), NoUnprotectedAlg;
    }
    out := None;
  }

  lemma AlgorithmStages(c: Call, st: ReplayState, cose: CoseSign1)
    requires CoseOf(c) == Some(cose)
    ensures Holds(c, st, AlgPresent) <==> cose.protectedAlg.Some?
    ensures Holds(c, st, AlgIsEdDSA) <==> cose.protectedAlg == Some(EdDSA)
    ensures Holds(c, st, NoUnprotectedAlg) <==> cose.unprotectedAlg.None?
  {
  }

  /** The other headers; every failure aborts. */
  method CheckHeaders(c: Call, ghost st: ReplayState, cose: CoseSign1)
    returns (out: Option<VerifyError>, ghost failed: Stage)
    requires Before(c, st, NoCrit) && CoseOf(c) == Some(cose)
    ensures out.None? ==>
      Before(c, st, PayloadPresent)
      && Passed(PayloadPresent, st.Some?) == Passed(NoCrit, st.Some?) + [Check(ReceiptFormat, true)]
    ensures out.Some? ==> FirstFailure(c, st, failed) && AnswerAt(c, st.Some?, failed) == Err(out.value)
  {
    failed := NoCrit;
    OrderOfHeaders(st.Some?);
    HeaderStages(c, st, cose);
    if cose.protectedCrit || cose.unprotectedCrit {
      return Some(InvalidProtectedHeader), NoCrit;
    }
    assert Before(c, st, NoUnprotected) && Passed(NoUnprotected, st.Some?) == Passed(NoCrit, st.Some?);
    if !UnprotectedEmpty(cose) {
      return Some(InvalidProtectedHeader), NoUnprotected;
    }
    assert Before(c, st, ContentTypeOk) && Passed(ContentTypeOk, st.Some?) == Passed(NoCrit, st.Some?);
    if cose.protectedContentType != Some("application/cwt") || cose.unprotectedContentType.Some? {
      return Some(InvalidContentType), ContentTypeOk;
    }
    out := None;
  }

  lemma HeaderStages(c: Call, st: ReplayState, cose: CoseSign1)
    requires CoseOf(c) == Some(cose)
    ensures Holds(c, st, NoCrit) <==> !cose.protectedCrit && !cose.unprotectedCrit
    ensures Holds(c, st, NoUnprotected) <==> UnprotectedEmpty(cose)
    ensures Holds(c, st, ContentTypeOk)
      <==> cose.protectedContentType == Some("application/cwt") && cose.unprotectedContentType.None?
  {
  }

  /** The claims, their type and the receipt signature. */
  method CheckClaims(c: Call, ghost st: ReplayState, cose: CoseSign1, checks0: seq<Check>)
    returns (out: Option<Answer>, claims: VeriClaims, checks: seq<Check>, ghost failed: Stage)
    requires Before(c, st, ClaimsParse) && checks0 == Passed(ClaimsParse, st.Some?)
    requires CoseOf(c) == Some(cose) && cose.payload.Some?
    ensures Examined(c, st, ReportParses, checks, out, failed)
    ensures out.None? ==> ClaimsOf(c) == Some(claims)
  {
    checks, failed := checks0, ClaimsParse;
    OrderOfPayload(st.Some?);
    var parsed := c.lib.parseClaims(cose.payload.value);
    ClaimsStage(c, st, cose);
    if parsed.None? {
      claims := *;
      return Some(Failed(None, checks, ClaimsParsing, MalformedReceipt)), claims, checks, ClaimsParse;
    }
    claims := parsed.value;
    var info := Some(InfoOf(claims));
    SignatureStages(c, st, cose, claims);
    checks := checks + [Check(ClaimsParsing, true)];
    assert Before(c, st, TypeIsNitro) && checks == Passed(TypeIsNitro, st.Some?);
    if claims.attestationType != 3 {
      return Some(Failed(info, checks, AttestationType, UnsupportedAttestationType)), claims, checks, TypeIsNitro;
    }
    checks := checks + [Check(AttestationType, true)];
    assert Before(c, st, ReceiptSigned) && checks == Passed(ReceiptSigned, st.Some?);
    if !c.lib.ed25519(claims.enclavePubkey, cose.tbs, cose.signature) {
      return Some(Failed(info, checks, ReceiptSignature, InvalidCoseSignature)), claims, checks, ReceiptSigned;
    }
    checks := checks + [Check(ReceiptSignature, true)];
    out := None;
  }

  lemma ClaimsStage(c: Call, st: ReplayState, cose: CoseSign1)
    requires CoseOf(c) == Some(cose) && cose.payload.Some?
    ensures Holds(c, st, ClaimsParse) <==> c.lib.parseClaims(cose.payload.value).Some?
    ensures ClaimsOf(c) == c.lib.parseClaims(cose.payload.value)
    ensures ClaimsOf(c).None? ==> Described(c) == None
  {
  }

  lemma SignatureStages(c: Call, st: ReplayState, cose: CoseSign1, claims: VeriClaims)
    requires CoseOf(c) == Some(cose) && ClaimsOf(c) == Some(claims)
    ensures Holds(c, st, TypeIsNitro) <==> claims.attestationType == 3
    ensures Holds(c, st, ReceiptSigned) <==> c.lib.ed25519(claims.enclavePubkey, cose.tbs, cose.signature)
    ensures Described(c) == Some(InfoOf(claims))
  {
  }

  /** The roots are tried in order and the first success ends the search; an error is no success. */
  method SomeRootAttests(lib: Library, report: Bytes, roots: seq<Bytes>) returns (verified: bool)
    ensures verified <==> exists root :: root in roots && lib.attests(report, root) == Some(true)
  {
    verified := false;
    for i := 0 to |roots|
      invariant !verified
      invariant forall root | root in roots[..i] :: lib.attests(report, root) != Some(true)
    {
      if lib.attests(report, roots[i]) == Some(true) {
        return true;
      }
      assert roots[..i + 1] == roots[..i] + [roots[i]];
    }
    assert roots[..|roots|] == roots;
  }

  /** The attestation document and its chain. */
  method CheckAttestation(c: Call, ghost st: ReplayState, claims: VeriClaims, checks0: seq<Check>)
    returns (out: Option<Answer>, doc: AttestationDoc, checks: seq<Check>, ghost failed: Stage)
    requires Before(c, st, ReportParses) && checks0 == Passed(ReportParses, st.Some?) && ClaimsOf(c) == Some(claims)
    ensures Examined(c, st, ClockReadable, checks, out, failed)
    ensures out.None? ==> DocOf(c) == Some(doc)
  {
    checks, failed, doc := checks0, ReportParses, *;
    var info := Some(InfoOf(claims));
    OrderOfReport(st.Some?);
    ReportStages(c, st, claims);
    var report := c.lib.parseCose(claims.attestationReport);
    if report.None? {
      return Some(Failed(info, checks, AttestationFormat, InvalidAttestationDocument)), doc, checks, ReportParses;
    }
    assert Before(c, st, ReportPayload) && checks == Passed(ReportPayload, st.Some?);
    if report.value.payload.None? {
      return Some(Failed(info, checks, AttestationPayload, InvalidAttestationDocument)), doc, checks, ReportPayload;
    }
    assert Before(c, st, DocParses) && checks == Passed(DocParses, st.Some?);
    var parsed := c.lib.parseDoc(report.value.payload.value);
    if parsed.None? {
      return Some(Failed(info, checks, AttestationDocParsing, InvalidAttestationDocument)), doc, checks, DocParses;
    }
    doc := parsed.value;
    assert Before(c, st, ChainVerifies) && checks == Passed(ChainVerifies, st.Some?);
    var verifiedChain := SomeRootAttests(c.lib, claims.attestationReport, c.trustedRoots);
    if !verifiedChain {
      return Some(Failed(info, checks, AttestationSignatureAndChain, InvalidAttestationDocument)), doc, checks,
             ChainVerifies;
    }
    checks := checks + [Check(AttestationSignatureAndChain, true)];
    out := None;
  }

  lemma ReportStages(c: Call, st: ReplayState, claims: VeriClaims)
    requires ClaimsOf(c) == Some(claims)
    ensures var report := c.lib.parseCose(claims.attestationReport);
      && (Holds(c, st, ReportParses) <==> report.Some?)
      && (Holds(c, st, ReportPayload) <==> report.Some? && report.value.payload.Some?)
      && (report.Some? && report.value.payload.Some? ==> DocOf(c) == c.lib.parseDoc(report.value.payload.value))
    ensures Holds(c, st, DocParses) <==> DocOf(c).Some?
    ensures Holds(c, st, ChainVerifies)
      <==> exists root :: root in c.trustedRoots && c.lib.attests(claims.attestationReport, root) == Some(true)
    ensures Described(c) == Some(InfoOf(claims))
  {
  }

  /** Clock and document. No arithmetic here leaves the range of i64. */
  method CheckSkew(c: Call, ghost st: ReplayState, claims: VeriClaims, doc: AttestationDoc, checks0: seq<Check>)
    returns (out: Option<Answer>, now: i64, checks: seq<Check>, ghost failed: Stage)
    requires Before(c, st, ClockReadable) && checks0 == Passed(ClockReadable, st.Some?)
    requires ClaimsOf(c) == Some(claims) && DocOf(c) == Some(doc)
    ensures Examined(c, st, AgeComputable, checks, out, failed)
    ensures out.None? ==> c.clock == Some(now)
  {
    checks, failed, now := checks0, ClockReadable, 0;
    var info := Some(InfoOf(claims));
    OrderOfSkew(st.Some?);
    SkewStages(c, st, claims, doc);
    if c.clock.None? {
      return Some(Err(InvalidAttestationDocument)), now, checks, ClockReadable;
    }
    now := c.clock.value;
    assert Before(c, st, SkewComputable) && checks == Passed(SkewComputable, st.Some?);
    var skew := CheckedSub(now, DocSeconds(doc));
    if skew.None? {
      return Some(Err(InvalidTimestamp)), now, checks, SkewComputable;
    }
    assert Before(c, st, SkewWithin) && checks == Passed(SkewWithin, st.Some?);
    if Abs(skew.value) > c.config.maxClockSkew {
      return Some(Failed(info, checks, AttestationTimestampSkew, TimestampSkewExceeded)), now, checks, SkewWithin;
    }
    checks := checks + [Check(AttestationTimestampSkew, true)];
    out := None;
  }

  lemma SkewStages(c: Call, st: ReplayState, claims: VeriClaims, doc: AttestationDoc)
    requires ClaimsOf(c) == Some(claims) && DocOf(c) == Some(doc)
    ensures Holds(c, st, ClockReadable) <==> c.clock.Some?
    ensures c.clock.Some? ==>
      var skew := c.clock.value - DocSeconds(doc);
      && (Holds(c, st, SkewComputable) <==> I64_MIN <= skew <= I64_MAX)
      && (Holds(c, st, SkewWithin) <==> skew <= c.config.maxClockSkew && -skew <= c.config.maxClockSkew)
    ensures Described(c) == Some(InfoOf(claims))
  {
  }

  /** Clock and claims. */
  method CheckAge(c: Call, ghost st: ReplayState, claims: VeriClaims, now: i64, checks0: seq<Check>)
    returns (out: Option<Answer>, checks: seq<Check>, ghost failed: Stage)
    requires Before(c, st, AgeComputable) && checks0 == Passed(AgeComputable, st.Some?)
    requires ClaimsOf(c) == Some(claims) && c.clock == Some(now)
    ensures Examined(c, st, AlignmentComputable, checks, out, failed)
  {
    checks, failed := checks0, AgeComputable;
    OrderOfAge(st.Some?);
    AgeStages(c, st, claims, now);
    var receiptAge := CheckedSub(now, claims.attestationTimestamp);
    if receiptAge.None? {
      return Some(Err(InvalidTimestamp)), checks, AgeComputable;
    }
    assert Before(c, st, AgeWithin) && checks == Passed(AgeWithin, st.Some?);
    if receiptAge.value < 0 || receiptAge.value > c.config.maxReceiptAge {
      return Some(Err(ExpiredReceipt)), checks, AgeWithin;
    }
    checks := checks + [Check(ReceiptTimestampSkew, true)];
    out := None;
  }

  lemma AgeStages(c: Call, st: ReplayState, claims: VeriClaims, now: i64)
    requires ClaimsOf(c) == Some(claims) && c.clock == Some(now)
    ensures Holds(c, st, AgeComputable) <==> I64_MIN <= now - claims.attestationTimestamp <= I64_MAX
    ensures Holds(c, st, AgeWithin) <==> 0 <= now - claims.attestationTimestamp <= c.config.maxReceiptAge
  {
  }

  /** Document and claims. */
  method CheckAlignment(c: Call, ghost st: ReplayState, claims: VeriClaims, doc: AttestationDoc, checks0: seq<Check>)
    returns (out: Option<Answer>, checks: seq<Check>, ghost failed: Stage)
    requires Before(c, st, AlignmentComputable) && checks0 == Passed(AlignmentComputable, st.Some?)
    requires ClaimsOf(c) == Some(claims) && DocOf(c) == Some(doc)
    ensures Examined(c, st, PcrMatches, checks, out, failed)
  {
    checks, failed := checks0, AlignmentComputable;
    OrderOfAlignment(st.Some?);
    AlignmentStages(c, st, claims, doc);
    var alignment := CheckedSub(DocSeconds(doc), claims.attestationTimestamp);
    if alignment.None? {
      return Some(Err(InvalidTimestamp)), checks, AlignmentComputable;
    }
    assert Before(c, st, AlignmentWithin) && checks == Passed(AlignmentWithin, st.Some?);
    if Abs(alignment.value) > ALIGNMENT {
      return Some(Failed(Some(InfoOf(claims)), checks, TimestampAlignment, AttestationDocTimestampMismatch)), checks,
             AlignmentWithin;
    }
    checks := checks + [Check(TimestampAlignment, true)];
    out := None;
  }

  lemma AlignmentStages(c: Call, st: ReplayState, claims: VeriClaims, doc: AttestationDoc)
    requires ClaimsOf(c) == Some(claims) && DocOf(c) == Some(doc)
    ensures var alignment := DocSeconds(doc) - claims.attestationTimestamp;
      && (Holds(c, st, AlignmentComputable) <==> I64_MIN <= alignment <= I64_MAX)
      && (Holds(c, st, AlignmentWithin) <==> alignment <= ALIGNMENT && -alignment <= ALIGNMENT)
    ensures Described(c) == Some(InfoOf(claims))
  {
  }

  /** What the attestation document says about platform and key. */
  method CheckPlatform(c: Call, ghost st: ReplayState, claims: VeriClaims, doc: AttestationDoc, checks0: seq<Check>)
    returns (out: Option<Answer>, checks: seq<Check>, ghost failed: Stage)
    requires Before(c, st, PcrMatches) && checks0 == Passed(PcrMatches, st.Some?)
    requires ClaimsOf(c) == Some(claims) && DocOf(c) == Some(doc)
    ensures Examined(c, st, ReportDataBound, checks, out, failed)
  {
    checks, failed := checks0, PcrMatches;
    var info := Some(InfoOf(claims));
    OrderOfPlatform(st.Some?);
    PlatformStages(c, st, claims, doc);
    if 0 !in doc.pcrs {
      return Some(Failed(info, checks, Pcr0Check, PcrMismatch)), checks, PcrMatches;
    }
    if doc.pcrs[0] != c.pcr0 {
      return Some(Failed(info, checks, Pcr0Check, PcrMismatch)), checks, PcrMatches;
    }
    checks := checks + [Check(Pcr0Check, true)];
    assert Before(c, st, PubkeyBound) && checks == Passed(PubkeyBound, st.Some?);
    if doc.publicKey.None? {
      return Some(Failed(info, checks, PubkeyBinding, PubkeyBindingMismatch)), checks, PubkeyBound;
    }
    if doc.publicKey.value != claims.enclavePubkey {
      return Some(Failed(info, checks, PubkeyBinding, PubkeyBindingMismatch)), checks, PubkeyBound;
    }
    checks := checks + [Check(PubkeyBinding, true)];
    out := None;
  }

  lemma PlatformStages(c: Call, st: ReplayState, claims: VeriClaims, doc: AttestationDoc)
    requires ClaimsOf(c) == Some(claims) && DocOf(c) == Some(doc)
    ensures Holds(c, st, PcrMatches) <==> 0 in doc.pcrs && doc.pcrs[0] == c.pcr0
    ensures Holds(c, st, PubkeyBound) <==> doc.publicKey == Some(claims.enclavePubkey)
    ensures Described(c) == Some(InfoOf(claims))
  {
  }

  /** What the attestation document says about report data and nonce. */
  method CheckNonces(c: Call, ghost st: ReplayState, claims: VeriClaims, doc: AttestationDoc, checks0: seq<Check>)
    returns (out: Option<Answer>, checks: seq<Check>, ghost failed: Stage)
    requires Before(c, st, ReportDataBound) && checks0 == Passed(ReportDataBound, st.Some?)
    requires ClaimsOf(c) == Some(claims) && DocOf(c) == Some(doc)
    ensures Examined(c, st, ModelHashMatches, checks, out, failed)
  {
    checks, failed := checks0, ReportDataBound;
    var info := Some(InfoOf(claims));
    OrderOfNonces(st.Some?);
    NonceStages(c, st, claims, doc);
    if doc.userData.None? {
      return Some(Failed(info, checks, ReportDataBinding, ReportDataMismatch)), checks, ReportDataBound;
    }
    if doc.userData.value != ReportData(c.lib.sha512, claims.enclavePubkey) {
      return Some(Failed(info, checks, ReportDataBinding, ReportDataMismatch)), checks, ReportDataBound;
    }
    checks := checks + [Check(ReportDataBinding, true)];
    assert Before(c, st, NoncesMatch) && checks == Passed(NoncesMatch, st.Some?);
    if doc.nonce != Some(c.nonce) || claims.clientNonce != c.nonce {
      return Some(Failed(info, checks, NonceMatching, NonceMismatch)), checks, NoncesMatch;
    }
    checks := checks + [Check(NonceMatching, true)];
    out := None;
  }

  lemma NonceStages(c: Call, st: ReplayState, claims: VeriClaims, doc: AttestationDoc)
    requires ClaimsOf(c) == Some(claims) && DocOf(c) == Some(doc)
    ensures Holds(c, st, ReportDataBound) <==> doc.userData == Some(ReportData(c.lib.sha512, claims.enclavePubkey))
    ensures Holds(c, st, NoncesMatch) <==> doc.nonce == Some(c.nonce) && claims.clientNonce == c.nonce
    ensures Described(c) == Some(InfoOf(claims))
  {
  }

  method CheckHashes(c: Call, ghost st: ReplayState, claims: VeriClaims, checks0: seq<Check>)
    returns (out: Option<Answer>, checks: seq<Check>, ghost failed: Stage)
    requires Before(c, st, ModelHashMatches) && checks0 == Passed(ModelHashMatches, st.Some?)
    requires ClaimsOf(c) == Some(claims)
    ensures Examined(c, st, StateAvailable, checks, out, failed)
  {
    checks, failed := checks0, ModelHashMatches;
    var info := Some(InfoOf(claims));
    OrderOfHashes(st.Some?);
    HashStages(c, st, claims);
    if claims.modelHash != c.modelHash {
      return Some(Failed(info, checks, ModelHash, ModelHashMismatch)), checks, ModelHashMatches;
    }
    checks := checks + [Check(ModelHash, true)];
    assert Before(c, st, InputHashMatches) && checks == Passed(InputHashMatches, st.Some?);
    if claims.inputHash != c.inputHash {
      return Some(Failed(info, checks, InputHash, InputHashMismatch)), checks, InputHashMatches;
    }
    checks := checks + [Check(InputHash, true)];
    assert Before(c, st, OutputHashMatches) && checks == Passed(OutputHashMatches, st.Some?);
    if claims.outputHash != c.outputHash {
      return Some(Failed(info, checks, OutputHash, OutputHashMismatch)), checks, OutputHashMatches;
    }
    checks := checks + [Check(OutputHash, true)];
    out := None;
  }

  lemma HashStages(c: Call, st: ReplayState, claims: VeriClaims)
    requires ClaimsOf(c) == Some(claims)
    ensures Holds(c, st, ModelHashMatches) <==> claims.modelHash == c.modelHash
    ensures Holds(c, st, InputHashMatches) <==> claims.inputHash == c.inputHash
    ensures Holds(c, st, OutputHashMatches) <==> claims.outputHash == c.outputHash
    ensures Described(c) == Some(InfoOf(claims))
  {
  }

  // ---------------------------------------------------------------------
  // The verifier
  // ---------------------------------------------------------------------

  /** The replay state after a call: the sequence number of an accepted receipt is remembered. */
  ghost function StateAfter(c: Call, st: ReplayState): ReplayState {
    if Policy(c, st) && st.Some? then
      PolicyGivesDocAndClaims(c, st);
      Some(st.value[Fingerprint(c.lib, DocOf(c).value) := ClaimsOf(c).value.sequenceNum])
    else st
  }

  /** The answer to a call that meets the policy, or to one whose first failure is failed. */
  ghost predicate Answers(c: Call, st: ReplayState, r: Answer) {
    if Policy(c, st) then r == ValidAnswer(c, st.Some?)
    else exists failed: Stage :: FirstFailure(c, st, failed) && r == AnswerAt(c, st.Some?, failed)
  }

  lemma PolicyGivesDocAndClaims(c: Call, st: ReplayState)
    requires Policy(c, st)
    ensures DocOf(c).Some? && ClaimsOf(c).Some?
  {
    assert Holds(c, st, DocParses) && Holds(c, st, ClaimsParse);
  }

  lemma FailureAnswers(c: Call, st: ReplayState, failed: Stage)
    requires FirstFailure(c, st, failed)
    ensures !Policy(c, st) && Answers(c, st, AnswerAt(c, st.Some?, failed)) && StateAfter(c, st) == st
  {
    FirstFailureIsUnique(c, st, failed, failed);
  }

  lemma SequenceStages(c: Call, st: ReplayState, claims: VeriClaims, doc: AttestationDoc)
    requires ClaimsOf(c) == Some(claims) && DocOf(c) == Some(doc)
    ensures Holds(c, st, StateAvailable) <==> st.None? || c.stateAvailable
    ensures Holds(c, st, LAST)
      <==> (st.Some? && Fingerprint(c.lib, doc) in st.value ==> st.value[Fingerprint(c.lib, doc)] < claims.sequenceNum)
    ensures Described(c) == Some(InfoOf(claims))
  {
  }

  class Verifier {
    const lib: Library
    const trustedRoots: seq<Bytes>
    const hardware: bool
    const config: Config
    var state: ReplayState

    constructor (lib: Library, trustedRoots: seq<Bytes>, hardware: bool, stateful: bool, config: Config)
      ensures this.lib == lib && this.trustedRoots == trustedRoots
      ensures this.hardware == hardware && this.config == config
      ensures state == if stateful then Some(map[]) else None
    {
      this.lib, this.trustedRoots, this.hardware, this.config := lib, trustedRoots, hardware, config;
      state := if stateful then Some(map[]) else None;
    }

    /** Everything a call observes besides the replay state. */
    function CallOf(receipt: Bytes, modelHash: Digest, inputHash: Digest, outputHash: Digest, nonce: Digest,
                    pcr0: Bytes, clock: Option<Seconds>, stateAvailable: bool): Call {
      Call(lib, config, trustedRoots, hardware, receipt, modelHash, inputHash, outputHash, nonce, pcr0,
           clock, stateAvailable)
    }

    /** Sequence check and insertion, under the state's own mutex. */
    method CheckSequence(c: Call, claims: VeriClaims, doc: AttestationDoc, checks0: seq<Check>)
      returns (out: Option<Answer>, checks: seq<Check>, ghost failed: Stage)
      requires Before(c, state, StateAvailable) && checks0 == Passed(StateAvailable, state.Some?) && c.lib == lib
      requires ClaimsOf(c) == Some(claims) && DocOf(c) == Some(doc)
      modifies this`state
      ensures out.None? ==>
        Before(c, old(state), LAST) && Holds(c, old(state), LAST) && checks == AllPassed(old(state).Some?)
      ensures out.Some? ==>
        FirstFailure(c, old(state), failed) && out.value == AnswerAt(c, old(state).Some?, failed) && state == old(state)
      ensures out.None? ==>
        state == if old(state).Some? then Some(old(state).value[Fingerprint(lib, doc) := claims.sequenceNum]) else None
    {
      checks, failed := checks0, StateAvailable;
      OrderOfSequence(state.Some?);
      SequenceStages(c, state, claims, doc);
      if state.Some? {
        if !c.stateAvailable {
          return Some(Err(ReplayStateUnavailable)), checks, StateAvailable;
        }
        assert Before(c, state, LAST) && checks == Passed(LAST, true);
        var fp := Fingerprint(lib, doc);
        if fp in state.value && claims.sequenceNum <= state.value[fp] {
          return Some(Failed(Some(InfoOf(claims)), checks, SequenceCheck, SequenceNumberOutOfOrder)), checks, LAST;
        }
        state := Some(state.value[fp := claims.sequenceNum]);
        checks := checks + [Check(SequenceCheck, true)];
      }
      out := None;
    }

    /** The requirements up to the sequence check. */
    method CheckStateless(c: Call)
      returns (out: Option<Answer>, claims: VeriClaims, doc: AttestationDoc, checks: seq<Check>, ghost failed: Stage)
      ensures Examined(c, state, StateAvailable, checks, out, failed)
      ensures out.None? ==> ClaimsOf(c) == Some(claims) && DocOf(c) == Some(doc)
    {
      var cose: CoseSign1;
      var now: i64;
      claims, doc := *, *;
      out, cose, checks, failed := CheckEnvelope(c, state);
      if out.Some? {
        return;
      }
      out, claims, checks, failed := CheckClaims(c, state, cose, checks);
      if out.Some? {
        return;
      }
      out, doc, checks, failed := CheckAttestation(c, state, claims, checks);
      if out.Some? {
        return;
      }
      out, now, checks, failed := CheckSkew(c, state, claims, doc, checks);
      if out.Some? {
        return;
      }
      out, checks, failed := CheckAge(c, state, claims, now, checks);
      if out.Some? {
        return;
      }
      out, checks, failed := CheckAlignment(c, state, claims, doc, checks);
      if out.Some? {
        return;
      }
      out, checks, failed := CheckPlatform(c, state, claims, doc, checks);
      if out.Some? {
        return;
      }
      out, checks, failed := CheckNonces(c, state, claims, doc, checks);
      if out.Some? {
        return;
      }
      out, checks, failed := CheckHashes(c, state, claims, checks);
    }

    /** Valid exactly when the policy holds; otherwise the first failure is reported; only a valid
        receipt is remembered. */
    method Verify(receipt: Bytes, modelHash: Digest, inputHash: Digest, outputHash: Digest, nonce: Digest,
                  pcr0: Bytes, clock: Option<Seconds>, stateAvailable: bool) returns (r: Answer)
      modifies this`state
      ensures Answers(CallOf(receipt, modelHash, inputHash, outputHash, nonce, pcr0, clock, stateAvailable),
                      old(state), r)
      ensures state
        == StateAfter(CallOf(receipt, modelHash, inputHash, outputHash, nonce, pcr0, clock, stateAvailable), old(state))
    {
      var c := CallOf(receipt, modelHash, inputHash, outputHash, nonce, pcr0, clock, stateAvailable);
      ghost var before := state;
      var out, claims, doc, checks, failed := CheckStateless(c);
      if out.Some? {
        FailureAnswers(c, before, failed);
        return out.value;
      }
      out, checks, failed := CheckSequence(c, claims, doc, checks);
      if out.Some? {
        FailureAnswers(c, before, failed);
        return out.value;
      }
      PolicyIsOrderFree(c, before);
      r := Ok(VerificationResult(true, Some(InfoOf(claims)), checks, hardware, None));
    }

    /** A copy of the replay state; none when the verifier keeps none. */
    method GetState(stateAvailable: bool) returns (r: Result<ReplayState, VerifyError>)
      ensures r.Ok? <==> state.None? || stateAvailable
      ensures r.Ok? ==> r.value == state
      ensures r.Err? ==> r.error == ReplayStateUnavailable
    {
      if state.Some? && !stateAvailable {
        return Err(ReplayStateUnavailable);
      }
      r := Ok(state);
    }

    /** Replaces the replay state; a verifier that keeps none goes on keeping none. */
    method SetState(newState: map<Digest, u64>, stateAvailable: bool) returns (r: Result<(), VerifyError>)
      modifies this`state
      ensures r.Ok? <==> old(state).None? || stateAvailable
      ensures r.Err? ==> r.error == ReplayStateUnavailable
      ensures state == if old(state).Some? && stateAvailable then Some(newState) else old(state)
    {
      if state.Some? {
        if !stateAvailable {
          return Err(ReplayStateUnavailable);
        }
        state := Some(newState);
      }
      r := Ok(());
    }
  }

  // ---------------------------------------------------------------------
  // The answer
  // ---------------------------------------------------------------------

  /** An answer says valid exactly when the policy holds. */
  lemma ValidMeansPolicy(c: Call, st: ReplayState, r: Answer)
    requires Answers(c, st, r)
    ensures r.Ok? && r.value.valid <==> Policy(c, st)
  {
  }

  /** The name of a failed check tells which requirement was the first to fail. */
  lemma FailureNamesTheStage(s: Stage, t: Stage)
    requires FailureOf(s).Report? && FailureOf(t).Report? && FailureOf(s).name == FailureOf(t).name
    ensures s == t
  {
  }

  /** A prefix of the passed checks in canonical order, then one failed check that names the stage. */
  predicate NamesFailure(result: VerificationResult, stage: Stage, stateful: bool) {
    && FailureOf(stage).Report?
    && Passed(stage, stateful) <= AllPassed(stateful)
    && result.checks == Passed(stage, stateful) + [Check(FailureOf(stage).name, false)]
    && result.error == Some(FailureOf(stage).error)
  }

  lemma PassedWithinAll(stage: Stage, stateful: bool)
    ensures Passed(stage, stateful) <= AllPassed(stateful)
  {
    assert Rank(stage) <= Rank(LAST);
    PassedIsPrefix(stage, LAST, stateful);
    OrderOfSequence(stateful);
  }

  lemma AnswerNamesFailure(c: Call, stateful: bool, stage: Stage)
    requires AnswerAt(c, stateful, stage).Ok?
    ensures NamesFailure(AnswerAt(c, stateful, stage).value, stage, stateful)
  {
    PassedWithinAll(stage, stateful);
    var failure := FailureOf(stage);
    assert AnswerAt(c, stateful, stage).value.checks == Passed(stage, stateful) + [Check(failure.name, false)];
  }

  /** Results list the passed checks in canonical order, then at most one failed check, which names the
      first requirement that fails. */
  lemma ChecksArePassedPrefixThenFailure(c: Call, st: ReplayState, r: Answer)
    requires Answers(c, st, r) && r.Ok?
    ensures r.value.valid ==> r.value.checks == AllPassed(st.Some?) && r.value.error.None?
    ensures !r.value.valid ==>
      exists stage: Stage :: FirstFailure(c, st, stage) && NamesFailure(r.value, stage, st.Some?)
  {
    if !Policy(c, st) {
      var stage: Stage :| FirstFailure(c, st, stage) && r == AnswerAt(c, st.Some?, stage);
      AnswerNamesFailure(c, st.Some?, stage);
    }
  }

  /** Every check listed before a failed one passed. */
  lemma OnlyTheLastCheckFails(result: VerificationResult, stage: Stage, stateful: bool)
    requires NamesFailure(result, stage, stateful)
    ensures forall i | 0 <= i < |result.checks| :: result.checks[i].passed <==> i < |result.checks| - 1
  {
    PassedMeansPassed(stage, stateful);
    forall i | 0 <= i < |result.checks| - 1
      ensures result.checks[i].passed
    {
      assert result.checks[i] == Passed(stage, stateful)[i];
    }
  }

  // ---------------------------------------------------------------------
  // Headers
  // ---------------------------------------------------------------------

  /** The headers of receipts as the format document says they were first written: the content type in the
      unprotected header. */
  const LEGACY: CoseSign1 :=
    CoseSign1(Some(EdDSA), None, false, false, false, None, Some("application/cwt"), Some([]), [], [])

  /** The format document says such receipts are still accepted; whatever else they contain and whatever is
      remembered, the verifier refuses them. */
  lemma LegacyContentTypeIsRefused(c: Call, st: ReplayState)
    requires |c.receipt| <= c.config.maxReceiptSize && |c.pcr0| == 48
    requires CoseOf(c).Some?
             && CoseOf(c).value == LEGACY.(
                  payload := CoseOf(c).value.payload, signature := CoseOf(c).value.signature,
                  tbs := CoseOf(c).value.tbs)
    ensures FirstFailure(c, st, NoUnprotected) && !Policy(c, st)
    ensures AnswerAt(c, st.Some?, NoUnprotected) == Err(InvalidProtectedHeader)
  {
    BeforeHeaders(c, st);
    HeaderStages(c, st, CoseOf(c).value);
    OrderOfHeaders(st.Some?);
  }

  /** A readable receipt of the right size under EdDSA reaches the headers unless it names an algorithm
      in the unprotected header. */
  lemma BeforeHeaders(c: Call, st: ReplayState)
    requires |c.receipt| <= c.config.maxReceiptSize && |c.pcr0| == 48
    requires CoseOf(c).Some? && CoseOf(c).value.protectedAlg == Some(EdDSA)
    ensures Before(c, st, NoCrit) <==> CoseOf(c).value.unprotectedAlg.None?
  {
    OrderOfSizes(st.Some?);
    OrderOfAlgorithm(st.Some?);
    SizeStages(c, st);
    AlgorithmStages(c, st, CoseOf(c).value);
    assert Before(c, st, PcrLength);
    assert Before(c, st, ReceiptParses);
    assert Before(c, st, AlgPresent);
    assert Before(c, st, AlgIsEdDSA);
    assert Before(c, st, NoUnprotectedAlg);
  }

  /** And it gets past the headers exactly when nothing is critical, the unprotected header is empty, and
      the content type is in the protected one. */
  lemma PastHeadersExactlyWhen(c: Call, st: ReplayState)
    requires |c.receipt| <= c.config.maxReceiptSize && |c.pcr0| == 48
    requires CoseOf(c).Some? && CoseOf(c).value.protectedAlg == Some(EdDSA)
    ensures Before(c, st, PayloadPresent) <==>
      && !CoseOf(c).value.protectedCrit && !CoseOf(c).value.unprotectedCrit
      && UnprotectedEmpty(CoseOf(c).value)
      && CoseOf(c).value.protectedContentType == Some("application/cwt")
  {
    BeforeHeaders(c, st);
    HeaderStages(c, st, CoseOf(c).value);
    OrderOfHeaders(st.Some?);
    assert Before(c, st, NoUnprotected) <==> Before(c, st, NoCrit) && Holds(c, st, NoCrit);
    assert Before(c, st, ContentTypeOk) <==> Before(c, st, NoUnprotected) && Holds(c, st, NoUnprotected);
  }

  // ---------------------------------------------------------------------
  // Times
  // ---------------------------------------------------------------------

  const MAX_DOC_SECONDS: nat := U64_MAX / 1000

  /** The skew subtraction never overflows, and neither difference whose magnitude is taken is the
      one i64 without a magnitude. */
  lemma MagnitudesAreSafe(c: Call, st: ReplayState)
    requires c.clock.Some? && DocOf(c).Some?
    ensures Holds(c, st, SkewComputable) && c.clock.value - DocSeconds(DocOf(c).value) != I64_MIN
    ensures ClaimsOf(c).Some? ==> DocSeconds(DocOf(c).value) - ClaimsOf(c).value.attestationTimestamp != I64_MIN
  {
    assert 0 <= DocSeconds(DocOf(c).value) <= MAX_DOC_SECONDS;
  }

  /** A clock, document time and claim time that reach the alignment subtraction. */
  ghost predicate ReachesAlignment(config: Config, now: int, docSec: int, timestamp: int) {
    && 0 <= now <= I64_MAX && 0 <= docSec <= MAX_DOC_SECONDS && I64_MIN <= timestamp <= I64_MAX
    && DistanceWithin(now, docSec, config.maxClockSkew)
    && 0 <= now - timestamp <= config.maxReceiptAge
  }

  function Min(a: int, b: int): int { if a < b then a else b }

  /** The alignment subtraction can overflow exactly under a configuration that lets skew and age
      add up to more than an i64 holds. */
  lemma AlignmentOverflowsExactly(config: Config)
    ensures (exists now, docSec, timestamp ::
               ReachesAlignment(config, now, docSec, timestamp) && !(I64_MIN <= docSec - timestamp <= I64_MAX))
      <==> Min(config.maxClockSkew, MAX_DOC_SECONDS) + config.maxReceiptAge > I64_MAX
  {
    var ahead := Min(config.maxClockSkew, MAX_DOC_SECONDS);
    if ahead + config.maxReceiptAge > I64_MAX {
      assert ReachesAlignment(config, 0, ahead, -config.maxReceiptAge);
      assert ahead - (-config.maxReceiptAge) > I64_MAX;
    }
  }

  /** Under the default configuration it cannot. */
  lemma DefaultsNeverOverflow(now: int, docSec: int, timestamp: int)
    requires ReachesAlignment(DEFAULT_CONFIG, now, docSec, timestamp)
    ensures I64_MIN <= docSec - timestamp <= I64_MAX
  {
    AlignmentOverflowsExactly(DEFAULT_CONFIG);
  }

  /** How old and how far ahead the document of an accepted receipt can be. */
  lemma AcceptedTimes(c: Call, st: ReplayState)
    requires Policy(c, st)
    ensures c.clock.Some? && DocOf(c).Some? && ClaimsOf(c).Some?
    ensures DocSeconds(DocOf(c).value) - c.clock.value <= Min(c.config.maxClockSkew, ALIGNMENT)
    ensures c.clock.value - DocSeconds(DocOf(c).value) <= Min(c.config.maxClockSkew, c.config.maxReceiptAge + ALIGNMENT)
  {
    PolicyGivesDocAndClaims(c, st);
    assert Holds(c, st, SkewWithin) && Holds(c, st, AgeWithin) && Holds(c, st, AlignmentWithin);
  }

  /** No receipt is accepted twice in a row by a verifier that keeps state. */
  lemma AcceptedThenRefused(c: Call, again: Call, st: ReplayState)
    requires st.Some? && Policy(c, st)
    requires again.lib == c.lib && DocOf(again) == DocOf(c) && ClaimsOf(again) == ClaimsOf(c)
    ensures !Policy(again, StateAfter(c, st))
  {
    PolicyGivesDocAndClaims(c, st);
    assert !Holds(again, StateAfter(c, st), SequenceFresh);
  }
}
