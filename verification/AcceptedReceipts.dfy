/**
 What the verifier accepts and what the generator makes, spelled out down to the bytes: no statement here
 rests on the names the policy is written with.
 */
module AcceptedReceipts {
  import opened Types
  import opened ClaimCodec
  import opened Cose
  import opened VerificationPolicy
  import opened ReceiptVerifier
  import opened ReceiptGenerator

  // ---------------------------------------------------------------------
  // The key binding
  // ---------------------------------------------------------------------

  /** One byte 1, the seventeen letters "VeriAI-KeyBind-v1", and the 32 bytes of the key. */
  function BindingMessage(key: Digest): (m: Bytes)
    ensures |m| == 50 && m[0] == 1 && m[18..] == key
    ensures m[1..18] == [0x56, 0x65, 0x72, 0x69, 0x41, 0x49, 0x2D, 0x4B, 0x65, 0x79, 0x42, 0x69, 0x6E, 0x64, 0x2D,
                         0x76, 0x31]
  {
    var letters: Bytes := [0x56, 0x65, 0x72, 0x69, 0x41, 0x49, 0x2D, 0x4B, 0x65, 0x79, 0x42, 0x69, 0x6E, 0x64, 0x2D,
                         0x76, 0x31];
    var start: Bytes := [1];
    var bytes: Bytes := key;
    start + letters + bytes
  }

  lemma ReportDataIsBinding(sha512: Bytes -> Bytes, key: Digest)
    ensures ReportData(sha512, key) == sha512(BindingMessage(key))
  {
    var letters: Bytes := [0x56, 0x65, 0x72, 0x69, 0x41, 0x49, 0x2D, 0x4B, 0x65, 0x79, 0x42, 0x69, 0x6E, 0x64, 0x2D,
                         0x76, 0x31];
    assert Ascii(KEY_BIND) == letters;
  }

  /** Two keys with the same report data are a collision of SHA-512. */
  method KeysCollide(sha512: Bytes -> Bytes, a: Digest, b: Digest) returns (x: Bytes, y: Bytes)
    requires a != b && ReportData(sha512, a) == ReportData(sha512, b)
    ensures x != y && sha512(x) == sha512(y)
  {
    ReportDataIsBinding(sha512, a);
    ReportDataIsBinding(sha512, b);
    x, y := BindingMessage(a), BindingMessage(b);
    assert x[18..] == a && y[18..] == b;
  }

  /** What a call of the generator hands to the provider, and what its receipt consists of. */
  lemma ReturnedMeans(e: Enclave, x: Issued) returns (payload: Bytes)
    requires Returned(e, x)
    ensures x.attest(e.sha512(BindingMessage(e.publicKey)), x.i.clientNonce, e.publicKey) == Some(x.report)
    ensures e.writeMap([Entry(IntKey(6000), ByteList(x.i.modelHash)), Entry(IntKey(6001), ByteList(x.i.inputHash)),
                        Entry(IntKey(6002), ByteList(x.i.outputHash)), Entry(IntKey(6003), ByteList(x.i.clientNonce)),
                        Entry(IntKey(6004), Integer(x.sequenceNum)), Entry(IntKey(6005), ByteList(x.report)),
                        Entry(IntKey(6006), Integer(3)), Entry(IntKey(6007), Integer(x.made)),
                        Entry(IntKey(6011), Text(e.sdkVersion)), Entry(IntKey(6012), ByteList(e.publicKey))])
            == Some(payload)
    ensures e.writeCose(CoseSign1(Some(EdDSA), None, false, false, false, Some("application/cwt"), None, Some(payload),
                                  e.sign(e.toBeSigned(payload)), e.toBeSigned(payload)))
            == Some(x.receipt)
  {
    ReportDataIsBinding(e.sha512, e.publicKey);
    payload := e.writeMap(Serialize(IssuedClaims(e, x))).value;
  }

  // ---------------------------------------------------------------------
  // The identity of a platform
  // ---------------------------------------------------------------------

  lemma {:induction false} FlattenAppend(parts: seq<Bytes>, more: seq<Bytes>)
    ensures Flatten(parts + more) == Flatten(parts) + Flatten(more)
    decreases |parts|
  {
    if parts == [] {
      assert parts + more == more;
    } else {
      assert (parts + more)[1..] == parts[1..] + more;
      FlattenAppend(parts[1..], more);
    }
  }

  lemma FlattenOne(part: Bytes)
    ensures Flatten([part]) == part && Flatten([]) == []
  {
    assert [part][1..] == [];
  }

  /** The bytes of PCRs 0, 3 and 4, each empty when it is missing, the module, and the hash over the certificate and
      its bundle. */
  function IdentityMessage(sha256: Bytes -> Digest, doc: AttestationDoc): Bytes {
    var pcr0 := if 0 in doc.pcrs then doc.pcrs[0] else [];
    var pcr3 := if 3 in doc.pcrs then doc.pcrs[3] else [];
    var pcr4 := if 4 in doc.pcrs then doc.pcrs[4] else [];
    var certificates: Bytes := sha256(doc.certificate + Flatten(doc.cabundle));
    pcr0 + pcr3 + pcr4 + doc.moduleId + certificates
  }

  lemma FingerprintIsIdentity(lib: Library, doc: AttestationDoc)
    ensures Fingerprint(lib, doc) == lib.sha256(IdentityMessage(lib.sha256, doc))
  {
  }

  /** The five things an identity is made of. */
  predicate SamePlatform(a: AttestationDoc, b: AttestationDoc) {
    && (0 in a.pcrs && 0 in b.pcrs && a.pcrs[0] == b.pcrs[0])
    && (3 in a.pcrs && 3 in b.pcrs && a.pcrs[3] == b.pcrs[3])
    && (4 in a.pcrs && 4 in b.pcrs && a.pcrs[4] == b.pcrs[4])
    && a.moduleId == b.moduleId && a.certificate + Flatten(a.cabundle) == b.certificate + Flatten(b.cabundle)
  }

  predicate FullPcrs(doc: AttestationDoc) {
    && 0 in doc.pcrs && 3 in doc.pcrs && 4 in doc.pcrs
    && |doc.pcrs[0]| == 48 && |doc.pcrs[3]| == 48 && |doc.pcrs[4]| == 48
  }

  /** One platform has one identity, whatever the nonce, the key, the time and the other PCRs. */
  lemma SamePlatformSameFingerprint(lib: Library, a: AttestationDoc, b: AttestationDoc)
    requires SamePlatform(a, b)
    ensures Fingerprint(lib, a) == Fingerprint(lib, b)
  {
  }

  /** Two platforms with one identity are a collision of SHA-256. */
  method PlatformsCollide(lib: Library, a: AttestationDoc, b: AttestationDoc) returns (x: Bytes, y: Bytes)
    requires FullPcrs(a) && FullPcrs(b) && !SamePlatform(a, b) && Fingerprint(lib, a) == Fingerprint(lib, b)
    ensures x != y && lib.sha256(x) == lib.sha256(y)
  {
    FingerprintIsIdentity(lib, a);
    FingerprintIsIdentity(lib, b);
    x, y := IdentityMessage(lib.sha256, a), IdentityMessage(lib.sha256, b);
    if x == y {
      SameParts(lib.sha256, a, b);
      x, y := a.certificate + Flatten(a.cabundle), b.certificate + Flatten(b.cabundle);
    }
  }

  /** With PCRs of 48 bytes the parts of an identity can be told from their concatenation. */
  lemma SameParts(sha256: Bytes -> Digest, a: AttestationDoc, b: AttestationDoc)
    requires FullPcrs(a) && FullPcrs(b) && IdentityMessage(sha256, a) == IdentityMessage(sha256, b)
    ensures a.pcrs[0] == b.pcrs[0] && a.pcrs[3] == b.pcrs[3] && a.pcrs[4] == b.pcrs[4] && a.moduleId == b.moduleId
    ensures sha256(a.certificate + Flatten(a.cabundle)) == sha256(b.certificate + Flatten(b.cabundle))
  {
    PartsAt(sha256, a);
    PartsAt(sha256, b);
  }

  lemma PartsAt(sha256: Bytes -> Digest, doc: AttestationDoc)
    requires FullPcrs(doc)
    ensures var m := IdentityMessage(sha256, doc);
      && |m| == 176 + |doc.moduleId|
      && m[..48] == doc.pcrs[0] && m[48..96] == doc.pcrs[3] && m[96..144] == doc.pcrs[4]
      && m[144..|m| - 32] == doc.moduleId
      && m[|m| - 32..] == sha256(doc.certificate + Flatten(doc.cabundle))
  {
  }

  // ---------------------------------------------------------------------
  // The whole of acceptance
  // ---------------------------------------------------------------------

  /** The envelope and its claims. */
  predicate GenuineEnvelope(c: Call, cose: CoseSign1, claims: VeriClaims) {
    && |c.receipt| <= c.config.maxReceiptSize && c.lib.parseCose(c.receipt) == Some(cose)
    && cose.protectedAlg == Some(EdDSA) && cose.unprotectedAlg == None
    && !cose.protectedCrit && !cose.unprotectedCrit && !cose.unprotectedOther
    && cose.protectedContentType == Some("application/cwt") && cose.unprotectedContentType == None
    && cose.payload.Some? && c.lib.parseClaims(cose.payload.value) == Some(claims)
    && claims.attestationType == 3 && c.lib.ed25519(claims.enclavePubkey, cose.tbs, cose.signature)
  }

  /** The report and its document, and one trusted root that vouches for it. */
  predicate GenuineReport(c: Call, claims: VeriClaims, report: CoseSign1, doc: AttestationDoc) {
    && c.lib.parseCose(claims.attestationReport) == Some(report)
    && report.payload.Some? && c.lib.parseDoc(report.payload.value) == Some(doc)
    && exists root | root in c.trustedRoots :: c.lib.attests(claims.attestationReport, root) == Some(true)
  }

  /** Clock, document and claims agree on the time; the document's is in milliseconds. */
  predicate Timely(c: Call, claims: VeriClaims, doc: AttestationDoc, seconds: int) {
    && c.clock.Some? && 1000 * seconds <= doc.timestamp < 1000 * seconds + 1000
    && c.clock.value - seconds <= c.config.maxClockSkew && seconds - c.clock.value <= c.config.maxClockSkew
    && 0 <= c.clock.value - claims.attestationTimestamp <= c.config.maxReceiptAge
    && -5 <= seconds - claims.attestationTimestamp <= 5
  }

  /** The document binds what the caller asked about. */
  predicate Bound(c: Call, claims: VeriClaims, doc: AttestationDoc) {
    && |c.pcr0| == 48 && 0 in doc.pcrs && doc.pcrs[0] == c.pcr0
    && doc.publicKey == Some(claims.enclavePubkey)
    && doc.userData == Some(c.lib.sha512(BindingMessage(claims.enclavePubkey)))
    && doc.nonce == Some(c.nonce) && claims.clientNonce == c.nonce
    && claims.modelHash == c.modelHash && claims.inputHash == c.inputHash && claims.outputHash == c.outputHash
  }

  /** The number exceeds the one that is remembered of the platform. */
  predicate Fresh(c: Call, st: ReplayState, claims: VeriClaims, doc: AttestationDoc) {
    st.Some? ==>
      && c.stateAvailable
      && var fp := c.lib.sha256(IdentityMessage(c.lib.sha256, doc));
         fp in st.value ==> st.value[fp] < claims.sequenceNum
  }

  ghost predicate Genuine(c: Call, st: ReplayState, cose: CoseSign1, claims: VeriClaims, report: CoseSign1,
                          doc: AttestationDoc, seconds: int) {
    && GenuineEnvelope(c, cose, claims) && GenuineReport(c, claims, report, doc)
    && Timely(c, claims, doc, seconds) && Bound(c, claims, doc) && Fresh(c, st, claims, doc)
  }

  lemma EnvelopeIsGenuine(c: Call, st: ReplayState, cose: CoseSign1, claims: VeriClaims)
    requires CoseOf(c) == Some(cose) && ClaimsOf(c) == Some(claims)
    ensures var h := Requirements(c, st);
      h(SizeLimit) && EnvelopeOk(h) && ClaimsOk(h) <==> |c.pcr0| == 48 && GenuineEnvelope(c, cose, claims)
  {
    SizeStages(c, st);
    AlgorithmStages(c, st, cose);
    HeaderStages(c, st, cose);
    PayloadStage(c, st, cose);
    ClaimsStage(c, st, cose);
    SignatureStages(c, st, cose, claims);
  }

  lemma ReportIsGenuine(c: Call, st: ReplayState, claims: VeriClaims, report: CoseSign1, doc: AttestationDoc)
    requires ClaimsOf(c) == Some(claims) && ReportOf(c) == Some(report) && DocOf(c) == Some(doc)
    ensures ReportOk(Requirements(c, st)) <==> GenuineReport(c, claims, report, doc)
  {
    ReportStages(c, st, claims);
  }

  lemma TimesAreTimely(c: Call, st: ReplayState, claims: VeriClaims, doc: AttestationDoc)
    requires ClaimsOf(c) == Some(claims) && DocOf(c) == Some(doc)
    ensures TimesOk(Requirements(c, st)) <==> Timely(c, claims, doc, doc.timestamp / 1000)
  {
    TimesMet(c, st, claims, doc);
  }

  lemma BindingsAreBound(c: Call, st: ReplayState, claims: VeriClaims, doc: AttestationDoc)
    requires ClaimsOf(c) == Some(claims) && DocOf(c) == Some(doc) && |c.pcr0| == 48
    ensures BindingsOk(Requirements(c, st)) <==> Bound(c, claims, doc)
  {
    ReportDataIsBinding(c.lib.sha512, claims.enclavePubkey);
    PlatformStages(c, st, claims, doc);
    NonceStages(c, st, claims, doc);
    HashStages(c, st, claims);
  }

  lemma SequenceIsFresh(c: Call, st: ReplayState, claims: VeriClaims, doc: AttestationDoc)
    requires ClaimsOf(c) == Some(claims) && DocOf(c) == Some(doc)
    ensures var h := Requirements(c, st);
      h(StateAvailable) && h(SequenceFresh) <==> Fresh(c, st, claims, doc)
  {
    FingerprintIsIdentity(c.lib, doc);
    SequenceStages(c, st, claims, doc);
  }

  lemma SeenParts(c: Call, st: ReplayState)
    ensures Policy(c, st) ==> CoseOf(c).Some? && ClaimsOf(c).Some? && ReportOf(c).Some? && DocOf(c).Some?
    ensures forall cose, claims | GenuineEnvelope(c, cose, claims) ::
      CoseOf(c) == Some(cose) && ClaimsOf(c) == Some(claims)
    ensures forall claims, report, doc | ClaimsOf(c) == Some(claims) && GenuineReport(c, claims, report, doc) ::
      ReportOf(c) == Some(report) && DocOf(c) == Some(doc)
  {
    if Policy(c, st) {
      PolicyGivesDocAndClaims(c, st);
    }
  }

  lemma GenuineWhenSeen(c: Call, st: ReplayState, cose: CoseSign1, claims: VeriClaims, report: CoseSign1,
                        doc: AttestationDoc)
    requires CoseOf(c) == Some(cose) && ClaimsOf(c) == Some(claims) && ReportOf(c) == Some(report)
    requires DocOf(c) == Some(doc)
    ensures Policy(c, st) <==> Genuine(c, st, cose, claims, report, doc, doc.timestamp / 1000)
  {
    EnvelopeIsGenuine(c, st, cose, claims);
    ReportIsGenuine(c, st, claims, report, doc);
    TimesAreTimely(c, st, claims, doc);
    if |c.pcr0| == 48 {
      BindingsAreBound(c, st, claims, doc);
    }
    SequenceIsFresh(c, st, claims, doc);
    EveryStage(Requirements(c, st));
    PolicyIsEveryRequirement(c, st);
  }

  /** A receipt meets the policy exactly when all of this can be read out of it. */
  lemma PolicyMeans(c: Call, st: ReplayState)
    ensures Policy(c, st) <==>
      exists cose, claims, report, doc, seconds :: Genuine(c, st, cose, claims, report, doc, seconds)
  {
    SeenParts(c, st);
    if Policy(c, st) {
      GenuineWhenSeen(c, st, CoseOf(c).value, ClaimsOf(c).value, ReportOf(c).value, DocOf(c).value);
    }
    forall cose, claims, report, doc, seconds | Genuine(c, st, cose, claims, report, doc, seconds)
      ensures Policy(c, st)
    {
      assert seconds == doc.timestamp / 1000;
      GenuineWhenSeen(c, st, cose, claims, report, doc);
    }
  }

  // ---------------------------------------------------------------------
  // The answer to an accepted receipt
  // ---------------------------------------------------------------------

  /** What follows the last slash of the identifier, or "1" where there is none. */
  ghost predicate IsVersion(sdkVersion: string, version: string) {
    if '/' in sdkVersion then '/' !in version && exists before :: sdkVersion == before + "/" + version
    else version == "1"
  }

  lemma VersionOfClaims(sdkVersion: string)
    ensures IsVersion(sdkVersion, ClaimsVersion(sdkVersion))
  {
    if '/' in sdkVersion {
      var version := AfterLastSlash(sdkVersion);
      AfterLastSlashMeaning(sdkVersion);
      var n := |sdkVersion| - |version|;
      assert sdkVersion == sdkVersion[..n - 1] + "/" + version;
    }
  }

  lemma LaterSlash(before: string, a: string, other: string, b: string)
    requires before + "/" + a == other + "/" + b && |before| < |other|
    ensures '/' in a
  {
    assert (other + "/" + b)[|other|] == '/';
    assert (before + "/" + a)[|other|] == a[|other| - |before| - 1];
  }

  lemma VersionIsUnique(sdkVersion: string, a: string, b: string)
    requires IsVersion(sdkVersion, a) && IsVersion(sdkVersion, b)
    ensures a == b
  {
    if '/' in sdkVersion {
      var before :| sdkVersion == before + "/" + a;
      var other :| sdkVersion == other + "/" + b;
      if |before| < |other| {
        LaterSlash(before, a, other, b);
      } else if |other| < |before| {
        LaterSlash(other, b, before, a);
      }
      assert a == sdkVersion[|before| + 1..] && b == sdkVersion[|other| + 1..];
    }
  }

  /** The checks of an accepted receipt. */
  function CheckList(stateful: bool): seq<Check> {
    [Check(ReceiptFormat, true), Check(ClaimsParsing, true), Check(CheckName.AttestationType, true),
     Check(ReceiptSignature, true)]
    + [Check(AttestationSignatureAndChain, true), Check(AttestationTimestampSkew, true),
       Check(ReceiptTimestampSkew, true), Check(TimestampAlignment, true)]
    + [Check(Pcr0Check, true), Check(PubkeyBinding, true), Check(ReportDataBinding, true), Check(NonceMatching, true)]
    + [Check(CheckName.ModelHash, true), Check(CheckName.InputHash, true), Check(CheckName.OutputHash, true)]
    + if stateful then [Check(SequenceCheck, true)] else []
  }

  /** A requirement that leaves no trace, and one that does. */
  lemma Silent(stage: Stage, next: Stage, stateful: bool)
    requires !next.SizeLimit? && Previous(next) == stage && Trace(stage, stateful).None?
    ensures Passed(next, stateful) == Passed(stage, stateful)
  {
  }

  lemma Traced(stage: Stage, next: Stage, stateful: bool, name: CheckName)
    requires !next.SizeLimit? && Previous(next) == stage && Trace(stage, stateful) == Some(name)
    ensures Passed(next, stateful) == Passed(stage, stateful) + [Check(name, true)]
  {
  }

  lemma PassedBeforeReport(stateful: bool)
    ensures Passed(ReportParses, stateful)
         == [Check(ReceiptFormat, true), Check(ClaimsParsing, true), Check(CheckName.AttestationType, true),
             Check(ReceiptSignature, true)]
  {
    NothingRecorded(stateful);
    OrderOfAlgorithm(stateful);
    OrderOfHeaders(stateful);
    OrderOfPayload(stateful);
    Silent(AlgPresent, AlgIsEdDSA, stateful);
    Silent(AlgIsEdDSA, NoUnprotectedAlg, stateful);
    Silent(NoUnprotectedAlg, NoCrit, stateful);
    Silent(NoCrit, NoUnprotected, stateful);
    Silent(NoUnprotected, ContentTypeOk, stateful);
    Traced(ContentTypeOk, PayloadPresent, stateful, ReceiptFormat);
    Silent(PayloadPresent, ClaimsParse, stateful);
    Traced(ClaimsParse, TypeIsNitro, stateful, ClaimsParsing);
    Traced(TypeIsNitro, ReceiptSigned, stateful, CheckName.AttestationType);
    Traced(ReceiptSigned, ReportParses, stateful, ReceiptSignature);
  }

  lemma PassedOnReport(stateful: bool)
    ensures Passed(AgeComputable, stateful)
         == Passed(ReportParses, stateful)
            + [Check(AttestationSignatureAndChain, true), Check(AttestationTimestampSkew, true)]
  {
    OrderOfReport(stateful);
    OrderOfSkew(stateful);
    Silent(ReportParses, ReportPayload, stateful);
    Silent(ReportPayload, DocParses, stateful);
    Silent(DocParses, ChainVerifies, stateful);
    Traced(ChainVerifies, ClockReadable, stateful, AttestationSignatureAndChain);
    Silent(ClockReadable, SkewComputable, stateful);
    Silent(SkewComputable, SkewWithin, stateful);
    Traced(SkewWithin, AgeComputable, stateful, AttestationTimestampSkew);
  }

  lemma PassedOnTimes(stateful: bool)
    ensures Passed(PcrMatches, stateful)
         == Passed(AgeComputable, stateful) + [Check(ReceiptTimestampSkew, true), Check(TimestampAlignment, true)]
  {
    OrderOfAge(stateful);
    OrderOfAlignment(stateful);
    Silent(AgeComputable, AgeWithin, stateful);
    Traced(AgeWithin, AlignmentComputable, stateful, ReceiptTimestampSkew);
    Silent(AlignmentComputable, AlignmentWithin, stateful);
    Traced(AlignmentWithin, PcrMatches, stateful, TimestampAlignment);
  }

  lemma PassedOnBindings(stateful: bool)
    ensures Passed(ModelHashMatches, stateful)
         == Passed(PcrMatches, stateful)
            + [Check(Pcr0Check, true), Check(PubkeyBinding, true), Check(ReportDataBinding, true),
               Check(NonceMatching, true)]
  {
    OrderOfPlatform(stateful);
    OrderOfNonces(stateful);
    Traced(PcrMatches, PubkeyBound, stateful, Pcr0Check);
    Traced(PubkeyBound, ReportDataBound, stateful, PubkeyBinding);
    Traced(ReportDataBound, NoncesMatch, stateful, ReportDataBinding);
    Traced(NoncesMatch, ModelHashMatches, stateful, NonceMatching);
  }

  lemma PassedOnHashes(stateful: bool)
    ensures Passed(LAST, stateful)
         == Passed(ModelHashMatches, stateful)
            + [Check(CheckName.ModelHash, true), Check(CheckName.InputHash, true), Check(CheckName.OutputHash, true)]
  {
    OrderOfHashes(stateful);
    OrderOfSequence(stateful);
    Traced(ModelHashMatches, InputHashMatches, stateful, CheckName.ModelHash);
    Traced(InputHashMatches, OutputHashMatches, stateful, CheckName.InputHash);
    Traced(OutputHashMatches, StateAvailable, stateful, CheckName.OutputHash);
    Silent(StateAvailable, SequenceFresh, stateful);
  }

  lemma PassedBeforeBindings(stateful: bool)
    ensures Passed(PcrMatches, stateful)
         == [Check(ReceiptFormat, true), Check(ClaimsParsing, true), Check(CheckName.AttestationType, true),
             Check(ReceiptSignature, true)]
            + [Check(AttestationSignatureAndChain, true), Check(AttestationTimestampSkew, true),
               Check(ReceiptTimestampSkew, true), Check(TimestampAlignment, true)]
  {
    PassedBeforeReport(stateful);
    PassedOnReport(stateful);
    PassedOnTimes(stateful);
  }

  lemma PassedLast(stateful: bool)
    ensures AllPassed(stateful) == Passed(LAST, stateful) + if stateful then [Check(SequenceCheck, true)] else []
  {
    OrderOfSequence(stateful);
  }

  lemma AllPassedIsCheckList(stateful: bool)
    ensures AllPassed(stateful) == CheckList(stateful)
  {
    PassedBeforeBindings(stateful);
    PassedOnBindings(stateful);
    PassedOnHashes(stateful);
    PassedLast(stateful);
  }

  /** The verifier's answer and what it remembers, for everything a caller can pass. */
  method VerifyInFull(v: Verifier, receipt: Bytes, modelHash: Digest, inputHash: Digest, outputHash: Digest,
                      nonce: Digest, pcr0: Bytes, clock: Option<Seconds>, stateAvailable: bool)
    returns (r: Answer, ghost c: Call)
    modifies v`state
    ensures c == Call(v.lib, v.config, v.trustedRoots, v.hardware, receipt, modelHash, inputHash, outputHash, nonce,
                      pcr0, clock, stateAvailable)
    ensures r.Ok? && r.value.valid <==>
      exists cose, claims, report, doc, seconds :: Genuine(c, old(v.state), cose, claims, report, doc, seconds)
    ensures !(r.Ok? && r.value.valid) ==> v.state == old(v.state)
    ensures forall cose, claims, report, doc, seconds | Genuine(c, old(v.state), cose, claims, report, doc, seconds) ::
      && v.state == (if old(v.state).None? then None
                     else Some(old(v.state).value[v.lib.sha256(IdentityMessage(v.lib.sha256, doc))
                                 := claims.sequenceNum]))
      && exists version ::
           && IsVersion(claims.sdkVersion, version)
           && r == Ok(VerificationResult(true, Some(ReceiptInfo(version, modelHash, inputHash, outputHash,
                                                                claims.sequenceNum, claims.attestationTimestamp)),
                                         CheckList(old(v.state).Some?), v.hardware, None))
  {
    ghost var st := v.state;
    c := v.CallOf(receipt, modelHash, inputHash, outputHash, nonce, pcr0, clock, stateAvailable);
    PolicyMeans(c, st);
    SeenParts(c, st);
    AllPassedIsCheckList(st.Some?);
    r := v.Verify(receipt, modelHash, inputHash, outputHash, nonce, pcr0, clock, stateAvailable);
    ValidMeansPolicy(c, st, r);
    forall cose, claims, report, doc, seconds | Genuine(c, st, cose, claims, report, doc, seconds)
      ensures IsVersion(claims.sdkVersion, ClaimsVersion(claims.sdkVersion)) && r.Ok?
      ensures r.value == VerificationResult(
                true, Some(ReceiptInfo(ClaimsVersion(claims.sdkVersion), modelHash, inputHash, outputHash,
                                       claims.sequenceNum, claims.attestationTimestamp)),
                CheckList(st.Some?), v.hardware, None)
    {
      VersionOfClaims(claims.sdkVersion);
    }
    forall doc
      ensures Fingerprint(c.lib, doc) == c.lib.sha256(IdentityMessage(c.lib.sha256, doc))
    {
      FingerprintIsIdentity(c.lib, doc);
    }
  }

  /** The limits a verifier has unless it is told otherwise. */
  lemma DefaultLimits()
    ensures DEFAULT_CONFIG.maxReceiptSize == 65536
    ensures DEFAULT_CONFIG.maxClockSkew == 300 && DEFAULT_CONFIG.maxReceiptAge == 300
  {
  }

  // ---------------------------------------------------------------------
  // A world in which a receipt is made and accepted
  // ---------------------------------------------------------------------

  function Zeros(): Digest { seq(32, i => 0) }

  function SampleClaims(): VeriClaims {
    VeriClaims(Zeros(), Zeros(), Zeros(), Zeros(), 0, [3], 3, 1000, "0.1.0", Zeros())
  }

  function SampleEnvelope(): CoseSign1 {
    CoseSign1(Some(EdDSA), None, false, false, false, Some("application/cwt"), None, Some([1]), [], [])
  }

  function SampleReport(): CoseSign1 {
    CoseSign1(Some(ES384), None, false, false, false, None, None, Some([4]), [], [])
  }

  function SampleDoc(): AttestationDoc {
    AttestationDoc([], 1000000, map[0 := seq(48, i => 0)], [], [], Some(Zeros()), Some([]), Some(Zeros()))
  }

  function SampleEnclave(): Enclave {
    Enclave("0.1.0", Zeros(), _ => [], _ => [],
            entries => if entries == Serialize(SampleClaims()) then Some([1]) else None,
            _ => [], cose => if cose == SampleEnvelope() then Some([2]) else None)
  }

  function SampleAttest(): Attest {
    (userData, nonce, key) => if userData == [] && nonce == Zeros() && key == Zeros() then Some([3]) else None
  }

  function SampleLibrary(): Library {
    Library(bytes =>
              if bytes == [2] then Some(SampleEnvelope()) else if bytes == [3] then Some(SampleReport()) else None,
            bytes => if bytes == [1] then Some(SampleClaims()) else None,
            bytes => if bytes == [4] then Some(SampleDoc()) else None,
            (_, _, _) => true, (_, _) => Some(true), _ => Zeros(), _ => [])
  }

  function SampleIssued(): Issued {
    Issued(Inference(Zeros(), Zeros(), Zeros(), Zeros()), SampleAttest(), 1000, 0, [3], [2])
  }

  function SampleCall(): Call {
    Call(SampleLibrary(), DEFAULT_CONFIG, [[]], true, [2], Zeros(), Zeros(), Zeros(), Zeros(), seq(48, i => 0),
         Some(1000), true)
  }

  lemma SampleReads()
    ensures ReadsWhatIsWritten(SampleLibrary(), SampleEnclave())
  {
    RoundTrip(SampleClaims());
    forall claims, payload | SampleEnclave().writeMap(Serialize(claims)) == Some(payload)
      ensures SampleLibrary().parseClaims(payload) == Decoded(Serialize(claims))
    {
      assert Serialize(claims) == Serialize(SampleClaims());
    }
  }

  lemma SampleIsHonest()
    ensures HonestProvider(SampleLibrary(), [[]], seq(48, i => 0), SampleAttest())
  {
    var roots: seq<Bytes> := [[]];
    assert roots[0] in roots && SampleLibrary().attests([3], roots[0]) == Some(true);
  }

  /** The assumptions of the end-to-end law can be met, and a receipt made under them is accepted. */
  lemma SomeReceiptIsAccepted() returns (c: Call, e: Enclave, x: Issued)
    ensures Returned(e, x) && Fits(c, e, x.attest) && AsksAbout(c, x) && Policy(c, Some(map[]))
  {
    c, e, x := SampleCall(), SampleEnclave(), SampleIssued();
    SampleReads();
    SampleIsHonest();
    assert IssuedClaims(e, x) == SampleClaims();
    assert Returned(e, x);
    AcceptedExactlyWhen(c, Some(map[]), e, x);
  }
}
