/**
 Making receipts, and the end-to-end law: when the verifier accepts what the generator made.
 */
module ReceiptGenerator {
  import opened Types
  import opened ClaimCodec
  import opened Cose
  import opened VerificationPolicy
  import opened ReceiptVerifier

  /** The enclave's key pair and the library functions it writes with; nothing is assumed about them. */
  datatype Enclave = Enclave(
    sdkVersion: string,
    publicKey: Digest,
    sign: Bytes -> Bytes,
    sha512: Bytes -> Bytes,
    writeMap: seq<Entry> -> Option<Bytes>,
    toBeSigned: Bytes -> Bytes,              // the bytes signed for a payload under the receipt's headers
    writeCose: CoseSign1 -> Option<Bytes>)

  /** The attestation provider during one call: user data, nonce, public key. */
  type Attest = (Bytes, Bytes, Bytes) -> Option<Bytes>

  datatype Inference = Inference(modelHash: Digest, inputHash: Digest, outputHash: Digest, clientNonce: Digest)

  function ClaimsFor(e: Enclave, i: Inference, sequenceNum: u64, report: Bytes, now: i64): VeriClaims {
    VeriClaims(i.modelHash, i.inputHash, i.outputHash, i.clientNonce, sequenceNum, report, 3, now,
               e.sdkVersion, e.publicKey)
  }

  function Envelope(e: Enclave, payload: Bytes): CoseSign1 {
    CoseSign1(Some(EdDSA), None, false, false, false, Some("application/cwt"), None, Some(payload),
              e.sign(e.toBeSigned(payload)), e.toBeSigned(payload))
  }

  /** The signed bytes for these claims. */
  function WriteReceipt(e: Enclave, claims: VeriClaims): Option<Bytes> {
    match e.writeMap(Serialize(claims))
    case None => None
    case Some(payload) => e.writeCose(Envelope(e, payload))
  }

  /** One receipt the generator returned: what the call was given, the report it got, the number it drew. */
  datatype Issued = Issued(
    i: Inference, attest: Attest, made: Seconds, sequenceNum: u64, report: Bytes, receipt: Bytes)

  function IssuedClaims(e: Enclave, x: Issued): VeriClaims {
    ClaimsFor(e, x.i, x.sequenceNum, x.report, x.made)
  }

  /** The provider was asked to bind this enclave's key and the client's nonce, and the receipt is the signed
      envelope around its report. */
  predicate Returned(e: Enclave, x: Issued) {
    && x.attest(ReportData(e.sha512, e.publicKey), x.i.clientNonce, e.publicKey) == Some(x.report)
    && WriteReceipt(e, IssuedClaims(e, x)) == Some(x.receipt)
  }

  class Generator {
    const enclave: Enclave
    var sequenceNum: u64

    constructor (enclave: Enclave)
      ensures this.enclave == enclave && sequenceNum == 0
    {
      this.enclave, sequenceNum := enclave, 0;
    }

    /** The next sequence number; at the end of the range the counter stays where it is. */
    method Allocate() returns (r: Option<u64>)
      modifies this`sequenceNum
      ensures r.Some? <==> old(sequenceNum) < U64_MAX
      ensures r.Some? ==> r.value == old(sequenceNum) && sequenceNum == old(sequenceNum) + 1
      ensures r.None? ==> sequenceNum == old(sequenceNum)
    {
      if sequenceNum == U64_MAX {
        return None;
      }
      r := Some(sequenceNum);
      sequenceNum := sequenceNum + 1;
    }

    /** Attest first, number afterwards: only a call that was attested uses a number up. */
    method GenerateReceipt(i: Inference, attest: Attest, clock: Option<Seconds>) returns (r: Result<Bytes, VerifyError>)
      modifies this`sequenceNum
      ensures var report := attest(ReportData(enclave.sha512, enclave.publicKey), i.clientNonce, enclave.publicKey);
        && (report.None? ==> r == Err(Attestation) && sequenceNum == old(sequenceNum))
        && (report.Some? && old(sequenceNum) == U64_MAX ==>
              r == Err(SequenceNumberExhausted) && sequenceNum == old(sequenceNum))
        && (report.Some? && old(sequenceNum) < U64_MAX ==> sequenceNum == old(sequenceNum) + 1)
      ensures r.Ok? ==>
        && clock.Some? && old(sequenceNum) < U64_MAX
        && var report := attest(ReportData(enclave.sha512, enclave.publicKey), i.clientNonce, enclave.publicKey);
           && report.Some?
           && Returned(enclave, Issued(i, attest, clock.value, old(sequenceNum), report.value, r.value))
      ensures r.Err? && sequenceNum > old(sequenceNum) ==>
        if clock.None? then r.error == InvalidAttestationDocument else r.error == MalformedReceipt
    {
      var reportData := ReportData(enclave.sha512, enclave.publicKey);
      var attestationReport := attest(reportData, i.clientNonce, enclave.publicKey);
      if attestationReport.None? {
        return Err(Attestation);
      }
      var number := Allocate();
      if number.None? {
        return Err(SequenceNumberExhausted);
      }
      if clock.None? {
        return Err(InvalidAttestationDocument);
      }
      var claims := VeriClaims(
        i.modelHash, i.inputHash, i.outputHash, i.clientNonce, number.value, attestationReport.value, 3,
        clock.value, enclave.sdkVersion, enclave.publicKey);
      var payload := enclave.writeMap(Serialize(claims));
      if payload.None? {
        return Err(MalformedReceipt);
      }
      var cose := CoseSign1(Some(EdDSA), None, false, false, false, Some("application/cwt"), None,
                            Some(payload.value), [], enclave.toBeSigned(payload.value));
      var signature := enclave.sign(cose.tbs);
      cose := cose.(signature := signature);
      var written := enclave.writeCose(cose);
      if written.None? {
        return Err(MalformedReceipt);
      }
      r := Ok(written.value);
    }
  }

  // ---------------------------------------------------------------------
  // End to end
  // ---------------------------------------------------------------------

  /** The verifier's libraries read back what this enclave writes, accept what it signs, and hash alike. */
  ghost predicate ReadsWhatIsWritten(lib: Library, e: Enclave) {
    && (forall payload, receipt ::
          e.writeCose(Envelope(e, payload)) == Some(receipt) ==> lib.parseCose(receipt) == Some(Envelope(e, payload)))
    && (forall claims, payload ::
          e.writeMap(Serialize(claims)) == Some(payload) ==> lib.parseClaims(payload) == Decoded(Serialize(claims)))
    && (forall message :: lib.ed25519(e.publicKey, message, e.sign(message)))
    && (forall bytes :: lib.sha512(bytes) == e.sha512(bytes))
  }

  /** The report carries a document with exactly these three values, on a platform with this PCR0, and some
      trusted root vouches for it. */
  ghost predicate HonestReport(
    lib: Library, roots: seq<Bytes>, pcr0: Bytes, userData: Bytes, nonce: Bytes, key: Bytes, report: Bytes) {
    && SomeRootVouches(lib, roots, report)
    && lib.parseCose(report).Some? && lib.parseCose(report).value.payload.Some?
    && lib.parseDoc(lib.parseCose(report).value.payload.value).Some?
    && var doc := lib.parseDoc(lib.parseCose(report).value.payload.value).value;
       && doc.userData == Some(userData) && doc.nonce == Some(nonce) && doc.publicKey == Some(key)
       && 0 in doc.pcrs && doc.pcrs[0] == pcr0
  }

  /** Whatever the provider is asked to attest, an answer is an honest report of it. */
  ghost predicate HonestProvider(lib: Library, roots: seq<Bytes>, pcr0: Bytes, attest: Attest) {
    forall userData, nonce, key, report ::
      attest(userData, nonce, key) == Some(report) ==> HonestReport(lib, roots, pcr0, userData, nonce, key, report)
  }

  /** The verifier and its caller fit the enclave and its platform. */
  ghost predicate Fits(c: Call, e: Enclave, attest: Attest) {
    ReadsWhatIsWritten(c.lib, e) && HonestProvider(c.lib, c.trustedRoots, c.pcr0, attest) && |c.pcr0| == 48
  }

  /** The call asks about this receipt with the values it was made for. */
  predicate AsksAbout(c: Call, x: Issued) {
    && c.receipt == x.receipt && c.nonce == x.i.clientNonce
    && c.modelHash == x.i.modelHash && c.inputHash == x.i.inputHash && c.outputHash == x.i.outputHash
  }

  /** What the verifier then sees. */
  ghost predicate Seen(c: Call, e: Enclave, x: Issued, doc: AttestationDoc) {
    && e.writeMap(Serialize(IssuedClaims(e, x))).Some?
    && CoseOf(c) == Some(Envelope(e, e.writeMap(Serialize(IssuedClaims(e, x))).value))
    && ClaimsOf(c) == Some(IssuedClaims(e, x)) && DocOf(c) == Some(doc)
    && SomeRootVouches(c.lib, c.trustedRoots, x.report)
    && doc.userData == Some(ReportData(c.lib.sha512, e.publicKey)) && doc.nonce == Some(x.i.clientNonce)
    && doc.publicKey == Some(e.publicKey) && 0 in doc.pcrs && doc.pcrs[0] == c.pcr0 && |c.pcr0| == 48
    && AsksAbout(c, x) && (forall message :: c.lib.ed25519(e.publicKey, message, e.sign(message)))
  }

  /** The three conditions on time. */
  predicate InTime(c: Call, claims: VeriClaims, doc: AttestationDoc) {
    && c.clock.Some?
    && claims.attestationTimestamp <= c.clock.value <= claims.attestationTimestamp + c.config.maxReceiptAge
    && DistanceWithin(c.clock.value, DocSeconds(doc), c.config.maxClockSkew)
    && DistanceWithin(DocSeconds(doc), claims.attestationTimestamp, ALIGNMENT)
  }

  lemma ReadEnvelope(c: Call, e: Enclave, x: Issued) returns (payload: Bytes)
    requires Returned(e, x) && ReadsWhatIsWritten(c.lib, e) && AsksAbout(c, x)
    ensures e.writeMap(Serialize(IssuedClaims(e, x))) == Some(payload)
    ensures CoseOf(c) == Some(Envelope(e, payload))
  {
    payload := e.writeMap(Serialize(IssuedClaims(e, x))).value;
    assert e.writeCose(Envelope(e, payload)) == Some(c.receipt);
  }

  lemma ReadClaims(c: Call, e: Enclave, x: Issued)
    requires Returned(e, x) && ReadsWhatIsWritten(c.lib, e) && AsksAbout(c, x)
    ensures ClaimsOf(c) == Some(IssuedClaims(e, x))
  {
    var payload := ReadEnvelope(c, e, x);
    RoundTrip(IssuedClaims(e, x));
    assert c.lib.parseClaims(payload) == Decoded(Serialize(IssuedClaims(e, x)));
  }

  lemma SameReportData(lib: Library, e: Enclave)
    requires ReadsWhatIsWritten(lib, e)
    ensures ReportData(lib.sha512, e.publicKey) == ReportData(e.sha512, e.publicKey)
  {
  }

  lemma TheReport(c: Call, e: Enclave, x: Issued)
    requires Returned(e, x) && HonestProvider(c.lib, c.trustedRoots, c.pcr0, x.attest)
    ensures HonestReport(c.lib, c.trustedRoots, c.pcr0, ReportData(e.sha512, e.publicKey), x.i.clientNonce,
                         e.publicKey, x.report)
  {
  }

  /** The verifier sees the generator's claims, and a document that carries what the generator had attested. */
  lemma ReadBack(c: Call, e: Enclave, x: Issued) returns (doc: AttestationDoc)
    requires Returned(e, x) && Fits(c, e, x.attest) && AsksAbout(c, x)
    ensures Seen(c, e, x, doc)
  {
    var payload := ReadEnvelope(c, e, x);
    ReadClaims(c, e, x);
    SameReportData(c.lib, e);
    TheReport(c, e, x);
    doc := DocOf(c).value;
  }

  // Which requirements a call meets, in groups

  function Requirements(c: Call, st: ReplayState): Stage -> bool { s => Holds(c, st, s) }

  predicate EnvelopeOk(h: Stage -> bool) {
    h(PcrLength) && h(ReceiptParses) && h(AlgPresent) && h(AlgIsEdDSA) && h(NoUnprotectedAlg) && h(NoCrit)
    && h(NoUnprotected) && h(ContentTypeOk) && h(PayloadPresent)
  }

  predicate ClaimsOk(h: Stage -> bool) { h(ClaimsParse) && h(TypeIsNitro) && h(ReceiptSigned) }

  predicate ReportOk(h: Stage -> bool) { h(ReportParses) && h(ReportPayload) && h(DocParses) && h(ChainVerifies) }

  predicate TimesOk(h: Stage -> bool) {
    h(ClockReadable) && h(SkewComputable) && h(SkewWithin) && h(AgeComputable) && h(AgeWithin)
    && h(AlignmentComputable) && h(AlignmentWithin)
  }

  predicate BindingsOk(h: Stage -> bool) {
    h(PcrMatches) && h(PubkeyBound) && h(ReportDataBound) && h(NoncesMatch)
    && h(ModelHashMatches) && h(InputHashMatches) && h(OutputHashMatches)
  }

  lemma EnvelopeMet(c: Call, st: ReplayState, e: Enclave, payload: Bytes)
    requires CoseOf(c) == Some(Envelope(e, payload)) && |c.pcr0| == 48
    ensures EnvelopeOk(Requirements(c, st))
  {
    SizeStages(c, st);
    AlgorithmStages(c, st, Envelope(e, payload));
    HeaderStages(c, st, Envelope(e, payload));
    PayloadStage(c, st, Envelope(e, payload));
  }

  lemma ClaimsMet(c: Call, st: ReplayState, e: Enclave, x: Issued, doc: AttestationDoc)
    requires Seen(c, e, x, doc)
    ensures ClaimsOk(Requirements(c, st))
  {
    var cose := CoseOf(c).value;
    ClaimsStage(c, st, cose);
    SignatureStages(c, st, cose, IssuedClaims(e, x));
  }

  lemma ReportMet(c: Call, st: ReplayState, e: Enclave, x: Issued, doc: AttestationDoc)
    requires Seen(c, e, x, doc)
    ensures ReportOk(Requirements(c, st))
  {
    ReportStages(c, st, IssuedClaims(e, x));
  }

  lemma BindingsMet(c: Call, st: ReplayState, e: Enclave, x: Issued, doc: AttestationDoc)
    requires Seen(c, e, x, doc)
    ensures BindingsOk(Requirements(c, st))
  {
    PlatformStages(c, st, IssuedClaims(e, x), doc);
    NonceStages(c, st, IssuedClaims(e, x), doc);
    HashStages(c, st, IssuedClaims(e, x));
  }

  lemma TimesMet(c: Call, st: ReplayState, claims: VeriClaims, doc: AttestationDoc)
    requires ClaimsOf(c) == Some(claims) && DocOf(c) == Some(doc)
    ensures TimesOk(Requirements(c, st)) <==> InTime(c, claims, doc)
  {
    SkewStages(c, st, claims, doc);
    AlignmentStages(c, st, claims, doc);
    if c.clock.Some? {
      AgeStages(c, st, claims, c.clock.value);
    }
  }

  lemma SizeAndSequence(c: Call, st: ReplayState, claims: VeriClaims, doc: AttestationDoc)
    requires ClaimsOf(c) == Some(claims) && DocOf(c) == Some(doc)
    ensures Requirements(c, st)(SizeLimit) <==> |c.receipt| <= c.config.maxReceiptSize
    ensures Requirements(c, st)(StateAvailable) && Requirements(c, st)(SequenceFresh)
      <==> st.None? || (c.stateAvailable && Newer(c.lib, st.value, doc, claims))
  {
    SizeStages(c, st);
    SequenceStages(c, st, claims, doc);
  }

  /** The groups leave no requirement out. */
  lemma EveryStage(h: Stage -> bool)
    ensures (forall s: Stage :: h(s)) <==>
      h(SizeLimit) && EnvelopeOk(h) && ClaimsOk(h) && ReportOk(h) && TimesOk(h) && BindingsOk(h)
      && h(StateAvailable) && h(SequenceFresh)
  {
    if h(SizeLimit) && EnvelopeOk(h) && ClaimsOk(h) && ReportOk(h) && TimesOk(h) && BindingsOk(h)
       && h(StateAvailable) && h(SequenceFresh) {
      forall s: Stage
        ensures h(s)
      {
        assert Rank(s) < 10 ==> h(s);
        assert 10 <= Rank(s) < 24 ==> h(s);
        assert 24 <= Rank(s) ==> h(s);
      }
    }
  }

  lemma PolicyIsEveryRequirement(c: Call, st: ReplayState)
    ensures Policy(c, st) <==> forall s: Stage :: Requirements(c, st)(s)
  {
    assert forall s: Stage :: Requirements(c, st)(s) == Holds(c, st, s);
  }

  /** What a caller can check before the call: size, times, and that the number is newer than what the
      verifier remembers of this platform. */
  ghost predicate Due(c: Call, st: ReplayState, claims: VeriClaims, doc: AttestationDoc) {
    && |c.receipt| <= c.config.maxReceiptSize
    && InTime(c, claims, doc)
    && (st.None? || (c.stateAvailable && Newer(c.lib, st.value, doc, claims)))
  }

  lemma AcceptedWhenSeen(c: Call, st: ReplayState, e: Enclave, x: Issued, doc: AttestationDoc)
    requires Seen(c, e, x, doc)
    ensures Policy(c, st) <==> Due(c, st, IssuedClaims(e, x), doc)
  {
    EnvelopeMet(c, st, e, e.writeMap(Serialize(IssuedClaims(e, x))).value);
    ClaimsMet(c, st, e, x, doc);
    ReportMet(c, st, e, x, doc);
    BindingsMet(c, st, e, x, doc);
    TimesMet(c, st, IssuedClaims(e, x), doc);
    SizeAndSequence(c, st, IssuedClaims(e, x), doc);
    EveryStage(Requirements(c, st));
    PolicyIsEveryRequirement(c, st);
  }

  /** Generate, then verify: a receipt the generator returned is valid exactly when it is small enough, in
      time, and newer than what the verifier remembers of its platform. */
  lemma AcceptedExactlyWhen(c: Call, st: ReplayState, e: Enclave, x: Issued)
    requires Returned(e, x) && Fits(c, e, x.attest) && AsksAbout(c, x)
    ensures ClaimsOf(c) == Some(IssuedClaims(e, x)) && DocOf(c).Some?
    ensures Policy(c, st) <==> Due(c, st, IssuedClaims(e, x), DocOf(c).value)
  {
    var doc := ReadBack(c, e, x);
    AcceptedWhenSeen(c, st, e, x, doc);
  }

  /** For a document made within five seconds of the claims, the receipt is valid, with the values it was
      made for, at every moment from its timestamp to the end of its life that also meets the skew bound. */
  lemma ValidThroughItsLife(c: Call, e: Enclave, x: Issued, doc: AttestationDoc)
    requires Returned(e, x) && Fits(c, e, x.attest) && AsksAbout(c, x) && |c.receipt| <= c.config.maxReceiptSize
    requires DocOf(c) == Some(doc) && DistanceWithin(DocSeconds(doc), x.made, ALIGNMENT)
    requires c.clock.Some? && x.made <= c.clock.value <= x.made + c.config.maxReceiptAge
    requires c.config.maxClockSkew >= c.config.maxReceiptAge + ALIGNMENT
             || DistanceWithin(c.clock.value, DocSeconds(doc), c.config.maxClockSkew)
    ensures Policy(c, None)
    ensures Answers(c, None, ValidAnswer(c, false))
    ensures Described(c) == Some(InfoOf(IssuedClaims(e, x)))
  {
    AcceptedExactlyWhen(c, None, e, x);
  }

  /** One receipt from the generator to the verifier: what each of them does, and that together they accept
      exactly the receipts that are due. */
  method GenerateThenVerify(
    g: Generator, v: Verifier, i: Inference, attest: Attest, made: Option<Seconds>, pcr0: Bytes,
    clock: Option<Seconds>, stateAvailable: bool)
    returns (receipt: Result<Bytes, VerifyError>, answer: Option<Answer>)
    requires ReadsWhatIsWritten(v.lib, g.enclave) && |pcr0| == 48
    requires HonestProvider(v.lib, v.trustedRoots, pcr0, attest)
    modifies g`sequenceNum, v`state
    ensures answer.Some? <==> receipt.Ok?
    ensures receipt.Err? ==> v.state == old(v.state)
    ensures receipt.Ok? ==>
      var c := v.CallOf(receipt.value, i.modelHash, i.inputHash, i.outputHash, i.clientNonce, pcr0, clock,
                        stateAvailable);
      && made.Some? && g.sequenceNum == old(g.sequenceNum) + 1
      && DocOf(c).Some? && ClaimsOf(c).Some?
      && ClaimsOf(c).value.sequenceNum == old(g.sequenceNum) && ClaimsOf(c).value.attestationTimestamp == made.value
      && (answer.value.Ok? && answer.value.value.valid
          <==> Due(c, old(v.state), ClaimsOf(c).value, DocOf(c).value))
      && v.state == StateAfter(c, old(v.state))
  {
    ghost var before := v.state;
    ghost var number := g.sequenceNum;
    receipt := g.GenerateReceipt(i, attest, made);
    if receipt.Err? {
      return receipt, None;
    }
    ghost var report :=
      attest(ReportData(g.enclave.sha512, g.enclave.publicKey), i.clientNonce, g.enclave.publicKey).value;
    ghost var x := Issued(i, attest, made.value, number, report, receipt.value);
    ghost var c := v.CallOf(receipt.value, i.modelHash, i.inputHash, i.outputHash, i.clientNonce, pcr0, clock,
                            stateAvailable);
    AcceptedExactlyWhen(c, before, g.enclave, x);
    var r := v.Verify(receipt.value, i.modelHash, i.inputHash, i.outputHash, i.clientNonce, pcr0, clock,
                      stateAvailable);
    ValidMeansPolicy(c, before, r);
    answer := Some(r);
  }
}
