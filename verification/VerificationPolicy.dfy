/**
 What it means for a receipt to be valid: 33 requirements, each stated on its own, and
 the order in which the verifier reports the first one that fails.
 */
module VerificationPolicy {
  import opened Types
  import opened ClaimCodec
  import opened Cose

  /** The library functions and the attestation provider; nothing is assumed about them. */
  datatype Library = Library(
    parseCose: Bytes -> Option<CoseSign1>,
    parseClaims: Bytes -> Option<VeriClaims>,
    parseDoc: Bytes -> Option<AttestationDoc>,
    ed25519: (Digest, Bytes, Bytes) -> bool,      // key, message, signature
    attests: (Bytes, Bytes) -> Option<bool>,      // report, trusted root; None is an error
    sha256: Bytes -> Digest,
    sha512: Bytes -> Bytes)

  datatype Config = Config(maxReceiptSize: nat, maxClockSkew: i64, maxReceiptAge: i64)

  /** How far apart the times of document and claims may be, in seconds. */
  const ALIGNMENT: nat := 5

  /** Seconds since the epoch; the system clock cannot be past the range of i64. */
  type Seconds = n: nat | n <= I64_MAX

  type ReplayState = Option<map<Digest, u64>>

  /** One call of the verifier with everything it observes. */
  datatype Call = Call(
    lib: Library, config: Config, trustedRoots: seq<Bytes>, hardware: bool,
    receipt: Bytes, modelHash: Digest, inputHash: Digest, outputHash: Digest, nonce: Digest, pcr0: Bytes,
    clock: Option<Seconds>, stateAvailable: bool)

  datatype VerifyError =
    | InvalidCoseSignature | InvalidAttestationDocument | AttestationDocTimestampMismatch | PcrMismatch
    | PubkeyBindingMismatch | ReportDataMismatch | TimestampSkewExceeded | ModelHashMismatch | InputHashMismatch
    | OutputHashMismatch | NonceMismatch | SequenceNumberExhausted | SequenceNumberOutOfOrder | MalformedReceipt
    | ReceiptTooLarge | ExpiredReceipt | UnsupportedAlgorithm | UnsupportedAttestationType | InvalidProtectedHeader
    | InvalidContentType | AlgorithmInUnprotectedHeader | InvalidTimestamp | InvalidPcrLength
    | ReplayStateUnavailable | Attestation

  /** The titles of the checks in a result. */
  datatype CheckName =
    | ReceiptFormat | ReceiptPayload | ClaimsParsing | AttestationType | ReceiptSignature | AttestationFormat
    | AttestationPayload | AttestationDocParsing | AttestationSignatureAndChain | AttestationTimestampSkew
    | ReceiptTimestampSkew | TimestampAlignment | Pcr0Check | PubkeyBinding | ReportDataBinding | NonceMatching
    | ModelHash | InputHash | OutputHash | SequenceCheck

  datatype Check = Check(name: CheckName, passed: bool)

  datatype ReceiptInfo = ReceiptInfo(
    version: string, modelHash: Digest, inputHash: Digest, outputHash: Digest, sequenceNum: u64, timestamp: i64)

  datatype VerificationResult = VerificationResult(
    valid: bool, receipt: Option<ReceiptInfo>, checks: seq<Check>, verifiedHardware: bool, error: Option<VerifyError>)

  // ---------------------------------------------------------------------
  // Arithmetic on i64
  // ---------------------------------------------------------------------

  function CheckedSub(a: i64, b: i64): (r: Option<i64>)
    ensures r.Some? <==> I64_MIN <= a - b <= I64_MAX
    ensures r.Some? ==> r.value == a - b
  {
    if I64_MIN <= a - b <= I64_MAX then Some(a - b) else None
  }

  /** `abs` overflows on the least i64. */
  function Abs(x: i64): (r: i64)
    requires x != I64_MIN
    ensures r == x || r == -x
    ensures r >= 0
  {
    if x < 0 then -x else x
  }

  predicate DistanceWithin(a: int, b: int, most: int) { a - b <= most && b - a <= most }

  /** Milliseconds to seconds; the quotient of a u64 by 1000 always fits. */
  function DocSeconds(doc: AttestationDoc): (s: i64)
    ensures 0 <= s
  {
    doc.timestamp / 1000
  }

  // ---------------------------------------------------------------------
  // What a call sees
  // ---------------------------------------------------------------------

  function CoseOf(c: Call): Option<CoseSign1> { c.lib.parseCose(c.receipt) }

  function ClaimsOf(c: Call): Option<VeriClaims> {
    if CoseOf(c).Some? && CoseOf(c).value.payload.Some? then c.lib.parseClaims(CoseOf(c).value.payload.value) else None
  }

  function ReportOf(c: Call): Option<CoseSign1> {
    if ClaimsOf(c).Some? then c.lib.parseCose(ClaimsOf(c).value.attestationReport) else None
  }

  function DocOf(c: Call): Option<AttestationDoc> {
    if ReportOf(c).Some? && ReportOf(c).value.payload.Some?
    then c.lib.parseDoc(ReportOf(c).value.payload.value)
    else None
  }

  const KEY_BIND: string := "VeriAI-KeyBind-v1"

  function Ascii(s: string): Bytes
    requires forall c | c in s :: c < 128 as char
  {
    seq(|s|, i requires 0 <= i < |s| => assert s[i] in s; s[i] as int as byte)
  }

  function ReportData(sha512: Bytes -> Bytes, key: Digest): Bytes {
    sha512([0x01] + Ascii(KEY_BIND) + key)
  }

  function Pcr(doc: AttestationDoc, i: nat): Bytes { if i in doc.pcrs then doc.pcrs[i] else [] }

  function Flatten(parts: seq<Bytes>): Bytes { if parts == [] then [] else parts[0] + Flatten(parts[1..]) }

  function Fingerprint(lib: Library, doc: AttestationDoc): Digest {
    var certFingerprint: Bytes := lib.sha256(doc.certificate + Flatten(doc.cabundle));
    lib.sha256(Pcr(doc, 0) + Pcr(doc, 3) + Pcr(doc, 4) + doc.moduleId + certFingerprint)
  }

  /** The version part of an SDK identifier: what follows the last slash, "1" when there is none. */
  function ClaimsVersion(sdkVersion: string): string {
    if '/' in sdkVersion then AfterLastSlash(sdkVersion) else "1"
  }

  function AfterLastSlash(s: string): string
    requires '/' in s
  {
    if s[|s| - 1] == '/' then "" else AfterLastSlash(s[..|s| - 1]) + [s[|s| - 1]]
  }

  lemma {:induction false} AfterLastSlashMeaning(s: string)
    requires '/' in s
    ensures var v := AfterLastSlash(s); '/' !in v && |v| < |s| && s[|s| - |v|..] == v && s[|s| - |v| - 1] == '/'
  {
    if s[|s| - 1] != '/' {
      assert s == s[..|s| - 1] + [s[|s| - 1]];
      AfterLastSlashMeaning(s[..|s| - 1]);
    }
  }

  function InfoOf(claims: VeriClaims): ReceiptInfo {
    ReceiptInfo(ClaimsVersion(claims.sdkVersion), claims.modelHash, claims.inputHash, claims.outputHash,
                claims.sequenceNum, claims.attestationTimestamp)
  }

  // ---------------------------------------------------------------------
  // The requirements
  // ---------------------------------------------------------------------

  datatype Stage =
    | SizeLimit | PcrLength | ReceiptParses | AlgPresent | AlgIsEdDSA | NoUnprotectedAlg | NoCrit | NoUnprotected
    | ContentTypeOk | PayloadPresent | ClaimsParse | TypeIsNitro | ReceiptSigned | ReportParses | ReportPayload
    | DocParses | ChainVerifies | ClockReadable | SkewComputable | SkewWithin | AgeComputable | AgeWithin
    | AlignmentComputable | AlignmentWithin | PcrMatches | PubkeyBound | ReportDataBound | NoncesMatch
    | ModelHashMatches | InputHashMatches | OutputHashMatches | StateAvailable | SequenceFresh

  predicate IsCwt(cose: CoseSign1) {
    cose.protectedContentType == Some("application/cwt") && cose.unprotectedContentType.None?
  }

  predicate SignedByEnclave(lib: Library, cose: CoseSign1, claims: VeriClaims) {
    lib.ed25519(claims.enclavePubkey, cose.tbs, cose.signature)
  }

  predicate SomeRootVouches(lib: Library, roots: seq<Bytes>, report: Bytes) {
    exists root | root in roots :: lib.attests(report, root) == Some(true)
  }

  predicate BindsKey(lib: Library, doc: AttestationDoc, key: Digest) {
    doc.userData == Some(ReportData(lib.sha512, key))
  }

  predicate Newer(lib: Library, table: map<Digest, u64>, doc: AttestationDoc, claims: VeriClaims) {
    var fp := Fingerprint(lib, doc);
    fp in table ==> table[fp] < claims.sequenceNum
  }

  /** Each requirement by itself, whatever happens to the others. */
  predicate Holds(c: Call, state: ReplayState, stage: Stage) {
    var cose, claims, report, doc := CoseOf(c), ClaimsOf(c), ReportOf(c), DocOf(c);
    match stage
    case SizeLimit => |c.receipt| <= c.config.maxReceiptSize
    case PcrLength => |c.pcr0| == 48
    case ReceiptParses => cose.Some?
    case AlgPresent => cose.Some? && cose.value.protectedAlg.Some?
    case AlgIsEdDSA => cose.Some? && cose.value.protectedAlg == Some(EdDSA)
    case NoUnprotectedAlg => cose.Some? && cose.value.unprotectedAlg.None?
    case NoCrit => cose.Some? && !cose.value.protectedCrit && !cose.value.unprotectedCrit
    case NoUnprotected => cose.Some? && UnprotectedEmpty(cose.value)
    case ContentTypeOk => cose.Some? && IsCwt(cose.value)
    case PayloadPresent => cose.Some? && cose.value.payload.Some?
    case ClaimsParse => claims.Some?
    case TypeIsNitro => claims.Some? && claims.value.attestationType == 3
    case ReceiptSigned => cose.Some? && claims.Some? && SignedByEnclave(c.lib, cose.value, claims.value)
    case ReportParses => report.Some?
    case ReportPayload => report.Some? && report.value.payload.Some?
    case DocParses => doc.Some?
    case ChainVerifies => claims.Some? && SomeRootVouches(c.lib, c.trustedRoots, claims.value.attestationReport)
    case ClockReadable => c.clock.Some?
    case SkewComputable => c.clock.Some? && doc.Some? && I64_MIN <= c.clock.value - DocSeconds(doc.value) <= I64_MAX
    case SkewWithin =>
      c.clock.Some? && doc.Some? && DistanceWithin(c.clock.value, DocSeconds(doc.value), c.config.maxClockSkew)
    case AgeComputable =>
      c.clock.Some? && claims.Some? && I64_MIN <= c.clock.value - claims.value.attestationTimestamp <= I64_MAX
    case AgeWithin =>
      c.clock.Some? && claims.Some?
      && 0 <= c.clock.value - claims.value.attestationTimestamp <= c.config.maxReceiptAge
    case AlignmentComputable =>
      doc.Some? && claims.Some? && I64_MIN <= DocSeconds(doc.value) - claims.value.attestationTimestamp <= I64_MAX
    case AlignmentWithin =>
      doc.Some? && claims.Some? && DistanceWithin(DocSeconds(doc.value), claims.value.attestationTimestamp, ALIGNMENT)
    case PcrMatches => doc.Some? && 0 in doc.value.pcrs && doc.value.pcrs[0] == c.pcr0
    case PubkeyBound => doc.Some? && claims.Some? && doc.value.publicKey == Some(claims.value.enclavePubkey)
    case ReportDataBound => doc.Some? && claims.Some? && BindsKey(c.lib, doc.value, claims.value.enclavePubkey)
    case NoncesMatch =>
      doc.Some? && claims.Some? && doc.value.nonce == Some(c.nonce) && claims.value.clientNonce == c.nonce
    case ModelHashMatches => claims.Some? && claims.value.modelHash == c.modelHash
    case InputHashMatches => claims.Some? && claims.value.inputHash == c.inputHash
    case OutputHashMatches => claims.Some? && claims.value.outputHash == c.outputHash
    case StateAvailable => state.None? || c.stateAvailable
    case SequenceFresh =>
      state.None? || (doc.Some? && claims.Some? && Newer(c.lib, state.value, doc.value, claims.value))
  }

  /** The order-free policy. */
  ghost predicate Policy(c: Call, state: ReplayState) {
    forall stage: Stage :: Holds(c, state, stage)
  }

  // ---------------------------------------------------------------------
  // The order of reporting
  // ---------------------------------------------------------------------

  /** The requirement examined just before. */
  function Previous(stage: Stage): Stage
    requires !stage.SizeLimit?
  {
    match stage
    case PcrLength => SizeLimit case ReceiptParses => PcrLength case AlgPresent => ReceiptParses
    case AlgIsEdDSA => AlgPresent case NoUnprotectedAlg => AlgIsEdDSA case NoCrit => NoUnprotectedAlg
    case NoUnprotected => NoCrit case ContentTypeOk => NoUnprotected case PayloadPresent => ContentTypeOk
    case ClaimsParse => PayloadPresent case TypeIsNitro => ClaimsParse case ReceiptSigned => TypeIsNitro
    case ReportParses => ReceiptSigned case ReportPayload => ReportParses case DocParses => ReportPayload
    case ChainVerifies => DocParses case ClockReadable => ChainVerifies case SkewComputable => ClockReadable
    case SkewWithin => SkewComputable case AgeComputable => SkewWithin case AgeWithin => AgeComputable
    case AlignmentComputable => AgeWithin case AlignmentWithin => AlignmentComputable case PcrMatches => AlignmentWithin
    case PubkeyBound => PcrMatches case ReportDataBound => PubkeyBound case NoncesMatch => ReportDataBound
    case ModelHashMatches => NoncesMatch case InputHashMatches => ModelHashMatches
    case OutputHashMatches => InputHashMatches case StateAvailable => OutputHashMatches
    case SequenceFresh => StateAvailable
  }

  const LAST: Stage := SequenceFresh

  function Rank(stage: Stage): nat {
    match stage
    case SizeLimit => 0 case PcrLength => 1 case ReceiptParses => 2 case AlgPresent => 3 case AlgIsEdDSA => 4
    case NoUnprotectedAlg => 5 case NoCrit => 6 case NoUnprotected => 7 case ContentTypeOk => 8
    case PayloadPresent => 9 case ClaimsParse => 10 case TypeIsNitro => 11 case ReceiptSigned => 12
    case ReportParses => 13 case ReportPayload => 14 case DocParses => 15 case ChainVerifies => 16
    case ClockReadable => 17 case SkewComputable => 18 case SkewWithin => 19 case AgeComputable => 20
    case AgeWithin => 21 case AlignmentComputable => 22 case AlignmentWithin => 23 case PcrMatches => 24
    case PubkeyBound => 25 case ReportDataBound => 26 case NoncesMatch => 27 case ModelHashMatches => 28
    case InputHashMatches => 29 case OutputHashMatches => 30 case StateAvailable => 31 case SequenceFresh => 32
  }

  lemma PreviousRank(stage: Stage)
    requires !stage.SizeLimit?
    ensures Rank(Previous(stage)) == Rank(stage) - 1
  {
  }

  lemma SameRank(s: Stage, t: Stage)
    requires Rank(s) == Rank(t)
    ensures s == t
  {
  }

  datatype Failure = Abort(error: VerifyError) | Report(name: CheckName, error: VerifyError)

  /** What the verifier does when a requirement is the first to fail: return an error, or a result
      whose last check names it. */
  function FailureOf(stage: Stage): Failure {
    match stage
    case SizeLimit => Abort(ReceiptTooLarge)
    case PcrLength => Abort(InvalidPcrLength)
    case ReceiptParses => Report(ReceiptFormat, MalformedReceipt)
    case AlgPresent => Abort(InvalidProtectedHeader)
    case AlgIsEdDSA => Abort(UnsupportedAlgorithm)
    case NoUnprotectedAlg => Abort(AlgorithmInUnprotectedHeader)
    case NoCrit => Abort(InvalidProtectedHeader)
    case NoUnprotected => Abort(InvalidProtectedHeader)
    case ContentTypeOk => Abort(InvalidContentType)
    case PayloadPresent => Report(ReceiptPayload, MalformedReceipt)
    case ClaimsParse => Report(ClaimsParsing, MalformedReceipt)
    case TypeIsNitro => Report(AttestationType, UnsupportedAttestationType)
    case ReceiptSigned => Report(ReceiptSignature, InvalidCoseSignature)
    case ReportParses => Report(AttestationFormat, InvalidAttestationDocument)
    case ReportPayload => Report(AttestationPayload, InvalidAttestationDocument)
    case DocParses => Report(AttestationDocParsing, InvalidAttestationDocument)
    case ChainVerifies => Report(AttestationSignatureAndChain, InvalidAttestationDocument)
    case ClockReadable => Abort(InvalidAttestationDocument)
    case SkewComputable => Abort(InvalidTimestamp)
    case SkewWithin => Report(AttestationTimestampSkew, TimestampSkewExceeded)
    case AgeComputable => Abort(InvalidTimestamp)
    case AgeWithin => Abort(ExpiredReceipt)
    case AlignmentComputable => Abort(InvalidTimestamp)
    case AlignmentWithin => Report(TimestampAlignment, AttestationDocTimestampMismatch)
    case PcrMatches => Report(Pcr0Check, PcrMismatch)
    case PubkeyBound => Report(PubkeyBinding, PubkeyBindingMismatch)
    case ReportDataBound => Report(ReportDataBinding, ReportDataMismatch)
    case NoncesMatch => Report(NonceMatching, NonceMismatch)
    case ModelHashMatches => Report(ModelHash, ModelHashMismatch)
    case InputHashMatches => Report(InputHash, InputHashMismatch)
    case OutputHashMatches => Report(OutputHash, OutputHashMismatch)
    case StateAvailable => Abort(ReplayStateUnavailable)
    case SequenceFresh => Report(SequenceCheck, SequenceNumberOutOfOrder)
  }

  /** The check recorded when a requirement is met; several leave no trace. */
  function Trace(stage: Stage, stateful: bool): Option<CheckName> {
    match stage
    case ContentTypeOk => Some(ReceiptFormat)
    case ClaimsParse => Some(ClaimsParsing)
    case TypeIsNitro => Some(AttestationType)
    case ReceiptSigned => Some(ReceiptSignature)
    case ChainVerifies => Some(AttestationSignatureAndChain)
    case SkewWithin => Some(AttestationTimestampSkew)
    case AgeWithin => Some(ReceiptTimestampSkew)
    case AlignmentWithin => Some(TimestampAlignment)
    case PcrMatches => Some(Pcr0Check)
    case PubkeyBound => Some(PubkeyBinding)
    case ReportDataBound => Some(ReportDataBinding)
    case NoncesMatch => Some(NonceMatching)
    case ModelHashMatches => Some(ModelHash)
    case InputHashMatches => Some(InputHash)
    case OutputHashMatches => Some(OutputHash)
    case SequenceFresh => if stateful then Some(SequenceCheck) else None
    case _ => None
  }

  /** Every requirement examined before this one holds. */
  predicate Before(c: Call, state: ReplayState, stage: Stage)
    decreases Rank(stage), c
  {
    stage.SizeLimit?
    || (PreviousRank(stage); Before(c, state, Previous(stage)) && Holds(c, state, Previous(stage)))
  }

  predicate FirstFailure(c: Call, state: ReplayState, stage: Stage) {
    Before(c, state, stage) && !Holds(c, state, stage)
  }

  /** One line of the canonical order. */
  predicate Follows(stage: Stage, next: Stage, stateful: bool, trace: Option<CheckName>, failure: Failure) {
    !next.SizeLimit? && Previous(next) == stage && Trace(stage, stateful) == trace && FailureOf(stage) == failure
  }

  lemma OrderOfSizes(stateful: bool)
    ensures Follows(SizeLimit, PcrLength, stateful, None, Abort(ReceiptTooLarge))
    ensures Follows(PcrLength, ReceiptParses, stateful, None, Abort(InvalidPcrLength))
    ensures Follows(ReceiptParses, AlgPresent, stateful, None, Report(ReceiptFormat, MalformedReceipt))
  {
  }

  lemma OrderOfAlgorithm(stateful: bool)
    ensures Follows(AlgPresent, AlgIsEdDSA, stateful, None, Abort(InvalidProtectedHeader))
    ensures Follows(AlgIsEdDSA, NoUnprotectedAlg, stateful, None, Abort(UnsupportedAlgorithm))
    ensures Follows(NoUnprotectedAlg, NoCrit, stateful, None, Abort(AlgorithmInUnprotectedHeader))
  {
  }

  lemma OrderOfHeaders(stateful: bool)
    ensures Follows(NoCrit, NoUnprotected, stateful, None, Abort(InvalidProtectedHeader))
    ensures Follows(NoUnprotected, ContentTypeOk, stateful, None, Abort(InvalidProtectedHeader))
    ensures Follows(ContentTypeOk, PayloadPresent, stateful, Some(ReceiptFormat), Abort(InvalidContentType))
  {
  }

  lemma OrderOfPayload(stateful: bool)
    ensures Follows(PayloadPresent, ClaimsParse, stateful, None, Report(ReceiptPayload, MalformedReceipt))
    ensures Follows(ClaimsParse, TypeIsNitro, stateful, Some(ClaimsParsing), Report(ClaimsParsing, MalformedReceipt))
    ensures Follows(TypeIsNitro, ReceiptSigned, stateful, Some(AttestationType),
        Report(AttestationType, UnsupportedAttestationType))
    ensures Follows(ReceiptSigned, ReportParses, stateful, Some(ReceiptSignature),
        Report(ReceiptSignature, InvalidCoseSignature))
  {
  }

  lemma OrderOfReport(stateful: bool)
    ensures Follows(ReportParses, ReportPayload, stateful, None, Report(AttestationFormat, InvalidAttestationDocument))
    ensures Follows(ReportPayload, DocParses, stateful, None, Report(AttestationPayload, InvalidAttestationDocument))
    ensures Follows(DocParses, ChainVerifies, stateful, None, Report(AttestationDocParsing, InvalidAttestationDocument))
    ensures Follows(ChainVerifies, ClockReadable, stateful, Some(AttestationSignatureAndChain),
        Report(AttestationSignatureAndChain, InvalidAttestationDocument))
  {
  }

  lemma OrderOfSkew(stateful: bool)
    ensures Follows(ClockReadable, SkewComputable, stateful, None, Abort(InvalidAttestationDocument))
    ensures Follows(SkewComputable, SkewWithin, stateful, None, Abort(InvalidTimestamp))
    ensures Follows(SkewWithin, AgeComputable, stateful, Some(AttestationTimestampSkew),
        Report(AttestationTimestampSkew, TimestampSkewExceeded))
  {
  }

  lemma OrderOfAge(stateful: bool)
    ensures Follows(AgeComputable, AgeWithin, stateful, None, Abort(InvalidTimestamp))
    ensures Follows(AgeWithin, AlignmentComputable, stateful, Some(ReceiptTimestampSkew), Abort(ExpiredReceipt))
  {
  }

  lemma OrderOfAlignment(stateful: bool)
    ensures Follows(AlignmentComputable, AlignmentWithin, stateful, None, Abort(InvalidTimestamp))
    ensures Follows(AlignmentWithin, PcrMatches, stateful, Some(TimestampAlignment),
        Report(TimestampAlignment, AttestationDocTimestampMismatch))
  {
  }

  lemma OrderOfPlatform(stateful: bool)
    ensures Follows(PcrMatches, PubkeyBound, stateful, Some(Pcr0Check), Report(Pcr0Check, PcrMismatch))
    ensures Follows(PubkeyBound, ReportDataBound, stateful, Some(PubkeyBinding),
        Report(PubkeyBinding, PubkeyBindingMismatch))
  {
  }

  lemma OrderOfNonces(stateful: bool)
    ensures Follows(ReportDataBound, NoncesMatch, stateful, Some(ReportDataBinding),
        Report(ReportDataBinding, ReportDataMismatch))
    ensures Follows(NoncesMatch, ModelHashMatches, stateful, Some(NonceMatching), Report(NonceMatching, NonceMismatch))
  {
  }

  lemma OrderOfHashes(stateful: bool)
    ensures Follows(ModelHashMatches, InputHashMatches, stateful, Some(ModelHash), Report(ModelHash, ModelHashMismatch))
    ensures Follows(InputHashMatches, OutputHashMatches, stateful, Some(InputHash),
        Report(InputHash, InputHashMismatch))
    ensures Follows(OutputHashMatches, StateAvailable, stateful, Some(OutputHash),
        Report(OutputHash, OutputHashMismatch))
  {
  }

  lemma OrderOfSequence(stateful: bool)
    ensures Follows(StateAvailable, SequenceFresh, stateful, None, Abort(ReplayStateUnavailable))
    ensures Trace(LAST, stateful) == if stateful then Some(SequenceCheck) else None
    ensures FailureOf(LAST) == Report(SequenceCheck, SequenceNumberOutOfOrder)
  {
  }

  function Recorded(checks: seq<Check>, name: Option<CheckName>): seq<Check> {
    match name
    case None => checks
    case Some(n) => checks + [Check(n, true)]
  }

  /** The checks recorded when this requirement is about to be examined. */
  function Passed(stage: Stage, stateful: bool): seq<Check>
    decreases Rank(stage), stateful
  {
    if stage.SizeLimit? then []
    else
      PreviousRank(stage);
      Recorded(Passed(Previous(stage), stateful), Trace(Previous(stage), stateful))
  }

  function AllPassed(stateful: bool): seq<Check> { Recorded(Passed(LAST, stateful), Trace(LAST, stateful)) }

  /** A result describes the receipt whenever its claims can be read. */
  function Described(c: Call): Option<ReceiptInfo> {
    if ClaimsOf(c).Some? then Some(InfoOf(ClaimsOf(c).value)) else None
  }

  /** The answer when this requirement is the first to fail. */
  function AnswerAt(c: Call, stateful: bool, stage: Stage): Result<VerificationResult, VerifyError> {
    match FailureOf(stage)
    case Abort(error) => Err(error)
    case Report(name, error) =>
      var checks := Passed(stage, stateful) + [Check(name, false)];
      Ok(VerificationResult(false, Described(c), checks, false, Some(error)))
  }

  function ValidAnswer(c: Call, stateful: bool): Result<VerificationResult, VerifyError> {
    Ok(VerificationResult(true, Described(c), AllPassed(stateful), c.hardware, None))
  }

  // ---------------------------------------------------------------------
  // About the order
  // ---------------------------------------------------------------------

  lemma {:induction false} BeforeMeaning(c: Call, state: ReplayState, stage: Stage)
    ensures Before(c, state, stage) <==> forall s: Stage | Rank(s) < Rank(stage) :: Holds(c, state, s)
    decreases Rank(stage)
  {
    if !stage.SizeLimit? {
      PreviousRank(stage);
      BeforeMeaning(c, state, Previous(stage));
      forall s: Stage | Rank(s) < Rank(stage) && Rank(s) >= Rank(stage) - 1
        ensures s == Previous(stage)
      {
        SameRank(s, Previous(stage));
      }
    }
  }

  /** Checking in order is checking the policy. */
  lemma PolicyIsOrderFree(c: Call, state: ReplayState)
    ensures Policy(c, state) <==> Before(c, state, LAST) && Holds(c, state, LAST)
  {
    BeforeMeaning(c, state, LAST);
    forall s: Stage
      ensures Rank(s) < Rank(LAST) || s == LAST
    {
    }
  }

  /** At most one requirement is the first to fail, and then the policy fails. */
  lemma FirstFailureIsUnique(c: Call, state: ReplayState, s: Stage, t: Stage)
    requires FirstFailure(c, state, s) && FirstFailure(c, state, t)
    ensures s == t && !Policy(c, state)
  {
    NotAfter(c, state, s, t);
    NotAfter(c, state, t, s);
    SameRank(s, t);
  }

  /** What comes after a requirement that fails is never reached. */
  lemma NotAfter(c: Call, state: ReplayState, s: Stage, t: Stage)
    requires Before(c, state, s) && !Holds(c, state, t)
    ensures Rank(s) <= Rank(t)
  {
    BeforeMeaning(c, state, s);
  }

  lemma {:induction false} PassedMeansPassed(stage: Stage, stateful: bool)
    ensures forall x | x in Passed(stage, stateful) :: x.passed
    decreases Rank(stage)
  {
    if !stage.SizeLimit? {
      PreviousRank(stage);
      PassedMeansPassed(Previous(stage), stateful);
    }
  }

  lemma {:induction false} PassedIsPrefix(s: Stage, t: Stage, stateful: bool)
    requires Rank(s) <= Rank(t)
    ensures Passed(s, stateful) <= Passed(t, stateful)
    decreases Rank(t)
  {
    if Rank(s) == Rank(t) {
      SameRank(s, t);
    } else {
      PreviousRank(t);
      PassedIsPrefix(s, Previous(t), stateful);
    }
  }
}
