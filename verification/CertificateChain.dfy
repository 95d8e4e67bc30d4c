/**
 The attestation document check: certificate validation, the leaf-to-root walk over
 the bundle, and its agreement with the path-length counter of section 6.1.4 of RFC 5280.
 */
module CertificateChain {
  import opened Types
  import opened Cose

  datatype AttestationError = InvalidAttestationDocument | ValidationError

  datatype ExtensionId = BasicConstraintsId | KeyUsageId | OtherId(oid: string)

  datatype Extension = Extension(id: ExtensionId, critical: bool, value: Bytes)

  datatype BasicConstraints = BasicConstraints(ca: bool, pathLen: Option<nat>)

  datatype KeyUsage = KeyUsage(digitalSignature: bool, keyCertSign: bool)

  datatype Certificate = Certificate(
    notBefore: int, notAfter: int, extensions: Option<seq<Extension>>,
    issuer: Bytes, subject: Bytes, publicKey: Bytes, tbs: Option<Bytes>, signature: Bytes)

  /** The library functions the walk calls; nothing is assumed about them. */
  datatype Library = Library(
    parseCose: Bytes -> Option<CoseSign1>,
    parseDoc: Bytes -> Option<AttestationDoc>,
    parseCertificate: Bytes -> Option<Certificate>,
    encodeCertificate: Certificate -> Option<Bytes>,
    parseBasicConstraints: Bytes -> Option<BasicConstraints>,
    parseKeyUsage: Bytes -> Option<KeyUsage>,
    isKey: Bytes -> bool,
    isDerSignature: Bytes -> bool,
    isRawSignature: Bytes -> bool,
    verifies: (Bytes, Bytes, Bytes) -> bool)   // key, message, signature

  // ---------------------------------------------------------------------
  // One certificate
  // ---------------------------------------------------------------------

  /** Readable, and nothing critical that the walk does not understand; order plays no part. */
  predicate ExtensionOk(lib: Library, e: Extension) {
    match e.id
    case BasicConstraintsId => lib.parseBasicConstraints(e.value).Some?
    case KeyUsageId => lib.parseKeyUsage(e.value).Some?
    case OtherId(_) => !e.critical
  }

  /** The value of the last extension with the given id. */
  function LastOf(extensions: seq<Extension>, id: ExtensionId): (v: Option<Bytes>)
    ensures v.None? <==> forall e | e in extensions :: e.id != id
    ensures v.Some? ==> exists i :: 0 <= i < |extensions| && extensions[i].id == id && extensions[i].value == v.value
                                    && forall k | i < k < |extensions| :: extensions[k].id != id
  {
    if extensions == [] then None
    else
      var last := extensions[|extensions| - 1];
      if last.id == id then Some(last.value) else LastOf(extensions[..|extensions| - 1], id)
  }

  lemma LastOfAppend(extensions: seq<Extension>, e: Extension)
    ensures forall id :: LastOf(extensions + [e], id) == if e.id == id then Some(e.value) else LastOf(extensions, id)
  {
    assert (extensions + [e])[..|extensions|] == extensions;
  }

  function ConstraintsIn(lib: Library, extensions: seq<Extension>): Option<BasicConstraints> {
    match LastOf(extensions, BasicConstraintsId)
    case None => None
    case Some(v) => lib.parseBasicConstraints(v)
  }

  function UsageIn(lib: Library, extensions: seq<Extension>): Option<KeyUsage> {
    match LastOf(extensions, KeyUsageId)
    case None => None
    case Some(v) => lib.parseKeyUsage(v)
  }

  function Constraints(lib: Library, cert: Certificate): Option<BasicConstraints> {
    if cert.extensions.None? then None else ConstraintsIn(lib, cert.extensions.value)
  }

  function Usage(lib: Library, cert: Certificate): Option<KeyUsage> {
    if cert.extensions.None? then None else UsageIn(lib, cert.extensions.value)
  }

  ghost predicate Sound(lib: Library, cert: Certificate, now: int) {
    && cert.notBefore <= now <= cert.notAfter
    && (cert.extensions.Some? ==> forall e | e in cert.extensions.value :: ExtensionOk(lib, e))
  }

  ghost predicate SoundLeaf(lib: Library, cert: Certificate, now: int) {
    && Sound(lib, cert, now)
    && !(Constraints(lib, cert).Some? && Constraints(lib, cert).value.ca)
    && !(Usage(lib, cert).Some? && !Usage(lib, cert).value.digitalSignature)
  }

  /** A CA apart from its path length. */
  ghost predicate SoundCa(lib: Library, cert: Certificate, now: int) {
    && Sound(lib, cert, now)
    && Constraints(lib, cert).Some? && Constraints(lib, cert).value.ca
    && !(Usage(lib, cert).Some? && !Usage(lib, cert).value.keyCertSign)
  }

  function PathLen(lib: Library, cert: Certificate): Option<nat> {
    if Constraints(lib, cert).Some? then Constraints(lib, cert).value.pathLen else None
  }

  predicate WithinLen(limit: Option<nat>, subordinates: nat) {
    limit.Some? ==> subordinates <= limit.value
  }

  /** The extension loop accepts exactly the lists without a bad extension and leaves the last values. */
  method ScanExtensions(lib: Library, extensions: seq<Extension>)
    returns (r: Result<(Option<BasicConstraints>, Option<KeyUsage>), AttestationError>)
    ensures r.Ok? <==> forall e | e in extensions :: ExtensionOk(lib, e)
    ensures r.Ok? ==> r.value == (ConstraintsIn(lib, extensions), UsageIn(lib, extensions))
    ensures r.Err? ==> r.error == ValidationError
  {
    var basicConstraints: Option<BasicConstraints>, keyUsage: Option<KeyUsage> := None, None;
    for i := 0 to |extensions|
      invariant forall e | e in extensions[..i] :: ExtensionOk(lib, e)
      invariant basicConstraints == ConstraintsIn(lib, extensions[..i])
      invariant keyUsage == UsageIn(lib, extensions[..i])
    {
      var extension := extensions[i];
      assert extensions[..i + 1] == extensions[..i] + [extension];
      LastOfAppend(extensions[..i], extension);
      assert extension in extensions;
      if extension.id == BasicConstraintsId {
        basicConstraints := lib.parseBasicConstraints(extension.value);
        if basicConstraints.None? {
          return Err(ValidationError);
        }
      } else if extension.id == KeyUsageId {
        keyUsage := lib.parseKeyUsage(extension.value);
        if keyUsage.None? {
          return Err(ValidationError);
        }
      } else if extension.critical {
        return Err(ValidationError);
      }
    }
    assert extensions[..|extensions|] == extensions;
    r := Ok((basicConstraints, keyUsage));
  }

  method ValidateCert(lib: Library, cert: Certificate, isLeaf: bool, subordinateCaCount: nat, now: int)
    returns (r: Result<(), AttestationError>)
    ensures r.Ok? <==> if isLeaf then SoundLeaf(lib, cert, now)
                       else SoundCa(lib, cert, now) && WithinLen(PathLen(lib, cert), subordinateCaCount)
    ensures r.Err? ==> r.error == ValidationError
  {
    if now < cert.notBefore || now > cert.notAfter {
      return Err(ValidationError);
    }
    var basicConstraints: Option<BasicConstraints>, keyUsage: Option<KeyUsage> := None, None;
    if cert.extensions.Some? {
      var scanned := ScanExtensions(lib, cert.extensions.value);
      if scanned.Err? {
        return Err(scanned.error);
      }
      basicConstraints, keyUsage := scanned.value.0, scanned.value.1;
    }
    if isLeaf {
      if basicConstraints.Some? && basicConstraints.value.ca {
        return Err(ValidationError);
      }
      if keyUsage.Some? && !keyUsage.value.digitalSignature {
        return Err(ValidationError);
      }
    } else {
      if basicConstraints.None? {
        return Err(ValidationError);
      }
      var constraints := basicConstraints.value;
      if !constraints.ca {
        return Err(ValidationError);
      }
      if keyUsage.Some? && !keyUsage.value.keyCertSign {
        return Err(ValidationError);
      }
      if constraints.pathLen.Some? && subordinateCaCount > constraints.pathLen.value {
        return Err(ValidationError);
      }
    }
    r := Ok(());
  }

  // ---------------------------------------------------------------------
  // Paths
  // ---------------------------------------------------------------------

  /** `child` names `parent` as its issuer and carries its signature. */
  predicate Signed(lib: Library, child: Certificate, parent: Certificate) {
    && child.issuer == parent.subject
    && lib.isKey(parent.publicKey)
    && child.tbs.Some? && lib.isDerSignature(child.signature)
    && lib.verifies(parent.publicKey, child.tbs.value, child.signature)
  }

  /** Entry k of the bundle counted from its end: the k-th CA above the leaf. */
  function Above(bundle: seq<Bytes>, k: nat): Bytes
    requires k < |bundle|
  {
    bundle[|bundle| - 1 - k]
  }

  /** The certificates below position k: the leaf, or the CA before. */
  function Below(lib: Library, leaf: Certificate, bundle: seq<Bytes>, k: nat): Option<Certificate>
    requires k <= |bundle|
  {
    if k == 0 then Some(leaf) else lib.parseCertificate(Above(bundle, k - 1))
  }

  /** Position k holds a sound CA that signed the certificate below it. */
  ghost predicate Link(lib: Library, leaf: Certificate, bundle: seq<Bytes>, now: int, k: nat)
    requires k < |bundle|
  {
    && lib.parseCertificate(Above(bundle, k)).Some? && Below(lib, leaf, bundle, k).Some?
    && var parent := lib.parseCertificate(Above(bundle, k)).value;
       && SoundCa(lib, parent, now)
       && Signed(lib, Below(lib, leaf, bundle, k).value, parent)
       && lib.encodeCertificate(parent).Some?
  }

  ghost predicate LenOk(lib: Library, bundle: seq<Bytes>, k: nat)
    requires k < |bundle|
  {
    lib.parseCertificate(Above(bundle, k)).Some?
    && WithinLen(PathLen(lib, lib.parseCertificate(Above(bundle, k)).value), k)
  }

  predicate IsRoot(lib: Library, bundle: seq<Bytes>, root: Bytes, k: nat)
    requires k < |bundle|
  {
    lib.parseCertificate(Above(bundle, k)).Some?
    && lib.encodeCertificate(lib.parseCertificate(Above(bundle, k)).value) == Some(root)
  }

  /** The last `length` entries of the bundle, read backwards, lead from the leaf to the first
      occurrence of the root. */
  ghost predicate PathOfLength(lib: Library, leaf: Certificate, bundle: seq<Bytes>, root: Bytes, now: int,
                               length: nat) {
    && 0 < length <= |bundle|
    && (forall k | 0 <= k < length :: Link(lib, leaf, bundle, now, k) && LenOk(lib, bundle, k))
    && (forall k | 0 <= k < length - 1 :: !IsRoot(lib, bundle, root, k))
    && IsRoot(lib, bundle, root, length - 1)
  }

  ghost predicate LeadsToRoot(lib: Library, leaf: Certificate, bundle: seq<Bytes>, root: Bytes, now: int) {
    || (bundle == [] && lib.encodeCertificate(leaf) == Some(root))
    || exists length: nat :: PathOfLength(lib, leaf, bundle, root, now, length)
  }

  /** Position k is reached: everything below it is in order and the root has not occurred. */
  ghost predicate Reached(lib: Library, leaf: Certificate, bundle: seq<Bytes>, root: Bytes, now: int, k: nat)
    requires k <= |bundle|
  {
    forall j | 0 <= j < k :: Link(lib, leaf, bundle, now, j) && LenOk(lib, bundle, j) && !IsRoot(lib, bundle, root, j)
  }

  /** Position k holds a readable certificate that is no sound CA for its place, or is not the one named. */
  ghost predicate Unsound(lib: Library, leaf: Certificate, bundle: seq<Bytes>, now: int, k: nat)
    requires k < |bundle|
  {
    && lib.parseCertificate(Above(bundle, k)).Some? && Below(lib, leaf, bundle, k).Some?
    && var parent := lib.parseCertificate(Above(bundle, k)).value;
       || !SoundCa(lib, parent, now) || !WithinLen(PathLen(lib, parent), k)
       || Below(lib, leaf, bundle, k).value.issuer != parent.subject
  }

  /** Why a chain is refused: the fault of the first bad position, or that the root never occurs. */
  ghost predicate RefusedWith(
    lib: Library, leaf: Certificate, bundle: seq<Bytes>, root: Bytes, now: int, e: AttestationError) {
    || (exists k: nat | k < |bundle| ::
          && Reached(lib, leaf, bundle, root, now, k)
          && !(Link(lib, leaf, bundle, now, k) && LenOk(lib, bundle, k))
          && e == if Unsound(lib, leaf, bundle, now, k) then ValidationError else InvalidAttestationDocument)
    || (&& Reached(lib, leaf, bundle, root, now, |bundle|)
        && e == if bundle == [] && lib.encodeCertificate(leaf).None? then InvalidAttestationDocument
                else ValidationError)
  }

  /** The walk: accepts exactly when some suffix of the bundle is a path to the root, and otherwise
      names the first fault. */
  method WalkChain(lib: Library, leaf: Certificate, bundle: seq<Bytes>, expectedRoot: Bytes, now: int)
    returns (r: Result<(), AttestationError>)
    ensures r.Ok? <==> LeadsToRoot(lib, leaf, bundle, expectedRoot, now)
    ensures r.Err? ==> RefusedWith(lib, leaf, bundle, expectedRoot, now, r.error)
  {
    var currentCert := leaf;
    var verified := false;
    for k := 0 to |bundle|
      invariant !verified
      invariant Below(lib, leaf, bundle, k) == Some(currentCert)
      invariant Reached(lib, leaf, bundle, expectedRoot, now, k)
    {
      var parsed := lib.parseCertificate(Above(bundle, k));
      if parsed.None? {
        NoPathPast(lib, leaf, bundle, expectedRoot, now, k);
        return Err(InvalidAttestationDocument);
      }
      var parentCert := parsed.value;
      var validated := ValidateCert(lib, parentCert, false, k, now);
      if validated.Err? {
        NoPathPast(lib, leaf, bundle, expectedRoot, now, k);
        return Err(validated.error);
      }
      if currentCert.issuer != parentCert.subject {
        NoPathPast(lib, leaf, bundle, expectedRoot, now, k);
        return Err(ValidationError);
      }
      if !lib.isKey(parentCert.publicKey) || currentCert.tbs.None? || !lib.isDerSignature(currentCert.signature)
         || !lib.verifies(parentCert.publicKey, currentCert.tbs.value, currentCert.signature) {
        NoPathPast(lib, leaf, bundle, expectedRoot, now, k);
        return Err(InvalidAttestationDocument);
      }
      var parentDer := lib.encodeCertificate(parentCert);
      if parentDer.None? {
        NoPathPast(lib, leaf, bundle, expectedRoot, now, k);
        return Err(InvalidAttestationDocument);
      }
      if parentDer.value == expectedRoot {
        verified := true;
        assert PathOfLength(lib, leaf, bundle, expectedRoot, now, k + 1);
        break;
      }
      currentCert := parentCert;
    }
    assert |bundle| > 0 && !verified ==> !IsRoot(lib, bundle, expectedRoot, |bundle| - 1);
    if !verified {
      NoRootNoPath(lib, leaf, bundle, expectedRoot, now);
      var currentDer := lib.encodeCertificate(currentCert);
      if currentDer.None? {
        return Err(InvalidAttestationDocument);
      }
      if currentDer.value == expectedRoot {
        verified := true;
      }
    }
    if !verified {
      return Err(ValidationError);
    }
    r := Ok(());
  }

  lemma NoRootNoPath(lib: Library, leaf: Certificate, bundle: seq<Bytes>, root: Bytes, now: int)
    requires forall j | 0 <= j < |bundle| :: !IsRoot(lib, bundle, root, j)
    ensures forall length: nat :: !PathOfLength(lib, leaf, bundle, root, now, length)
  {
  }

  /** Once a position fails and the root has not occurred, no path exists. */
  lemma NoPathPast(lib: Library, leaf: Certificate, bundle: seq<Bytes>, root: Bytes, now: int, k: nat)
    requires k < |bundle|
    requires forall j | 0 <= j < k :: !IsRoot(lib, bundle, root, j)
    requires !(Link(lib, leaf, bundle, now, k) && LenOk(lib, bundle, k))
    ensures !LeadsToRoot(lib, leaf, bundle, root, now)
  {
    forall length: nat
      ensures !PathOfLength(lib, leaf, bundle, root, now, length)
    {
    }
  }

  // ---------------------------------------------------------------------
  // What the walk depends on
  // ---------------------------------------------------------------------

  /** The path ends at the first occurrence of the root, so its length is determined. */
  lemma PathLengthIsUnique(lib: Library, leaf: Certificate, bundle: seq<Bytes>, root: Bytes, now: int, m: nat, n: nat)
    requires PathOfLength(lib, leaf, bundle, root, now, m) && PathOfLength(lib, leaf, bundle, root, now, n)
    ensures m == n
  {
    assert IsRoot(lib, bundle, root, m - 1) && IsRoot(lib, bundle, root, n - 1);
  }

  /** Entries beyond the root never matter: whatever precedes an accepted suffix may be exchanged. */
  lemma EntriesBeyondRootNeverMatter(lib: Library, leaf: Certificate, before: seq<Bytes>, other: seq<Bytes>,
                                     path: seq<Bytes>, root: Bytes, now: int)
    requires PathOfLength(lib, leaf, before + path, root, now, |path|)
    ensures LeadsToRoot(lib, leaf, other + path, root, now)
  {
    var a, b := before + path, other + path;
    assert forall k | 0 <= k < |path| :: Above(b, k) == Above(a, k);
    forall k | 0 <= k < |path|
      ensures Link(lib, leaf, b, now, k) && LenOk(lib, b, k) && IsRoot(lib, b, root, k) == IsRoot(lib, a, root, k)
    {
      assert Link(lib, leaf, a, now, k) && LenOk(lib, a, k);
      assert Below(lib, leaf, b, k) == Below(lib, leaf, a, k);
    }
    assert PathOfLength(lib, leaf, b, root, now, |path|);
  }

  // ---------------------------------------------------------------------
  // Section 6.1.4 of RFC 5280
  // ---------------------------------------------------------------------

  /** Steps (l) and (m), root first, with every certificate counted: max_path_length must be positive,
      is decremented, and is then lowered to the certificate's own constraint. */
  predicate CounterAccepts(limits: seq<Option<nat>>, maxPathLength: nat)
    decreases |limits|
  {
    limits == []
    || (maxPathLength > 0
        && var left := maxPathLength - 1;
           CounterAccepts(limits[1..], if limits[0].Some? && limits[0].value < left then limits[0].value else left))
  }

  lemma {:induction false} CounterMeaning(limits: seq<Option<nat>>, maxPathLength: nat)
    ensures CounterAccepts(limits, maxPathLength)
      <==> |limits| <= maxPathLength && forall i | 0 <= i < |limits| :: WithinLen(limits[i], |limits| - 1 - i)
    decreases |limits|
  {
    if limits != [] && maxPathLength > 0 {
      var left := maxPathLength - 1;
      var next := if limits[0].Some? && limits[0].value < left then limits[0].value else left;
      CounterMeaning(limits[1..], next);
      var n := |limits|;
      if |limits| <= maxPathLength && forall i | 0 <= i < n :: WithinLen(limits[i], n - 1 - i) {
        assert WithinLen(limits[0], n - 1);
        assert forall i | 0 <= i < n - 1 :: limits[1..][i] == limits[i + 1];
      }
      if CounterAccepts(limits[1..], next) {
        forall i | 0 <= i < n
          ensures WithinLen(limits[i], n - 1 - i)
        {
          if i > 0 {
            assert limits[1..][i - 1] == limits[i];
          }
        }
      }
    }
  }

  /** The path-length constraints along a path, root first. */
  function RootFirstLimits(lib: Library, bundle: seq<Bytes>, length: nat): seq<Option<nat>>
    requires length <= |bundle|
  {
    seq(length, i requires 0 <= i < length =>
      match lib.parseCertificate(Above(bundle, length - 1 - i))
      case None => None
      case Some(cert) => PathLen(lib, cert))
  }

  /** A path to the root without any regard to path lengths. */
  ghost predicate UncountedPath(lib: Library, leaf: Certificate, bundle: seq<Bytes>, root: Bytes, now: int,
                                length: nat) {
    && 0 < length <= |bundle|
    && (forall k | 0 <= k < length :: Link(lib, leaf, bundle, now, k))
    && (forall k | 0 <= k < length - 1 :: !IsRoot(lib, bundle, root, k))
    && IsRoot(lib, bundle, root, length - 1)
  }

  /** The leaf-to-root index test accepts exactly the paths the root-to-leaf counter accepts. */
  lemma PathLengthsMatchRfc5280(lib: Library, leaf: Certificate, bundle: seq<Bytes>, root: Bytes, now: int, length: nat)
    ensures PathOfLength(lib, leaf, bundle, root, now, length)
      <==> UncountedPath(lib, leaf, bundle, root, now, length)
           && CounterAccepts(RootFirstLimits(lib, bundle, length), length + 1)
  {
    if UncountedPath(lib, leaf, bundle, root, now, length) {
      var limits := RootFirstLimits(lib, bundle, length);
      CounterMeaning(limits, length + 1);
      forall k | 0 <= k < length
        ensures LenOk(lib, bundle, k) <==> WithinLen(limits[length - 1 - k], k)
      {
        assert Link(lib, leaf, bundle, now, k);
      }
      if forall k | 0 <= k < length :: LenOk(lib, bundle, k) {
        forall i | 0 <= i < length
          ensures WithinLen(limits[i], length - 1 - i)
        {
          assert LenOk(lib, bundle, length - 1 - i);
        }
      }
      if CounterAccepts(limits, length + 1) {
        forall k | 0 <= k < length
          ensures LenOk(lib, bundle, k)
        {
          assert WithinLen(limits[length - 1 - k], length - 1 - (length - 1 - k));
        }
      }
    }
  }

  // ---------------------------------------------------------------------
  // The whole document
  // ---------------------------------------------------------------------

  /** The document of a readable report and its readable leaf certificate. */
  function ReadReport(lib: Library, docBytes: Bytes): Option<(CoseSign1, AttestationDoc, Certificate)> {
    match lib.parseCose(docBytes)
    case None => None
    case Some(cose) =>
      if cose.protectedAlg != Some(ES384) || cose.protectedCrit || !UnprotectedEmpty(cose)
         || cose.payload.None? then None
      else
        match lib.parseDoc(cose.payload.value)
        case None => None
        case Some(doc) =>
          match lib.parseCertificate(doc.certificate)
          case None => None
          case Some(leaf) => Some((cose, doc, leaf))
  }

  predicate SignedByLeaf(lib: Library, cose: CoseSign1, leaf: Certificate) {
    && lib.isKey(leaf.publicKey) && lib.isRawSignature(cose.signature)
    && lib.verifies(leaf.publicKey, cose.tbs, cose.signature)
  }

  ghost predicate DocumentAccepted(lib: Library, docBytes: Bytes, root: Bytes, now: int) {
    && ReadReport(lib, docBytes).Some?
    && var (cose, doc, leaf) := ReadReport(lib, docBytes).value;
       SoundLeaf(lib, leaf, now) && SignedByLeaf(lib, cose, leaf) && LeadsToRoot(lib, leaf, doc.cabundle, root, now)
  }

  /** Why a document is refused: unreadable, an unsound leaf, a bad signature, or a bad chain. */
  ghost predicate DocumentRefusedWith(lib: Library, docBytes: Bytes, root: Bytes, now: int, e: AttestationError) {
    match ReadReport(lib, docBytes)
    case None => e == InvalidAttestationDocument
    case Some((cose, doc, leaf)) =>
      if !SoundLeaf(lib, leaf, now) then e == ValidationError
      else if !SignedByLeaf(lib, cose, leaf) then e == InvalidAttestationDocument
      else RefusedWith(lib, leaf, doc.cabundle, root, now, e)
  }

  method VerifyAttestationDoc(lib: Library, docBytes: Bytes, expectedRoot: Bytes, now: int)
    returns (r: Result<AttestationDoc, AttestationError>)
    ensures r.Ok? <==> DocumentAccepted(lib, docBytes, expectedRoot, now)
    ensures r.Ok? ==> lib.parseDoc(lib.parseCose(docBytes).value.payload.value) == Some(r.value)
    ensures r.Err? ==> DocumentRefusedWith(lib, docBytes, expectedRoot, now, r.error)
  {
    var parsed := lib.parseCose(docBytes);
    if parsed.None? {
      return Err(InvalidAttestationDocument);
    }
    var cose := parsed.value;
    if cose.protectedAlg != Some(ES384) {
      return Err(InvalidAttestationDocument);
    }
    if cose.unprotectedAlg.Some? {
      return Err(InvalidAttestationDocument);
    }
    if cose.protectedCrit || !UnprotectedEmpty(cose) {
      return Err(InvalidAttestationDocument);
    }
    if cose.payload.None? {
      return Err(InvalidAttestationDocument);
    }
    var parsedDoc := lib.parseDoc(cose.payload.value);
    if parsedDoc.None? {
      return Err(InvalidAttestationDocument);
    }
    var doc := parsedDoc.value;
    var parsedLeaf := lib.parseCertificate(doc.certificate);
    if parsedLeaf.None? {
      return Err(InvalidAttestationDocument);
    }
    var leafCert := parsedLeaf.value;
    var validated := ValidateCert(lib, leafCert, true, 0, now);
    if validated.Err? {
      return Err(validated.error);
    }
    if !lib.isKey(leafCert.publicKey) || !lib.isRawSignature(cose.signature)
       || !lib.verifies(leafCert.publicKey, cose.tbs, cose.signature) {
      return Err(InvalidAttestationDocument);
    }
    var walked := WalkChain(lib, leafCert, doc.cabundle, expectedRoot, now);
    if walked.Err? {
      return Err(walked.error);
    }
    r := Ok(doc);
  }
}
