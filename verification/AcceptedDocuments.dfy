/**
 Which attestation documents are accepted, and why the others are not, read off the certificates' own
 extension lists: no statement here rests on the names the walk is specified with.
 */
module AcceptedDocuments {
  import opened Types
  import opened Cose
  import opened CertificateChain

  // ---------------------------------------------------------------------
  // One certificate
  // ---------------------------------------------------------------------

  /** Entry i is the last extension of its kind in the list. */
  predicate LastEntry(extensions: seq<Extension>, i: int, id: ExtensionId) {
    && 0 <= i < |extensions| && extensions[i].id == id
    && forall j | i < j < |extensions| :: extensions[j].id != id
  }

  /** The certificate's own list; one without extensions has an empty one. */
  function ListOf(cert: Certificate): seq<Extension> {
    match cert.extensions
    case None => []
    case Some(list) => list
  }

  /** Valid now, every constraint and usage readable, nothing else critical. */
  ghost predicate WellMade(lib: Library, cert: Certificate, now: int) {
    && cert.notBefore <= now && now <= cert.notAfter
    && forall i | 0 <= i < |ListOf(cert)| ::
         && (ListOf(cert)[i].id == BasicConstraintsId ==> lib.parseBasicConstraints(ListOf(cert)[i].value).Some?)
         && (ListOf(cert)[i].id == KeyUsageId ==> lib.parseKeyUsage(ListOf(cert)[i].value).Some?)
         && (ListOf(cert)[i].id.OtherId? ==> !ListOf(cert)[i].critical)
  }

  /** The last constraints, if any, do not make it a CA, and the last usage, if any, lets it sign. */
  ghost predicate GoodLeaf(lib: Library, cert: Certificate, now: int) {
    && WellMade(lib, cert, now)
    && (forall i | LastEntry(ListOf(cert), i, BasicConstraintsId) ::
          !lib.parseBasicConstraints(ListOf(cert)[i].value).value.ca)
    && (forall i | LastEntry(ListOf(cert), i, KeyUsageId) ::
          lib.parseKeyUsage(ListOf(cert)[i].value).value.digitalSignature)
  }

  /** The last constraints make it a CA, and the last usage, if any, lets it sign certificates. */
  ghost predicate GoodCa(lib: Library, cert: Certificate, now: int) {
    && WellMade(lib, cert, now)
    && (exists i :: LastEntry(ListOf(cert), i, BasicConstraintsId)
                    && lib.parseBasicConstraints(ListOf(cert)[i].value).value.ca)
    && (forall i | LastEntry(ListOf(cert), i, KeyUsageId) ::
          lib.parseKeyUsage(ListOf(cert)[i].value).value.keyCertSign)
  }

  /** The last constraints in the list limit the number of CAs below to n. */
  ghost predicate LimitedTo(lib: Library, cert: Certificate, n: nat) {
    exists i :: LastEntry(ListOf(cert), i, BasicConstraintsId)
                && lib.parseBasicConstraints(ListOf(cert)[i].value).Some?
                && lib.parseBasicConstraints(ListOf(cert)[i].value).value.pathLen == Some(n)
  }

  /** There is room below the certificate for this many CAs. */
  ghost predicate RoomFor(lib: Library, cert: Certificate, below: nat) {
    forall n: nat | LimitedTo(lib, cert, n) :: below <= n
  }

  lemma LastIs(extensions: seq<Extension>, id: ExtensionId)
    ensures LastOf(extensions, id).None? <==> forall i :: !LastEntry(extensions, i, id)
    ensures forall i | LastEntry(extensions, i, id) :: LastOf(extensions, id) == Some(extensions[i].value)
    ensures LastOf(extensions, id).Some? ==> exists i :: LastEntry(extensions, i, id)
  {
    if LastOf(extensions, id).Some? {
      var i :| 0 <= i < |extensions| && extensions[i].id == id && extensions[i].value == LastOf(extensions, id).value
               && forall k | i < k < |extensions| :: extensions[k].id != id;
      assert LastEntry(extensions, i, id);
      forall j | LastEntry(extensions, j, id)
        ensures i == j
      {
      }
    } else {
      forall i
        ensures !LastEntry(extensions, i, id)
      {
        if 0 <= i < |extensions| {
          assert extensions[i] in extensions;
        }
      }
    }
  }

  lemma WellMadeIsSound(lib: Library, cert: Certificate, now: int)
    ensures Sound(lib, cert, now) <==> WellMade(lib, cert, now)
  {
    var list := ListOf(cert);
    assert WellMade(lib, cert, now) <==>
      cert.notBefore <= now <= cert.notAfter && forall i | 0 <= i < |list| :: ExtensionOk(lib, list[i]) by {
      forall i | 0 <= i < |list|
        ensures ExtensionOk(lib, list[i]) <==>
          && (list[i].id == BasicConstraintsId ==> lib.parseBasicConstraints(list[i].value).Some?)
          && (list[i].id == KeyUsageId ==> lib.parseKeyUsage(list[i].value).Some?)
          && (list[i].id.OtherId? ==> !list[i].critical)
      {
      }
    }
    assert (forall i | 0 <= i < |list| :: ExtensionOk(lib, list[i])) <==> forall e | e in list :: ExtensionOk(lib, e);
  }

  lemma ReadsOf(lib: Library, cert: Certificate)
    ensures Constraints(lib, cert) == ConstraintsIn(lib, ListOf(cert)) && Usage(lib, cert) == UsageIn(lib, ListOf(cert))
  {
  }

  lemma GoodLeafIsSound(lib: Library, cert: Certificate, now: int)
    ensures SoundLeaf(lib, cert, now) <==> GoodLeaf(lib, cert, now)
  {
    WellMadeIsSound(lib, cert, now);
    ReadsOf(lib, cert);
    LastIs(ListOf(cert), BasicConstraintsId);
    LastIs(ListOf(cert), KeyUsageId);
  }

  lemma GoodCaIsSound(lib: Library, cert: Certificate, now: int)
    ensures SoundCa(lib, cert, now) <==> GoodCa(lib, cert, now)
  {
    WellMadeIsSound(lib, cert, now);
    ReadsOf(lib, cert);
    LastIs(ListOf(cert), BasicConstraintsId);
    LastIs(ListOf(cert), KeyUsageId);
  }

  /** The limit the walk reads is the one in the certificate's own last constraints. */
  lemma LimitIs(lib: Library, cert: Certificate)
    ensures forall n: nat :: LimitedTo(lib, cert, n) <==> PathLen(lib, cert) == Some(n)
    ensures forall below: nat :: RoomFor(lib, cert, below) <==> WithinLen(PathLen(lib, cert), below)
  {
    ReadsOf(lib, cert);
    LastIs(ListOf(cert), BasicConstraintsId);
    forall n: nat
      ensures LimitedTo(lib, cert, n) <==> PathLen(lib, cert) == Some(n)
    {
    }
    forall below: nat
      ensures RoomFor(lib, cert, below) <==> WithinLen(PathLen(lib, cert), below)
    {
      if PathLen(lib, cert).Some? {
        assert LimitedTo(lib, cert, PathLen(lib, cert).value);
      }
    }
  }

  // ---------------------------------------------------------------------
  // The path
  // ---------------------------------------------------------------------

  /** The certificates of a path, the leaf first: the leaf, and above it the entries of the bundle from its end. */
  ghost predicate ReadsPath(lib: Library, leaf: Certificate, bundle: seq<Bytes>, path: seq<Certificate>) {
    && 0 < |path| <= |bundle| + 1 && path[0] == leaf
    && forall k | 0 < k < |path| :: lib.parseCertificate(bundle[|bundle| - k]) == Some(path[k])
  }

  predicate SignedBy(lib: Library, child: Certificate, parent: Certificate) {
    && child.issuer == parent.subject && lib.isKey(parent.publicKey) && child.tbs.Some?
    && lib.isDerSignature(child.signature)
    && lib.verifies(parent.publicKey, child.tbs.value, child.signature)
  }

  /** Every certificate above the leaf is a good CA with room for those between, signs the one below, and only the
      last is the root. */
  ghost predicate GoodPath(lib: Library, leaf: Certificate, bundle: seq<Bytes>, root: Bytes, now: int,
                           path: seq<Certificate>) {
    && ReadsPath(lib, leaf, bundle, path)
    && (forall k | 0 < k < |path| ::
          GoodCa(lib, path[k], now) && SignedBy(lib, path[k - 1], path[k]) && RoomFor(lib, path[k], k - 1))
    && (forall k | 0 < k < |path| - 1 :: lib.encodeCertificate(path[k]).Some?)
    && (forall k | 0 < k < |path| - 1 :: lib.encodeCertificate(path[k]) != Some(root))
    && lib.encodeCertificate(path[|path| - 1]) == Some(root)
    && (|path| == 1 ==> bundle == [])
  }

  lemma LinkIs(lib: Library, leaf: Certificate, bundle: seq<Bytes>, now: int, path: seq<Certificate>, k: nat)
    requires ReadsPath(lib, leaf, bundle, path) && k + 1 < |path|
    ensures Link(lib, leaf, bundle, now, k) && LenOk(lib, bundle, k) <==>
      && GoodCa(lib, path[k + 1], now) && SignedBy(lib, path[k], path[k + 1]) && RoomFor(lib, path[k + 1], k)
      && lib.encodeCertificate(path[k + 1]).Some?
  {
    assert Above(bundle, k) == bundle[|bundle| - (k + 1)];
    assert Below(lib, leaf, bundle, k) == Some(path[k]);
    GoodCaIsSound(lib, path[k + 1], now);
    LimitIs(lib, path[k + 1]);
  }

  lemma PathOf(lib: Library, leaf: Certificate, bundle: seq<Bytes>, root: Bytes, now: int, length: nat)
    returns (path: seq<Certificate>)
    requires PathOfLength(lib, leaf, bundle, root, now, length)
    ensures GoodPath(lib, leaf, bundle, root, now, path) && |path| == length + 1
  {
    path := seq(length + 1, k requires 0 <= k <= length =>
      if k == 0 then leaf
      else
        assert Link(lib, leaf, bundle, now, k - 1);
        lib.parseCertificate(bundle[|bundle| - k]).value);
    forall k | 0 < k < |path|
      ensures lib.parseCertificate(bundle[|bundle| - k]) == Some(path[k])
    {
      assert Link(lib, leaf, bundle, now, k - 1) && Above(bundle, k - 1) == bundle[|bundle| - k];
    }
    forall k | 0 < k < |path|
      ensures GoodCa(lib, path[k], now) && SignedBy(lib, path[k - 1], path[k]) && RoomFor(lib, path[k], k - 1)
      ensures lib.encodeCertificate(path[k]).Some?
      ensures lib.encodeCertificate(path[k]) == Some(root) <==> IsRoot(lib, bundle, root, k - 1)
    {
      LinkIs(lib, leaf, bundle, now, path, k - 1);
    }
  }

  lemma LengthOf(lib: Library, leaf: Certificate, bundle: seq<Bytes>, root: Bytes, now: int, path: seq<Certificate>)
    requires GoodPath(lib, leaf, bundle, root, now, path) && |path| > 1
    ensures PathOfLength(lib, leaf, bundle, root, now, |path| - 1)
  {
    forall k: nat | k < |path| - 1
      ensures Link(lib, leaf, bundle, now, k) && LenOk(lib, bundle, k)
      ensures IsRoot(lib, bundle, root, k) <==> lib.encodeCertificate(path[k + 1]) == Some(root)
    {
      LinkIs(lib, leaf, bundle, now, path, k);
    }
  }

  /** The leaf leads to the root exactly when there is such a path. */
  lemma LeadsByPath(lib: Library, leaf: Certificate, bundle: seq<Bytes>, root: Bytes, now: int)
    ensures LeadsToRoot(lib, leaf, bundle, root, now) <==> exists path :: GoodPath(lib, leaf, bundle, root, now, path)
  {
    if bundle == [] && lib.encodeCertificate(leaf) == Some(root) {
      assert GoodPath(lib, leaf, bundle, root, now, [leaf]);
    }
    forall length: nat | PathOfLength(lib, leaf, bundle, root, now, length)
      ensures exists path :: GoodPath(lib, leaf, bundle, root, now, path)
    {
      var path := PathOf(lib, leaf, bundle, root, now, length);
    }
    forall path | GoodPath(lib, leaf, bundle, root, now, path)
      ensures LeadsToRoot(lib, leaf, bundle, root, now)
    {
      if |path| > 1 {
        LengthOf(lib, leaf, bundle, root, now, path);
      }
    }
  }

  // ---------------------------------------------------------------------
  // Section 6.1.4 of RFC 5280
  // ---------------------------------------------------------------------

  /** The limits in the certificates of the path above the leaf, root first. */
  ghost predicate LimitsOf(lib: Library, path: seq<Certificate>, limits: seq<Option<nat>>) {
    && |limits| == |path| - 1
    && forall i, n: nat | 0 <= i < |limits| :: limits[i] == Some(n) <==> LimitedTo(lib, path[|path| - 1 - i], n)
  }

  /** The counter of RFC 5280 over the limits read from the certificates' own lists accepts exactly the paths all of
      whose certificates have room for the CAs between them and the leaf. */
  lemma RoomMatchesRfc5280(lib: Library, path: seq<Certificate>, limits: seq<Option<nat>>)
    requires path != [] && LimitsOf(lib, path, limits)
    ensures CounterAccepts(limits, |path|) <==> forall k | 0 < k < |path| :: RoomFor(lib, path[k], k - 1)
  {
    CounterMeaning(limits, |path|);
    forall i | 0 <= i < |limits|
      ensures WithinLen(limits[i], |limits| - 1 - i) <==> RoomFor(lib, path[|path| - 1 - i], |limits| - 1 - i)
    {
      if limits[i].Some? {
        assert LimitedTo(lib, path[|path| - 1 - i], limits[i].value);
      }
    }
    if forall i | 0 <= i < |limits| :: WithinLen(limits[i], |limits| - 1 - i) {
      forall k | 0 < k < |path|
        ensures RoomFor(lib, path[k], k - 1)
      {
        assert WithinLen(limits[|path| - 1 - k], |limits| - 1 - (|path| - 1 - k));
      }
    }
  }

  // ---------------------------------------------------------------------
  // The document
  // ---------------------------------------------------------------------

  /** The envelope, its document and the leaf certificate in it can be read. */
  predicate Readable(lib: Library, docBytes: Bytes, cose: CoseSign1, doc: AttestationDoc, leaf: Certificate) {
    && lib.parseCose(docBytes) == Some(cose)
    && cose.protectedAlg == Some(ES384) && !cose.protectedCrit
    && cose.unprotectedAlg == None && !cose.unprotectedCrit && cose.unprotectedContentType == None
    && !cose.unprotectedOther
    && cose.payload.Some? && lib.parseDoc(cose.payload.value) == Some(doc)
    && lib.parseCertificate(doc.certificate) == Some(leaf)
  }

  predicate EnvelopeSigned(lib: Library, cose: CoseSign1, leaf: Certificate) {
    && lib.isKey(leaf.publicKey) && lib.isRawSignature(cose.signature)
    && lib.verifies(leaf.publicKey, cose.tbs, cose.signature)
  }

  lemma ReadableIs(lib: Library, docBytes: Bytes)
    ensures forall cose, doc, leaf ::
      Readable(lib, docBytes, cose, doc, leaf) <==> ReadReport(lib, docBytes) == Some((cose, doc, leaf))
  {
  }

  /** A document is accepted exactly when its envelope is readable and signed by a good leaf with a good path. */
  lemma AcceptedMeans(lib: Library, docBytes: Bytes, root: Bytes, now: int)
    ensures DocumentAccepted(lib, docBytes, root, now) <==>
      exists cose, doc, leaf, path ::
        && Readable(lib, docBytes, cose, doc, leaf) && GoodLeaf(lib, leaf, now) && EnvelopeSigned(lib, cose, leaf)
        && GoodPath(lib, leaf, doc.cabundle, root, now, path)
  {
    ReadableIs(lib, docBytes);
    if ReadReport(lib, docBytes).Some? {
      var (cose, doc, leaf) := ReadReport(lib, docBytes).value;
      GoodLeafIsSound(lib, leaf, now);
      LeadsByPath(lib, leaf, doc.cabundle, root, now);
      assert Readable(lib, docBytes, cose, doc, leaf);
    }
  }

  /** So no certificate of an accepted document stands above more CAs than its own last constraints allow. */
  lemma NoPathTooLong(lib: Library, docBytes: Bytes, root: Bytes, now: int)
    requires DocumentAccepted(lib, docBytes, root, now)
    ensures exists cose, doc, leaf, path ::
      && Readable(lib, docBytes, cose, doc, leaf) && ReadsPath(lib, leaf, doc.cabundle, path)
      && lib.encodeCertificate(path[|path| - 1]) == Some(root)
      && forall k, i, n: nat | 0 < k < |path| && LastEntry(ListOf(path[k]), i, BasicConstraintsId)
                          && lib.parseBasicConstraints(ListOf(path[k])[i].value)
                             == Some(BasicConstraints(true, Some(n)))
         :: k - 1 <= n
  {
    AcceptedMeans(lib, docBytes, root, now);
    var cose, doc, leaf, path :|
      && Readable(lib, docBytes, cose, doc, leaf) && GoodLeaf(lib, leaf, now) && EnvelopeSigned(lib, cose, leaf)
      && GoodPath(lib, leaf, doc.cabundle, root, now, path);
    forall k, i, n: nat | 0 < k < |path| && LastEntry(ListOf(path[k]), i, BasicConstraintsId)
                     && lib.parseBasicConstraints(ListOf(path[k])[i].value) == Some(BasicConstraints(true, Some(n)))
      ensures k - 1 <= n
    {
      assert LimitedTo(lib, path[k], n);
      assert RoomFor(lib, path[k], k - 1);
    }
  }

  // ---------------------------------------------------------------------
  // Refusals
  // ---------------------------------------------------------------------

  /** Good as far as it goes, and the root has not occurred. */
  ghost predicate GoodSoFar(lib: Library, leaf: Certificate, bundle: seq<Bytes>, root: Bytes, now: int,
                            path: seq<Certificate>) {
    && ReadsPath(lib, leaf, bundle, path)
    && forall k | 0 < k < |path| ::
         && GoodCa(lib, path[k], now) && SignedBy(lib, path[k - 1], path[k]) && RoomFor(lib, path[k], k - 1)
         && lib.encodeCertificate(path[k]).Some? && lib.encodeCertificate(path[k]) != Some(root)
  }

  /** What is wrong after that: the next entry cannot be read, is no good CA with room for the CAs below or not the
      issuer, or does not verify; or there is no next entry. */
  ghost predicate FaultAfter(lib: Library, bundle: seq<Bytes>, now: int, path: seq<Certificate>, e: AttestationError)
    requires 0 < |path| <= |bundle| + 1
  {
    var child := path[|path| - 1];
    if |path| == |bundle| + 1 then
      e == if bundle == [] && lib.encodeCertificate(child).None? then InvalidAttestationDocument else ValidationError
    else
      match lib.parseCertificate(bundle[|bundle| - |path|])
      case None => e == InvalidAttestationDocument
      case Some(cert) =>
        if !GoodCa(lib, cert, now) || !RoomFor(lib, cert, |path| - 1) || child.issuer != cert.subject
        then e == ValidationError
        else e == InvalidAttestationDocument
             && (!SignedBy(lib, child, cert) || lib.encodeCertificate(cert).None?)
  }

  lemma PrefixOf(lib: Library, leaf: Certificate, bundle: seq<Bytes>, root: Bytes, now: int, n: nat)
    returns (path: seq<Certificate>)
    requires n <= |bundle| && Reached(lib, leaf, bundle, root, now, n)
    ensures GoodSoFar(lib, leaf, bundle, root, now, path) && |path| == n + 1
    ensures Below(lib, leaf, bundle, n) == Some(path[n])
  {
    path := seq(n + 1, k requires 0 <= k <= n =>
      if k == 0 then leaf
      else
        assert Link(lib, leaf, bundle, now, k - 1);
        lib.parseCertificate(bundle[|bundle| - k]).value);
    forall k | 0 < k < |path|
      ensures lib.parseCertificate(bundle[|bundle| - k]) == Some(path[k])
    {
      assert Link(lib, leaf, bundle, now, k - 1) && Above(bundle, k - 1) == bundle[|bundle| - k];
    }
    assert ReadsPath(lib, leaf, bundle, path);
    forall k | 0 < k < |path|
      ensures GoodCa(lib, path[k], now) && SignedBy(lib, path[k - 1], path[k]) && RoomFor(lib, path[k], k - 1)
      ensures lib.encodeCertificate(path[k]).Some? && lib.encodeCertificate(path[k]) != Some(root)
    {
      LinkIs(lib, leaf, bundle, now, path, k - 1);
      assert !IsRoot(lib, bundle, root, k - 1);
    }
  }

  lemma FaultIs(lib: Library, leaf: Certificate, bundle: seq<Bytes>, now: int, path: seq<Certificate>, k: nat)
    requires k < |bundle| && |path| == k + 1 && Below(lib, leaf, bundle, k) == Some(path[k])
    requires !(Link(lib, leaf, bundle, now, k) && LenOk(lib, bundle, k))
    ensures FaultAfter(lib, bundle, now, path,
                       if Unsound(lib, leaf, bundle, now, k) then ValidationError else InvalidAttestationDocument)
  {
    assert Above(bundle, k) == bundle[|bundle| - |path|];
    var parsed := lib.parseCertificate(Above(bundle, k));
    if parsed.Some? {
      GoodCaIsSound(lib, parsed.value, now);
      LimitIs(lib, parsed.value);
    }
  }

  /** A chain that is refused is good up to some point, and the error is that of what comes there. */
  lemma RefusedMeans(lib: Library, leaf: Certificate, bundle: seq<Bytes>, root: Bytes, now: int, e: AttestationError)
    requires RefusedWith(lib, leaf, bundle, root, now, e)
    ensures exists path :: GoodSoFar(lib, leaf, bundle, root, now, path) && FaultAfter(lib, bundle, now, path, e)
  {
    if Reached(lib, leaf, bundle, root, now, |bundle|)
       && e == (if bundle == [] && lib.encodeCertificate(leaf).None? then InvalidAttestationDocument
                else ValidationError) {
      var path := PrefixOf(lib, leaf, bundle, root, now, |bundle|);
      assert FaultAfter(lib, bundle, now, path, e);
    } else {
      var k: nat :| k < |bundle| && Reached(lib, leaf, bundle, root, now, k)
                    && !(Link(lib, leaf, bundle, now, k) && LenOk(lib, bundle, k))
                    && e == if Unsound(lib, leaf, bundle, now, k) then ValidationError else InvalidAttestationDocument;
      var path := PrefixOf(lib, leaf, bundle, root, now, k);
      FaultIs(lib, leaf, bundle, now, path, k);
    }
  }

  /** Verification of a document from its bytes, with every case spelled out. */
  method VerifyInFull(lib: Library, docBytes: Bytes, root: Bytes, now: int)
    returns (r: Result<AttestationDoc, AttestationError>)
    ensures r.Ok? <==>
      exists cose, doc, leaf, path ::
        && Readable(lib, docBytes, cose, doc, leaf) && GoodLeaf(lib, leaf, now) && EnvelopeSigned(lib, cose, leaf)
        && GoodPath(lib, leaf, doc.cabundle, root, now, path)
    ensures forall cose, doc, leaf | Readable(lib, docBytes, cose, doc, leaf) ::
      && (r.Ok? ==> r.value == doc)
      && (r.Err? ==>
            if !GoodLeaf(lib, leaf, now) then r.error == ValidationError
            else if !EnvelopeSigned(lib, cose, leaf) then r.error == InvalidAttestationDocument
            else exists path :: GoodSoFar(lib, leaf, doc.cabundle, root, now, path)
                                && FaultAfter(lib, doc.cabundle, now, path, r.error))
    ensures (forall cose, doc, leaf :: !Readable(lib, docBytes, cose, doc, leaf)) ==>
      r == Err(InvalidAttestationDocument)
  {
    AcceptedMeans(lib, docBytes, root, now);
    ReadableIs(lib, docBytes);
    r := VerifyAttestationDoc(lib, docBytes, root, now);
    if ReadReport(lib, docBytes).Some? {
      var (cose, doc, leaf) := ReadReport(lib, docBytes).value;
      assert Readable(lib, docBytes, cose, doc, leaf);
      GoodLeafIsSound(lib, leaf, now);
      if r.Err? && SoundLeaf(lib, leaf, now) && SignedByLeaf(lib, cose, leaf) {
        RefusedMeans(lib, leaf, doc.cabundle, root, now, r.error);
      }
    }
  }
}
