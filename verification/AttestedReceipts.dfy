/**
 Receipt verification over the attestation check: what an accepted receipt proves about the document
 it carries.
 */
module AttestedReceipts {
  import opened Types
  import opened Cose
  import opened VerificationPolicy
  import opened ReceiptVerifier
  import Chain = CertificateChain

  /** What both attestation providers answer: whether the document check succeeds; its errors are no. */
  method ProviderVerify(chain: Chain.Library, docBytes: Bytes, expectedRoot: Bytes, now: int) returns (verified: bool)
    ensures verified <==> Chain.DocumentAccepted(chain, docBytes, expectedRoot, now)
  {
    var checked := Chain.VerifyAttestationDoc(chain, docBytes, expectedRoot, now);
    verified := checked.Ok?;
  }

  /** The verifier's provider is one of those, reading the clock anew for each root, and both read
      envelopes and documents alike. */
  ghost predicate ChecksChains(lib: Library, chain: Chain.Library, clockAt: Bytes -> int) {
    && chain.parseCose == lib.parseCose && chain.parseDoc == lib.parseDoc
    && forall report, root ::
         lib.attests(report, root) == Some(Chain.DocumentAccepted(chain, report, root, clockAt(root)))
  }

  /** The document is the payload of an envelope signed by a sound leaf that leads to the root. */
  ghost predicate Vouched(
    chain: Chain.Library, report: Bytes, root: Bytes, now: int, doc: AttestationDoc, leaf: Chain.Certificate) {
    && chain.parseCose(report).Some?
    && var cose := chain.parseCose(report).value;
       && cose.payload.Some? && chain.parseDoc(cose.payload.value) == Some(doc)
       && chain.parseCertificate(doc.certificate) == Some(leaf)
       && Chain.SoundLeaf(chain, leaf, now) && Chain.SignedByLeaf(chain, cose, leaf)
       && Chain.LeadsToRoot(chain, leaf, doc.cabundle, root, now)
  }

  /** What the policy asked of the document itself. */
  predicate Checked(c: Call, doc: AttestationDoc, key: Digest) {
    && doc.nonce == Some(c.nonce) && doc.publicKey == Some(key)
    && doc.userData == Some(ReportData(c.lib.sha512, key))
    && 0 in doc.pcrs && doc.pcrs[0] == c.pcr0
  }

  lemma PolicyChecksDocument(c: Call, st: ReplayState)
    requires Policy(c, st)
    ensures DocOf(c).Some? && ClaimsOf(c).Some? && Checked(c, DocOf(c).value, ClaimsOf(c).value.enclavePubkey)
    ensures SomeRootVouches(c.lib, c.trustedRoots, ClaimsOf(c).value.attestationReport)
  {
    PolicyGivesDocAndClaims(c, st);
    PlatformStages(c, st, ClaimsOf(c).value, DocOf(c).value);
    NonceStages(c, st, ClaimsOf(c).value, DocOf(c).value);
    ReportStages(c, st, ClaimsOf(c).value);
    assert Holds(c, st, PcrMatches) && Holds(c, st, PubkeyBound);
    assert Holds(c, st, ReportDataBound) && Holds(c, st, NoncesMatch) && Holds(c, st, ChainVerifies);
  }

  /** The document the verifier reads is the one the chain check read. */
  lemma AcceptedDocumentIsVouched(c: Call, chain: Chain.Library, clockAt: Bytes -> int, root: Bytes)
    requires ChecksChains(c.lib, chain, clockAt) && ClaimsOf(c).Some? && DocOf(c).Some?
    requires c.lib.attests(ClaimsOf(c).value.attestationReport, root) == Some(true)
    ensures exists leaf ::
      Vouched(chain, ClaimsOf(c).value.attestationReport, root, clockAt(root), DocOf(c).value, leaf)
  {
    var report := ClaimsOf(c).value.attestationReport;
    assert Chain.DocumentAccepted(chain, report, root, clockAt(root));
    var leaf := Chain.ReadReport(chain, report).value.2;
    assert Vouched(chain, report, root, clockAt(root), DocOf(c).value, leaf);
  }

  /** An accepted receipt carries a document with the caller's nonce and PCR0 and the receipt's key, in an
      envelope signed by a leaf that leads to one of the caller's roots. */
  lemma AcceptedReceiptIsAttested(c: Call, st: ReplayState, chain: Chain.Library, clockAt: Bytes -> int)
    requires Policy(c, st) && ChecksChains(c.lib, chain, clockAt)
    ensures DocOf(c).Some? && ClaimsOf(c).Some? && Checked(c, DocOf(c).value, ClaimsOf(c).value.enclavePubkey)
    ensures exists root, leaf ::
      root in c.trustedRoots
      && Vouched(chain, ClaimsOf(c).value.attestationReport, root, clockAt(root), DocOf(c).value, leaf)
  {
    PolicyChecksDocument(c, st);
    var root :| root in c.trustedRoots
                && c.lib.attests(ClaimsOf(c).value.attestationReport, root) == Some(true);
    AcceptedDocumentIsVouched(c, chain, clockAt, root);
  }

  /** The chain requirement of the policy is met exactly when the check succeeds for some root. */
  lemma ChainRequirementMeans(c: Call, st: ReplayState, chain: Chain.Library, clockAt: Bytes -> int)
    requires ChecksChains(c.lib, chain, clockAt) && ClaimsOf(c).Some?
    ensures Holds(c, st, ChainVerifies) <==>
      exists root | root in c.trustedRoots ::
        Chain.DocumentAccepted(chain, ClaimsOf(c).value.attestationReport, root, clockAt(root))
  {
    ReportStages(c, st, ClaimsOf(c).value);
    var report := ClaimsOf(c).value.attestationReport;
    forall root
      ensures c.lib.attests(report, root) == Some(true)
              <==> Chain.DocumentAccepted(chain, report, root, clockAt(root))
    {
    }
  }
}
