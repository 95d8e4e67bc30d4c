/** COSE_Sign1 envelopes and the attestation document, as far as the code looks into them. */
module Cose {
  import opened Types

  datatype Algorithm = EdDSA | ES384 | OtherAlgorithm

  /** `unprotectedOther` tells whether the unprotected header holds anything besides an algorithm, a
      content type and a critical list. */
  datatype CoseSign1 = CoseSign1(
    protectedAlg: Option<Algorithm>, unprotectedAlg: Option<Algorithm>,
    protectedCrit: bool, unprotectedCrit: bool, unprotectedOther: bool,
    protectedContentType: Option<string>, unprotectedContentType: Option<string>,
    payload: Option<Bytes>, signature: Bytes, tbs: Bytes)

  predicate UnprotectedEmpty(cose: CoseSign1) {
    cose.unprotectedAlg.None? && !cose.unprotectedCrit && cose.unprotectedContentType.None? && !cose.unprotectedOther
  }

  datatype AttestationDoc = AttestationDoc(
    moduleId: Bytes, timestamp: u64, pcrs: map<nat, Bytes>, certificate: Bytes, cabundle: seq<Bytes>,
    publicKey: Option<Bytes>, userData: Option<Bytes>, nonce: Option<Bytes>)
}
