/** The claim set of a receipt and its map encoding. */
module ClaimCodec {
  import opened Types

  datatype VeriClaims = VeriClaims(
    modelHash: Digest, inputHash: Digest, outputHash: Digest, clientNonce: Digest,
    sequenceNum: u64, attestationReport: Bytes, attestationType: u64, attestationTimestamp: i64,
    sdkVersion: string, enclavePubkey: Digest)

  const CLAIM_MODEL_HASH := 6000
  const CLAIM_INPUT_HASH := 6001
  const CLAIM_OUTPUT_HASH := 6002
  const CLAIM_CLIENT_NONCE := 6003
  const CLAIM_SEQUENCE_NUM := 6004
  const CLAIM_ATTESTATION_REPORT := 6005
  const CLAIM_ATTESTATION_TYPE := 6006
  const CLAIM_ATTESTATION_TIMESTAMP := 6007
  const CLAIM_SDK_VERSION := 6011
  const CLAIM_ENCLAVE_PUBKEY := 6012

  /** A CBOR data item as far as the claim reader tells items apart. */
  datatype Value = ByteList(bytes: Bytes) | Integer(n: int) | Text(text: string) | Other

  datatype Key = IntKey(n: int) | OtherKey

  datatype Entry = Entry(key: Key, value: Value)

  datatype DecodeError = BadEntry(index: nat) | Missing(key: int)

  // What next_value yields at each target type

  function ReadBytes(v: Value): Option<Bytes> {
    if v.ByteList? then Some(v.bytes) else None
  }

  function ReadDigest(v: Value): Option<Digest> {
    if v.ByteList? && |v.bytes| == 32 then Some(v.bytes) else None
  }

  function ReadU64(v: Value): Option<u64> {
    if v.Integer? && 0 <= v.n <= U64_MAX then Some(v.n) else None
  }

  function ReadI64(v: Value): Option<i64> {
    if v.Integer? && I64_MIN <= v.n <= I64_MAX then Some(v.n) else None
  }

  function ReadText(v: Value): Option<string> {
    if v.Text? then Some(v.text) else None
  }

  predicate Reserved(k: int) { 6008 <= k <= 6010 }

  /** The value has the form its claim needs; any value will do for an unknown claim. */
  predicate WellFormed(k: int, v: Value) {
    if k in {CLAIM_MODEL_HASH, CLAIM_INPUT_HASH, CLAIM_OUTPUT_HASH, CLAIM_CLIENT_NONCE, CLAIM_ENCLAVE_PUBKEY}
    then ReadDigest(v).Some?
    else if k == CLAIM_SEQUENCE_NUM || k == CLAIM_ATTESTATION_TYPE then ReadU64(v).Some?
    else if k == CLAIM_ATTESTATION_REPORT then ReadBytes(v).Some?
    else if k == CLAIM_ATTESTATION_TIMESTAMP then ReadI64(v).Some?
    else if k == CLAIM_SDK_VERSION then ReadText(v).Some?
    else true
  }

  predicate Known(k: int) {
    CLAIM_MODEL_HASH <= k <= CLAIM_ATTESTATION_TIMESTAMP || k == CLAIM_SDK_VERSION || k == CLAIM_ENCLAVE_PUBKEY
  }

  predicate EntryOk(e: Entry) {
    e.key.IntKey? && I64_MIN <= e.key.n <= I64_MAX && !Reserved(e.key.n) && WellFormed(e.key.n, e.value)
  }

  /** The last value given for a key. */
  function LastValue(entries: seq<Entry>, k: int): (r: Option<Value>)
    ensures r.Some? ==> Entry(IntKey(k), r.value) in entries
    ensures r.None? ==> forall e | e in entries :: e.key != IntKey(k)
  {
    if entries == [] then None
    else
      var last := entries[|entries| - 1];
      if last.key == IntKey(k) then Some(last.value) else LastValue(entries[..|entries| - 1], k)
  }

  /** No bad entry, and every claim present; the order of the entries plays no part. */
  ghost predicate Acceptable(entries: seq<Entry>) {
    && (forall e | e in entries :: EntryOk(e))
    && (forall k | Known(k) :: LastValue(entries, k).Some?)
  }

  /** The claims an acceptable map stands for: the last value of each key. */
  ghost function Claims(entries: seq<Entry>): VeriClaims
    requires Acceptable(entries)
  {
    var v := (k: int) requires Known(k) => LastValue(entries, k).value;
    VeriClaims(
      ReadDigest(v(CLAIM_MODEL_HASH)).value, ReadDigest(v(CLAIM_INPUT_HASH)).value,
      ReadDigest(v(CLAIM_OUTPUT_HASH)).value, ReadDigest(v(CLAIM_CLIENT_NONCE)).value,
      ReadU64(v(CLAIM_SEQUENCE_NUM)).value, ReadBytes(v(CLAIM_ATTESTATION_REPORT)).value,
      ReadU64(v(CLAIM_ATTESTATION_TYPE)).value, ReadI64(v(CLAIM_ATTESTATION_TIMESTAMP)).value,
      ReadText(v(CLAIM_SDK_VERSION)).value, ReadDigest(v(CLAIM_ENCLAVE_PUBKEY)).value)
  }

  ghost function Decoded(entries: seq<Entry>): Option<VeriClaims> {
    if Acceptable(entries) then Some(Claims(entries)) else None
  }

  // ---------------------------------------------------------------------
  // Reading and writing
  // ---------------------------------------------------------------------

  lemma LastValueAppend(entries: seq<Entry>, e: Entry)
    ensures forall k :: LastValue(entries + [e], k)
                     == if e.key == IntKey(k) then Some(e.value) else LastValue(entries, k)
  {
    assert (entries + [e])[..|entries|] == entries;
  }

  function DigestAt(entries: seq<Entry>, k: int): Option<Digest> {
    match LastValue(entries, k) case None => None case Some(v) => ReadDigest(v)
  }

  function U64At(entries: seq<Entry>, k: int): Option<u64> {
    match LastValue(entries, k) case None => None case Some(v) => ReadU64(v)
  }

  function BytesAt(entries: seq<Entry>, k: int): Option<Bytes> {
    match LastValue(entries, k) case None => None case Some(v) => ReadBytes(v)
  }

  function I64At(entries: seq<Entry>, k: int): Option<i64> {
    match LastValue(entries, k) case None => None case Some(v) => ReadI64(v)
  }

  function TextAt(entries: seq<Entry>, k: int): Option<string> {
    match LastValue(entries, k) case None => None case Some(v) => ReadText(v)
  }

  /** What has been read so far, one option for each claim. */
  datatype Fields = Fields(
    modelHash: Option<Digest>, inputHash: Option<Digest>, outputHash: Option<Digest>, clientNonce: Option<Digest>,
    sequenceNum: Option<u64>, attestationReport: Option<Bytes>, attestationType: Option<u64>,
    attestationTimestamp: Option<i64>, sdkVersion: Option<string>, enclavePubkey: Option<Digest>)

  function FieldsOf(entries: seq<Entry>): Fields {
    Fields(
      DigestAt(entries, CLAIM_MODEL_HASH), DigestAt(entries, CLAIM_INPUT_HASH),
      DigestAt(entries, CLAIM_OUTPUT_HASH), DigestAt(entries, CLAIM_CLIENT_NONCE),
      U64At(entries, CLAIM_SEQUENCE_NUM), BytesAt(entries, CLAIM_ATTESTATION_REPORT),
      U64At(entries, CLAIM_ATTESTATION_TYPE), I64At(entries, CLAIM_ATTESTATION_TIMESTAMP),
      TextAt(entries, CLAIM_SDK_VERSION), DigestAt(entries, CLAIM_ENCLAVE_PUBKEY))
  }

  /** Reads one entry into the field of its key; ignores unknown keys. */
  method ReadEntry(entry: Entry, before: Fields, ghost entries: seq<Entry>) returns (r: Option<Fields>)
    requires before == FieldsOf(entries)
    ensures r.None? <==> !EntryOk(entry)
    ensures r.Some? ==> r.value == FieldsOf(entries + [entry])
  {
    LastValueAppend(entries, entry);
    if !(entry.key.IntKey? && I64_MIN <= entry.key.n <= I64_MAX) {
      return None;
    }
    var key, val := entry.key.n, entry.value;
    var fields := before;
    if key == CLAIM_MODEL_HASH {
      fields := fields.(modelHash := ReadDigest(val));
      if fields.modelHash.None? {
        return None;
      }
    } else if key == CLAIM_INPUT_HASH {
      fields := fields.(inputHash := ReadDigest(val));
      if fields.inputHash.None? {
        return None;
      }
    } else if key == CLAIM_OUTPUT_HASH {
      fields := fields.(outputHash := ReadDigest(val));
      if fields.outputHash.None? {
        return None;
      }
    } else if key == CLAIM_CLIENT_NONCE {
      fields := fields.(clientNonce := ReadDigest(val));
      if fields.clientNonce.None? {
        return None;
      }
    } else if key == CLAIM_SEQUENCE_NUM {
      fields := fields.(sequenceNum := ReadU64(val));
      if fields.sequenceNum.None? {
        return None;
      }
    } else if key == CLAIM_ATTESTATION_REPORT {
      fields := fields.(attestationReport := ReadBytes(val));
      if fields.attestationReport.None? {
        return None;
      }
    } else if key == CLAIM_ATTESTATION_TYPE {
      fields := fields.(attestationType := ReadU64(val));
      if fields.attestationType.None? {
        return None;
      }
    } else if key == CLAIM_ATTESTATION_TIMESTAMP {
      fields := fields.(attestationTimestamp := ReadI64(val));
      if fields.attestationTimestamp.None? {
        return None;
      }
    } else if key == CLAIM_SDK_VERSION {
      fields := fields.(sdkVersion := ReadText(val));
      if fields.sdkVersion.None? {
        return None;
      }
    } else if key == CLAIM_ENCLAVE_PUBKEY {
      fields := fields.(enclavePubkey := ReadDigest(val));
      if fields.enclavePubkey.None? {
        return None;
      }
    } else if 6008 <= key <= 6010 {
      return None;
    }
    r := Some(fields);
  }

  /** The reader's loop.  It succeeds exactly on acceptable maps; otherwise it names the first bad
      entry, or, when no entry is bad, the first missing claim. */
  method VisitMap(entries: seq<Entry>) returns (r: Result<VeriClaims, DecodeError>)
    ensures r.Ok? <==> Acceptable(entries)
    ensures r.Ok? ==> r.value == Claims(entries)
    ensures r.Err? && r.error.BadEntry? ==>
      && r.error.index < |entries| && !EntryOk(entries[r.error.index])
      && forall i | 0 <= i < r.error.index :: EntryOk(entries[i])
    ensures r.Err? && r.error.Missing? ==>
      && (forall e | e in entries :: EntryOk(e))
      && Known(r.error.key) && LastValue(entries, r.error.key).None?
      && forall k | Known(k) && k < r.error.key :: LastValue(entries, k).Some?
  {
    var fields := Fields(None, None, None, None, None, None, None, None, None, None);
    for i := 0 to |entries|
      invariant forall j | 0 <= j < i :: EntryOk(entries[j])
      invariant fields == FieldsOf(entries[..i])
    {
      assert entries[..i + 1] == entries[..i] + [entries[i]];
      var read := ReadEntry(entries[i], fields, entries[..i]);
      if read.None? {
        assert entries[i] in entries;
        return Err(BadEntry(i));
      }
      fields := read.value;
    }
    assert entries[..|entries|] == entries;
    assert forall e | e in entries :: EntryOk(e);
    r := Finish(fields, entries);
  }

  /** A claim is missing exactly when its key was never given a value. */
  lemma FieldPresent(entries: seq<Entry>, k: int)
    requires Known(k) && forall e | e in entries :: EntryOk(e)
    ensures LastValue(entries, k).Some? ==> WellFormed(k, LastValue(entries, k).value)
  {
    if LastValue(entries, k).Some? {
      assert EntryOk(Entry(IntKey(k), LastValue(entries, k).value));
    }
  }

  /** The checks after the loop, in the order of the claims. */
  method Finish(fields: Fields, ghost entries: seq<Entry>) returns (r: Result<VeriClaims, DecodeError>)
    requires fields == FieldsOf(entries) && forall e | e in entries :: EntryOk(e)
    ensures r.Ok? <==> Acceptable(entries)
    ensures r.Ok? ==> r.value == Claims(entries)
    ensures r.Err? ==>
      && r.error.Missing? && Known(r.error.key) && LastValue(entries, r.error.key).None?
      && forall k | Known(k) && k < r.error.key :: LastValue(entries, k).Some?
  {
    forall k | Known(k)
      ensures LastValue(entries, k).Some? ==> WellFormed(k, LastValue(entries, k).value)
    {
      FieldPresent(entries, k);
    }
    if fields.modelHash.None? {
      return Err(Missing(CLAIM_MODEL_HASH));
    }
    if fields.inputHash.None? {
      return Err(Missing(CLAIM_INPUT_HASH));
    }
    if fields.outputHash.None? {
      return Err(Missing(CLAIM_OUTPUT_HASH));
    }
    if fields.clientNonce.None? {
      return Err(Missing(CLAIM_CLIENT_NONCE));
    }
    if fields.sequenceNum.None? {
      return Err(Missing(CLAIM_SEQUENCE_NUM));
    }
    if fields.attestationReport.None? {
      return Err(Missing(CLAIM_ATTESTATION_REPORT));
    }
    if fields.attestationType.None? {
      return Err(Missing(CLAIM_ATTESTATION_TYPE));
    }
    if fields.attestationTimestamp.None? {
      return Err(Missing(CLAIM_ATTESTATION_TIMESTAMP));
    }
    if fields.sdkVersion.None? {
      return Err(Missing(CLAIM_SDK_VERSION));
    }
    if fields.enclavePubkey.None? {
      return Err(Missing(CLAIM_ENCLAVE_PUBKEY));
    }
    r := Ok(VeriClaims(
      fields.modelHash.value, fields.inputHash.value, fields.outputHash.value, fields.clientNonce.value,
      fields.sequenceNum.value, fields.attestationReport.value, fields.attestationType.value,
      fields.attestationTimestamp.value, fields.sdkVersion.value, fields.enclavePubkey.value));
  }

  /** The ten entries, in the order they are written. */
  function Serialize(c: VeriClaims): seq<Entry> {
    [ Entry(IntKey(CLAIM_MODEL_HASH), ByteList(c.modelHash)),
      Entry(IntKey(CLAIM_INPUT_HASH), ByteList(c.inputHash)),
      Entry(IntKey(CLAIM_OUTPUT_HASH), ByteList(c.outputHash)),
      Entry(IntKey(CLAIM_CLIENT_NONCE), ByteList(c.clientNonce)),
      Entry(IntKey(CLAIM_SEQUENCE_NUM), Integer(c.sequenceNum)),
      Entry(IntKey(CLAIM_ATTESTATION_REPORT), ByteList(c.attestationReport)),
      Entry(IntKey(CLAIM_ATTESTATION_TYPE), Integer(c.attestationType)),
      Entry(IntKey(CLAIM_ATTESTATION_TIMESTAMP), Integer(c.attestationTimestamp)),
      Entry(IntKey(CLAIM_SDK_VERSION), Text(c.sdkVersion)),
      Entry(IntKey(CLAIM_ENCLAVE_PUBKEY), ByteList(c.enclavePubkey)) ]
  }

  // ---------------------------------------------------------------------
  // Laws
  // ---------------------------------------------------------------------

  ghost predicate DuplicateFree(entries: seq<Entry>) {
    forall i, j | 0 <= i < j < |entries| :: entries[i].key != entries[j].key
  }

  /** Without duplicates the last value of a key is its only value. */
  lemma OnlyValue(entries: seq<Entry>, e: Entry)
    requires DuplicateFree(entries) && e in entries && e.key.IntKey?
    ensures LastValue(entries, e.key.n) == Some(e.value)
  {
    var found := LastValue(entries, e.key.n).value;
    var i :| 0 <= i < |entries| && entries[i] == e;
    var j :| 0 <= j < |entries| && entries[j] == Entry(e.key, found);
    assert i == j;
  }

  /** The value written for a known key. */
  function Written(c: VeriClaims, k: int): Value
    requires Known(k)
  {
    if k <= CLAIM_ATTESTATION_TIMESTAMP then Serialize(c)[k - CLAIM_MODEL_HASH].value
    else if k == CLAIM_SDK_VERSION then Text(c.sdkVersion)
    else ByteList(c.enclavePubkey)
  }

  lemma SerializedEntry(c: VeriClaims, k: int)
    requires Known(k)
    ensures Entry(IntKey(k), Written(c, k)) in Serialize(c)
  {
    var i := if k <= CLAIM_ATTESTATION_TIMESTAMP then k - CLAIM_MODEL_HASH else if k == CLAIM_SDK_VERSION then 8 else 9;
    assert Serialize(c)[i] == Entry(IntKey(k), Written(c, k));
  }

  lemma SerializedIsSound(c: VeriClaims)
    ensures DuplicateFree(Serialize(c)) && forall e | e in Serialize(c) :: EntryOk(e)
  {
  }

  /** Reading what was written gives the claims back. */
  lemma RoundTrip(c: VeriClaims)
    ensures Decoded(Serialize(c)) == Some(c)
  {
    SerializedIsSound(c);
    forall k | Known(k)
      ensures LastValue(Serialize(c), k) == Some(Written(c, k))
    {
      SerializedEntry(c, k);
      OnlyValue(Serialize(c), Entry(IntKey(k), Written(c, k)));
    }
    WrittenClaims(c, Serialize(c));
  }

  lemma WrittenClaims(c: VeriClaims, entries: seq<Entry>)
    requires forall e | e in entries :: EntryOk(e)
    requires forall k | Known(k) :: LastValue(entries, k) == Some(Written(c, k))
    ensures Decoded(entries) == Some(c)
  {
  }

  lemma SameLastValues(a: seq<Entry>, b: seq<Entry>)
    requires (forall e | e in a :: EntryOk(e)) <==> (forall e | e in b :: EntryOk(e))
    requires forall k | Known(k) :: LastValue(a, k) == LastValue(b, k)
    ensures Decoded(a) == Decoded(b)
  {
  }

  /** The order of duplicate-free entries does not matter. */
  lemma OrderDoesNotMatter(a: seq<Entry>, b: seq<Entry>)
    requires DuplicateFree(a) && DuplicateFree(b) && multiset(a) == multiset(b)
    ensures Decoded(a) == Decoded(b)
  {
    assert forall e :: e in a <==> e in multiset(a);
    assert forall e :: e in b <==> e in multiset(b);
    forall k | Known(k)
      ensures LastValue(a, k) == LastValue(b, k)
    {
      if LastValue(a, k).Some? {
        OnlyValue(b, Entry(IntKey(k), LastValue(a, k).value));
      }
    }
    SameLastValues(a, b);
  }

  lemma {:induction false} LastValueInsert(before: seq<Entry>, e: Entry, after: seq<Entry>, k: int)
    requires e.key != IntKey(k) || LastValue(after, k).Some?
    ensures LastValue(before + [e] + after, k) == LastValue(before + after, k)
    decreases |after|
  {
    if after == [] {
      assert before + [e] + after == before + [e] && before + after == before;
      LastValueAppend(before, e);
    } else {
      var last, rest := after[|after| - 1], after[..|after| - 1];
      assert before + [e] + after == (before + [e] + rest) + [last];
      assert before + after == (before + rest) + [last];
      LastValueAppend(before + [e] + rest, last);
      LastValueAppend(before + rest, last);
      if last.key != IntKey(k) {
        LastValueInsert(before, e, rest, k);
      }
    }
  }

  /** An entry that is sound in itself and either unknown or given again later changes nothing:
      unknown keys are ignored and the last duplicate wins. */
  lemma InsertedEntryDoesNotMatter(before: seq<Entry>, e: Entry, after: seq<Entry>)
    requires EntryOk(e) && (!Known(e.key.n) || LastValue(after, e.key.n).Some?)
    ensures Decoded(before + [e] + after) == Decoded(before + after)
  {
    forall k | Known(k)
      ensures LastValue(before + [e] + after, k) == LastValue(before + after, k)
    {
      LastValueInsert(before, e, after, k);
    }
    assert forall x :: x in before + [e] + after <==> x == e || x in before + after;
    SameLastValues(before + [e] + after, before + after);
  }

  // ---------------------------------------------------------------------
  // In numbers
  // ---------------------------------------------------------------------

  /** Which entries are let through: integer keys of 64 bits, none of the three reserved ones, and for the ten claims
      a value of the right kind. */
  lemma EntryOkMeans(e: Entry)
    ensures EntryOk(e) <==>
      && e.key.IntKey? && -9223372036854775808 <= e.key.n <= 9223372036854775807
      && e.key.n != 6008 && e.key.n != 6009 && e.key.n != 6010
      && (e.key.n in {6000, 6001, 6002, 6003, 6012} ==> e.value.ByteList? && |e.value.bytes| == 32)
      && (e.key.n in {6004, 6006} ==> e.value.Integer? && 0 <= e.value.n <= 18446744073709551615)
      && (e.key.n == 6005 ==> e.value.ByteList?)
      && (e.key.n == 6007 ==>
            e.value.Integer? && -9223372036854775808 <= e.value.n <= 9223372036854775807)
      && (e.key.n == 6011 ==> e.value.Text?)
  {
  }

  lemma KnownMeans(k: int)
    ensures Known(k) <==> k in {6000, 6001, 6002, 6003, 6004, 6005, 6006, 6007, 6011, 6012}
  {
  }

  /** Entry i is the last one under the key, and has this value. */
  predicate EndsAt(entries: seq<Entry>, k: int, v: Value, i: nat) {
    && i < |entries| && entries[i] == Entry(IntKey(k), v)
    && forall j | i < j < |entries| :: entries[j].key != IntKey(k)
  }

  /** The last entry under the key has this value. */
  ghost predicate Ends(entries: seq<Entry>, k: int, v: Value) { exists i: nat :: EndsAt(entries, k, v, i) }

  lemma {:induction false} LastValueEnds(entries: seq<Entry>, k: int)
    ensures forall v :: LastValue(entries, k) == Some(v) <==> Ends(entries, k, v)
    decreases |entries|
  {
    if entries != [] {
      LastValueEnds(entries[..|entries| - 1], k);
      forall v
        ensures LastValue(entries, k) == Some(v) <==> Ends(entries, k, v)
      {
        EndsInRest(entries, k, v);
      }
    }
  }

  lemma EndsInRest(entries: seq<Entry>, k: int, v: Value)
    requires entries != []
    ensures var n := |entries| - 1;
      Ends(entries, k, v) <==> if entries[n].key == IntKey(k) then entries[n].value == v else Ends(entries[..n], k, v)
  {
    var n := |entries| - 1;
    if entries[n].key == IntKey(k) {
      forall i: nat | EndsAt(entries, k, v, i)
        ensures i == n
      {
      }
      assert entries[n].value == v ==> EndsAt(entries, k, v, n);
    } else {
      forall i: nat
        ensures EndsAt(entries, k, v, i) <==> EndsAt(entries[..n], k, v, i)
      {
      }
    }
  }

  /** The ten claims are the last values under their ten keys. */
  ghost predicate Carries(entries: seq<Entry>, c: VeriClaims) {
    && Ends(entries, 6000, ByteList(c.modelHash)) && Ends(entries, 6001, ByteList(c.inputHash))
    && Ends(entries, 6002, ByteList(c.outputHash)) && Ends(entries, 6003, ByteList(c.clientNonce))
    && Ends(entries, 6004, Integer(c.sequenceNum)) && Ends(entries, 6005, ByteList(c.attestationReport))
    && Ends(entries, 6006, Integer(c.attestationType)) && Ends(entries, 6007, Integer(c.attestationTimestamp))
    && Ends(entries, 6011, Text(c.sdkVersion)) && Ends(entries, 6012, ByteList(c.enclavePubkey))
  }

  lemma TenKeys(p: int -> bool)
    ensures (forall k | Known(k) :: p(k)) <==>
      p(6000) && p(6001) && p(6002) && p(6003) && p(6004) && p(6005) && p(6006) && p(6007) && p(6011) && p(6012)
  {
  }

  lemma WrittenTable(c: VeriClaims)
    ensures Written(c, 6000) == ByteList(c.modelHash) && Written(c, 6001) == ByteList(c.inputHash)
    ensures Written(c, 6002) == ByteList(c.outputHash) && Written(c, 6003) == ByteList(c.clientNonce)
    ensures Written(c, 6004) == Integer(c.sequenceNum) && Written(c, 6005) == ByteList(c.attestationReport)
    ensures Written(c, 6006) == Integer(c.attestationType) && Written(c, 6007) == Integer(c.attestationTimestamp)
    ensures Written(c, 6011) == Text(c.sdkVersion) && Written(c, 6012) == ByteList(c.enclavePubkey)
  {
  }

  lemma CarriedIsWritten(entries: seq<Entry>, c: VeriClaims)
    ensures Carries(entries, c) <==> forall k | Known(k) :: LastValue(entries, k) == Some(Written(c, k))
  {
    var p := (k: int) => Known(k) && LastValue(entries, k) == Some(Written(c, k));
    TenKeys(p);
    WrittenTable(c);
    forall k
      ensures forall v :: LastValue(entries, k) == Some(v) <==> Ends(entries, k, v)
    {
      LastValueEnds(entries, k);
    }
    assert (forall k | Known(k) :: p(k)) <==> forall k | Known(k) :: LastValue(entries, k) == Some(Written(c, k));
  }

  /** A map is read as these claims exactly when no entry is bad and it carries them. */
  lemma DecodedMeans(entries: seq<Entry>, c: VeriClaims)
    ensures Decoded(entries) == Some(c) <==> (forall e | e in entries :: EntryOk(e)) && Carries(entries, c)
  {
    CarriedIsWritten(entries, c);
    if (forall e | e in entries :: EntryOk(e)) && Carries(entries, c) {
      WrittenClaims(c, entries);
    }
    if Decoded(entries) == Some(c) {
      ClaimsAreWritten(entries, c);
    }
  }

  lemma ClaimsAreWritten(entries: seq<Entry>, c: VeriClaims)
    requires Acceptable(entries) && Claims(entries) == c
    ensures forall k | Known(k) :: LastValue(entries, k) == Some(Written(c, k))
  {
    forall k | Known(k)
      ensures WellFormed(k, LastValue(entries, k).value)
    {
      FieldPresent(entries, k);
    }
  }
}
