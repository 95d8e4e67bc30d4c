/**
 One stateful verifier over a whole series of submissions: exactly which of them it accepts.
 */
module SubmissionHistory {
  import opened Types
  import opened VerificationPolicy
  import opened ReceiptVerifier
  import opened ReceiptGenerator
  import Concurrent = ConcurrentGeneration

  /** The replay state of a verifier that started afresh and answered these calls. */
  ghost function StateOver(calls: seq<Call>): (st: ReplayState)
    ensures st.Some?
  {
    if calls == [] then Some(map[])
    else StateAfter(calls[|calls| - 1], StateOver(calls[..|calls| - 1]))
  }

  /** The call meets every requirement other than a fresh sequence number. */
  ghost predicate Presentable(c: Call) {
    Policy(c, None) && c.stateAvailable
  }

  function Identity(c: Call): Option<Digest> {
    if DocOf(c).Some? then Some(Fingerprint(c.lib, DocOf(c).value)) else None
  }

  function Number(c: Call): u64 {
    if ClaimsOf(c).Some? then ClaimsOf(c).value.sequenceNum else 0
  }

  /** Call c came from this identity and its receipt was in order. */
  ghost predicate From(c: Call, fp: Digest) {
    Presentable(c) && ClaimsOf(c).Some? && Identity(c) == Some(fp)
  }

  lemma PresentableMeans(c: Call)
    requires Presentable(c)
    ensures DocOf(c).Some? && ClaimsOf(c).Some? && Identity(c).Some? && From(c, Identity(c).value)
  {
    PolicyGivesDocAndClaims(c, None);
  }

  /** Remembering adds one requirement to those of a verifier that keeps no state. */
  lemma PolicyWithState(c: Call, st: ReplayState)
    requires st.Some?
    ensures Policy(c, st) <==>
      Presentable(c) && DocOf(c).Some? && ClaimsOf(c).Some? && Newer(c.lib, st.value, DocOf(c).value, ClaimsOf(c).value)
  {
    if Policy(c, st) {
      PolicyGivesDocAndClaims(c, st);
      SizeAndSequence(c, st, ClaimsOf(c).value, DocOf(c).value);
      assert Holds(c, st, StateAvailable) && Holds(c, st, SequenceFresh);
      forall s: Stage
        ensures Holds(c, None, s)
      {
        SameRequirement(c, st, None, s);
      }
    } else if Presentable(c) {
      PresentableMeans(c);
      SizeAndSequence(c, st, ClaimsOf(c).value, DocOf(c).value);
      forall s: Stage
        ensures Holds(c, st, s) || s.SequenceFresh?
      {
        SameRequirement(c, None, st, s);
      }
    }
  }

  lemma SameRequirement(c: Call, st: ReplayState, other: ReplayState, s: Stage)
    requires Holds(c, st, s)
    ensures Holds(c, other, s) || (other.Some? && (s.SequenceFresh? || s.StateAvailable?))
  {
  }

  /** The table says of each identity the greatest number it has presented. */
  ghost predicate Remembers(table: map<Digest, u64>, calls: seq<Call>, fp: Digest) {
    && (forall j | 0 <= j < |calls| && From(calls[j], fp) :: fp in table && Number(calls[j]) <= table[fp])
    && (fp in table ==> exists j :: 0 <= j < |calls| && From(calls[j], fp) && Number(calls[j]) == table[fp])
  }

  lemma {:induction false} TableMeaning(calls: seq<Call>, fp: Digest)
    ensures Remembers(StateOver(calls).value, calls, fp)
  {
    if calls != [] {
      var n := |calls| - 1;
      TableMeaning(calls[..n], fp);
      TableStep(StateOver(calls[..n]).value, calls, fp);
    }
  }

  lemma TableStep(table: map<Digest, u64>, calls: seq<Call>, fp: Digest)
    requires calls != [] && Remembers(table, calls[..|calls| - 1], fp)
    ensures Remembers(StateAfter(calls[|calls| - 1], Some(table)).value, calls, fp)
  {
    var n := |calls| - 1;
    var c := calls[n];
    PolicyWithState(c, Some(table));
    if Presentable(c) {
      PresentableMeans(c);
    }
    var after := StateAfter(c, Some(table)).value;
    forall j | 0 <= j < |calls| && From(calls[j], fp)
      ensures fp in after && Number(calls[j]) <= after[fp]
    {
      assert j < n ==> calls[..n][j] == calls[j];
    }
    if fp in after {
      if Policy(c, Some(table)) && Identity(c) == Some(fp) {
        assert From(calls[n], fp) && Number(calls[n]) == after[fp];
      } else {
        var j :| 0 <= j < n && From(calls[..n][j], fp) && Number(calls[..n][j]) == table[fp];
        assert From(calls[j], fp) && Number(calls[j]) == after[fp];
      }
    }
  }

  /** Submission i is greater than every earlier one of its identity that was in order. */
  ghost predicate StrictMaximum(calls: seq<Call>, i: nat)
    requires i < |calls| && Presentable(calls[i])
  {
    PresentableMeans(calls[i]);
    forall j | 0 <= j < i && From(calls[j], Identity(calls[i]).value) :: Number(calls[j]) < Number(calls[i])
  }

  ghost predicate Accepted(calls: seq<Call>, i: nat)
    requires i < |calls|
  {
    Policy(calls[i], StateOver(calls[..i]))
  }

  /** Of any series of calls, a verifier that started afresh accepts exactly those that are in order and
      whose number is a strict left-to-right maximum among those of their identity. */
  lemma AcceptsStrictMaxima(calls: seq<Call>, i: nat)
    requires i < |calls|
    ensures Accepted(calls, i) <==> Presentable(calls[i]) && StrictMaximum(calls, i)
  {
    var c := calls[i];
    var st := StateOver(calls[..i]);
    PolicyWithState(c, st);
    if Presentable(c) {
      PresentableMeans(c);
      var fp := Identity(c).value;
      TableMeaning(calls[..i], fp);
      assert forall j | 0 <= j < i :: calls[..i][j] == calls[j];
      if fp in st.value {
        var j :| 0 <= j < i && From(calls[..i][j], fp) && Number(calls[..i][j]) == st.value[fp];
        assert From(calls[j], fp);
      }
      forall j | 0 <= j < i && From(calls[j], fp)
        ensures fp in st.value && Number(calls[j]) <= st.value[fp]
      {
        assert From(calls[..i][j], fp);
      }
    }
  }

  /** Calls of one identity that are all in order. */
  lemma OneIdentityStrictMaxima(calls: seq<Call>, i: nat, fp: Digest)
    requires i < |calls| && forall j | 0 <= j < |calls| :: From(calls[j], fp)
    ensures Accepted(calls, i) <==> forall j | 0 <= j < i :: Number(calls[j]) < Number(calls[i])
  {
    AcceptsStrictMaxima(calls, i);
    assert From(calls[i], fp);
    forall j | 0 <= j < i
      ensures From(calls[j], Identity(calls[i]).value)
    {
      assert From(calls[j], fp);
    }
  }

  /** So no two accepted submissions of one identity carry the same number, and they come in order. */
  lemma AcceptedNumbersIncrease(calls: seq<Call>, j: nat, i: nat)
    requires j < i < |calls| && Accepted(calls, j) && Accepted(calls, i)
    ensures Identity(calls[j]) == Identity(calls[i]) ==> Number(calls[j]) < Number(calls[i])
  {
    AcceptsStrictMaxima(calls, j);
    AcceptsStrictMaxima(calls, i);
    PresentableMeans(calls[j]);
    PresentableMeans(calls[i]);
  }

  // ---------------------------------------------------------------------
  // The receipts of one generator
  // ---------------------------------------------------------------------

  /** Each call asks about the receipt in its place, all of them returned by the generator of this enclave. */
  ghost predicate Submitted(e: Enclave, receipts: seq<Issued>, calls: seq<Call>) {
    && |receipts| == |calls|
    && forall j | 0 <= j < |calls| ::
         Returned(e, receipts[j]) && Fits(calls[j], e, receipts[j].attest) && AsksAbout(calls[j], receipts[j])
  }

  /** Every document comes from the same platform. */
  ghost predicate StablePlatform(calls: seq<Call>, fp: Digest) {
    forall j | 0 <= j < |calls| :: Identity(calls[j]) == Some(fp)
  }

  /** Small enough and in time; nothing is asked of the number. */
  ghost predicate Timely(c: Call) {
    && c.stateAvailable && ClaimsOf(c).Some? && DocOf(c).Some?
    && Due(c, None, ClaimsOf(c).value, DocOf(c).value)
  }

  lemma GeneratedIsPresentable(e: Enclave, x: Issued, c: Call)
    requires Returned(e, x) && Fits(c, e, x.attest) && AsksAbout(c, x)
    ensures Presentable(c) <==> Timely(c)
    ensures Number(c) == x.sequenceNum && Identity(c).Some?
  {
    AcceptedExactlyWhen(c, None, e, x);
  }

  /** Receipts of one generator on a stable platform, submitted in any order and any number of times: a fresh
      verifier accepts exactly those that are timely and whose number exceeds those of all timely ones before. */
  lemma OneGeneratorStrictMaxima(e: Enclave, receipts: seq<Issued>, calls: seq<Call>, fp: Digest, k: nat)
    requires Submitted(e, receipts, calls) && StablePlatform(calls, fp) && k < |calls|
    ensures Accepted(calls, k) <==>
      Timely(calls[k])
      && forall j | 0 <= j < k && Timely(calls[j]) :: receipts[j].sequenceNum < receipts[k].sequenceNum
  {
    AcceptsStrictMaxima(calls, k);
    forall j | 0 <= j < |calls|
      ensures From(calls[j], fp) <==> Timely(calls[j])
      ensures Presentable(calls[j]) <==> Timely(calls[j])
      ensures Number(calls[j]) == receipts[j].sequenceNum
    {
      GeneratedIsPresentable(e, receipts[j], calls[j]);
    }
    assert Identity(calls[k]) == Some(fp);
  }

  /** The receipts of a shared generator, submitted in time and in the order in which the calls completed, are
      all accepted. */
  lemma CompletionOrderIsAccepted(
    e: Enclave, receipts: seq<Issued>, calls: seq<Call>, fp: Digest, first: u64, actions: seq<Concurrent.Action>)
    requires Submitted(e, receipts, calls) && StablePlatform(calls, fp)
    requires forall j | 0 <= j < |calls| :: Timely(calls[j])
    requires |receipts| == |Concurrent.Run(Concurrent.Initial(first), actions).completed|
    requires forall j | 0 <= j < |receipts| ::
      receipts[j].sequenceNum == Concurrent.Run(Concurrent.Initial(first), actions).completed[j]
    ensures forall k | 0 <= k < |calls| :: Accepted(calls, k)
  {
    Concurrent.CompletionOrder(first, actions);
    forall k | 0 <= k < |calls|
      ensures Accepted(calls, k)
    {
      OneGeneratorStrictMaxima(e, receipts, calls, fp, k);
      InCompletionOrder(receipts, first, actions, k);
    }
  }

  lemma InCompletionOrder(receipts: seq<Issued>, first: u64, actions: seq<Concurrent.Action>, k: nat)
    requires k < |receipts| == |Concurrent.Run(Concurrent.Initial(first), actions).completed|
    requires forall j | 0 <= j < |receipts| ::
      receipts[j].sequenceNum == Concurrent.Run(Concurrent.Initial(first), actions).completed[j]
    ensures forall j | 0 <= j < k :: receipts[j].sequenceNum < receipts[k].sequenceNum
  {
    Concurrent.CompletionOrder(first, actions);
  }
}
