/**
 What the service's handler sees of the verifier: the verdict on a receipt apart from its sequence
 number, and the judgement against the remembered table, are exactly what the verifier answers.
 */
module ServiceVerdicts {
  import opened Types
  import ReplayProtocol
  import opened VerificationPolicy
  import opened ReceiptVerifier
  import opened HandlerOutcomes

  /** What the verifier makes of a call when it remembers nothing. */
  ghost function VerdictOf(c: Call): ReplayProtocol.Verdict {
    if Policy(c, Some(map[])) then ReplayProtocol.PolicyHolds
    else if exists stage: Stage :: FirstFailure(c, Some(map[]), stage) && FailureOf(stage).Report?
    then ReplayProtocol.PolicyFails
    else ReplayProtocol.InfraError
  }

  /** The answer as the handler tells answers apart. */
  function Seen(r: Answer): Verified {
    match r
    case Err(_) => Err(VerificationError)
    case Ok(result) => Ok(result.valid)
  }

  /** Fingerprints under other names, no two under one. */
  ghost predicate Naming(name: Digest -> nat) {
    forall a, b :: name(a) == name(b) ==> a == b
  }

  ghost function Renamed(name: Digest -> nat, table: map<Digest, u64>): (t: map<nat, nat>)
    requires Naming(name)
    ensures forall fp :: name(fp) in t <==> fp in table
    ensures forall fp | fp in table :: t[name(fp)] == table[fp]
  {
    map fp | fp in table :: name(fp) := table[fp] as nat
  }

  /** No requirement but the freshness of the number depends on what is remembered. */
  lemma SameButFreshness(c: Call, a: map<Digest, u64>, b: map<Digest, u64>, stage: Stage)
    requires !stage.SequenceFresh?
    ensures Holds(c, Some(a), stage) <==> Holds(c, Some(b), stage)
  {
  }

  /** A call that fails before its number is looked at fails the same way on every table. */
  lemma SameFailure(c: Call, a: map<Digest, u64>, b: map<Digest, u64>, stage: Stage)
    requires FirstFailure(c, Some(a), stage) && !stage.SequenceFresh?
    ensures FirstFailure(c, Some(b), stage)
  {
    BeforeMeaning(c, Some(a), stage);
    BeforeMeaning(c, Some(b), stage);
    SameButFreshness(c, a, b, stage);
    forall s: Stage | Rank(s) < Rank(stage)
      ensures Holds(c, Some(b), s)
    {
      SameButFreshness(c, a, b, s);
    }
  }

  /** With nothing remembered the number never comes first to fail. */
  lemma NeverStaleAtFirst(c: Call)
    ensures Before(c, Some(map[]), SequenceFresh) ==> Holds(c, Some(map[]), SequenceFresh)
  {
    BeforeMeaning(c, Some(map[]), SequenceFresh);
    if Before(c, Some(map[]), SequenceFresh) {
      assert Holds(c, Some(map[]), DocParses) && Holds(c, Some(map[]), ClaimsParse);
      SequenceStages(c, Some(map[]), ClaimsOf(c).value, DocOf(c).value);
    }
  }

  lemma PolicyOrFailure(c: Call, st: ReplayState)
    ensures Policy(c, st) || exists stage: Stage :: FirstFailure(c, st, stage)
  {
    if !Policy(c, st) {
      PolicyIsOrderFree(c, st);
      var stage := FirstToFail(c, st, LAST);
    }
  }

  lemma {:induction false} FirstToFail(c: Call, st: ReplayState, stage: Stage) returns (first: Stage)
    requires !(Before(c, st, stage) && Holds(c, st, stage))
    ensures FirstFailure(c, st, first)
    decreases Rank(stage)
  {
    if Before(c, st, stage) {
      first := stage;
    } else {
      PreviousRank(stage);
      first := FirstToFail(c, st, Previous(stage));
    }
  }

  /** A call that is in order but for its number. */
  lemma JudgedByNumber(c: Call, table: map<Digest, u64>, r: Answer)
    requires Policy(c, Some(map[])) && Answers(c, Some(table), r)
    ensures DocOf(c).Some? && ClaimsOf(c).Some?
    ensures r.Ok? && (r.value.valid <==> Newer(c.lib, table, DocOf(c).value, ClaimsOf(c).value))
  {
    PolicyGivesDocAndClaims(c, Some(map[]));
    SequenceStages(c, Some(table), ClaimsOf(c).value, DocOf(c).value);
    forall s: Stage | !s.SequenceFresh?
      ensures Holds(c, Some(table), s)
    {
      SameButFreshness(c, map[], table, s);
    }
    if !Policy(c, Some(table)) {
      OrderOfSequence(true);
      var stage: Stage :| FirstFailure(c, Some(table), stage) && r == AnswerAt(c, true, stage);
      assert stage.SequenceFresh?;
    }
  }

  /** A call that is out of order whatever its number. */
  lemma JudgedByPolicy(c: Call, table: map<Digest, u64>, r: Answer)
    requires !Policy(c, Some(map[])) && Answers(c, Some(table), r)
    ensures !Policy(c, Some(table))
    ensures VerdictOf(c) == if r.Ok? then ReplayProtocol.PolicyFails else ReplayProtocol.InfraError
  {
    PolicyOrFailure(c, Some(map[]));
    var stage: Stage :| FirstFailure(c, Some(map[]), stage);
    NeverStaleAtFirst(c);
    SameFailure(c, map[], table, stage);
    FirstFailureIsUnique(c, Some(table), stage, stage);
    var failed: Stage :| FirstFailure(c, Some(table), failed) && r == AnswerAt(c, true, failed);
    FirstFailureIsUnique(c, Some(table), stage, failed);
    forall s: Stage | FirstFailure(c, Some(map[]), s)
      ensures s == stage
    {
      FirstFailureIsUnique(c, Some(map[]), s, stage);
    }
  }

  /** Whatever is remembered, the handler's judgement is the verifier's answer. */
  lemma JudgementIsTheVerifiers(
    name: Digest -> nat, c: Call, table: map<Digest, u64>, r: Answer, fp: nat, seqNum: nat)
    requires Naming(name) && Answers(c, Some(table), r)
    requires DocOf(c).Some? && ClaimsOf(c).Some? ==>
      fp == name(Fingerprint(c.lib, DocOf(c).value)) && seqNum == ClaimsOf(c).value.sequenceNum
    ensures Seen(r) == Judgement(VerdictOf(c), Renamed(name, table), fp, seqNum)
  {
    if Policy(c, Some(map[])) {
      SeenInOrder(c, table, r);
      NewerRenamed(name, table, Fingerprint(c.lib, DocOf(c).value), ClaimsOf(c).value.sequenceNum);
    } else {
      SeenOutOfOrder(c, table, r);
    }
  }

  lemma SeenInOrder(c: Call, table: map<Digest, u64>, r: Answer)
    requires Policy(c, Some(map[])) && Answers(c, Some(table), r)
    ensures VerdictOf(c) == ReplayProtocol.PolicyHolds && DocOf(c).Some? && ClaimsOf(c).Some?
    ensures var own := Fingerprint(c.lib, DocOf(c).value);
      Seen(r) == Ok(own in table ==> table[own] < ClaimsOf(c).value.sequenceNum)
  {
    JudgedByNumber(c, table, r);
    NewerMeans(c, table);
  }

  lemma SeenOutOfOrder(c: Call, table: map<Digest, u64>, r: Answer)
    requires !Policy(c, Some(map[])) && Answers(c, Some(table), r)
    ensures VerdictOf(c) == ReplayProtocol.PolicyFails ==> Seen(r) == Ok(false)
    ensures VerdictOf(c) != ReplayProtocol.PolicyFails ==>
      VerdictOf(c) == ReplayProtocol.InfraError && Seen(r) == Err(VerificationError)
  {
    JudgedByPolicy(c, table, r);
    ValidMeansPolicy(c, Some(table), r);
  }

  lemma NewerMeans(c: Call, table: map<Digest, u64>)
    requires DocOf(c).Some? && ClaimsOf(c).Some?
    ensures Newer(c.lib, table, DocOf(c).value, ClaimsOf(c).value) <==>
      (Fingerprint(c.lib, DocOf(c).value) in table ==>
         table[Fingerprint(c.lib, DocOf(c).value)] < ClaimsOf(c).value.sequenceNum)
  {
  }

  lemma NewerRenamed(name: Digest -> nat, table: map<Digest, u64>, fp: Digest, seqNum: u64)
    requires Naming(name)
    ensures (fp in table ==> table[fp] < seqNum)
      <==> (name(fp) in Renamed(name, table) ==> Renamed(name, table)[name(fp)] < seqNum)
  {
  }

  /** And what the verifier then remembers is what the handler's memory holds. */
  lemma MemoryIsTheVerifiers(
    name: Digest -> nat, c: Call, table: map<Digest, u64>, fp: nat, seqNum: nat)
    requires Naming(name)
    requires DocOf(c).Some? && ClaimsOf(c).Some? ==>
      fp == name(Fingerprint(c.lib, DocOf(c).value)) && seqNum == ClaimsOf(c).value.sequenceNum
    ensures StateAfter(c, Some(table)).Some?
    ensures Renamed(name, StateAfter(c, Some(table)).value)
      == if Policy(c, Some(table)) then Renamed(name, table)[fp := seqNum] else Renamed(name, table)
  {
    if Policy(c, Some(table)) {
      PolicyGivesDocAndClaims(c, Some(table));
      var after := StateAfter(c, Some(table)).value;
      var own := Fingerprint(c.lib, DocOf(c).value);
      assert after == table[own := ClaimsOf(c).value.sequenceNum];
      RenamedUpdate(name, table, own, ClaimsOf(c).value.sequenceNum);
    }
  }

  lemma RenamedUpdate(name: Digest -> nat, table: map<Digest, u64>, fp: Digest, seqNum: u64)
    requires Naming(name)
    ensures Renamed(name, table[fp := seqNum]) == Renamed(name, table)[name(fp) := seqNum as nat]
  {
    var a, b := Renamed(name, table[fp := seqNum]), Renamed(name, table)[name(fp) := seqNum as nat];
    assert forall k :: k in a ==> k in b;
    assert forall k :: k in b ==> k in a;
    assert a.Keys == b.Keys;
  }
}
