/** The invariant holds in every reachable state, and what follows from it. */
module ReplaySafety {
  import opened Types
  import opened ReplayProtocol
  import opened ReplayInvariant
  import opened ReplaySteps
  import opened ReplayOutside

  predicate InCritical(a: Action) { Reserving(a) || Checking(a) || Persisting(a) || Finishing(a) }

  ghost predicate StandsInside(s: State, r: Rid) {
    r in s.reqs && HoldsLock(s.reqs[r]) && HoldsMutex(s.reqs[r])
  }

  lemma ReservingInside(s: State, a: Action)
    requires Reserving(a) && NextReserving(s, a) != s
    ensures StandsInside(s, a.rid)
  {
  }

  lemma CheckingInside(s: State, a: Action)
    requires Checking(a) && NextChecking(s, a) != s
    ensures StandsInside(s, a.rid)
  {
  }

  lemma PersistingInside(s: State, a: Action)
    requires Persisting(a) && NextPersisting(s, a) != s
    ensures StandsInside(s, a.rid)
  {
  }

  lemma FinishingInside(s: State, a: Action)
    requires Finishing(a) && NextFinishing(s, a) != s
    ensures StandsInside(s, a.rid)
  {
  }

  /** An action of the critical section that does anything is one of a request standing inside it. */
  lemma ActsInside(s: State, a: Action)
    requires InCritical(a) && Next(s, a) != s
    ensures StandsInside(s, a.rid)
  {
    if Reserving(a) {
      ReservingInside(s, a);
    } else if Checking(a) {
      CheckingInside(s, a);
    } else if Persisting(a) {
      PersistingInside(s, a);
    } else {
      FinishingInside(s, a);
    }
  }

  lemma InsideEnters(s: State, a: Action)
    requires Inv(s) && InCritical(a) && Next(s, a) != s
    ensures Enters(s, a.rid)
  {
    ActsInside(s, a);
    TheHolder(s, a.rid);
  }

  lemma InsideKeeps(s: State, a: Action)
    requires Inv(s) && InCritical(a) && Next(s, a) != s
    ensures Inv(Next(s, a))
  {
    InsideEnters(s, a);
    InsideGood(s, a.rid, a);
    InsideInv(s, Next(s, a), a.rid);
  }

  /** The invariant is kept by a step that leaves the protected state alone. */
  ghost predicate Kept(s: State, s': State) { Inv(s') && Calm(s, s') }

  lemma GuardInv(s: State, s': State, r: Rid)
    requires Inv(s) && GuardStep(s, s', r) && Ownership(s')
    ensures Kept(s, s')
  {
    GuardUntouched(s, s', r);
    GuardMild(s, s', r);
    OutsideInv(s, s');
  }

  lemma TakeMutexKeeps(s: State, r: Rid)
    requires Inv(s)
    ensures Kept(s, Next(s, TakeMutex(r)))
  {
    var s' := Next(s, TakeMutex(r));
    if s' != s {
      TheFacts(s, r);
      TakeMutexStep(s, r, s');
      GuardInv(s, s', r);
    } else {
      CalmWhenIdle(s);
    }
  }

  lemma TakeLockKeeps(s: State, r: Rid)
    requires Inv(s)
    ensures Kept(s, Next(s, TakeLock(r)))
  {
    var s' := Next(s, TakeLock(r));
    if s' != s {
      TheFacts(s, r);
      TakeLockStep(s, r, s');
      GuardInv(s, s', r);
    } else {
      CalmWhenIdle(s);
    }
  }

  lemma LockFailsKeeps(s: State, r: Rid)
    requires Inv(s)
    ensures Kept(s, Next(s, LockFails(r)))
  {
    var s' := Next(s, LockFails(r));
    if s' != s {
      TheFacts(s, r);
      LockFailsStep(s, r, s');
      GuardInv(s, s', r);
    } else {
      CalmWhenIdle(s);
    }
  }

  lemma DropGuardResult(s: State, r: Rid)
    ensures Next(s, DropGuard(r)) == if At(s, r, Leaving) || At(s, r, HalfLeft) then DoDropGuard(s, r) else s
  {
  }

  lemma DoDropGuardKeeps(s: State, r: Rid)
    requires Inv(s) && (At(s, r, Leaving) || At(s, r, HalfLeft))
    ensures Kept(s, DoDropGuard(s, r))
  {
    var s' := DoDropGuard(s, r);
    TheFacts(s, r);
    if (s.reqs[r].pc == Leaving) == (s.reqs[r].outcome == Valid) {
      DropMutexStep(s, r, s');
      DropMutexOwnership(s, r, s', s'.reqs[r].pc);
    } else {
      DropLockStep(s, r, s');
    }
    GuardInv(s, s', r);
  }

  lemma DropGuardKeeps(s: State, r: Rid)
    requires Inv(s)
    ensures Kept(s, Next(s, DropGuard(r)))
  {
    DropGuardResult(s, r);
    if At(s, r, Leaving) || At(s, r, HalfLeft) {
      DoDropGuardKeeps(s, r);
    } else {
      CalmWhenIdle(s);
    }
  }

  lemma GuardKeeps(s: State, a: Action)
    requires Inv(s) && Guarding(a)
    ensures Kept(s, Next(s, a))
  {
    match a
    case TakeMutex(r) => TakeMutexKeeps(s, r);
    case TakeLock(r) => TakeLockKeeps(s, r);
    case LockFails(r) => LockFailsKeeps(s, r);
    case DropGuard(r) => DropGuardKeeps(s, r);
  }

  /** Fewer issuers, the same records. */
  ghost predicate RecordsStay(s: State, s': State) {
    && s'.dir == s.dir && s'.spent == s.spent && s'.issues == s.issues
    && forall r | r in s'.issuers :: r in s.issuers && s'.issuers[r] == s.issuers[r]
  }

  lemma RecordsStayDirectory(s: State, s': State)
    requires Directory(s) && RecordsStay(s, s')
    ensures Directory(s')
  {
  }

  lemma PassingInv(s: State, s': State)
    requires Inv(s) && Ownership(s') && RecordsStay(s, s')
    requires Untouched(s, s') && Grows(s, s') && MildRequests(s, s')
    ensures Kept(s, s')
  {
    RecordsStayDirectory(s, s');
    OutsideInv(s, s');
  }

  lemma StartKeeps(s: State, p: Pid, strict: bool)
    requires Inv(s)
    ensures Kept(s, Next(s, Start(p, strict)))
  {
    var s' := Next(s, Start(p, strict));
    if s' != s {
      StartStep(s, p, strict, s');
      PassingInv(s, s');
    } else {
      CalmWhenIdle(s);
    }
  }

  lemma CrashKeeps(s: State, p: Pid)
    requires Inv(s)
    ensures Kept(s, Next(s, Crash(p)))
  {
    CrashOwnership(s, p);
    CrashStep(s, p);
    PassingInv(s, Next(s, Crash(p)));
  }

  lemma NextRidUnused(s: State)
    requires Inv(s)
    ensures s.nextRid !in s.reqs && s.lock != Some(s.nextRid)
  {
  }

  lemma ArriveResult(s: State, p: Pid, nonce: Nonce, fp: Fingerprint, seqNum: nat)
    ensures Next(s, Arrive(p, nonce, fp, seqNum)) == if p in s.procs then DoArrive(s, p, nonce, fp, seqNum) else s
  {
  }

  lemma DoArriveKeeps(s: State, p: Pid, nonce: Nonce, fp: Fingerprint, seqNum: nat)
    requires Inv(s) && p in s.procs
    ensures Kept(s, DoArrive(s, p, nonce, fp, seqNum))
  {
    NextRidUnused(s);
    ArriveOwnership(s, p, nonce, fp, seqNum);
    ArriveStep(s, p, nonce, fp, seqNum);
    PassingInv(s, DoArrive(s, p, nonce, fp, seqNum));
  }

  lemma ArriveKeeps(s: State, p: Pid, nonce: Nonce, fp: Fingerprint, seqNum: nat)
    requires Inv(s)
    ensures Kept(s, Next(s, Arrive(p, nonce, fp, seqNum)))
  {
    ArriveResult(s, p, nonce, fp, seqNum);
    if p in s.procs {
      DoArriveKeeps(s, p, nonce, fp, seqNum);
    } else {
      CalmWhenIdle(s);
    }
  }

  lemma RespondResult(s: State, r: Rid)
    ensures Next(s, Respond(r)) == if At(s, r, Answer) then DoRespond(s, r) else s
  {
  }

  lemma DoRespondKeeps(s: State, r: Rid)
    requires Inv(s) && At(s, r, Answer)
    ensures Kept(s, DoRespond(s, r))
  {
    TheFacts(s, r);
    RespondOwnership(s, r);
    RespondStep(s, r);
    PassingInv(s, DoRespond(s, r));
  }

  lemma RespondKeeps(s: State, r: Rid)
    requires Inv(s)
    ensures Kept(s, Next(s, Respond(r)))
  {
    RespondResult(s, r);
    if At(s, r, Answer) {
      DoRespondKeeps(s, r);
    } else {
      CalmWhenIdle(s);
    }
  }

  lemma PassingKeeps(s: State, a: Action)
    requires Inv(s) && Passing(a)
    ensures Kept(s, Next(s, a))
  {
    match a
    case Start(p, strict) => StartKeeps(s, p, strict);
    case Crash(p) => CrashKeeps(s, p);
    case Arrive(p, nonce, fp, seqNum) => ArriveKeeps(s, p, nonce, fp, seqNum);
    case Respond(r) => RespondKeeps(s, r);
  }

  /** Issuance leaves requests, processes and guards alone. */
  predicate IssuersOnly(s: State, s': State) {
    && s' == s.(issuers := s'.issuers, nextRid := s'.nextRid, issues := s'.issues, dir := s'.dir, clock := s'.clock)
    && s.nextRid <= s'.nextRid
  }

  lemma IssuerInv(s: State, s': State)
    requires Inv(s) && IssuersOnly(s, s') && Directory(s') && Grows(s, s')
    ensures Kept(s, s')
  {
    IssuerStep(s, s');
    OutsideInv(s, s');
  }

  lemma IssueDrawResult(s: State, r: Rid, nonce: Nonce)
    ensures Next(s, IssueDraw(r, nonce))
      == if r in s.issuers && s.issuers[r].Drawing? then DoIssueDraw(s, r, nonce) else s
  {
  }

  lemma IssueDrawDirectory(s: State, r: Rid, nonce: Nonce, s': State)
    requires Directory(s) && s' == Next(s, IssueDraw(r, nonce))
    ensures IssuersOnly(s, s') && Directory(s') && Grows(s, s')
  {
    IssueDrawResult(s, r, nonce);
    if r in s.issuers && s.issuers[r].Drawing? {
      DoIssueDrawDirectory(s, r, nonce, s');
    }
  }

  lemma DoIssueDrawDirectory(s: State, r: Rid, nonce: Nonce, s': State)
    requires Directory(s) && r in s.issuers && s.issuers[r].Drawing? && s' == DoIssueDraw(s, r, nonce)
    ensures IssuersOnly(s, s') && Directory(s') && Grows(s, s')
  {
    var i := s.issuers[r];
    if i.tries < CHALLENGE_DRAWS {
      if Available(nonce) in s.dir {
        DrawAgainDirectory(s, r, s');
      } else {
        DrawKeepsDirectory(s, s', r, nonce);
      }
    }
  }

  lemma DrawAgainDirectory(s: State, r: Rid, s': State)
    requires Directory(s) && r in s.issuers && s.issuers[r].Drawing?
    requires s' == s.(issuers := s.issuers[r := s.issuers[r].(tries := s.issuers[r].tries + 1)])
    ensures Directory(s') && Grows(s, s')
  {
  }

  lemma IssueWriteDirectory(s: State, r: Rid, s': State)
    requires Directory(s) && s' == Next(s, IssueWrite(r))
    ensures IssuersOnly(s, s') && Directory(s') && Grows(s, s')
  {
    if s' != s {
      WriteKeepsDirectory(s, s', r);
    }
  }

  lemma IssueArriveDirectory(s: State, p: Pid, s': State)
    requires Directory(s) && s' == Next(s, IssueArrive(p))
    ensures IssuersOnly(s, s') && Directory(s') && Grows(s, s')
  {
    IssueArriveResult(s, p);
    if s' != s {
      NewIssuerDirectory(s, p, s');
    }
  }

  lemma IssueArriveResult(s: State, p: Pid)
    ensures Next(s, IssueArrive(p)) ==
      if p in s.procs && s.clock + CHALLENGE_TTL_SECONDS <= U64_MAX then
        s.(issuers := s.issuers[s.nextRid := Drawing(p, s.clock + CHALLENGE_TTL_SECONDS, 0)], nextRid := s.nextRid + 1)
      else s
  {
  }

  lemma NewIssuerDirectory(s: State, p: Pid, s': State)
    requires Directory(s)
    requires s' == s.(issuers := s.issuers[s.nextRid := Drawing(p, s.clock + CHALLENGE_TTL_SECONDS, 0)],
                      nextRid := s.nextRid + 1)
    ensures IssuersOnly(s, s') && Directory(s') && Grows(s, s')
  {
  }

  lemma TickDirectory(s: State, now: nat, s': State)
    requires Directory(s) && s' == Next(s, Tick(now))
    ensures IssuersOnly(s, s') && Directory(s') && Grows(s, s')
  {
    RecordsStayDirectory(s, s');
  }

  lemma IssueEndDirectory(s: State, r: Rid, s': State)
    requires Directory(s) && s' == Next(s, IssueEnd(r))
    ensures IssuersOnly(s, s') && Directory(s') && Grows(s, s')
  {
    RecordsStayDirectory(s, s');
  }

  lemma IssuingKeeps(s: State, a: Action)
    requires Inv(s) && Issuing(a)
    ensures Kept(s, Next(s, a))
  {
    match a {
      case IssueDraw(r, nonce) => IssueDrawDirectory(s, r, nonce, Next(s, a));
      case IssueWrite(r) => IssueWriteDirectory(s, r, Next(s, a));
      case IssueArrive(p) => IssueArriveDirectory(s, p, Next(s, a));
      case Tick(now) => TickDirectory(s, now, Next(s, a));
      case IssueEnd(r) => IssueEndDirectory(s, r, Next(s, a));
    }
    IssuerInv(s, Next(s, a));
  }

  lemma OutsideKeeps(s: State, a: Action)
    requires Inv(s) && !InCritical(a)
    ensures Kept(s, Next(s, a))
  {
    if Guarding(a) {
      GuardKeeps(s, a);
    } else if Issuing(a) {
      IssuingKeeps(s, a);
    } else {
      PassingKeeps(s, a);
    }
  }

  /** Every action of every process keeps the invariant. */
  lemma StepKeeps(s: State, a: Action)
    requires Inv(s)
    ensures Inv(Next(s, a))
  {
    if InCritical(a) {
      if Next(s, a) != s {
        InsideKeeps(s, a);
      }
    } else {
      OutsideKeeps(s, a);
    }
  }

  lemma InitialInv(table: Option<Table>)
    ensures Inv(Initial(table))
  {
  }

  lemma {:induction false} RunInv(table: Option<Table>, actions: seq<Action>)
    ensures Inv(Run(Initial(table), actions))
    decreases |actions|
  {
    if actions == [] {
      InitialInv(table);
    } else {
      RunInv(table, actions[..|actions| - 1]);
      StepKeeps(Run(Initial(table), actions[..|actions| - 1]), actions[|actions| - 1]);
    }
  }
}
