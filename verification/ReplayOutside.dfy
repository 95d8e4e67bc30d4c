/**
 Steps outside the critical section: clock, process starts and crashes, taking
 and dropping guards, responses, and the unlocked issuance of challenges.
 */
module ReplayOutside {
  import opened Types
  import opened ReplayProtocol
  import opened ReplayInvariant

  /** A request that moves on without claiming anything new. */
  predicate Milder(q: Req, q': Req) {
    && SameRequest(q, q') && q'.reservedAt == q.reservedAt && q'.resv == q.resv
    && (MustBeCommitted(q') ==> MustBeCommitted(q))
    && (MustHaveTaken(q') ==> MustHaveTaken(q))
    && (PastRename(q.pc) ==> PastRename(q'.pc))
    && (MayHaveTaken(q.pc) ==> MayHaveTaken(q'.pc))
    && (Unreserved(q'.pc) ==> Unreserved(q.pc))
    && (q' == q || (q'.outcome == Valid ==> q'.pc in {Leaving, HalfLeft, Answer}))
  }

  predicate Newcomer(q: Req) { q.pc == Arrived && q.outcome == Pending && q.resv.None? }

  ghost predicate IssuesGrow(before: seq<Issue>, after: seq<Issue>) {
    && |before| <= |after|
    && forall i | 0 <= i < |before| :: after[i].nonce == before[i].nonce && after[i].expires == before[i].expires
                                       && (before[i].written ==> after[i].written)
  }

  ghost predicate SameHolder(s: State, s': State)
    requires HasHolder(s')
  {
    var h := s'.lock.value;
    && s.lock == s'.lock && HasHolder(s) && s'.reqs[h] == s.reqs[h]
    && s'.procs[s.reqs[h].pid].mem == s.procs[s.reqs[h].pid].mem
    && s'.procs[s.reqs[h].pid].counter == s.procs[s.reqs[h].pid].counter
  }

  /** The parts of the state that the lock protects are left alone. */
  ghost predicate Untouched(s: State, s': State) {
    && s'.file == s.file && s'.temps == s.temps && s'.commits == s.commits && s'.spent == s.spent
    && (HasHolder(s') ==> SameHolder(s, s') || s'.reqs[s'.lock.value].pc in {Locked, HalfLeft})
    && (forall p | p in s'.procs ::
          Below(s'.procs[p].mem, DurableTable(s)) || (AheadPid(s) == AheadPid(s') == Some(p)))
    && (forall p | p in s.procs && p in s'.procs :: s'.procs[p].counter == s.procs[p].counter)
  }

  ghost predicate Grows(s: State, s': State) {
    && IssuesGrow(s.issues, s'.issues)
    && (forall a | a in s.dir :: a in s'.dir && s'.dir[a] == s.dir[a])
  }

  ghost predicate MildRequests(s: State, s': State) {
    && s.nextRid <= s'.nextRid
    && (forall r | r in s'.reqs ::
          (r in s.reqs && Milder(s.reqs[r], s'.reqs[r])) || (s.nextRid <= r < s'.nextRid && Newcomer(s'.reqs[r])))
    && (forall r | r in s'.responses ::
          (r in s.responses && s'.responses[r] == s.responses[r])
          || (r in s.reqs && r !in s'.reqs && Answers(s.reqs[r], s'.responses[r])))
    && (forall r | r in s.responses :: r in s'.responses)
  }

  predicate Answers(q: Req, a: Response) {
    && a.valid == (q.outcome == Valid) && a.strict == q.strict && a.nonce == q.nonce
    && a.fp == q.fp && a.seqNum == q.seqNum && a.reservedAt == q.reservedAt
  }

  lemma OutsideStorage(s: State, s': State)
    requires Storage(s) && Untouched(s, s')
    ensures Storage(s')
  {
  }

  lemma OutsideRecord(s: State, s': State)
    requires HasHolder(s) ==> HolderRecord(s, s.reqs[s.lock.value])
    requires Untouched(s, s') && Grows(s, s')
    ensures HasHolder(s') ==> HolderRecord(s', s'.reqs[s'.lock.value])
  {
  }

  lemma OutsideHistory(s: State, s': State)
    requires Fresh(s) && History(s) && Untouched(s, s') && MildRequests(s, s')
    ensures History(s')
  {
  }

  lemma OutsideTicketed(s: State, s': State)
    requires Fresh(s) && Ticketed(s) && Untouched(s, s') && Grows(s, s') && MildRequests(s, s')
    ensures Ticketed(s')
  {
  }

  lemma OutsideFresh(s: State, s': State)
    requires Fresh(s) && Untouched(s, s') && MildRequests(s, s')
    ensures Fresh(s')
  {
  }

  lemma OutsideInv(s: State, s': State)
    requires Inv(s) && Ownership(s') && Directory(s')
    requires Untouched(s, s') && Grows(s, s') && MildRequests(s, s')
    ensures Inv(s')
  {
    OutsideStorage(s, s');
    OutsideRecord(s, s');
    OutsideHistory(s, s');
    OutsideTicketed(s, s');
    OutsideFresh(s, s');
  }

  /** What every step outside the critical section leaves alone. */
  ghost predicate Calm(s: State, s': State) {
    Untouched(s, s') && Grows(s, s') && MildRequests(s, s')
  }

  lemma CalmWhenIdle(s: State)
    requires Storage(s) && Fresh(s)
    ensures Calm(s, s)
  {
  }

  /** Only request r and the guards move. */
  ghost predicate GuardStep(s: State, s': State, r: Rid) {
    && r in s.reqs && r in s'.reqs && Milder(s.reqs[r], s'.reqs[r])
    && s'.reqs == s.reqs[r := s'.reqs[r]]
    && s'.procs.Keys == s.procs.Keys
    && (forall p | p in s.procs :: s'.procs[p].mem == s.procs[p].mem && s'.procs[p].counter == s.procs[p].counter)
    && s' == s.(reqs := s'.reqs, procs := s'.procs, lock := s'.lock)
    && !Ahead(s.reqs[r].pc) && !Ahead(s'.reqs[r].pc)
    && (s.lock == s'.lock || (s.lock.None? && s'.lock == Some(r) && s'.reqs[r].pc == Locked)
        || (s.lock == Some(r) && s'.lock.None?))
    && (s'.lock == Some(r) ==> s'.reqs[r].pc in {Locked, HalfLeft})
  }

  lemma GuardUntouched(s: State, s': State, r: Rid)
    requires Ownership(s) && Storage(s) && GuardStep(s, s', r)
    ensures Untouched(s, s') && Grows(s, s')
  {
    forall p | p in s'.procs
      ensures Below(s'.procs[p].mem, DurableTable(s)) || (AheadPid(s) == AheadPid(s') == Some(p))
    {
      assert AheadPid(s) == Some(p) || Below(s.procs[p].mem, DurableTable(s));
    }
  }

  lemma GuardMild(s: State, s': State, r: Rid)
    requires GuardStep(s, s', r)
    ensures MildRequests(s, s')
  {
    forall x | x in s'.reqs && x != r
      ensures x in s.reqs && s'.reqs[x] == s.reqs[x]
    {
    }
    assert forall x | x in s.reqs :: true;
  }

  /** What the invariant says about one request and the guards it holds. */
  ghost predicate Facts(s: State, r: Rid) {
    && r in s.reqs && s.reqs[r].pid in s.procs
    && (s.lock == Some(r) <==> HoldsLock(s.reqs[r]))
    && (s.procs[s.reqs[r].pid].mutex == Some(r) <==> HoldsMutex(s.reqs[r]))
    && (s.reqs[r].outcome == Valid ==> s.reqs[r].pc in {Leaving, HalfLeft, Answer})
  }

  lemma TheFacts(s: State, r: Rid)
    requires Inv(s) && r in s.reqs
    ensures Facts(s, r)
  {
  }

  // One lemma per action: it is a guard step, and ownership stays right

  lemma TakeMutexStep(s: State, r: Rid, s': State)
    requires Facts(s, r) && At(s, r, Arrived) && s.procs[s.reqs[r].pid].mutex.None?
    requires s' == Goto(PutProc(s, s.reqs[r].pid, s.procs[s.reqs[r].pid].(mutex := Some(r))), r, Mutexed)
    ensures GuardStep(s, s', r)
    ensures Ownership(s) ==> Ownership(s')
  {
  }

  lemma TakeLockStep(s: State, r: Rid, s': State)
    requires Facts(s, r) && At(s, r, Mutexed) && s.lock.None?
    requires s' == Goto(s.(lock := Some(r)), r, Locked)
    ensures GuardStep(s, s', r)
    ensures Ownership(s) ==> Ownership(s')
  {
  }

  lemma LockFailsStep(s: State, r: Rid, s': State)
    requires Facts(s, r) && At(s, r, Mutexed)
    requires s' == Put(s, r, s.reqs[r].(pc := HalfLeft, outcome := Error))
    ensures GuardStep(s, s', r)
    ensures Ownership(s) ==> Ownership(s')
  {
  }

  lemma DropMutexStep(s: State, r: Rid, s': State)
    requires Facts(s, r) && (At(s, r, Leaving) || At(s, r, HalfLeft))
    requires (s.reqs[r].pc == Leaving) == (s.reqs[r].outcome == Valid)
    requires s' == DoDropGuard(s, r)
    ensures GuardStep(s, s', r)
  {
  }

  lemma DropMutexOwnership(s: State, r: Rid, s': State, pc: Pc)
    requires Ownership(s) && r in s.reqs && HoldsMutex(s.reqs[r])
    requires s' == Goto(DropMutex(s, s.reqs[r].pid), r, pc)
    requires !HoldsMutex(s'.reqs[r]) && HoldsLock(s'.reqs[r]) == HoldsLock(s.reqs[r])
    ensures Ownership(s')
  {
  }

  lemma DropLockStep(s: State, r: Rid, s': State)
    requires Facts(s, r) && (At(s, r, Leaving) || At(s, r, HalfLeft))
    requires (s.reqs[r].pc == Leaving) != (s.reqs[r].outcome == Valid)
    requires s' == DoDropGuard(s, r)
    ensures GuardStep(s, s', r)
    ensures Ownership(s) ==> Ownership(s')
  {
    assert s' == Goto(s.(lock := None), r, if s.reqs[r].pc == Leaving then HalfLeft else Answer);
    DropLockOwnership(s, r, s', if s.reqs[r].pc == Leaving then HalfLeft else Answer);
  }

  lemma DropLockOwnership(s: State, r: Rid, s': State, pc: Pc)
    requires r in s.reqs && HoldsLock(s.reqs[r]) && s.lock == Some(r)
    requires s' == Goto(s.(lock := None), r, pc)
    requires !HoldsLock(s'.reqs[r]) && HoldsMutex(s'.reqs[r]) == HoldsMutex(s.reqs[r])
    ensures Ownership(s) ==> Ownership(s')
  {
  }

  // Requests and processes that come and go

  lemma RespondOwnership(s: State, r: Rid)
    requires Ownership(s) && At(s, r, Answer)
    ensures Ownership(DoRespond(s, r))
  {
  }

  lemma RespondStep(s: State, r: Rid)
    requires Facts(s, r) && Fresh(s) && Storage(s) && At(s, r, Answer)
    ensures Untouched(s, DoRespond(s, r)) && Grows(s, DoRespond(s, r)) && MildRequests(s, DoRespond(s, r))
  {
  }

  lemma ArriveOwnership(s: State, p: Pid, nonce: Nonce, fp: Fingerprint, seqNum: nat)
    requires Ownership(s) && s.nextRid !in s.reqs && p in s.procs
    ensures Ownership(DoArrive(s, p, nonce, fp, seqNum))
  {
  }

  lemma ArriveStep(s: State, p: Pid, nonce: Nonce, fp: Fingerprint, seqNum: nat)
    requires s.nextRid !in s.reqs && p in s.procs && s.lock != Some(s.nextRid)
    requires Storage(s)
    ensures Untouched(s, DoArrive(s, p, nonce, fp, seqNum))
    ensures Grows(s, DoArrive(s, p, nonce, fp, seqNum))
    ensures MildRequests(s, DoArrive(s, p, nonce, fp, seqNum))
  {
  }

  lemma StartStep(s: State, p: Pid, strict: bool, s': State)
    requires Ownership(s) && p !in s.procs && s' == PutProc(s, p, Proc(DurableTable(s), 0, None, strict))
    ensures Ownership(s')
    ensures Storage(s) ==> Untouched(s, s')
    ensures Grows(s, s') && MildRequests(s, s')
  {
  }

  lemma CrashOwnership(s: State, p: Pid)
    requires Ownership(s)
    ensures Ownership(DoCrash(s, p))
  {
  }

  lemma CrashStep(s: State, p: Pid)
    requires Ownership(s) && Storage(s)
    ensures Untouched(s, DoCrash(s, p)) && Grows(s, DoCrash(s, p)) && MildRequests(s, DoCrash(s, p))
  {
  }

  /** Clock and issuance: requests, processes and guards stay put. */
  lemma IssuerStep(s: State, s': State)
    requires Ownership(s)
    requires s' == s.(issuers := s'.issuers, nextRid := s'.nextRid, issues := s'.issues, dir := s'.dir,
                      clock := s'.clock)
    requires s.nextRid <= s'.nextRid && Grows(s, s')
    ensures Ownership(s') && MildRequests(s, s')
    ensures Storage(s) ==> Untouched(s, s')
  {
  }

  // The unlocked issuance keeps the directory consistent

  lemma DrawKeepsDirectory(s: State, s': State, r: Rid, nonce: Nonce)
    requires Directory(s) && r in s.issuers && s.issuers[r].Drawing? && Available(nonce) !in s.dir
    requires s' == DoIssueDraw(s, r, nonce) && s.issuers[r].tries < CHALLENGE_DRAWS
    ensures Directory(s') && Grows(s, s')
  {
  }

  lemma WriteKeepsDirectory(s: State, s': State, r: Rid)
    requires Directory(s) && r in s.issuers && s.issuers[r].Writing? && s.issuers[r].id < |s.issues|
    requires s' == DoIssueWrite(s, r)
    ensures Directory(s') && Grows(s, s')
  {
  }
}
