/** The inductive invariant of the replay protocol and the proof that every step keeps it. */
module ReplayInvariant {
  import opened Types
  import opened ReplayProtocol

  predicate HoldsMutex(q: Req) {
    q.pc != Arrived && q.pc != Answer && (q.pc == HalfLeft ==> q.outcome != Valid)
  }

  predicate HoldsLock(q: Req) {
    || (HoldsMutex(q) && q.pc != Mutexed && q.pc != HalfLeft)
    || (q.pc == HalfLeft && q.outcome == Valid)
  }

  /** Mutual exclusion: one mutex holder per process, one lock holder in all. */
  ghost predicate Ownership(s: State) {
    && (s.lock.Some? ==> s.lock.value in s.reqs && HoldsLock(s.reqs[s.lock.value]))
    && (forall r | r in s.reqs :: s.reqs[r].pid in s.procs)
    && (forall r | r in s.reqs :: HoldsLock(s.reqs[r]) ==> s.lock == Some(r))
    && (forall r | r in s.reqs :: HoldsMutex(s.reqs[r]) ==> s.procs[s.reqs[r].pid].mutex == Some(r))
    && (forall p | p in s.procs && s.procs[p].mutex.Some? ::
          s.procs[p].mutex.value in s.reqs && s.reqs[s.procs[p].mutex.value].pid == p
          && HoldsMutex(s.reqs[s.procs[p].mutex.value]))
  }

  predicate Unreserved(pc: Pc) { pc in {Arrived, Mutexed, Locked, Loaded, RecordRead} }

  /** Request numbers are never reused, and a request starts without a challenge. */
  ghost predicate Fresh(s: State) {
    && (forall r | r in s.reqs && Unreserved(s.reqs[r].pc) :: s.reqs[r].resv.None?)
    && (forall r | r in s.reqs :: r < s.nextRid && r !in s.responses)
    && (forall r | r in s.responses :: r < s.nextRid)
    && (forall r | r in s.spent :: r < s.nextRid)
    && (forall c | c in s.commits :: c.rid < s.nextRid)
  }

  ghost predicate Below(a: Table, b: Table) {
    forall k | k in a :: k in b && a[k] <= b[k]
  }

  /** The points at which memory may be ahead of the state file. */
  predicate Ahead(pc: Pc) { pc in {Checked, TempMade, TempDone, CleanTemp, Undo} }

  predicate Accepted(q: Req, prev: Table, mem: Table) {
    && mem == prev[q.fp := q.seqNum]
    && (q.fp in prev ==> prev[q.fp] < q.seqNum)
  }

  /** Memory against the state file, seen by the lock holder. */
  ghost predicate HolderMemory(s: State, q: Req)
    requires q.pid in s.procs
  {
    var mem := s.procs[q.pid].mem;
    var file := DurableTable(s);
    && (q.pc in {Loaded, RecordRead, RecordMoved, Ready, Snapped} ==> mem == file)
    && (q.pc == Snapped ==> q.prev == file)
    && (q.pc in {Checked, TempMade, TempDone} ==> q.prev == file && Accepted(q, file, mem))
    && (q.pc == TempDone ==> MyTemp(q) in s.temps && s.temps[MyTemp(q)] == Whole(mem))
    && (q.pc == Replaced ==> Accepted(q, q.prev, file))
    && (q.pc in {CleanTemp, Undo} ==> Below(q.prev, file))
  }

  /** The process whose memory may be ahead, if any. */
  function AheadPid(s: State): Option<Pid> {
    if s.lock.Some? && s.lock.value in s.reqs && Ahead(s.reqs[s.lock.value].pc)
    then Some(s.reqs[s.lock.value].pid) else None
  }

  predicate HasHolder(s: State) {
    s.lock.Some? && s.lock.value in s.reqs && s.reqs[s.lock.value].pid in s.procs
  }

  /** The state file is never torn, and no memory outside the critical section knows more than the file. */
  ghost predicate Storage(s: State) {
    && s.file != Some(Torn)
    && (HasHolder(s) ==> HolderMemory(s, s.reqs[s.lock.value]))
    && (forall p | p in s.procs :: AheadPid(s) == Some(p) || Below(s.procs[p].mem, DurableTable(s)))
  }

  predicate PastRename(pc: Pc) {
    pc in {Replaced, Durable, Removed, CleanTemp, Undo, PutBack, PutBackMoved, Leaving, HalfLeft, Answer}
  }

  predicate MustBeCommitted(q: Req) {
    q.outcome == Valid || q.pc in {Replaced, Durable, Removed}
  }

  ghost predicate Increasing(commits: seq<Commit>) {
    forall i, j | 0 <= i < j < |commits| :: commits[i].fp == commits[j].fp ==> commits[i].seqNum < commits[j].seqNum
  }

  ghost predicate Covered(commits: seq<Commit>, table: Table) {
    forall c | c in commits :: c.fp in table && c.seqNum <= table[c.fp]
  }

  ghost predicate OncePerRequest(commits: seq<Commit>) {
    forall i, j | 0 <= i < j < |commits| :: commits[i].rid != commits[j].rid
  }

  ghost predicate History(s: State) {
    && Increasing(s.commits)
    && OncePerRequest(s.commits)
    && Covered(s.commits, DurableTable(s))
    && (forall c | c in s.commits && c.rid in s.reqs :: PastRename(s.reqs[c.rid].pc))
    && (forall r | r in s.reqs && MustBeCommitted(s.reqs[r]) ::
          Commit(r, s.reqs[r].fp, s.reqs[r].seqNum) in s.commits)
    && (forall r | r in s.responses && s.responses[r].valid ::
          Commit(r, s.responses[r].fp, s.responses[r].seqNum) in s.commits)
    && (forall r | r in s.reqs && s.reqs[r].outcome == Valid :: s.reqs[r].pc in {Leaving, HalfLeft, Answer})
  }

  /** The points after the challenge was set aside. */
  predicate Holding(pc: Pc) {
    pc in {RecordMoved, Ready, Snapped, Checked, TempMade, TempDone, Replaced, Durable, CleanTemp, Undo, PutBack}
  }

  /** A record vouches for a request: same nonce, complete, and unexpired when the request checked it. */
  predicate Vouches(s: State, id: nat, nonce: Nonce, reservedAt: nat) {
    && id < |s.issues| && s.issues[id].written && s.issues[id].nonce == nonce
    && reservedAt <= s.issues[id].expires
  }

  predicate Mine(s: State, q: Req, path: Path)
    requires q.pid in s.procs
  {
    path.Reserved? && path.nonce == q.nonce && path.number == q.pid.number && path.counter < s.procs[q.pid].counter
  }

  /** The holder's record: still available and vetted, or set aside under a name only it can use. */
  ghost predicate HolderRecord(s: State, q: Req)
    requires q.pid in s.procs
  {
    && (q.pc == RecordRead ==>
          q.strict && Available(q.nonce) in s.dir && Vouches(s, s.dir[Available(q.nonce)], q.nonce, q.reservedAt))
    && (Holding(q.pc) ==>
          if q.strict then
            q.resv.Some? && Mine(s, q, q.resv.value)
            && q.resv.value in s.dir && Vouches(s, s.dir[q.resv.value], q.nonce, q.reservedAt)
          else q.resv.None?)
  }

  ghost predicate Injective<K>(m: map<K, nat>) {
    forall a, b | a in m && b in m && m[a] == m[b] :: a == b
  }

  /** Each record has one name, or was taken by one request, or is gone; never two of these. */
  ghost predicate Directory(s: State) {
    && Injective(s.dir)
    && Injective(s.spent)
    && (forall a, r | a in s.dir && r in s.spent :: s.dir[a] != s.spent[r])
    && (forall a | a in s.dir :: s.dir[a] < |s.issues| && s.issues[s.dir[a]].nonce == a.nonce)
    && (forall r | r in s.spent :: s.spent[r] < |s.issues|)
    && (forall r | r in s.issuers :: !s.issuers[r].Drawing? ==> s.issuers[r].id < |s.issues|)
  }

  predicate MayHaveTaken(pc: Pc) { pc in {Removed, Leaving, HalfLeft, Answer} }

  predicate MustHaveTaken(q: Req) { q.strict && (q.outcome == Valid || q.pc == Removed) }

  /** A request or response that counts as valid in strict mode took a vouching record out of the directory. */
  ghost predicate Ticketed(s: State) {
    && (forall r | r in s.spent && r in s.reqs :: MayHaveTaken(s.reqs[r].pc))
    && (forall r | r in s.reqs && MustHaveTaken(s.reqs[r]) ::
          r in s.spent && Vouches(s, s.spent[r], s.reqs[r].nonce, s.reqs[r].reservedAt))
    && (forall r | r in s.responses && s.responses[r].strict && s.responses[r].valid ::
          r in s.spent && Vouches(s, s.spent[r], s.responses[r].nonce, s.responses[r].reservedAt))
  }

  ghost predicate Inv(s: State) {
    && Ownership(s) && Fresh(s) && Storage(s) && History(s) && Directory(s) && Ticketed(s)
    && (HasHolder(s) ==> HolderRecord(s, s.reqs[s.lock.value]))
  }

  // ---------------------------------------------------------------------
  // Steps of the lock holder that stay inside the critical section
  // ---------------------------------------------------------------------

  /** Request r holds the lock before and after, and touches no other request or process. */
  ghost predicate Inside(s: State, s': State, r: Rid) {
    && r in s.reqs && r in s'.reqs
    && HoldsLock(s.reqs[r]) && HoldsMutex(s.reqs[r])
    && HoldsLock(s'.reqs[r]) && HoldsMutex(s'.reqs[r])
    && s'.reqs == s.reqs[r := s'.reqs[r]]
    && s.reqs[r].pid in s.procs && s.reqs[r].pid in s'.procs
    && s'.procs == s.procs[s.reqs[r].pid := s'.procs[s.reqs[r].pid]]
    && s'.procs[s.reqs[r].pid].mutex == s.procs[s.reqs[r].pid].mutex
    && SameRequest(s.reqs[r], s'.reqs[r])
    && s'.lock == s.lock && s'.issuers == s.issuers && s'.nextRid == s.nextRid
    && s'.responses == s.responses && s'.issues == s.issues
  }

  predicate SameRequest(q: Req, q': Req) {
    q'.pid == q.pid && q'.strict == q.strict && q'.nonce == q.nonce && q'.fp == q.fp && q'.seqNum == q.seqNum
  }

  lemma InsideOwnership(s: State, s': State, r: Rid)
    requires Ownership(s) && Inside(s, s', r)
    ensures Ownership(s') && s'.lock == Some(r)
  {
  }

  /** The file only grows, and the holder's memory is right for where it stands. */
  ghost predicate StorageStep(s: State, s': State, r: Rid)
    requires Inside(s, s', r)
  {
    && s'.file != Some(Torn)
    && Below(DurableTable(s), DurableTable(s'))
    && HolderMemory(s', s'.reqs[r])
    && (Ahead(s'.reqs[r].pc) || Below(s'.procs[s.reqs[r].pid].mem, DurableTable(s')))
  }

  lemma InsideStorage(s: State, s': State, r: Rid)
    requires Ownership(s) && Ownership(s') && Storage(s) && Inside(s, s', r) && s'.lock == Some(r)
    requires StorageStep(s, s', r)
    ensures Storage(s')
  {
    forall p | p in s'.procs && AheadPid(s') != Some(p)
      ensures Below(s'.procs[p].mem, DurableTable(s'))
    {
      if p != s.reqs[r].pid {
        assert s'.procs[p] == s.procs[p];
        assert Below(s.procs[p].mem, DurableTable(s));
      }
    }
  }

  /** Either no commit, or one new commit above everything durable for its fingerprint. */
  ghost predicate HistoryStep(s: State, s': State, r: Rid)
    requires Inside(s, s', r)
  {
    var q, q' := s.reqs[r], s'.reqs[r];
    var c := Commit(r, q.fp, q.seqNum);
    && (PastRename(q.pc) ==> PastRename(q'.pc))
    && (q'.outcome == Valid ==> q'.pc in {Leaving, HalfLeft, Answer})
    && Below(DurableTable(s), DurableTable(s'))
    && if s'.commits == s.commits then MustBeCommitted(q') ==> MustBeCommitted(q)
       else
         && s'.commits == s.commits + [c]
         && !PastRename(q.pc) && PastRename(q'.pc)
         && (q.fp in DurableTable(s) ==> DurableTable(s)[q.fp] < q.seqNum)
         && q.fp in DurableTable(s') && q.seqNum <= DurableTable(s')[q.fp]
  }

  /** One more commit, above everything durable for its fingerprint and by a request that had none. */
  lemma OneMoreCommit(before: seq<Commit>, c: Commit, table: Table, newTable: Table)
    requires Increasing(before) && OncePerRequest(before) && Covered(before, table) && Below(table, newTable)
    requires c.fp in table ==> table[c.fp] < c.seqNum
    requires c.fp in newTable && c.seqNum <= newTable[c.fp]
    requires forall d | d in before :: d.rid != c.rid
    ensures Increasing(before + [c]) && OncePerRequest(before + [c]) && Covered(before + [c], newTable)
  {
    var after := before + [c];
    forall i, j | 0 <= i < j < |after|
      ensures after[i].rid != after[j].rid
      ensures after[i].fp == after[j].fp ==> after[i].seqNum < after[j].seqNum
    {
      assert after[i] == before[i] && before[i] in before;
    }
  }

  lemma InsideHistory(s: State, s': State, r: Rid)
    requires History(s) && Inside(s, s', r) && HistoryStep(s, s', r)
    ensures History(s')
  {
    var c := Commit(r, s.reqs[r].fp, s.reqs[r].seqNum);
    if s'.commits != s.commits {
      OneMoreCommit(s.commits, c, DurableTable(s), DurableTable(s'));
      assert forall d | d in s'.commits :: d in s.commits || d == c;
      assert s'.commits[|s.commits|] == c;
      assert forall d | d in s.commits :: d in s'.commits;
    }
  }

  /** The request keeps hold of its record, and took one only when it says so. */
  ghost predicate TicketStep(s: State, s': State, r: Rid)
    requires Inside(s, s', r)
  {
    var q, q' := s.reqs[r], s'.reqs[r];
    && HolderRecord(s', q')
    && (Unreserved(q'.pc) ==> q'.resv.None?)
    && (if s'.spent == s.spent then MayHaveTaken(q.pc) ==> MayHaveTaken(q'.pc)
        else r in s'.spent && s'.spent == s.spent[r := s'.spent[r]] && !MayHaveTaken(q.pc) && MayHaveTaken(q'.pc))
    && (MustHaveTaken(q') ==> r in s'.spent && Vouches(s', s'.spent[r], q'.nonce, q'.reservedAt))
  }

  lemma InsideTicketed(s: State, s': State, r: Rid)
    requires Ticketed(s) && Fresh(s) && Inside(s, s', r) && TicketStep(s, s', r)
    ensures Ticketed(s')
  {
    if s'.spent != s.spent { assert r !in s.spent; }
  }

  lemma InsideFresh(s: State, s': State, r: Rid)
    requires Fresh(s) && Inside(s, s', r)
    requires Unreserved(s'.reqs[r].pc) ==> s'.reqs[r].resv.None?
    requires s'.commits == s.commits || s'.commits == s.commits + [Commit(r, s.reqs[r].fp, s.reqs[r].seqNum)]
    requires s'.spent == s.spent || (r in s'.spent && s'.spent == s.spent[r := s'.spent[r]])
    ensures Fresh(s')
  {
  }

  /** The five things a lock holder does to the challenge directory. */
  ghost predicate DirectoryStep(s: State, s': State, r: Rid)
    requires Inside(s, s', r)
  {
    var q, mine, resv := s.reqs[r], Available(s.reqs[r].nonce), s.reqs[r].resv;
    var aside := Reserved(q.nonce, q.pid.number, s.procs[q.pid].counter);
    var held := resv.Some? && resv.value in s.dir && resv.value.nonce == q.nonce && Holding(q.pc);
    && s.procs[q.pid].counter <= s'.procs[q.pid].counter
    && if s'.reqs[r].resv == resv then
         || (s'.dir == s.dir && s'.spent == s.spent)
         || (s'.dir == s.dir - {mine} && s'.spent == s.spent)
         || (held && s'.dir == Move(s.dir, resv.value, mine) && s'.spent == s.spent)
         || (held && s'.dir == s.dir - {resv.value} && s'.spent == s.spent[r := s.dir[resv.value]])
       else
         && s'.reqs[r].resv == Some(aside) && s.procs[q.pid].counter < s'.procs[q.pid].counter
         && mine in s.dir && s'.dir == Move(s.dir, mine, aside) && s'.spent == s.spent
  }

  lemma MoveKeepsDirectory(s: State, s': State, from: Path, to: Path)
    requires Directory(s) && from in s.dir && from.nonce == to.nonce
    requires s'.dir == Move(s.dir, from, to)
    requires s'.spent == s.spent && s'.issues == s.issues && s'.issuers == s.issuers
    ensures Directory(s')
  {
  }

  lemma RemoveKeepsDirectory(s: State, s': State, path: Path)
    requires Directory(s) && s'.dir == s.dir - {path}
    requires s'.spent == s.spent && s'.issues == s.issues && s'.issuers == s.issuers
    ensures Directory(s')
  {
  }

  lemma TakeKeepsDirectory(s: State, s': State, path: Path, r: Rid)
    requires Directory(s) && path in s.dir && s'.dir == s.dir - {path}
    requires s'.spent == s.spent[r := s.dir[path]] && s'.issues == s.issues && s'.issuers == s.issuers
    ensures Directory(s')
  {
  }

  lemma InsideDirectory(s: State, s': State, r: Rid)
    requires Directory(s) && Inside(s, s', r) && DirectoryStep(s, s', r)
    ensures Directory(s')
  {
    var q, mine, resv := s.reqs[r], Available(s.reqs[r].nonce), s.reqs[r].resv;
    var aside := Reserved(q.nonce, q.pid.number, s.procs[q.pid].counter);
    if s'.dir == s.dir && s'.spent == s.spent {
    } else if s'.dir == s.dir - {mine} && s'.spent == s.spent {
      RemoveKeepsDirectory(s, s', mine);
    } else if mine in s.dir && s'.dir == Move(s.dir, mine, aside) && s'.spent == s.spent {
      MoveKeepsDirectory(s, s', mine, aside);
    } else if s'.spent == s.spent && s'.dir == Move(s.dir, resv.value, mine) {
      MoveKeepsDirectory(s, s', resv.value, mine);
    } else {
      TakeKeepsDirectory(s, s', resv.value, r);
    }
  }

  ghost predicate GoodStep(s: State, s': State, r: Rid) {
    && Inside(s, s', r) && StorageStep(s, s', r) && HistoryStep(s, s', r) && TicketStep(s, s', r)
    && DirectoryStep(s, s', r)
  }

  lemma InsideInv(s: State, s': State, r: Rid)
    requires Inv(s) && GoodStep(s, s', r)
    ensures Inv(s')
  {
    InsideOwnership(s, s', r);
    InsideStorage(s, s', r);
    InsideHistory(s, s', r);
    InsideTicketed(s, s', r);
    InsideFresh(s, s', r);
    InsideDirectory(s, s', r);
  }

  /** What the invariant says about the lock holder alone; enough for every step it takes. */
  ghost predicate Holder(s: State, r: Rid) {
    && r in s.reqs && s.lock == Some(r) && HoldsLock(s.reqs[r]) && HoldsMutex(s.reqs[r])
    && s.reqs[r].pid in s.procs
    && s.file != Some(Torn)
    && HolderMemory(s, s.reqs[r]) && HolderRecord(s, s.reqs[r])
    && (Unreserved(s.reqs[r].pc) ==> s.reqs[r].resv.None?)
    && (Ahead(s.reqs[r].pc) || Below(s.procs[s.reqs[r].pid].mem, DurableTable(s)))
    && (s.reqs[r].outcome == Valid ==> s.reqs[r].pc in {Leaving, HalfLeft, Answer})
    && (MustHaveTaken(s.reqs[r]) ==> r in s.spent && Vouches(s, s.spent[r], s.reqs[r].nonce, s.reqs[r].reservedAt))
  }

  lemma TheHolder(s: State, r: Rid)
    requires Inv(s) && r in s.reqs && HoldsLock(s.reqs[r]) && HoldsMutex(s.reqs[r])
    ensures Holder(s, r)
  {
  }
}
