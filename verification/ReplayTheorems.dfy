/** What the replay protocol guarantees over every run: any number of processes and
    requests, every interleaving, every I/O failure, and crashes anywhere. */
module ReplayTheorems {
  import opened Types
  import opened ReplayProtocol
  import opened ReplayInvariant
  import opened ReplaySteps
  import opened ReplayOutside
  import opened ReplaySafety

  // ---------------------------------------------------------------------
  // Sequence numbers
  // ---------------------------------------------------------------------

  /** Commits for one fingerprint carry strictly increasing sequence numbers. */
  lemma CommitsIncrease(table: Option<Table>, actions: seq<Action>, i: nat, j: nat)
    requires i < j < |Run(Initial(table), actions).commits|
    ensures var cs := Run(Initial(table), actions).commits;
      cs[i].fp == cs[j].fp ==> cs[i].seqNum < cs[j].seqNum
  {
    RunInv(table, actions);
  }

  /** No (fingerprint, sequence) pair gets a valid response twice. */
  lemma NoReplay(table: Option<Table>, actions: seq<Action>, a: Rid, b: Rid)
    requires var rs := Run(Initial(table), actions).responses;
      a in rs && b in rs && rs[a].valid && rs[b].valid && rs[a].fp == rs[b].fp && rs[a].seqNum == rs[b].seqNum
    ensures a == b
  {
    var s := Run(Initial(table), actions);
    RunInv(table, actions);
    var i :| 0 <= i < |s.commits| && s.commits[i] == Commit(a, s.responses[a].fp, s.responses[a].seqNum);
    var j :| 0 <= j < |s.commits| && s.commits[j] == Commit(b, s.responses[b].fp, s.responses[b].seqNum);
    assert i == j;
  }

  // ---------------------------------------------------------------------
  // Durability
  // ---------------------------------------------------------------------

  /** The state file is never torn, and covers every committed and every acknowledged receipt. */
  lemma DurableBeforeAcknowledged(table: Option<Table>, actions: seq<Action>)
    ensures var s := Run(Initial(table), actions);
      && (s.file.None? || s.file.value.Whole?)
      && Covered(s.commits, DurableTable(s))
      && forall r | r in s.responses && s.responses[r].valid ::
           s.responses[r].fp in DurableTable(s) && s.responses[r].seqNum <= DurableTable(s)[s.responses[r].fp]
  {
    RunInv(table, actions);
  }

  /** No step lowers or forgets a durable entry. */
  lemma DurableNeverDecreases(s: State, a: Action)
    requires Inv(s)
    ensures Below(DurableTable(s), DurableTable(Next(s, a)))
  {
    if InCritical(a) {
      if Next(s, a) != s {
        InsideEnters(s, a);
        InsideGood(s, a.rid, a);
      }
    } else {
      OutsideKeeps(s, a);
    }
  }

  lemma {:induction false} DurableOverRuns(table: Option<Table>, actions: seq<Action>, i: nat)
    requires i <= |actions|
    ensures Below(DurableTable(Run(Initial(table), actions[..i])), DurableTable(Run(Initial(table), actions)))
    decreases |actions|
  {
    if i == |actions| {
      assert actions[..i] == actions;
    } else {
      var before := actions[..|actions| - 1];
      DurableOverRuns(table, before, i);
      assert before[..i] == actions[..i];
      RunInv(table, before);
      DurableNeverDecreases(Run(Initial(table), before), actions[|actions| - 1]);
    }
  }

  /** Once a pair is committed, acknowledged or not, the verifier refuses it and everything below it. */
  lemma CommittedIsRefused(s: State, c: Commit, r: Rid)
    requires Inv(s) && c in s.commits && At(s, r, Snapped)
    requires s.reqs[r].fp == c.fp && s.reqs[r].seqNum <= c.seqNum
    ensures Next(s, Verify(r, PolicyHolds)) == Decline(s, r, Invalid)
  {
    TheHolder(s, r);
    CoveredIsRefused(s, c, r);
  }

  lemma CoveredIsRefused(s: State, c: Commit, r: Rid)
    requires At(s, r, Snapped) && HolderMemory(s, s.reqs[r]) && Covered([c], DurableTable(s))
    requires s.reqs[r].fp == c.fp && s.reqs[r].seqNum <= c.seqNum
    ensures Next(s, Verify(r, PolicyHolds)) == Decline(s, r, Invalid)
  {
    assert c in [c];
  }

  // ---------------------------------------------------------------------
  // Challenges
  // ---------------------------------------------------------------------

  ghost function IssuesOf(s: State, nonce: Nonce): set<nat> {
    set i | 0 <= i < |s.issues| && s.issues[i].nonce == nonce
  }

  /** Available and reserved records for a nonce. */
  ghost function RecordsOf(s: State, nonce: Nonce): set<Path> {
    set p | p in s.dir && p.nonce == nonce
  }

  /** Valid responses of strict services for a nonce. */
  ghost function AcceptedOf(s: State, nonce: Nonce): set<Rid> {
    set r | r in s.responses && s.responses[r].valid && s.responses[r].strict && s.responses[r].nonce == nonce
  }

  ghost function Image<K>(keys: set<K>, m: map<K, nat>): set<nat>
    requires keys <= m.Keys
  {
    set k | k in keys :: m[k]
  }

  lemma {:induction false} ImageSize<K>(keys: set<K>, m: map<K, nat>)
    requires keys <= m.Keys && Injective(m)
    ensures |Image(keys, m)| == |keys|
    decreases keys
  {
    if keys == {} {
      assert Image(keys, m) == {};
    } else {
      var k :| k in keys;
      ImageSize(keys - {k}, m);
      assert Image(keys, m) == Image(keys - {k}, m) + {m[k]};
    }
  }

  lemma {:induction false} SubsetSize<T>(a: set<T>, b: set<T>)
    requires a <= b
    ensures |a| <= |b|
    decreases a
  {
    if a != {} {
      var x :| x in a;
      SubsetSize(a - {x}, b - {x});
    }
  }

  lemma TokensFit(s: State, nonce: Nonce)
    requires Directory(s) && Ticketed(s)
    ensures |AcceptedOf(s, nonce)| + |RecordsOf(s, nonce)| <= |IssuesOf(s, nonce)|
  {
    var a, b := AcceptedOf(s, nonce), RecordsOf(s, nonce);
    assert a <= s.spent.Keys && b <= s.dir.Keys;
    var ia, ib := Image(a, s.spent), Image(b, s.dir);
    ImageSize(a, s.spent);
    ImageSize(b, s.dir);
    assert ia !! ib;
    assert |ia + ib| == |ia| + |ib|;
    assert ia + ib <= IssuesOf(s, nonce);
    SubsetSize(ia + ib, IssuesOf(s, nonce));
  }

  /** Challenge tokens are conserved: a nonce is accepted at most as often as it was issued,
      counting the records still lying in the directory.  Drawn nonces need not be fresh. */
  lemma ChallengesConserved(table: Option<Table>, actions: seq<Action>, nonce: Nonce)
    ensures var s := Run(Initial(table), actions);
      |AcceptedOf(s, nonce)| + |RecordsOf(s, nonce)| <= |IssuesOf(s, nonce)|
  {
    RunInv(table, actions);
    TokensFit(Run(Initial(table), actions), nonce);
  }

  /** Every accepted strict response consumed its own issued record, complete and unexpired when checked. */
  lemma AcceptedWasUnexpired(table: Option<Table>, actions: seq<Action>, r: Rid)
    requires var rs := Run(Initial(table), actions).responses; r in rs && rs[r].valid && rs[r].strict
    ensures var s := Run(Initial(table), actions);
      && r in s.spent && s.spent[r] < |s.issues|
      && var issue := s.issues[s.spent[r]];
         issue.written && issue.nonce == s.responses[r].nonce && s.responses[r].reservedAt <= issue.expires
    ensures var s := Run(Initial(table), actions);
      forall q | q in s.spent && s.spent[q] == s.spent[r] :: q == r
  {
    RunInv(table, actions);
  }

  // ---------------------------------------------------------------------
  // The failure paths, exactly
  // ---------------------------------------------------------------------

  /** What a strict handler standing between rename and directory sync has in hand. */
  ghost predicate Replacing(s: State, r: Rid) {
    && At(s, r, Replaced) && s.reqs[r].strict
    && Accepted(s.reqs[r], s.reqs[r].prev, DurableTable(s))
    && s.reqs[r].resv.Some? && s.reqs[r].resv.value.Reserved? && s.reqs[r].resv.value in s.dir
  }

  lemma StandsReplacing(s: State, r: Rid)
    requires Inv(s) && At(s, r, Replaced) && s.reqs[r].strict
    ensures Replacing(s, r)
  {
    TheHolder(s, r);
  }

  /** File and directory are as in `s`; the request differs only in where it stands, its process in memory. */
  ghost predicate Undoing(s: State, s': State, r: Rid, pc: Pc, outcome: Outcome, mem: Table)
    requires r in s.reqs
  {
    && s'.file == s.file && s'.dir == s.dir
    && r in s'.reqs && s'.reqs[r] == s.reqs[r].(pc := pc, outcome := outcome)
    && s.reqs[r].pid in s'.procs && s'.procs[s.reqs[r].pid].mem == mem
  }

  lemma UndoOne(s: State, r: Rid, s1: State)
    requires At(s, r, Replaced) && s1 == Next(s, SyncRenameFails(r))
    ensures Undoing(s, s1, r, CleanTemp, s.reqs[r].outcome, s.procs[s.reqs[r].pid].mem)
  {
  }

  lemma UndoTwo(s: State, r: Rid, s1: State, removed: bool, s2: State)
    requires At(s, r, Replaced)
    requires Undoing(s, s1, r, CleanTemp, s.reqs[r].outcome, s.procs[s.reqs[r].pid].mem)
    requires s2 == Next(s1, RemoveTemp(r, removed))
    ensures Undoing(s, s2, r, Undo, s.reqs[r].outcome, s.procs[s.reqs[r].pid].mem)
  {
  }

  lemma UndoThree(s: State, r: Rid, s2: State, s3: State)
    requires At(s, r, Replaced) && s.reqs[r].resv.Some?
    requires Undoing(s, s2, r, Undo, s.reqs[r].outcome, s.procs[s.reqs[r].pid].mem)
    requires s3 == Next(s2, Rollback(r))
    ensures Undoing(s, s3, r, PutBack, Error, s.reqs[r].prev)
  {
  }

  /** When the rename succeeded but the directory sync failed, the file keeps the accepted entry
      while memory is rolled back to the snapshot and the challenge is available again. */
  lemma SyncFailureKeepsCommit(s: State, r: Rid, removed: bool, s4: State)
    requires Inv(s) && At(s, r, Replaced) && s.reqs[r].strict
    requires s4 == Next(Next(Next(Next(s, SyncRenameFails(r)), RemoveTemp(r, removed)), Rollback(r)), Restore(r))
    ensures s4.file == s.file && Accepted(s.reqs[r], s.reqs[r].prev, DurableTable(s4))
    ensures s.reqs[r].pid in s4.procs && s4.procs[s.reqs[r].pid].mem == s.reqs[r].prev
    ensures r in s4.reqs && s4.reqs[r].outcome == Error
    ensures s.reqs[r].resv.Some? && s.reqs[r].resv.value in s.dir
    ensures s4.dir == Move(s.dir, s.reqs[r].resv.value, Available(s.reqs[r].nonce))
  {
    StandsReplacing(s, r);
    var s1 := Next(s, SyncRenameFails(r));
    var s2 := Next(s1, RemoveTemp(r, removed));
    var s3 := Next(s2, Rollback(r));
    UndoOne(s, r, s1);
    UndoTwo(s, r, s1, removed, s2);
    UndoThree(s, r, s2, s3);
    UndoFour(s, r, s3);
  }

  lemma UndoFour(s: State, r: Rid, s3: State)
    requires Replacing(s, r) && Undoing(s, s3, r, PutBack, Error, s.reqs[r].prev)
    ensures var s4 := Next(s3, Restore(r));
      && Undoing(s, s4.(dir := s.dir), r, PutBackMoved, Error, s.reqs[r].prev)
      && s4.dir == Move(s.dir, s.reqs[r].resv.value, Available(s.reqs[r].nonce))
  {
  }

  /** A reserved record that no request has in hand. */
  ghost predicate Stranded(s: State, path: Path) {
    && path.Reserved? && path in s.dir
    && forall r | r in s.reqs && s.reqs[r].resv == Some(path) :: MayHaveTaken(s.reqs[r].pc)
  }

  /** The points with a challenge in hand at which a failure is returned straight away: syncing after the
      reserving rename, the snapshot, the verifier, removing the record, and putting it back. */
  predicate StrandsOnFailure(pc: Pc) { pc in {RecordMoved, Ready, Snapped, Durable, PutBack} }

  /** The failure at such a point. */
  function FailingStep(s: State, r: Rid): Action {
    if At(s, r, Snapped) then Verify(r, InfraError) else GiveUp(r)
  }

  /** When the verifier itself errs, the challenge is neither restored nor consumed: it stays reserved. */
  lemma InfraErrorStrands(s: State, r: Rid)
    requires Inv(s) && At(s, r, Snapped) && s.reqs[r].strict
    ensures Next(s, Verify(r, InfraError)) == Leave(s, r, Error)
    ensures s.reqs[r].resv.Some? && Stranded(Leave(s, r, Error), s.reqs[r].resv.value)
  {
    InfraErrorLeaves(s, r);
    FailureStrands(s, r);
  }

  lemma InfraErrorLeaves(s: State, r: Rid)
    requires At(s, r, Snapped)
    ensures Next(s, Verify(r, InfraError)) == Leave(s, r, Error)
  {
  }

  /** A failure at any of those points leaves the challenge reserved. */
  lemma FailureStrands(s: State, r: Rid)
    requires Inv(s) && r in s.reqs && At(s, r, s.reqs[r].pc) && StrandsOnFailure(s.reqs[r].pc) && s.reqs[r].strict
    ensures Next(s, FailingStep(s, r)) == Leave(s, r, Error)
    ensures s.reqs[r].resv.Some? && Stranded(Leave(s, r, Error), s.reqs[r].resv.value)
  {
    FailureLeaves(s, r);
    StrandingHolder(s, r);
    OthersAreDone(s, r);
    LeavingStrands(s, r);
  }

  lemma FailureLeaves(s: State, r: Rid)
    requires r in s.reqs && At(s, r, s.reqs[r].pc) && StrandsOnFailure(s.reqs[r].pc)
    ensures Next(s, FailingStep(s, r)) == Leave(s, r, Error)
  {
    if At(s, r, Snapped) {
      InfraErrorLeaves(s, r);
    }
  }

  lemma StrandingHolder(s: State, r: Rid)
    requires Inv(s) && r in s.reqs && StrandsOnFailure(s.reqs[r].pc)
    ensures Holder(s, r) && s.lock == Some(r)
  {
    TheHolder(s, r);
  }

  lemma OthersAreDone(s: State, r: Rid)
    requires Inv(s) && s.lock == Some(r)
    ensures forall x | x in s.reqs && x != r && s.reqs[x].resv.Some? :: MayHaveTaken(s.reqs[x].pc)
  {
    forall x | x in s.reqs && x != r && s.reqs[x].resv.Some?
      ensures MayHaveTaken(s.reqs[x].pc)
    {
      TheFacts(s, x);
      OtherStandsOutside(s, r, x);
      assert !Unreserved(s.reqs[x].pc);
    }
  }

  lemma OtherStandsOutside(s: State, r: Rid, x: Rid)
    requires s.lock == Some(r) && x != r && Facts(s, x)
    ensures s.reqs[x].pc in {Arrived, Mutexed, HalfLeft, Answer}
  {
  }

  lemma LeavingStrands(s: State, r: Rid)
    requires Holder(s, r) && StrandsOnFailure(s.reqs[r].pc) && s.reqs[r].strict
    requires forall x | x in s.reqs && x != r && s.reqs[x].resv.Some? :: MayHaveTaken(s.reqs[x].pc)
    ensures s.reqs[r].resv.Some? && Stranded(Leave(s, r, Error), s.reqs[r].resv.value)
  {
  }

  // What becomes of a stranded record

  /** Nobody can use this record any more: it was not taken, and it has no name or one that no request has in hand. */
  ghost predicate Lost(s: State, id: nat) {
    && id < |s.issues|
    && (forall r | r in s.spent :: s.spent[r] != id)
    && forall path | path in s.dir && s.dir[path] == id :: Stranded(s, path)
  }

  lemma StrandedIsLost(s: State, path: Path)
    requires Directory(s) && Stranded(s, path)
    ensures Lost(s, s.dir[path])
  {
  }

  /** A lost record stays lost, whatever anybody does: crashes and restarts under the same process number, and
      renames over its name, included. */
  lemma LostStays(s: State, a: Action, id: nat)
    requires Inv(s) && Lost(s, id)
    ensures Lost(Next(s, a), id)
  {
    StepIsOne(s, a);
    LostStep(s, Next(s, a), id);
  }

  /** Nothing, a step of the lock holder, or a step that leaves what the lock protects alone. */
  ghost predicate OneStep(s: State, s': State) {
    s' == s || (exists r :: GoodStep(s, s', r)) || (Calm(s, s') && NamesOnlyNew(s, s'))
  }

  lemma StepIsOne(s: State, a: Action)
    requires Inv(s)
    ensures OneStep(s, Next(s, a))
  {
    if InCritical(a) {
      if Next(s, a) != s {
        InsideEnters(s, a);
        InsideGood(s, a.rid, a);
      }
    } else {
      OutsideKeeps(s, a);
      OnlyIssuesNameRecords(s, a);
    }
  }

  lemma LostStep(s: State, s': State, id: nat)
    requires Directory(s) && Lost(s, id) && OneStep(s, s')
    ensures Lost(s', id)
  {
    if s' != s {
      if r :| GoodStep(s, s', r) {
        if s'.reqs[r].resv == s.reqs[r].resv {
          LostWhenKept(s, s', r, id);
        } else {
          LostWhenMoved(s, s', r, id);
        }
      } else {
        LostOutside(s, s', id);
      }
    }
  }

  lemma LostWhenKept(s: State, s': State, r: Rid, id: nat)
    requires Lost(s, id) && Directory(s) && Inside(s, s', r) && TicketStep(s, s', r) && DirectoryStep(s, s', r)
    requires s'.reqs[r].resv == s.reqs[r].resv
    ensures Lost(s', id)
  {
    forall path | path in s'.dir && s'.dir[path] == id
      ensures path in s.dir && s.dir[path] == id
      ensures forall x | x in s'.reqs && s'.reqs[x].resv == Some(path) :: MayHaveTaken(s'.reqs[x].pc)
    {
      assert path in s.dir && s.dir[path] == id;
      assert Stranded(s, path);
    }
  }

  lemma LostWhenMoved(s: State, s': State, r: Rid, id: nat)
    requires Lost(s, id) && Directory(s) && Inside(s, s', r) && DirectoryStep(s, s', r)
    requires s'.reqs[r].resv != s.reqs[r].resv
    ensures Lost(s', id)
  {
  }

  /** Outside the critical section only new records get names. */
  ghost predicate NamesOnlyNew(s: State, s': State) {
    forall path | path in s'.dir :: (path in s.dir && s'.dir[path] == s.dir[path]) || s'.dir[path] == |s.issues|
  }

  lemma OnlyIssuesNameRecords(s: State, a: Action)
    requires !InCritical(a)
    ensures NamesOnlyNew(s, Next(s, a))
  {
    if Guarding(a) {
      GuardsLeaveNames(s, a);
    } else if Issuing(a) {
      IssuersNameNew(s, a);
    } else {
      PassingLeavesNames(s, a);
    }
  }

  lemma GuardsLeaveNames(s: State, a: Action)
    requires Guarding(a)
    ensures NextGuarding(s, a).dir == s.dir
  {
    if a.DropGuard? {
      DroppingLeavesNames(s, a.rid);
    }
  }

  lemma DroppingLeavesNames(s: State, r: Rid)
    ensures NextGuarding(s, DropGuard(r)).dir == s.dir
  {
  }

  lemma IssuersNameNew(s: State, a: Action)
    requires Issuing(a)
    ensures NamesOnlyNew(s, NextIssuing(s, a))
  {
  }

  lemma PassingLeavesNames(s: State, a: Action)
    requires Passing(a)
    ensures NextPassing(s, a).dir == s.dir
  {
  }

  lemma LostOutside(s: State, s': State, id: nat)
    requires Lost(s, id) && Calm(s, s') && NamesOnlyNew(s, s')
    ensures Lost(s', id)
  {
  }

  /** Over every run from there no request ever makes the record available again or takes it. */
  lemma {:induction false} LostForGood(s: State, actions: seq<Action>, id: nat)
    requires Inv(s) && Lost(s, id)
    ensures Inv(Run(s, actions)) && Lost(Run(s, actions), id)
    decreases |actions|
  {
    if actions != [] {
      var before, last := actions[..|actions| - 1], actions[|actions| - 1];
      LostForGood(s, before, id);
      StepKeeps(Run(s, before), last);
      LostStays(Run(s, before), last, id);
    }
  }

  /** When the sync after the reserving rename, the snapshot, the verifier, the removal or the restoring rename
      fails, then over every run to come the record is neither restored nor taken. */
  lemma FailureStrandsForGood(s: State, r: Rid, actions: seq<Action>)
    requires Inv(s) && r in s.reqs && At(s, r, s.reqs[r].pc) && StrandsOnFailure(s.reqs[r].pc) && s.reqs[r].strict
    ensures s.reqs[r].resv.Some? && s.reqs[r].resv.value in s.dir
    ensures var id := s.dir[s.reqs[r].resv.value];
      var later := Run(Next(s, FailingStep(s, r)), actions);
      && (forall path | path in later.dir && later.dir[path] == id :: path.Reserved?)
      && (forall x | x in later.spent :: later.spent[x] != id)
  {
    FailureStrands(s, r);
    StepKeeps(s, FailingStep(s, r));
    var s' := Next(s, FailingStep(s, r));
    StrandedIsLost(s', s.reqs[r].resv.value);
    LostForGood(s', actions, s.dir[s.reqs[r].resv.value]);
  }

  // How long it keeps its name

  /** Request r now holds a reservation under this name, and did not before. */
  predicate Claims(s: State, s': State, r: Rid, path: Path) {
    r in s.reqs && r in s'.reqs && s'.reqs[r].resv == Some(path) && s.reqs[r].resv != Some(path)
  }

  /** This is the name that a reservation of request r would get. */
  predicate Names(s: State, r: Rid, path: Path) {
    && r in s.reqs && s.reqs[r].pid in s.procs
    && path == Reserved(s.reqs[r].nonce, s.reqs[r].pid.number, s.procs[s.reqs[r].pid].counter)
  }

  /** A stranded record loses its name exactly to a request that reserves another record under it, which takes
      a process of the same number at the same count. */
  lemma StrandedStays(s: State, a: Action, path: Path)
    requires Inv(s) && Stranded(s, path)
    ensures path in Next(s, a).dir
    ensures Next(s, a).dir[path] != s.dir[path] <==> exists r :: Claims(s, Next(s, a), r, path)
    ensures Next(s, a).dir[path] != s.dir[path] ==> exists r :: Names(s, r, path)
  {
    StepIsOne(s, a);
    StrandedStep(s, Next(s, a), path);
  }

  lemma StrandedStep(s: State, s': State, path: Path)
    requires Directory(s) && Stranded(s, path) && OneStep(s, s')
    ensures path in s'.dir
    ensures s'.dir[path] != s.dir[path] <==> exists r :: Claims(s, s', r, path)
    ensures s'.dir[path] != s.dir[path] ==> exists r :: Names(s, r, path)
  {
    if s' != s {
      if r :| GoodStep(s, s', r) {
        StrandedInside(s, s', r, path);
      } else {
        StrandedOutside(s, s', path);
      }
    }
  }

  lemma StrandedInside(s: State, s': State, r: Rid, path: Path)
    requires Stranded(s, path) && Directory(s) && Inside(s, s', r) && DirectoryStep(s, s', r)
    ensures path in s'.dir
    ensures s'.dir[path] != s.dir[path] <==> exists x :: Claims(s, s', x, path)
    ensures s'.dir[path] != s.dir[path] ==> exists x :: Names(s, x, path)
  {
    if s'.reqs[r].resv == s.reqs[r].resv {
      KeptReservation(s, s', r, path);
    } else {
      NewReservation(s, s', r, path);
    }
  }

  /** Without a new reservation only the request's own record and the available one are touched. */
  lemma KeptReservation(s: State, s': State, r: Rid, path: Path)
    requires Stranded(s, path) && Inside(s, s', r) && DirectoryStep(s, s', r) && s'.reqs[r].resv == s.reqs[r].resv
    ensures path in s'.dir && s'.dir[path] == s.dir[path]
    ensures forall x :: !Claims(s, s', x, path)
  {
  }

  lemma NewReservation(s: State, s': State, r: Rid, path: Path)
    requires Stranded(s, path) && Directory(s) && Inside(s, s', r) && DirectoryStep(s, s', r)
    requires s'.reqs[r].resv != s.reqs[r].resv
    ensures path in s'.dir
    ensures s'.dir[path] != s.dir[path] <==> Claims(s, s', r, path)
    ensures s'.dir[path] != s.dir[path] ==> Names(s, r, path)
    ensures forall x :: Claims(s, s', x, path) ==> x == r
  {
  }

  lemma StrandedOutside(s: State, s': State, path: Path)
    requires Stranded(s, path) && Calm(s, s')
    ensures path in s'.dir && s'.dir[path] == s.dir[path]
    ensures forall x :: !Claims(s, s', x, path)
  {
  }

  // Runs

  /** A run of a run is a run. */
  lemma {:induction false} RunOfRun(s: State, first: seq<Action>, second: seq<Action>)
    ensures Run(Run(s, first), second) == Run(s, first + second)
    decreases |second|
  {
    if second == [] {
      assert first + second == first;
    } else {
      var n := |second| - 1;
      RunOfRun(s, first, second[..n]);
      assert (first + second)[..|first + second| - 1] == first + second[..n];
    }
  }

  /** A response that was given is never taken back. */
  lemma {:induction false} ResponsesStay(s: State, later: seq<Action>, r: Rid)
    requires Inv(s) && r in s.responses
    ensures Inv(Run(s, later))
    ensures r in Run(s, later).responses && Run(s, later).responses[r] == s.responses[r]
    decreases |later|
  {
    if later != [] {
      var before, last := later[..|later| - 1], later[|later| - 1];
      ResponsesStay(s, before, r);
      StepKeeps(Run(s, before), last);
      StepIsOne(Run(s, before), last);
      ResponseStays(Run(s, before), Next(Run(s, before), last), r);
    }
  }

  lemma ResponseStays(s: State, s': State, r: Rid)
    requires Inv(s) && OneStep(s, s') && r in s.responses
    ensures r in s'.responses && s'.responses[r] == s.responses[r]
  {
  }

  // What the surroundings may do

  /** The clock may be set to anything. */
  lemma TickMeans(s: State, now: nat)
    ensures Next(s, Tick(now)) == s.(clock := now)
  {
  }

  /** A process that is not running starts with the table of the state file and an unused counter, unless the file
      is torn. */
  lemma StartMeans(s: State, p: Pid, strict: bool)
    requires p !in s.procs && s.file != Some(Torn)
    ensures Next(s, Start(p, strict)) == s.(procs := s.procs[p := Proc(DurableTable(s), 0, None, strict)])
  {
  }

  /** A crash at any point takes the process, its requests and its guards with it, and leaves the disk alone. */
  lemma CrashMeans(s: State, p: Pid)
    ensures var t := Next(s, Crash(p));
      && t == s.(procs := t.procs, reqs := t.reqs, issuers := t.issuers, lock := t.lock)
      && t.procs == s.procs - {p}
      && (forall r :: r in t.reqs <==> r in s.reqs && s.reqs[r].pid != p)
      && (forall r | r in t.reqs :: t.reqs[r] == s.reqs[r])
      && (forall r :: r in t.issuers <==> r in s.issuers && s.issuers[r].pid != p)
      && (forall r | r in t.issuers :: t.issuers[r] == s.issuers[r])
      && (t.lock.None? <==> s.lock.None? || (s.lock.value in s.reqs && s.reqs[s.lock.value].pid == p))
      && (t.lock.Some? ==> t.lock == s.lock)
  {
    CrashResult(s, p);
  }

  lemma CrashResult(s: State, p: Pid)
    ensures Next(s, Crash(p)) == DoCrash(s, p)
  {
  }

  /** A challenge that is asked for now expires in 300 seconds, and is drawn at most eight times. */
  lemma IssueMeans(s: State, p: Pid)
    requires p in s.procs && s.clock + 300 <= 18446744073709551615
    ensures Next(s, IssueArrive(p)) ==
      s.(issuers := s.issuers[s.nextRid := Drawing(p, s.clock + 300, 0)], nextRid := s.nextRid + 1)
    ensures CHALLENGE_DRAWS == 8
  {
    IssueArriveResult(s, p);
  }
}
