/** Every action keeps the invariant of the replay protocol. */
module ReplaySteps {
  import opened ReplayProtocol
  import opened ReplayInvariant

  /** The holder may go from q to q' with nothing else changing. */
  ghost predicate Quiet(s: State, q: Req, q': Req)
    requires q.pid in s.procs
  {
    && SameRequest(q, q') && q'.resv == q.resv && HoldsLock(q') && HoldsMutex(q')
    && HolderMemory(s, q') && HolderRecord(s, q')
    && (Ahead(q'.pc) || Below(s.procs[q.pid].mem, DurableTable(s)))
    && (PastRename(q.pc) ==> PastRename(q'.pc))
    && (MustBeCommitted(q') ==> MustBeCommitted(q))
    && (q'.outcome == Valid ==> q'.pc == Leaving)
    && (Unreserved(q'.pc) ==> q'.resv.None?)
    && (MayHaveTaken(q.pc) ==> MayHaveTaken(q'.pc))
    && (MustHaveTaken(q') ==> MustHaveTaken(q) && q'.reservedAt == q.reservedAt)
  }

  lemma QuietGood(s: State, r: Rid, q': Req)
    requires Holder(s, r) && Quiet(s, s.reqs[r], q')
    ensures GoodStep(s, Put(s, r, q'), r)
  {
  }

  // Actions of the lock holder that leave the challenge directory alone

  lemma ReloadGood(s: State, r: Rid)
    requires Holder(s, r) && At(s, r, Locked)
    ensures GoodStep(s, DoReload(s, r), r)
  {
    if s.file.None? {
      assert s.procs[s.reqs[r].pid].mem == map[];
    }
  }

  lemma ReadRecordGood(s: State, r: Rid)
    requires Holder(s, r) && Directory(s) && At(s, r, Loaded) && s.reqs[r].strict && Readable(s, s.reqs[r].nonce)
    requires DoReadRecord(s, r) != s
    ensures GoodStep(s, DoReadRecord(s, r), r)
  {
  }

  lemma DeclineGood(s: State, r: Rid, outcome: Outcome)
    requires Holder(s, r) && s.reqs[r].pc in {Snapped, Undo} && outcome != Valid
    requires Below(s.procs[s.reqs[r].pid].mem, DurableTable(s))
    ensures GoodStep(s, Decline(s, r, outcome), r)
  {
    var q := s.reqs[r];
    QuietGood(s, r, if q.resv.Some? then q.(pc := PutBack, outcome := outcome)
                    else q.(pc := Leaving, outcome := outcome));
  }

  lemma AcceptGood(s: State, r: Rid)
    requires Holder(s, r) && At(s, r, Snapped)
    requires var q := s.reqs[r]; var mem := s.procs[q.pid].mem; q.fp in mem ==> mem[q.fp] < q.seqNum
    ensures GoodStep(s, DoVerify(s, r, PolicyHolds), r)
  {
  }

  lemma VerifyGood(s: State, r: Rid, verdict: Verdict)
    requires Holder(s, r) && At(s, r, Snapped)
    ensures GoodStep(s, DoVerify(s, r, verdict), r)
  {
    var q := s.reqs[r];
    var mem := s.procs[q.pid].mem;
    if verdict == PolicyFails || (verdict == PolicyHolds && q.fp in mem && q.seqNum <= mem[q.fp]) {
      DeclineGood(s, r, Invalid);
    } else if verdict == PolicyHolds {
      AcceptGood(s, r);
    } else {
      QuietGood(s, r, q.(pc := Leaving, outcome := Error));
    }
  }

  /** Moving on without changing memory, file or directory. */
  lemma GotoGood(s: State, r: Rid, pc: Pc)
    requires Holder(s, r)
    requires var from := s.reqs[r].pc;
      || (from == Loaded && pc == Ready && !s.reqs[r].strict)
      || (from == RecordMoved && pc == Ready)
      || (from == TempDone && pc == CleanTemp)
      || (from == Replaced && pc in {Durable, CleanTemp})
    ensures GoodStep(s, Goto(s, r, pc), r)
  {
    var q, q' := s.reqs[r], s.reqs[r].(pc := pc);
    assert HolderMemory(s, q');
    assert HolderRecord(s, q');
    QuietGood(s, r, q');
  }

  lemma SnapshotGood(s: State, r: Rid)
    requires Holder(s, r) && At(s, r, Ready)
    ensures GoodStep(s, Put(s, r, s.reqs[r].(pc := Snapped, prev := s.procs[s.reqs[r].pid].mem)), r)
  {
  }

  lemma MakeTempGood(s: State, r: Rid)
    requires Holder(s, r) && At(s, r, Checked) && DoMakeTemp(s, r) != s
    ensures GoodStep(s, DoMakeTemp(s, r), r)
  {
  }

  lemma MakeTempFailsGood(s: State, r: Rid)
    requires Holder(s, r) && At(s, r, Checked)
    ensures GoodStep(s, Goto(Bump(s, s.reqs[r].pid), r, Undo), r)
  {
  }

  lemma WriteTempGood(s: State, r: Rid, left: Content, pc: Pc)
    requires Holder(s, r) && At(s, r, TempMade)
    requires (pc == TempDone && left == Whole(s.procs[s.reqs[r].pid].mem)) || pc == CleanTemp
    ensures GoodStep(s, Goto(s.(temps := s.temps[MyTemp(s.reqs[r]) := left]), r, pc), r)
  {
  }

  lemma RenameGood(s: State, r: Rid)
    requires Holder(s, r) && At(s, r, TempDone) && MyTemp(s.reqs[r]) in s.temps
    ensures GoodStep(s, DoRename(s, r), r)
  {
  }

  lemma RemoveTempGood(s: State, r: Rid, temps: map<TempName, Content>)
    requires Holder(s, r) && At(s, r, CleanTemp)
    ensures GoodStep(s, Goto(s.(temps := temps), r, Undo), r)
  {
  }

  lemma RollbackGood(s: State, r: Rid)
    requires Holder(s, r) && At(s, r, Undo)
    ensures GoodStep(s, Decline(PutProc(s, s.reqs[r].pid, s.procs[s.reqs[r].pid].(mem := s.reqs[r].prev)), r, Error), r)
  {
    var q := s.reqs[r];
    if q.resv.Some? {
      RolledBackGood(s, r, q.(pc := PutBack, outcome := Error));
    } else {
      RolledBackGood(s, r, q.(pc := Leaving, outcome := Error));
    }
  }

  /** Memory is the snapshot again, and the request stands at q'. */
  lemma RolledBackGood(s: State, r: Rid, q': Req)
    requires Holder(s, r) && At(s, r, Undo) && q' == s.reqs[r].(pc := q'.pc, outcome := Error)
    requires q'.pc == if s.reqs[r].resv.Some? then PutBack else Leaving
    ensures GoodStep(s, Put(PutProc(s, q'.pid, s.procs[q'.pid].(mem := q'.prev)), r, q'), r)
  {
  }

  lemma LeaveGood(s: State, r: Rid, outcome: Outcome)
    requires Holder(s, r) && !Ahead(s.reqs[r].pc) && s.reqs[r].pc != Leaving
    requires outcome == Valid ==> s.reqs[r].pc == Removed || (s.reqs[r].pc == Durable && !s.reqs[r].strict)
    requires r in s.spent ==> s.reqs[r].pc == Removed
    ensures GoodStep(s, Leave(s, r, outcome), r)
  {
    QuietGood(s, r, s.reqs[r].(pc := Leaving, outcome := outcome));
  }

  lemma MoveFailsGood(s: State, r: Rid)
    requires Holder(s, r) && At(s, r, RecordRead)
    ensures GoodStep(s, Leave(Bump(s, s.reqs[r].pid), r, Error), r)
  {
  }

  // Actions of the lock holder on the challenge directory

  lemma DropExpiredGood(s: State, r: Rid, dir: map<Path, nat>)
    requires Holder(s, r) && At(s, r, Loaded) && (dir == s.dir || dir == s.dir - {Available(s.reqs[r].nonce)})
    ensures GoodStep(s, Leave(s.(dir := dir), r, Error), r)
  {
  }

  lemma MoveRecordGood(s: State, r: Rid)
    requires Holder(s, r) && At(s, r, RecordRead) && Available(s.reqs[r].nonce) in s.dir && s.reqs[r].strict
    ensures GoodStep(s, DoMoveRecord(s, r), r)
  {
  }

  lemma RestoreGood(s: State, r: Rid)
    requires Holder(s, r) && At(s, r, PutBack) && s.reqs[r].resv.Some? && s.reqs[r].resv.value in s.dir
    ensures GoodStep(s, DoRestore(s, r), r)
  {
  }

  lemma TakeGood(s: State, r: Rid)
    requires Holder(s, r) && At(s, r, Durable) && r !in s.spent
    requires s.reqs[r].resv.Some? && s.reqs[r].resv.value in s.dir
    ensures GoodStep(s, DoConsume(s, r), r)
  {
  }

  lemma ConsumeGood(s: State, r: Rid)
    requires Holder(s, r) && At(s, r, Durable) && r !in s.spent && DoConsume(s, r) != s
    ensures GoodStep(s, DoConsume(s, r), r)
  {
    if s.reqs[r].resv.None? {
      LeaveGood(s, r, Valid);
    } else {
      TakeGood(s, r);
    }
  }

  // ---------------------------------------------------------------------
  // Every action keeps the invariant
  // ---------------------------------------------------------------------

  ghost predicate Enters(s: State, r: Rid) {
    Holder(s, r) && Directory(s) && (r in s.spent ==> MayHaveTaken(s.reqs[r].pc))
  }

  // The actions whose effect depends on more than where the request stands

  lemma KeepRename(s: State, r: Rid)
    requires Enters(s, r) && NextPersisting(s, Rename(r)) != s
    ensures GoodStep(s, NextPersisting(s, Rename(r)), r)
  {
    RenameGood(s, r);
  }

  lemma KeepRollback(s: State, r: Rid)
    requires Enters(s, r) && NextPersisting(s, Rollback(r)) != s
    ensures GoodStep(s, NextPersisting(s, Rollback(r)), r)
  {
    RollbackGood(s, r);
  }

  lemma KeepRestore(s: State, r: Rid)
    requires Enters(s, r) && NextFinishing(s, Restore(r)) != s
    ensures GoodStep(s, NextFinishing(s, Restore(r)), r)
  {
    RestoreGood(s, r);
  }

  lemma KeepConsume(s: State, r: Rid)
    requires Enters(s, r) && NextFinishing(s, Consume(r)) != s
    ensures GoodStep(s, NextFinishing(s, Consume(r)), r)
  {
    ConsumeGood(s, r);
  }

  lemma KeepGiveUp(s: State, r: Rid)
    requires Enters(s, r) && NextFinishing(s, GiveUp(r)) != s
    ensures GoodStep(s, NextFinishing(s, GiveUp(r)), r)
  {
    LeaveGood(s, r, Error);
  }

  lemma KeepReadRecord(s: State, r: Rid)
    requires Enters(s, r) && NextReserving(s, ReadRecord(r)) != s
    ensures GoodStep(s, NextReserving(s, ReadRecord(r)), r)
  {
    ReadRecordGood(s, r);
  }

  lemma KeepDropExpired(s: State, r: Rid, removed: bool)
    requires Enters(s, r) && NextReserving(s, DropExpired(r, removed)) != s
    ensures GoodStep(s, NextReserving(s, DropExpired(r, removed)), r)
  {
    DropExpiredGood(s, r, if removed then s.dir - {Available(s.reqs[r].nonce)} else s.dir);
  }

  lemma KeepMoveRecord(s: State, r: Rid)
    requires Enters(s, r) && NextReserving(s, MoveRecord(r)) != s
    ensures GoodStep(s, NextReserving(s, MoveRecord(r)), r)
  {
    MoveRecordGood(s, r);
  }

  lemma ReservingGood(s: State, r: Rid, a: Action)
    requires Enters(s, r) && Reserving(a) && a.rid == r && NextReserving(s, a) != s
    ensures GoodStep(s, NextReserving(s, a), r)
  {
    match a
    case Reload(_) => ReloadGood(s, r);
    case SkipReserve(_) => GotoGood(s, r, Ready);
    case ReadRecord(_) => KeepReadRecord(s, r);
    case DropExpired(_, removed) => KeepDropExpired(s, r, removed);
    case MoveRecord(_) => KeepMoveRecord(s, r);
    case MoveFails(_) => MoveFailsGood(s, r);
    case SyncMove(_) => GotoGood(s, r, Ready);
  }

  lemma CheckingGood(s: State, r: Rid, a: Action)
    requires Enters(s, r) && Checking(a) && a.rid == r && NextChecking(s, a) != s
    ensures GoodStep(s, NextChecking(s, a), r)
  {
    match a
    case Snapshot(_) => SnapshotGood(s, r);
    case Verify(_, verdict) => VerifyGood(s, r, verdict);
    case MakeTemp(_) => MakeTempGood(s, r);
    case MakeTempFails(_) => MakeTempFailsGood(s, r);
    case WriteTemp(_) => WriteTempGood(s, r, Whole(s.procs[s.reqs[r].pid].mem), TempDone);
    case WriteTempFails(_, left) => WriteTempGood(s, r, left, CleanTemp);
  }

  lemma PersistingGood(s: State, r: Rid, a: Action)
    requires Enters(s, r) && Persisting(a) && a.rid == r && NextPersisting(s, a) != s
    ensures GoodStep(s, NextPersisting(s, a), r)
  {
    match a
    case Rename(_) => KeepRename(s, r);
    case RenameFails(_) => GotoGood(s, r, CleanTemp);
    case SyncRename(_) => GotoGood(s, r, Durable);
    case SyncRenameFails(_) => GotoGood(s, r, CleanTemp);
    case RemoveTemp(_, removed) => RemoveTempGood(s, r, if removed then s.temps - {MyTemp(s.reqs[r])} else s.temps);
    case Rollback(_) => KeepRollback(s, r);
  }

  lemma FinishingGood(s: State, r: Rid, a: Action)
    requires Enters(s, r) && Finishing(a) && a.rid == r && NextFinishing(s, a) != s
    ensures GoodStep(s, NextFinishing(s, a), r)
  {
    match a
    case Restore(_) => KeepRestore(s, r);
    case SyncRestore(_) => LeaveGood(s, r, s.reqs[r].outcome);
    case Consume(_) => KeepConsume(s, r);
    case SyncConsume(_) => LeaveGood(s, r, Valid);
    case GiveUp(_) => KeepGiveUp(s, r);
  }

  lemma InsideGood(s: State, r: Rid, a: Action)
    requires Enters(s, r) && (Reserving(a) || Checking(a) || Persisting(a) || Finishing(a)) && a.rid == r
    requires Next(s, a) != s
    ensures GoodStep(s, Next(s, a), r)
  {
    if Reserving(a) {
      ReservingGood(s, r, a);
    } else if Checking(a) {
      CheckingGood(s, r, a);
    } else if Persisting(a) {
      PersistingGood(s, r, a);
    } else {
      FinishingGood(s, r, a);
    }
  }
}
