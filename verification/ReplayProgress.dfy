/**
 Progress of the replay protocol: every step of a request brings it nearer to its answer, and from every
 reachable state the requests alone can get everybody answered and every guard dropped.
 */
module ReplayProgress {
  import opened Types
  import opened ReplayProtocol
  import opened ReplayInvariant
  import opened ReplaySteps
  import opened ReplayOutside
  import opened ReplaySafety
  import opened ReplayTheorems

  /** A step of a verify request that has arrived. */
  predicate RequestStep(a: Action) { InCritical(a) || Guarding(a) || a.Respond? }

  predicate StepOf(a: Action, r: Rid) { RequestStep(a) && a.rid == r }

  const LAST: nat := 20

  /** How far a request has come. */
  function Place(pc: Pc): (place: nat)
    ensures place <= LAST
  {
    match pc
    case Arrived => 0 case Mutexed => 1 case Locked => 2 case Loaded => 3 case RecordRead => 4
    case RecordMoved => 5 case Ready => 6 case Snapped => 7 case Checked => 8 case TempMade => 9
    case TempDone => 10 case Replaced => 11 case Durable => 12 case Removed => 13 case CleanTemp => 14
    case Undo => 15 case PutBack => 16 case PutBackMoved => 17 case Leaving => 18 case HalfLeft => 19
    case Answer => 20
  }

  /** The request has come further. */
  predicate Comes(s: State, s': State, r: Rid) {
    r in s.reqs && r in s'.reqs && Place(s.reqs[r].pc) < Place(s'.reqs[r].pc)
  }

  // ---------------------------------------------------------------------
  // Each operation brings its request further
  // ---------------------------------------------------------------------

  lemma GotoComes(s: State, s0: State, r: Rid, pc: Pc)
    requires r in s.reqs && s0.reqs == s.reqs && Place(s.reqs[r].pc) < Place(pc)
    ensures Comes(s, Goto(s0, r, pc), r)
  {
  }

  lemma PutComes(s: State, s0: State, r: Rid, q: Req)
    requires r in s.reqs && s0.reqs == s.reqs && Place(s.reqs[r].pc) < Place(q.pc)
    ensures Comes(s, Put(s0, r, q), r)
  {
  }

  lemma LeaveComes(s: State, s0: State, r: Rid, outcome: Outcome)
    requires r in s.reqs && s0.reqs == s.reqs && Place(s.reqs[r].pc) < Place(Leaving)
    ensures Comes(s, Leave(s0, r, outcome), r)
  {
  }

  lemma DeclineComes(s: State, s0: State, r: Rid, outcome: Outcome)
    requires r in s.reqs && s0.reqs == s.reqs && Place(s.reqs[r].pc) < Place(PutBack)
    ensures Comes(s, Decline(s0, r, outcome), r)
  {
    if s0.reqs[r].resv.Some? {
      PutComes(s, s0, r, s0.reqs[r].(pc := PutBack, outcome := outcome));
    } else {
      LeaveComes(s, s0, r, outcome);
    }
  }

  lemma ReloadComes(s: State, r: Rid)
    requires At(s, r, Locked)
    ensures Comes(s, DoReload(s, r), r)
  {
  }

  lemma ReadRecordComes(s: State, r: Rid)
    requires At(s, r, Loaded) && Readable(s, s.reqs[r].nonce)
    requires s.clock <= s.issues[s.dir[Available(s.reqs[r].nonce)]].expires
    ensures Comes(s, DoReadRecord(s, r), r)
  {
  }

  lemma DropExpiredComes(s: State, r: Rid, removed: bool)
    requires At(s, r, Loaded) && Readable(s, s.reqs[r].nonce)
    requires s.clock > s.issues[s.dir[Available(s.reqs[r].nonce)]].expires
    ensures Comes(s, DoDropExpired(s, r, removed), r)
  {
  }

  lemma MoveRecordComes(s: State, r: Rid)
    requires At(s, r, RecordRead) && Available(s.reqs[r].nonce) in s.dir
    ensures Comes(s, DoMoveRecord(s, r), r)
  {
  }

  lemma VerifyComes(s: State, r: Rid, verdict: Verdict)
    requires At(s, r, Snapped)
    ensures Comes(s, DoVerify(s, r, verdict), r)
  {
    var q := s.reqs[r];
    var mem := s.procs[q.pid].mem;
    match verdict
    case InfraError => LeaveComes(s, s, r, Error);
    case PolicyFails => DeclineComes(s, s, r, Invalid);
    case PolicyHolds =>
      if q.fp in mem && q.seqNum <= mem[q.fp] {
        DeclineComes(s, s, r, Invalid);
      } else {
        GotoComes(s, PutProc(s, q.pid, s.procs[q.pid].(mem := mem[q.fp := q.seqNum])), r, Checked);
      }
  }

  lemma MakeTempComes(s: State, r: Rid)
    requires At(s, r, Checked) && TempName(s.reqs[r].pid.number, s.procs[s.reqs[r].pid].counter) !in s.temps
    ensures Comes(s, DoMakeTemp(s, r), r)
  {
  }

  lemma RenameComes(s: State, r: Rid)
    requires At(s, r, TempDone) && MyTemp(s.reqs[r]) in s.temps
    ensures Comes(s, DoRename(s, r), r)
  {
  }

  lemma RestoreComes(s: State, r: Rid)
    requires At(s, r, PutBack) && s.reqs[r].resv.Some? && s.reqs[r].resv.value in s.dir
    ensures Comes(s, DoRestore(s, r), r)
  {
  }

  lemma ConsumeComes(s: State, r: Rid)
    requires At(s, r, Durable) && (s.reqs[r].resv.Some? ==> s.reqs[r].resv.value in s.dir)
    ensures Comes(s, DoConsume(s, r), r)
  {
  }

  lemma DropGuardComes(s: State, r: Rid)
    requires At(s, r, Leaving) || At(s, r, HalfLeft)
    ensures Comes(s, DoDropGuard(s, r), r)
  {
  }

  // ---------------------------------------------------------------------
  // Whatever a request does, it comes further
  // ---------------------------------------------------------------------

  lemma ReadingComes(s: State, a: Action)
    requires (a.ReadRecord? || a.DropExpired? || a.MoveRecord? || a.MoveFails?) && NextReserving(s, a) != s
    ensures Comes(s, NextReserving(s, a), a.rid)
  {
    match a
    case ReadRecord(r) => ReadRecordComes(s, r);
    case DropExpired(r, removed) => DropExpiredComes(s, r, removed);
    case MoveRecord(r) => MoveRecordComes(s, r);
    case MoveFails(r) => LeaveComes(s, Bump(s, s.reqs[r].pid), r, Error);
  }

  lemma ReservingComes(s: State, a: Action)
    requires Reserving(a) && NextReserving(s, a) != s
    ensures Comes(s, NextReserving(s, a), a.rid)
  {
    match a
    case Reload(r) => ReloadComes(s, r);
    case SkipReserve(r) => GotoComes(s, s, r, Ready);
    case SyncMove(r) => GotoComes(s, s, r, Ready);
    case _ => ReadingComes(s, a);
  }

  lemma WritingComes(s: State, a: Action)
    requires (a.MakeTemp? || a.MakeTempFails? || a.WriteTemp? || a.WriteTempFails?) && NextChecking(s, a) != s
    ensures Comes(s, NextChecking(s, a), a.rid)
  {
    match a
    case MakeTemp(r) => MakeTempComes(s, r);
    case MakeTempFails(r) => GotoComes(s, Bump(s, s.reqs[r].pid), r, Undo);
    case WriteTemp(r) =>
      GotoComes(s, s.(temps := s.temps[MyTemp(s.reqs[r]) := Whole(s.procs[s.reqs[r].pid].mem)]), r, TempDone);
    case WriteTempFails(r, left) => GotoComes(s, s.(temps := s.temps[MyTemp(s.reqs[r]) := left]), r, CleanTemp);
  }

  lemma CheckingComes(s: State, a: Action)
    requires Checking(a) && NextChecking(s, a) != s
    ensures Comes(s, NextChecking(s, a), a.rid)
  {
    match a
    case Snapshot(r) => PutComes(s, s, r, s.reqs[r].(pc := Snapped, prev := s.procs[s.reqs[r].pid].mem));
    case Verify(r, verdict) => VerifyComes(s, r, verdict);
    case _ => WritingComes(s, a);
  }

  lemma UndoingComes(s: State, a: Action)
    requires (a.RemoveTemp? || a.Rollback?) && NextPersisting(s, a) != s
    ensures Comes(s, NextPersisting(s, a), a.rid)
  {
    match a
    case RemoveTemp(r, removed) =>
      GotoComes(s, if removed then s.(temps := s.temps - {MyTemp(s.reqs[r])}) else s, r, Undo);
    case Rollback(r) => RollbackComes(s, r);
  }

  lemma PersistingComes(s: State, a: Action)
    requires Persisting(a) && NextPersisting(s, a) != s
    ensures Comes(s, NextPersisting(s, a), a.rid)
  {
    match a
    case Rename(r) => RenameComes(s, r);
    case RenameFails(r) => GotoComes(s, s, r, CleanTemp);
    case SyncRename(r) => GotoComes(s, s, r, Durable);
    case SyncRenameFails(r) => GotoComes(s, s, r, CleanTemp);
    case _ => UndoingComes(s, a);
  }

  lemma RollbackComes(s: State, r: Rid)
    requires NextPersisting(s, Rollback(r)) != s
    ensures Comes(s, NextPersisting(s, Rollback(r)), r)
  {
    DeclineComes(s, PutProc(s, s.reqs[r].pid, s.procs[s.reqs[r].pid].(mem := s.reqs[r].prev)), r, Error);
  }

  lemma FinishingComes(s: State, a: Action)
    requires Finishing(a) && NextFinishing(s, a) != s
    ensures Comes(s, NextFinishing(s, a), a.rid)
  {
    match a
    case Restore(r) => RestoreComes(s, r);
    case SyncRestore(r) => LeaveComes(s, s, r, s.reqs[r].outcome);
    case Consume(r) => ConsumeComes(s, r);
    case SyncConsume(r) => LeaveComes(s, s, r, Valid);
    case GiveUp(r) => LeaveComes(s, s, r, Error);
  }

  lemma GuardingComes(s: State, a: Action)
    requires Guarding(a) && NextGuarding(s, a) != s
    ensures Comes(s, NextGuarding(s, a), a.rid)
  {
    match a
    case TakeMutex(r) =>
      GotoComes(s, PutProc(s, s.reqs[r].pid, s.procs[s.reqs[r].pid].(mutex := Some(r))), r, Mutexed);
    case TakeLock(r) => GotoComes(s, s.(lock := Some(r)), r, Locked);
    case LockFails(r) =>
    case DropGuard(r) => DropGuardComes(s, r);
  }

  /** Only request r moves: it comes further, or it gets its answer. */
  ghost predicate Moves(s: State, s': State, r: Rid) {
    || (Comes(s, s', r) && s'.reqs == s.reqs[r := s'.reqs[r]])
    || (r in s.reqs && s'.reqs == s.reqs - {r} && r in s'.responses)
  }

  lemma CriticalMoves(s: State, a: Action)
    requires Inv(s) && InCritical(a) && Next(s, a) != s
    ensures Moves(s, Next(s, a), a.rid)
  {
    InsideEnters(s, a);
    InsideGood(s, a.rid, a);
    if Reserving(a) {
      ReservingComes(s, a);
    } else if Checking(a) {
      CheckingComes(s, a);
    } else if Persisting(a) {
      PersistingComes(s, a);
    } else {
      FinishingComes(s, a);
    }
  }

  lemma GuardingMoves(s: State, a: Action)
    requires Guarding(a) && NextGuarding(s, a) != s
    ensures Moves(s, NextGuarding(s, a), a.rid)
  {
    GuardingComes(s, a);
    GuardingLeavesOthers(s, a);
  }

  lemma GuardingLeavesOthers(s: State, a: Action)
    requires Guarding(a) && NextGuarding(s, a) != s
    ensures a.rid in NextGuarding(s, a).reqs
    ensures NextGuarding(s, a).reqs == s.reqs[a.rid := NextGuarding(s, a).reqs[a.rid]]
  {
    if a.DropGuard? {
      DroppingLeavesOthers(s, a.rid);
    }
  }

  lemma DroppingLeavesOthers(s: State, r: Rid)
    requires r in s.reqs && s.reqs[r].pid in s.procs
    ensures r in DoDropGuard(s, r).reqs && DoDropGuard(s, r).reqs == s.reqs[r := DoDropGuard(s, r).reqs[r]]
  {
  }

  /** Every step of a request that does anything moves that request and no other. */
  lemma StepMoves(s: State, a: Action)
    requires Inv(s) && RequestStep(a) && Next(s, a) != s
    ensures Moves(s, Next(s, a), a.rid)
  {
    if InCritical(a) {
      CriticalMoves(s, a);
    } else if Guarding(a) {
      GuardingMoves(s, a);
    } else {
      RespondResult(s, a.rid);
    }
  }

  // ---------------------------------------------------------------------
  // No request takes more than 21 steps
  // ---------------------------------------------------------------------

  /** How many of the actions are steps of request r that do something. */
  function StepsOf(s: State, actions: seq<Action>, r: Rid): nat
    decreases |actions|
  {
    if actions == [] then 0
    else
      var before, last := actions[..|actions| - 1], actions[|actions| - 1];
      StepsOf(s, before, r)
      + if StepOf(last, r) && Next(Run(s, before), last) != Run(s, before) then 1 else 0
  }

  /** Steps still ahead of request r; one that is not there has none. */
  function StepsLeft(s: State, r: Rid): nat {
    if r in s.reqs then LAST + 1 - Place(s.reqs[r].pc) else 0
  }

  lemma MovesShorten(s: State, s': State, r: Rid, x: Rid)
    requires Moves(s, s', r)
    ensures if x == r then StepsLeft(s', x) < StepsLeft(s, x) else StepsLeft(s', x) == StepsLeft(s, x)
  {
  }

  /** The states that the invariant allows. */
  ghost function Sound(): iset<State> { iset s | Inv(s) }

  lemma StepShortens(s: State, a: Action, x: Rid, r: Rid)
    requires s in Sound() && StepOf(a, x)
    ensures Next(s, a) in Sound()
    ensures StepsLeft(Next(s, a), r) + (if x == r && Next(s, a) != s then 1 else 0) <= StepsLeft(s, r)
  {
    SoundStep(s, a);
    if Next(s, a) != s {
      SoundMove(s, a, x);
      MovesShorten(s, Next(s, a), x, r);
    }
  }

  lemma AnyStepShortens(s: State, a: Action, r: Rid)
    requires s in Sound() && RequestStep(a)
    ensures Next(s, a) in Sound()
    ensures StepsLeft(Next(s, a), r) + (if StepOf(a, r) && Next(s, a) != s then 1 else 0) <= StepsLeft(s, r)
  {
    StepShortens(s, a, a.rid, r);
  }

  lemma SoundMove(s: State, a: Action, r: Rid)
    requires s in Sound() && StepOf(a, r) && Next(s, a) != s
    ensures Moves(s, Next(s, a), r)
  {
    StepMoves(s, a);
  }

  lemma SoundStep(s: State, a: Action)
    requires s in Sound()
    ensures Next(s, a) in Sound()
  {
    StepKeeps(s, a);
  }

  lemma {:induction false} SoundStepsAreBounded(s: State, actions: seq<Action>, r: Rid)
    requires s in Sound() && forall a | a in actions :: RequestStep(a)
    ensures Run(s, actions) in Sound()
    ensures StepsOf(s, actions, r) + StepsLeft(Run(s, actions), r) <= StepsLeft(s, r)
    decreases |actions|
  {
    if actions != [] {
      SoundStepsAreBounded(s, actions[..|actions| - 1], r);
      AnyStepShortens(Run(s, actions[..|actions| - 1]), actions[|actions| - 1], r);
    }
  }

  /** However the steps of the requests are interleaved, whatever fails, and whatever the verifier says, request r
      takes at most as many as are ahead of it; so no run of requests goes on for ever. */
  lemma StepsAreBounded(s: State, actions: seq<Action>, r: Rid)
    requires Inv(s) && forall a | a in actions :: RequestStep(a)
    ensures StepsOf(s, actions, r) + StepsLeft(Run(s, actions), r) <= StepsLeft(s, r) <= LAST + 1
  {
    SoundStepsAreBounded(s, actions, r);
  }

  // ---------------------------------------------------------------------
  // No request waits for ever
  // ---------------------------------------------------------------------

  /** Nobody else holds what the request waits for. */
  predicate Unhindered(s: State, r: Rid) {
    && r in s.reqs && s.reqs[r].pid in s.procs
    && (s.reqs[r].pc == Arrived ==> s.procs[s.reqs[r].pid].mutex.None?)
    && (s.reqs[r].pc == Arrived || s.reqs[r].pc == Mutexed ==> s.lock.None?)
  }

  // There is always a step, the successful one if that is possible

  /** A step of request r that does something. */
  predicate Acts(s: State, a: Action, r: Rid) { StepOf(a, r) && Next(s, a) != s }

  lemma TakesGuard(s: State, r: Rid) returns (a: Action)
    requires Unhindered(s, r) && (s.reqs[r].pc == Arrived || s.reqs[r].pc == Mutexed)
    ensures Acts(s, a, r) && (s.reqs[r].pc == Arrived ==> a == TakeMutex(r))
  {
    a := if s.reqs[r].pc == Arrived then TakeMutex(r) else TakeLock(r);
  }

  lemma Reloads(s: State, r: Rid) returns (a: Action)
    requires At(s, r, Locked)
    ensures Acts(s, a, r)
  {
    a := Reload(r);
    ReloadComes(s, r);
  }

  lemma LooksUp(s: State, r: Rid) returns (a: Action)
    requires At(s, r, Loaded)
    ensures Acts(s, a, r)
  {
    if !s.reqs[r].strict {
      GotoComes(s, s, r, Ready);
      return SkipReserve(r);
    } else if !Readable(s, s.reqs[r].nonce) {
      LeaveComes(s, s, r, Error);
      return GiveUp(r);
    } else if s.clock <= s.issues[s.dir[Available(s.reqs[r].nonce)]].expires {
      ReadRecordComes(s, r);
      return ReadRecord(r);
    } else {
      DropExpiredComes(s, r, true);
      return DropExpired(r, true);
    }
  }

  lemma Moved(s: State, r: Rid) returns (a: Action)
    requires At(s, r, RecordRead)
    ensures Acts(s, a, r)
  {
    if Available(s.reqs[r].nonce) in s.dir {
      MoveRecordComes(s, r);
      return MoveRecord(r);
    }
    LeaveComes(s, Bump(s, s.reqs[r].pid), r, Error);
    return MoveFails(r);
  }

  lemma Verifies(s: State, r: Rid, verdict: Verdict) returns (a: Action)
    requires At(s, r, Ready) || At(s, r, Snapped)
    ensures Acts(s, a, r)
  {
    if At(s, r, Snapped) {
      VerifyComes(s, r, verdict);
      return Verify(r, verdict);
    }
    PutComes(s, s, r, s.reqs[r].(pc := Snapped, prev := s.procs[s.reqs[r].pid].mem));
    return Action.Snapshot(r);
  }

  lemma Creates(s: State, r: Rid) returns (a: Action)
    requires At(s, r, Checked)
    ensures Acts(s, a, r)
  {
    if TempName(s.reqs[r].pid.number, s.procs[s.reqs[r].pid].counter) in s.temps {
      GotoComes(s, Bump(s, s.reqs[r].pid), r, Undo);
      return MakeTempFails(r);
    }
    MakeTempComes(s, r);
    return MakeTemp(r);
  }

  lemma Fills(s: State, r: Rid) returns (a: Action)
    requires At(s, r, TempMade)
    ensures Acts(s, a, r)
  {
    GotoComes(s, s.(temps := s.temps[MyTemp(s.reqs[r]) := Whole(s.procs[s.reqs[r].pid].mem)]), r, TempDone);
    return WriteTemp(r);
  }

  lemma Renames(s: State, r: Rid) returns (a: Action)
    requires At(s, r, TempDone)
    ensures Acts(s, a, r)
  {
    if MyTemp(s.reqs[r]) in s.temps {
      RenameComes(s, r);
      return Rename(r);
    }
    GotoComes(s, s, r, CleanTemp);
    return RenameFails(r);
  }

  lemma Syncs(s: State, r: Rid) returns (a: Action)
    requires At(s, r, RecordMoved) || At(s, r, Replaced)
    ensures Acts(s, a, r)
  {
    if At(s, r, Replaced) {
      GotoComes(s, s, r, Durable);
      return SyncRename(r);
    }
    GotoComes(s, s, r, Ready);
    return SyncMove(r);
  }

  lemma SyncsRecord(s: State, r: Rid) returns (a: Action)
    requires At(s, r, Removed) || At(s, r, PutBackMoved)
    ensures Acts(s, a, r)
  {
    if At(s, r, Removed) {
      LeaveComes(s, s, r, Valid);
      return SyncConsume(r);
    }
    LeaveComes(s, s, r, s.reqs[r].outcome);
    return SyncRestore(r);
  }

  lemma Consumes(s: State, r: Rid) returns (a: Action)
    requires At(s, r, Durable)
    ensures Acts(s, a, r)
  {
    if s.reqs[r].resv.Some? && s.reqs[r].resv.value !in s.dir {
      LeaveComes(s, s, r, Error);
      return GiveUp(r);
    }
    ConsumeComes(s, r);
    return Consume(r);
  }

  lemma CleansUp(s: State, r: Rid) returns (a: Action)
    requires At(s, r, CleanTemp)
    ensures Acts(s, a, r)
  {
    GotoComes(s, s.(temps := s.temps - {MyTemp(s.reqs[r])}), r, Undo);
    return RemoveTemp(r, true);
  }

  lemma RollsBack(s: State, r: Rid) returns (a: Action)
    requires At(s, r, Undo)
    ensures Acts(s, a, r)
  {
    DeclineComes(s, PutProc(s, s.reqs[r].pid, s.procs[s.reqs[r].pid].(mem := s.reqs[r].prev)), r, Error);
    return Rollback(r);
  }

  lemma PutsBack(s: State, r: Rid) returns (a: Action)
    requires At(s, r, PutBack)
    ensures Acts(s, a, r)
  {
    if s.reqs[r].resv.Some? && s.reqs[r].resv.value in s.dir {
      RestoreComes(s, r);
      return Restore(r);
    }
    LeaveComes(s, s, r, Error);
    return GiveUp(r);
  }

  lemma Leaves(s: State, r: Rid) returns (a: Action)
    requires At(s, r, Leaving) || At(s, r, HalfLeft) || At(s, r, Answer)
    ensures Acts(s, a, r)
  {
    if At(s, r, Answer) {
      RespondResult(s, r);
      assert r !in DoRespond(s, r).reqs;
      return Respond(r);
    } else {
      DropGuardResult(s, r);
      DropGuardComes(s, r);
      return DropGuard(r);
    }
  }

  lemma SomeMove(s: State, r: Rid, verdict: Verdict) returns (a: Action)
    requires Unhindered(s, r)
    ensures Acts(s, a, r) && (s.reqs[r].pc == Arrived ==> a == TakeMutex(r))
  {
    match s.reqs[r].pc
    case Arrived => a := TakesGuard(s, r);
    case Mutexed => a := TakesGuard(s, r);
    case Locked => a := Reloads(s, r);
    case Loaded => a := LooksUp(s, r);
    case RecordRead => a := Moved(s, r);
    case RecordMoved => a := Syncs(s, r);
    case Ready => a := Verifies(s, r, verdict);
    case Snapped => a := Verifies(s, r, verdict);
    case Checked => a := Creates(s, r);
    case TempMade => a := Fills(s, r);
    case TempDone => a := Renames(s, r);
    case Replaced => a := Syncs(s, r);
    case Durable => a := Consumes(s, r);
    case Removed => a := SyncsRecord(s, r);
    case CleanTemp => a := CleansUp(s, r);
    case Undo => a := RollsBack(s, r);
    case PutBack => a := PutsBack(s, r);
    case PutBackMoved => a := SyncsRecord(s, r);
    case Leaving => a := Leaves(s, r);
    case HalfLeft => a := Leaves(s, r);
    case Answer => a := Leaves(s, r);
  }

  lemma MutexLeavesLock(s: State, r: Rid)
    ensures Next(s, TakeMutex(r)).lock == s.lock
  {
  }

  lemma LivesInProcess(s: State, r: Rid)
    requires s in Sound() && r in s.reqs
    ensures s.reqs[r].pid in s.procs
  {
  }

  lemma StaysUnhindered(s: State, s': State, r: Rid)
    requires Unhindered(s, r) && Moves(s, s', r) && (r in s'.reqs ==> s'.reqs[r].pid in s'.procs)
    requires s.reqs[r].pc == Arrived ==> s'.lock == s.lock
    ensures r in s'.reqs ==> Unhindered(s', r)
  {
    if r in s'.reqs {
      assert Place(s'.reqs[r].pc) > 0;
      assert s.reqs[r].pc != Arrived ==> Place(s'.reqs[r].pc) > 1;
    }
  }

  /** A request that nobody hinders can take a step, and stays unhindered unless it is answered by it. */
  lemma OneMove(s: State, r: Rid, verdict: Verdict) returns (a: Action, s': State)
    requires s in Sound() && Unhindered(s, r)
    ensures StepOf(a, r) && s' == Run(s, [a])
    ensures s' in Sound() && StepsLeft(s', r) < StepsLeft(s, r) && s'.reqs - {r} == s.reqs - {r}
    ensures if r in s'.reqs then Unhindered(s', r) else r in s'.responses && s'.reqs == s.reqs - {r}
  {
    a := SomeMove(s, r, verdict);
    s' := Next(s, a);
    StepMoves(s, a);
    StepKeeps(s, a);
    MutexLeavesLock(s, r);
    AfterMove(s, s', r);
    RunOfOne(s, a);
  }

  lemma AfterMove(s: State, s': State, r: Rid)
    requires s in Sound() && s' in Sound() && Unhindered(s, r) && Moves(s, s', r)
    requires s.reqs[r].pc == Arrived ==> s'.lock == s.lock
    ensures StepsLeft(s', r) < StepsLeft(s, r) && s'.reqs - {r} == s.reqs - {r}
    ensures if r in s'.reqs then Unhindered(s', r) else r in s'.responses && s'.reqs == s.reqs - {r}
  {
    OthersStay(s, s', r);
    MovesShorten(s, s', r, r);
    if r in s'.reqs {
      LivesInProcess(s', r);
    }
    StaysUnhindered(s, s', r);
  }

  lemma OthersStay(s: State, s': State, r: Rid)
    requires Moves(s, s', r)
    ensures s'.reqs - {r} == s.reqs - {r}
    ensures r !in s'.reqs ==> s'.reqs == s.reqs - {r} && r in s'.responses
  {
  }

  lemma Prepended(s: State, a: Action, rest: seq<Action>, r: Rid) returns (actions: seq<Action>)
    requires StepOf(a, r) && forall b | b in rest :: StepOf(b, r)
    ensures Run(s, actions) == Run(Run(s, [a]), rest) && forall b | b in actions :: StepOf(b, r)
  {
    RunOfRun(s, [a], rest);
    actions := [a] + rest;
  }

  /** It can go on to its answer by itself, and nobody else is touched. */
  lemma {:induction false} GoesOn(s: State, r: Rid, verdict: Verdict) returns (actions: seq<Action>)
    requires s in Sound() && Unhindered(s, r)
    ensures forall a | a in actions :: StepOf(a, r)
    ensures Run(s, actions) in Sound() && Run(s, actions).reqs == s.reqs - {r} && r in Run(s, actions).responses
    decreases StepsLeft(s, r)
  {
    var a, s' := OneMove(s, r, verdict);
    if r in s'.reqs {
      var rest := GoesOn(s', r, verdict);
      actions := Prepended(s, a, rest, r);
    } else {
      actions := [a];
    }
  }

  lemma RunOfOne(s: State, a: Action)
    ensures Run(s, [a]) == Next(s, a)
  {
    assert [a][..0] == [] && Run(s, []) == s;
  }

  /** While there are requests, somebody is unhindered. */
  lemma SomebodyUnhindered(s: State) returns (r: Rid)
    requires s in Sound() && s.reqs != map[]
    ensures Unhindered(s, r)
  {
    if s.lock.Some? {
      r := s.lock.value;
    } else {
      r :| r in s.reqs;
      TheFacts(s, r);
      var mutex := s.procs[s.reqs[r].pid].mutex;
      if s.reqs[r].pc == Arrived && mutex.Some? {
        r := mutex.value;
      }
    }
  }

  /** All requests answered and all guards free. */
  predicate AtRest(s: State) {
    s.reqs == map[] && s.lock.None? && forall p | p in s.procs :: s.procs[p].mutex.None?
  }

  lemma RestWhenEmpty(s: State)
    requires s in Sound() && s.reqs == map[]
    ensures AtRest(s)
  {
  }

  lemma AnswersStay(s: State, actions: seq<Action>)
    requires s in Sound()
    ensures forall r | r in s.responses :: r in Run(s, actions).responses
  {
    forall r | r in s.responses
      ensures r in Run(s, actions).responses
    {
      ResponsesStay(s, actions, r);
    }
  }

  lemma {:induction false} Drains(s: State, verdict: Verdict) returns (actions: seq<Action>)
    requires s in Sound()
    ensures forall a | a in actions :: RequestStep(a)
    ensures Run(s, actions) in Sound() && Run(s, actions).reqs == map[]
    ensures forall r | r in s.reqs || r in s.responses :: r in Run(s, actions).responses
    decreases |s.reqs|
  {
    if s.reqs == map[] {
      return [];
    }
    var r := SomebodyUnhindered(s);
    var first := GoesOn(s, r, verdict);
    AnswersStay(s, first);
    FewerRequests(s.reqs, r);
    var rest := Drains(Run(s, first), verdict);
    RunOfRun(s, first, rest);
    actions := first + rest;
  }

  /** No deadlock: from every state the invariant allows, so from every reachable one, steps of the requests alone
      get every one of them answered and every guard dropped, whatever the verifier says. */
  lemma EverybodyIsAnswered(s: State, verdict: Verdict) returns (actions: seq<Action>)
    requires Inv(s)
    ensures forall a | a in actions :: RequestStep(a)
    ensures AtRest(Run(s, actions))
    ensures forall r | r in s.reqs :: r in Run(s, actions).responses
  {
    actions := Drains(s, verdict);
    RestWhenEmpty(Run(s, actions));
  }

  lemma FewerRequests(reqs: map<Rid, Req>, r: Rid)
    requires r in reqs
    ensures |reqs - {r}| < |reqs|
  {
    assert (reqs - {r}).Keys == reqs.Keys - {r};
  }
}
