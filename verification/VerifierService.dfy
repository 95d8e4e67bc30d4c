/**
 The request handlers of one service process, as they run on the state file, the lock file and the
 challenge directory, with any set of I/O operations failing.  Each handler is proved to be a run of
 the protocol's own steps, and to leave memory, files and guards as the failing operations say.
 */
module VerifierService {
  import opened Types
  import opened ReplayProtocol
  import opened HandlerOutcomes

  /** A step of request r itself. */
  predicate OwnStep(a: Action, r: Rid) {
    !a.Tick? && !a.Start? && !a.Crash? && !a.Arrive? && !a.IssueArrive? && a.rid == r
  }

  /** From s, request r gets to t by its own steps. */
  ghost predicate Reaches(s: State, t: State, r: Rid) {
    exists actions: seq<Action> :: (forall a | a in actions :: OwnStep(a, r)) && t == Run(s, actions)
  }

  /** No step of request r leaves the set. */
  ghost predicate StepClosed(p: iset<State>, r: Rid) {
    forall s: State, a: Action {:trigger Next(s, a)} :: s in p && OwnStep(a, r) ==> Next(s, a) in p
  }

  /** Request r of process pid is at this point, and the system is inside p, which the steps of r do not leave. */
  ghost predicate On(world: State, pid: Pid, r: Rid, p: iset<State>, pc: Pc) {
    At(world, r, pc) && world.reqs[r].pid == pid && world in p && StepClosed(p, r)
  }

  /** The place of a request whose receipt was not accepted. */
  ghost predicate Declined(world: State, pid: Pid, r: Rid, p: iset<State>, before: Req, outcome: Outcome) {
    On(world, pid, r, p, if before.resv.Some? then PutBack else Leaving)
        && world.reqs[r] == DeclinedRequest(before, outcome)
  }

  // What the larger steps come to

  lemma MoveRecordResult(s: State, r: Rid)
    requires At(s, r, RecordRead) && Available(s.reqs[r].nonce) in s.dir
    ensures var q := s.reqs[r];
      var name := Reserved(q.nonce, q.pid.number, s.procs[q.pid].counter);
      NextReserving(s, Action.MoveRecord(r)) == s.(
        procs := s.procs[q.pid := s.procs[q.pid].(counter := s.procs[q.pid].counter + 1)],
        dir := Move(s.dir, Available(q.nonce), name),
        reqs := s.reqs[r := q.(pc := RecordMoved, resv := Some(name))])
  {
  }

  lemma MoveFailsResult(s: State, r: Rid)
    requires At(s, r, RecordRead)
    ensures var q := s.reqs[r];
      NextReserving(s, Action.MoveFails(r)) == s.(
        procs := s.procs[q.pid := s.procs[q.pid].(counter := s.procs[q.pid].counter + 1)],
        reqs := s.reqs[r := q.(pc := Leaving, outcome := Error)])
  {
  }

  lemma ReadRecordResult(s: State, r: Rid, removed: bool)
    requires At(s, r, Loaded) && s.reqs[r].strict && Readable(s, s.reqs[r].nonce)
    ensures var q := s.reqs[r];
      var path := Available(q.nonce);
      var expires := s.issues[s.dir[path]].expires;
      if s.clock <= expires then
        NextReserving(s, Action.ReadRecord(r)) ==
          s.(reqs := s.reqs[r := q.(pc := RecordRead, expires := expires, reservedAt := s.clock)])
      else
        NextReserving(s, Action.DropExpired(r, removed)) ==
          s.(dir := if removed then s.dir - {path} else s.dir, reqs := s.reqs[r := q.(pc := Leaving, outcome := Error)])
  {
  }

  function DeclinedRequest(q: Req, outcome: Outcome): Req {
    q.(pc := if q.resv.Some? then PutBack else Leaving, outcome := outcome)
  }

  lemma DeclineResult(s: State, r: Rid, outcome: Outcome)
    requires r in s.reqs
    ensures Decline(s, r, outcome) == s.(reqs := s.reqs[r := DeclinedRequest(s.reqs[r], outcome)])
  {
  }

  lemma RollbackResult(s: State, r: Rid)
    requires At(s, r, Undo)
    ensures var q := s.reqs[r];
      NextPersisting(s, Action.Rollback(r)) == s.(
        procs := s.procs[q.pid := s.procs[q.pid].(mem := q.prev)],
        reqs := s.reqs[r := DeclinedRequest(q, Error)])
  {
  }

  lemma VerifyResult(s: State, r: Rid, verdict: Verdict)
    requires At(s, r, Snapped)
    ensures var q := s.reqs[r];
      var mem := s.procs[q.pid].mem;
      NextChecking(s, Action.Verify(r, verdict)) ==
        if verdict.InfraError? then s.(reqs := s.reqs[r := q.(pc := Leaving, outcome := Error)])
        else if verdict.PolicyHolds? && (q.fp in mem ==> mem[q.fp] < q.seqNum) then
          s.(procs := s.procs[q.pid := s.procs[q.pid].(mem := mem[q.fp := q.seqNum])], reqs := s.reqs[r :=
              q.(pc := Checked)])
        else s.(reqs := s.reqs[r := DeclinedRequest(q, Invalid)])
  {
    DeclineResult(s, r, Invalid);
  }

  /** The system after a request arrived. */
  function WithRequest(s: State, pid: Pid, nonce: Nonce, fp: Fingerprint, seqNum: nat): State {
    Next(s, Arrive(pid, nonce, fp, seqNum))
  }

  lemma WithRequestResult(s: State, pid: Pid, nonce: Nonce, fp: Fingerprint, seqNum: nat)
    requires pid in s.procs
    ensures WithRequest(s, pid, nonce, fp, seqNum) == s.(
      reqs := s.reqs[s.nextRid :=
          Req(pid, s.procs[pid].strict, nonce, fp, seqNum, Arrived, Pending, map[], 0, None, 0, 0)],
      nextRid := s.nextRid + 1)
  {
  }

  ghost function ReachedBy(s: State, r: Rid): iset<State> { iset t | Reaches(s, t, r) }

  lemma ReachedIsClosed(s: State, r: Rid)
    ensures StepClosed(ReachedBy(s, r), r)
  {
    forall t: State, a: Action | t in ReachedBy(s, r) && OwnStep(a, r)
      ensures Next(t, a) in ReachedBy(s, r)
    {
      ReachesNext(s, t, r, a);
    }
  }

  lemma RespondResult(s: State, r: Rid)
    requires At(s, r, Pc.Answer)
    ensures var q := s.reqs[r];
      Next(s, Respond(r)) == s.(
        reqs := s.reqs - {r},
        responses := s.responses[r := Response(q.outcome == Outcome.Valid, q.strict, q.nonce, q.fp, q.seqNum,
            q.reservedAt)])
  {
  }

  lemma ReachesItself(s: State, r: Rid)
    ensures Reaches(s, s, r)
  {
    assert Run(s, []) == s;
  }

  lemma ReachesNext(s: State, t: State, r: Rid, a: Action)
    requires Reaches(s, t, r) && OwnStep(a, r)
    ensures Reaches(s, Next(t, a), r)
  {
    var actions: seq<Action> :| (forall a | a in actions :: OwnStep(a, r)) && t == Run(s, actions);
    var more := actions + [a];
    assert more[..|more| - 1] == actions;
    assert Next(t, a) == Run(s, more);
  }

  /** What the request asks for is as before, and it holds this reservation. */
  predicate Kept(q: Req, before: Req, resv: Option<Path>) {
    && q.pid == before.pid && q.strict == before.strict && q.nonce == before.nonce && q.fp == before.fp
    && q.seqNum == before.seqNum && q.resv == resv
  }

  lemma RemovedTwice(temps: map<TempName, Content>, name: TempName)
    ensures temps - {name} - {name} == temps - {name}
  {
  }

  lemma Overwritten(temps: map<TempName, Content>, name: TempName, content: Content)
    ensures temps[name := content] - {name} == temps - {name}
  {
  }

  predicate Agrees(world: State, pid: Pid, proc: Proc) { pid in world.procs && world.procs[pid] == proc }

  /** The request asks about this receipt and challenge. */
  predicate Asks(q: Req, nonce: Nonce, fp: Fingerprint, seqNum: nat) {
    q.nonce == nonce && q.fp == fp && q.seqNum == seqNum
  }

  predicate Responds(response: Response, valid: bool, nonce: Nonce, fp: Fingerprint, seqNum: nat) {
    response.valid == valid && response.nonce == nonce && response.fp == fp && response.seqNum == seqNum
  }

  function OutcomeOf(answer: Verified): Outcome {
    match answer
    case Err(_) => Error
    case Ok(valid) => if valid then Outcome.Valid else Invalid
  }

  /** All eight draws name challenges that are available already. */
  ghost predicate AllTaken(draws: seq<Nonce>, before: map<Path, nat>) {
    |draws| >= CHALLENGE_DRAWS && forall j | 0 <= j < CHALLENGE_DRAWS :: Available(draws[j]) in before
  }

  /** Draw k is the first of the eight that names no available challenge. */
  ghost predicate FirstFree(draws: seq<Nonce>, k: nat, before: map<Path, nat>) {
    && k < CHALLENGE_DRAWS <= |draws| && Available(draws[k]) !in before
    && forall j | 0 <= j < k :: Available(draws[j]) in before
  }

  /** Eight draws are made, and the first that is free is taken. */
  lemma DrawsMean(draws: seq<Nonce>, k: nat, before: map<Path, nat>)
    requires |draws| >= 8
    ensures AllTaken(draws, before) <==> forall j | 0 <= j < 8 :: Available(draws[j]) in before
    ensures FirstFree(draws, k, before) <==>
      k < 8 && Available(draws[k]) !in before && forall j | 0 <= j < k :: Available(draws[j]) in before
  {
  }

  /** One record was added, under the nonce's name. */
  predicate Filled(nonce: Nonce, expires: nat, written: bool, before: map<Path, nat>, dir: map<Path, nat>,
                   recordsBefore: seq<Issue>, records: seq<Issue>) {
    && dir == before[Available(nonce) := |recordsBefore|]
    && records == recordsBefore + [Issue(nonce, expires, written)]
  }

  /** What creating a record comes to: one under the first free nonce, complete unless filling it in failed;
      none when all draws are taken or the directory does not let a file be opened. */
  ghost predicate Recorded(faults: set<Operation>, draws: seq<Nonce>, k: nat, expires: nat, before: map<Path, nat>,
                           dir: map<Path, nat>, recordsBefore: seq<Issue>, records: seq<Issue>) {
    if AllTaken(draws, before) || ToOpen in faults then dir == before && records == recordsBefore
    else FirstFree(draws, k, before)
         && Filled(draws[k], expires, ToFill !in faults, before, dir, recordsBefore, records)
  }

  class Service {
    const pid: Pid
    const strict: bool
    // this process
    var mem: Table
    var counter: nat
    var mutex: Option<Rid>
    // the host's disk and clock
    var file: Option<Content>
    var temps: map<TempName, Content>
    var dir: map<Path, nat>
    var records: seq<Issue>
    var lock: Option<Rid>
    var clock: nat
    // the I/O operations that fail when the next request tries them
    var faults: set<Operation>
    // the whole system
    ghost var world: State

    /** A process starts with the table of the state file, if there is one; a file that does not hold a
        complete table keeps it from starting. */
    constructor (pid: Pid, strict: bool, faults: set<Operation>, file: Option<Content>, temps: map<TempName, Content>,
                 dir: map<Path, nat>, records: seq<Issue>, lock: Option<Rid>, clock: nat, ghost world: State)
      requires file != Some(Torn) && pid !in world.procs
      requires world.file == file && world.temps == temps && world.dir == dir && world.issues == records
      requires world.lock == lock && world.clock == clock
      ensures Valid() && this.world == Next(world, Start(pid, strict))
      ensures this.pid == pid && this.strict == strict && this.faults == faults && mutex.None?
      ensures mem == if file.Some? then file.value.table else map[]
      ensures this.file == file && this.dir == dir && this.lock == lock
    {
      this.pid, this.strict, this.faults := pid, strict, faults;
      mem := if file.Some? then file.value.table else map[];
      counter, mutex := 0, None;
      this.file, this.temps, this.dir := file, temps, dir;
      this.records, this.lock, this.clock := records, lock, clock;
      this.world := Next(world, Start(pid, strict));
    }

    ghost predicate Valid()
      reads this
    {
      && world.file == file && world.temps == temps && world.dir == dir && world.issues == records
      && world.lock == lock && world.clock == clock
      && pid in world.procs && world.procs[pid] == Proc(mem, counter, mutex, strict)
    }

    // The request does one step

    ghost method Reserving(a: Action, p: iset<State>, r: Rid)
      requires world in p && StepClosed(p, r) && OwnStep(a, r) && ReplayProtocol.Reserving(a)
      modifies this`world
      ensures world == NextReserving(old(world), a) && world in p
    {
      world := Next(world, a);
    }

    ghost method Checking(a: Action, p: iset<State>, r: Rid)
      requires world in p && StepClosed(p, r) && OwnStep(a, r) && ReplayProtocol.Checking(a)
      modifies this`world
      ensures world == NextChecking(old(world), a) && world in p
    {
      world := Next(world, a);
    }

    ghost method Persisting(a: Action, p: iset<State>, r: Rid)
      requires world in p && StepClosed(p, r) && OwnStep(a, r) && ReplayProtocol.Persisting(a)
      modifies this`world
      ensures world == NextPersisting(old(world), a) && world in p
    {
      world := Next(world, a);
    }

    ghost method Finishing(a: Action, p: iset<State>, r: Rid)
      requires world in p && StepClosed(p, r) && OwnStep(a, r) && ReplayProtocol.Finishing(a)
      modifies this`world
      ensures world == NextFinishing(old(world), a) && world in p
    {
      world := Next(world, a);
    }

    ghost method Guarding(a: Action, p: iset<State>, r: Rid)
      requires world in p && StepClosed(p, r) && OwnStep(a, r) && ReplayProtocol.Guarding(a)
      modifies this`world
      ensures world == NextGuarding(old(world), a) && world in p
    {
      world := Next(world, a);
    }

    /** An operation failed whose error is returned straight away. */
    ghost method Abandon(r: Rid, p: iset<State>)
      requires Valid() && r in world.reqs && On(world, pid, r, p, world.reqs[r].pc) && GivesUp(world.reqs[r].pc)
      modifies this`world
      ensures Valid()
      ensures On(world, pid, r, p, Leaving) && world.reqs[r] == old(world.reqs[r]).(pc := Leaving, outcome := Error)
    {
      Finishing(Action.GiveUp(r), p, r);
    }

    // -------------------------------------------------------------------
    // Guards
    // -------------------------------------------------------------------

    method TakeMutex(r: Rid, ghost p: iset<State>)
      requires Valid() && On(world, pid, r, p, Arrived) && mutex.None?
      modifies this`mutex, this`world
      ensures Valid()
      ensures On(world, pid, r, p, Mutexed) && world.reqs[r] == old(world.reqs[r]).(pc := Mutexed) && mutex == Some(r)
    {
      mutex := Some(r);
      Guarding(Action.TakeMutex(r), p, r);
    }

    method AcquireReplayLock(r: Rid, ghost p: iset<State>) returns (ok: bool)
      requires Valid() && On(world, pid, r, p, Mutexed) && lock.None?
      modifies this`lock, this`world
      ensures Valid()
      ensures ok <==> ToLock !in faults
      ensures ok ==>
        && On(world, pid, r, p, Locked)
        && world.reqs[r] == old(world.reqs[r]).(pc := Locked)
        && lock == Some(r)
      ensures !ok ==>
        && On(world, pid, r, p, HalfLeft)
        && world.reqs[r] == old(world.reqs[r]).(pc := HalfLeft, outcome := Error)
        && lock == old(lock)
    {
      ok := ToLock !in faults;
      if ok {
        lock := Some(r);
        Guarding(Action.TakeLock(r), p, r);
      } else {
        Guarding(Action.LockFails(r), p, r);
      }
    }

    method DropMutex(r: Rid, ghost p: iset<State>)
      requires Valid() && r in world.reqs
          && On(world, pid, r, p, if world.reqs[r].outcome == Outcome.Valid then Leaving else HalfLeft)
      modifies this`mutex, this`world
      ensures Valid()
      ensures mutex == None
      ensures On(world, pid, r, p, if old(world.reqs[r]).pc == Leaving then HalfLeft else Answer)
      ensures world.reqs[r] == old(world.reqs[r]).(pc := world.reqs[r].pc)
    {
      mutex := None;
      Guarding(Action.DropGuard(r), p, r);
    }

    method DropLock(r: Rid, ghost p: iset<State>)
      requires Valid() && r in world.reqs
          && On(world, pid, r, p, if world.reqs[r].outcome == Outcome.Valid then HalfLeft else Leaving)
      modifies this`lock, this`world
      ensures Valid()
      ensures lock == None
      ensures On(world, pid, r, p, if old(world.reqs[r]).pc == Leaving then HalfLeft else Answer)
      ensures world.reqs[r] == old(world.reqs[r]).(pc := world.reqs[r].pc)
    {
      lock := None;
      Guarding(Action.DropGuard(r), p, r);
    }

    // -------------------------------------------------------------------
    // Reloading
    // -------------------------------------------------------------------

    /** Memory becomes what the file says; without a file it stays. */
    method LoadReplayState(r: Rid, ghost p: iset<State>) returns (ok: bool)
      requires Valid() && On(world, pid, r, p, Locked)
      modifies this`mem, this`world
      ensures Valid()
      ensures ok <==> Reloads(file, faults)
      ensures ok ==>
        && On(world, pid, r, p, Loaded)
        && world.reqs[r] == old(world.reqs[r]).(pc := Loaded)
      ensures ok ==> mem == TableNow(old(mem), file)
      ensures !ok ==>
        && On(world, pid, r, p, Leaving)
        && world.reqs[r] == old(world.reqs[r]).(pc := Leaving, outcome := Error)
        && mem == old(mem)
    {
      if file.Some? {
        if ToReadState in faults {
          Abandon(r, p);
          return false;
        }
        if file.value.Torn? {
          Reserving(Action.Reload(r), p, r);
          return false;
        }
        mem := file.value.table;
      }
      Reserving(Action.Reload(r), p, r);
      ok := true;
    }

    // -------------------------------------------------------------------
    // Challenges
    // -------------------------------------------------------------------

    /** Reads the challenge record; an expired one is removed if that can be done. */
    method ReadChallenge(r: Rid, nonce: Nonce, ghost p: iset<State>) returns (ok: bool)
      requires Valid() && On(world, pid, r, p, Loaded) && world.reqs[r].nonce == nonce && world.reqs[r].strict
      modifies this`dir, this`world
      ensures Valid()
      ensures ok <==> old(StandingOf(dir, records, clock, nonce)).Current? && Reads(faults)
      ensures ok ==>
        && On(world, pid, r, p, RecordRead)
        && world.reqs[r] == old(world.reqs[r]).(pc := RecordRead, expires := world.reqs[r].expires,
                         reservedAt := clock)
        && Available(nonce) in dir
      ensures !ok ==>
        && On(world, pid, r, p, Leaving)
        && world.reqs[r] == old(world.reqs[r]).(pc := Leaving, outcome := Error)
      ensures dir ==
        if old(StandingOf(dir, records, clock, nonce)).Overdue? && Reads(faults) && ToDropExpired !in faults
        then old(dir) - {Available(nonce)} else old(dir)
    {
      var path := Available(nonce);
      if ToReadRecord in faults || ToReadClock in faults || StandingOf(dir, records, clock, nonce).Absent? {
        Abandon(r, p);
        return false;
      }
      if clock > records[dir[path]].expires {
        DropExpired(r, nonce, p);
        return false;
      }
      ReadRecordResult(world, r, false);
      Reserving(Action.ReadRecord(r), p, r);
      ok := true;
    }

    /** An expired record is removed if that can be done. */
    method DropExpired(r: Rid, nonce: Nonce, ghost p: iset<State>)
      requires Valid() && On(world, pid, r, p, Loaded) && world.reqs[r].nonce == nonce && world.reqs[r].strict
      requires StandingOf(dir, records, clock, nonce).Overdue?
      modifies this`dir, this`world
      ensures Valid()
      ensures dir == if ToDropExpired in faults then old(dir) else old(dir) - {Available(nonce)}
      ensures On(world, pid, r, p, Leaving) && world.reqs[r] == old(world.reqs[r]).(pc := Leaving, outcome := Error)
    {
      var removed := ToDropExpired !in faults;
      if removed {
        dir := dir - {Available(nonce)};
      }
      ReadRecordResult(world, r, removed);
      Reserving(Action.DropExpired(r, removed), p, r);
    }

    /** Renames the record out of the way; the name uses the counter up either way. */
    method MoveRecord(r: Rid, nonce: Nonce, ghost p: iset<State>) returns (ok: bool)
      requires Valid() && On(world, pid, r, p, RecordRead) && world.reqs[r].nonce == nonce
      modifies this`dir, this`counter, this`world
      ensures Valid()
      ensures ok <==> Available(nonce) in old(dir) && ToMoveAside !in faults
      ensures counter == old(counter) + 1
      ensures ok ==>
        && On(world, pid, r, p, RecordMoved)
        && world.reqs[r] == old(world.reqs[r]).(pc := RecordMoved,
                         resv := Some(Reserved(nonce, pid.number, old(counter))))
        && dir == Move(old(dir), Available(nonce), Reserved(nonce, pid.number, old(counter)))
      ensures !ok ==>
        && On(world, pid, r, p, Leaving)
        && world.reqs[r] == old(world.reqs[r]).(pc := Leaving, outcome := Error)
      ensures !ok ==> dir == old(dir)
    {
      var reserved := Reserved(nonce, pid.number, counter);
      counter := counter + 1;
      ok := ToMoveAside !in faults && Available(nonce) in dir;
      if !ok {
        FailMove(r, p);
        return false;
      }
      dir := Move(dir, Available(nonce), reserved);
      MoveRecordResult(world, r);
      Reserving(Action.MoveRecord(r), p, r);
    }

    /** The name was used up, the record stays. */
    ghost method FailMove(r: Rid, p: iset<State>)
      requires pid in world.procs && counter == world.procs[pid].counter + 1
      requires Agrees(world, pid, Proc(mem, counter - 1, mutex, strict)) && On(world, pid, r, p, RecordRead)
      requires world.file == file && world.temps == temps && world.dir == dir && world.issues == records
      requires world.lock == lock && world.clock == clock
      modifies this`world
      ensures Valid()
      ensures On(world, pid, r, p, Leaving) && world.reqs[r] == old(world.reqs[r]).(pc := Leaving, outcome := Error)
    {
      MoveFailsResult(world, r);
      Reserving(Action.MoveFails(r), p, r);
    }

    method SyncReserved(r: Rid, ghost p: iset<State>) returns (ok: bool)
      requires Valid() && On(world, pid, r, p, RecordMoved)
      modifies this`world
      ensures Valid()
      ensures ok <==> ToSyncAside !in faults
      ensures ok ==> On(world, pid, r, p, Ready) && world.reqs[r] == old(world.reqs[r]).(pc := Ready)
      ensures !ok ==>
        && On(world, pid, r, p, Leaving)
        && world.reqs[r] == old(world.reqs[r]).(pc := Leaving, outcome := Error)
    {
      ok := ToSyncAside !in faults;
      if ok {
        Reserving(Action.SyncMove(r), p, r);
      } else {
        Abandon(r, p);
      }
    }

    // -------------------------------------------------------------------
    // Verifying
    // -------------------------------------------------------------------

    method SkipReserve(r: Rid, ghost p: iset<State>)
      requires Valid() && On(world, pid, r, p, Loaded) && !world.reqs[r].strict
      modifies this`world
      ensures Valid()
      ensures On(world, pid, r, p, Ready) && world.reqs[r] == old(world.reqs[r]).(pc := Ready)
    {
      Reserving(Action.SkipReserve(r), p, r);
    }

    method Snapshot(r: Rid, ghost p: iset<State>) returns (previous: Option<Table>)
      requires Valid() && On(world, pid, r, p, Ready)
      modifies this`world
      ensures Valid()
      ensures previous.Some? <==> ToSnapshot !in faults
      ensures previous.Some? ==>
        On(world, pid, r, p, Snapped) && previous.value == mem
            && world.reqs[r] == old(world.reqs[r]).(pc := Snapped, prev := mem)
      ensures previous.None? ==>
        && On(world, pid, r, p, Leaving)
        && world.reqs[r] == old(world.reqs[r]).(pc := Leaving, outcome := Error)
    {
      if ToSnapshot in faults {
        Abandon(r, p);
        return None;
      }
      Checking(Action.Snapshot(r), p, r);
      previous := Some(mem);
    }

    /** The verifier's answer, given what it makes of the receipt apart from its sequence number. */
    method CallVerifier(r: Rid, fp: Fingerprint, seqNum: nat, verdict: Verdict, ghost p: iset<State>)
      returns (answer: Verified)
      requires Valid() && On(world, pid, r, p, Snapped) && world.reqs[r].fp == fp && world.reqs[r].seqNum == seqNum
      modifies this`mem, this`world
      ensures Valid()
      ensures answer == Judgement(verdict, old(mem), fp, seqNum)
      ensures answer == Ok(true) ==>
        On(world, pid, r, p, Checked)
            && world.reqs[r] == old(world.reqs[r]).(pc := Checked) && mem == old(mem)[fp := seqNum]
      ensures answer == Ok(false) ==> Declined(world, pid, r, p, old(world.reqs[r]), Invalid) && mem == old(mem)
      ensures answer.Err? ==>
        On(world, pid, r, p, Leaving)
            && world.reqs[r] == old(world.reqs[r]).(pc := Leaving, outcome := Error) && mem == old(mem)
    {
      if verdict.InfraError? {
        VerifierFails(r, p);
        return Err(VerificationError);
      }
      if verdict.PolicyFails? || (fp in mem && seqNum <= mem[fp]) {
        Refuse(r, verdict, p);
        return Ok(false);
      }
      Remember(r, fp, seqNum, p);
      answer := Ok(true);
    }

    ghost method VerifierFails(r: Rid, p: iset<State>)
      requires Valid() && On(world, pid, r, p, Snapped)
      modifies this`world
      ensures Valid()
      ensures On(world, pid, r, p, Leaving) && world.reqs[r] == old(world.reqs[r]).(pc := Leaving, outcome := Error)
    {
      VerifyResult(world, r, InfraError);
      Checking(Action.Verify(r, InfraError), p, r);
    }

    ghost method Refuse(r: Rid, verdict: Verdict, p: iset<State>)
      requires Valid() && On(world, pid, r, p, Snapped) && !verdict.InfraError?
      requires verdict.PolicyHolds? ==>
        world.reqs[r].fp in mem && world.reqs[r].seqNum <= mem[world.reqs[r].fp]
      modifies this`world
      ensures Valid()
      ensures Declined(world, pid, r, p, old(world.reqs[r]), Invalid)
    {
      VerifyResult(world, r, verdict);
      Checking(Action.Verify(r, verdict), p, r);
    }

    /** The insertion at the end of a successful verification. */
    method Remember(r: Rid, fp: Fingerprint, seqNum: nat, ghost p: iset<State>)
      requires Valid() && On(world, pid, r, p, Snapped) && world.reqs[r].fp == fp && world.reqs[r].seqNum == seqNum
      requires fp in mem ==> mem[fp] < seqNum
      modifies this`mem, this`world
      ensures Valid()
      ensures On(world, pid, r, p, Checked) && world.reqs[r] == old(world.reqs[r]).(pc := Checked)
      ensures mem == old(mem)[fp := seqNum]
    {
      mem := mem[fp := seqNum];
      VerifyResult(world, r, PolicyHolds);
      Checking(Action.Verify(r, PolicyHolds), p, r);
    }

    // -------------------------------------------------------------------
    // Persisting
    // -------------------------------------------------------------------

    /** Exclusive creation under a name that uses the counter up. */
    method CreateTemp(r: Rid, ghost p: iset<State>) returns (name: TempName, ok: bool)
      requires Valid() && On(world, pid, r, p, Checked)
      modifies this`temps, this`counter, this`world
      ensures Valid()
      ensures ok <==> TempName(pid.number, old(counter)) !in old(temps) && ToCreate !in faults
      ensures name == TempName(pid.number, old(counter)) && counter == old(counter) + 1
      ensures ok ==>
        && On(world, pid, r, p, TempMade)
        && world.reqs[r] == old(world.reqs[r]).(pc := TempMade, tempCounter := old(counter))
        && temps == old(temps)[name := Torn]
      ensures !ok ==>
        && On(world, pid, r, p, Undo)
        && world.reqs[r] == old(world.reqs[r]).(pc := Undo)
        && temps == old(temps)
    {
      name := TempName(pid.number, counter);
      counter := counter + 1;
      ok := ToCreate !in faults && name !in temps;
      if !ok {
        Checking(Action.MakeTempFails(r), p, r);
        return name, false;
      }
      temps := temps[name := Torn];
      Checking(Action.MakeTemp(r), p, r);
    }

    method WriteTemp(r: Rid, name: TempName, ghost p: iset<State>) returns (ok: bool)
      requires Valid() && On(world, pid, r, p, TempMade) && name == MyTemp(world.reqs[r]) && name in temps
      modifies this`temps, this`world
      ensures Valid()
      ensures ok <==> ToWrite !in faults
      ensures ok ==>
        && On(world, pid, r, p, TempDone)
        && world.reqs[r] == old(world.reqs[r]).(pc := TempDone)
        && name in temps
        && temps[name] == Whole(mem)
        && temps - {name} == old(temps) - {name}
      ensures !ok ==>
        && On(world, pid, r, p, CleanTemp)
        && world.reqs[r] == old(world.reqs[r]).(pc := CleanTemp)
        && name in temps
        && temps - {name} == old(temps) - {name}
    {
      ok := ToWrite !in faults;
      Overwritten(temps, name, Whole(mem));
      if ok {
        temps := temps[name := Whole(mem)];
        Checking(Action.WriteTemp(r), p, r);
      } else {
        var left: Content := *;
        Overwritten(temps, name, left);
        temps := temps[name := left];
        Checking(Action.WriteTempFails(r, left), p, r);
      }
    }

    method RenameTemp(r: Rid, name: TempName, ghost p: iset<State>) returns (ok: bool)
      requires Valid() && On(world, pid, r, p, TempDone) && name == MyTemp(world.reqs[r]) && name in temps
      modifies this`file, this`temps, this`world
      ensures Valid()
      ensures ok <==> ToReplace !in faults
      ensures ok ==>
        && On(world, pid, r, p, Replaced)
        && world.reqs[r] == old(world.reqs[r]).(pc := Replaced)
        && file == Some(old(temps)[name])
        && temps == old(temps) - {name}
      ensures !ok ==>
        && On(world, pid, r, p, CleanTemp)
        && world.reqs[r] == old(world.reqs[r]).(pc := CleanTemp)
        && file == old(file)
        && temps == old(temps)
    {
      ok := ToReplace !in faults;
      if ok {
        file, temps := Some(temps[name]), temps - {name};
        Persisting(Action.Rename(r), p, r);
      } else {
        Persisting(Action.RenameFails(r), p, r);
      }
    }

    method SyncParent(r: Rid, ghost p: iset<State>) returns (ok: bool)
      requires Valid() && On(world, pid, r, p, Replaced)
      modifies this`world
      ensures Valid()
      ensures ok <==> ToSyncReplaced !in faults
      ensures ok ==> On(world, pid, r, p, Durable) && world.reqs[r] == old(world.reqs[r]).(pc := Durable)
      ensures !ok ==> On(world, pid, r, p, CleanTemp) && world.reqs[r] == old(world.reqs[r]).(pc := CleanTemp)
    {
      ok := ToSyncReplaced !in faults;
      if ok {
        Persisting(Action.SyncRename(r), p, r);
      } else {
        Persisting(Action.SyncRenameFails(r), p, r);
      }
    }

    method RemoveTemp(r: Rid, name: TempName, ghost p: iset<State>)
      requires Valid() && On(world, pid, r, p, CleanTemp) && name == MyTemp(world.reqs[r])
      modifies this`temps, this`world
      ensures Valid()
      ensures On(world, pid, r, p, Undo) && world.reqs[r] == old(world.reqs[r]).(pc := Undo)
      ensures temps == if ToCleanUp in faults then old(temps) else old(temps) - {name}
    {
      var removed := ToCleanUp !in faults;
      if removed {
        temps := temps - {name};
      }
      Persisting(Action.RemoveTemp(r, removed), p, r);
    }

    method SetPrevious(r: Rid, previous: Table, ghost p: iset<State>)
      requires Valid() && On(world, pid, r, p, Undo) && previous == world.reqs[r].prev
      modifies this`mem, this`world
      ensures Valid()
      ensures mem == previous && Declined(world, pid, r, p, old(world.reqs[r]), Error)
    {
      mem := previous;
      RollbackResult(world, r);
      Persisting(Action.Rollback(r), p, r);
    }

    // -------------------------------------------------------------------
    // Finishing
    // -------------------------------------------------------------------

    method RestoreRecord(r: Rid, nonce: Nonce, reserved: Path, ghost p: iset<State>) returns (ok: bool)
      requires Valid() && On(world, pid, r, p, PutBack)
          && world.reqs[r].nonce == nonce && world.reqs[r].resv == Some(reserved)
      modifies this`dir, this`world
      ensures Valid()
      ensures ok <==> reserved in old(dir) && ToPutBack !in faults
      ensures ok ==>
        && On(world, pid, r, p, PutBackMoved)
        && world.reqs[r] == old(world.reqs[r]).(pc := PutBackMoved)
        && dir == Move(old(dir), reserved, Available(nonce))
      ensures !ok ==>
        && On(world, pid, r, p, Leaving)
        && world.reqs[r] == old(world.reqs[r]).(pc := Leaving, outcome := Error)
        && dir == old(dir)
    {
      ok := ToPutBack !in faults && reserved in dir;
      if !ok {
        Abandon(r, p);
        return false;
      }
      dir := Move(dir, reserved, Available(nonce));
      Finishing(Action.Restore(r), p, r);
    }

    method SyncRestored(r: Rid, ghost p: iset<State>) returns (ok: bool)
      requires Valid() && On(world, pid, r, p, PutBackMoved)
      modifies this`world
      ensures Valid()
      ensures ok <==> ToSyncBack !in faults
      ensures On(world, pid, r, p, Leaving)
      ensures world.reqs[r] == old(world.reqs[r]).(pc := Leaving, outcome := if ok then old(world.reqs[r]).outcome
          else Error)
    {
      ok := ToSyncBack !in faults;
      if ok {
        Finishing(Action.SyncRestore(r), p, r);
      } else {
        Abandon(r, p);
      }
    }

    method RemoveRecord(r: Rid, reserved: Path, ghost p: iset<State>) returns (ok: bool)
      requires Valid() && On(world, pid, r, p, Durable) && world.reqs[r].resv == Some(reserved)
      modifies this`dir, this`world
      ensures Valid()
      ensures ok <==> reserved in old(dir) && ToRemove !in faults
      ensures ok ==>
        && On(world, pid, r, p, Removed)
        && world.reqs[r] == old(world.reqs[r]).(pc := Removed)
        && dir == old(dir) - {reserved}
      ensures !ok ==>
        && On(world, pid, r, p, Leaving)
        && world.reqs[r] == old(world.reqs[r]).(pc := Leaving, outcome := Error)
        && dir == old(dir)
    {
      ok := ToRemove !in faults && reserved in dir;
      if !ok {
        Abandon(r, p);
        return false;
      }
      dir := dir - {reserved};
      Finishing(Action.Consume(r), p, r);
    }

    method SyncRemoved(r: Rid, ghost p: iset<State>) returns (ok: bool)
      requires Valid() && On(world, pid, r, p, Removed)
      modifies this`world
      ensures Valid()
      ensures ok <==> ToSyncRemoved !in faults
      ensures On(world, pid, r, p, Leaving)
      ensures world.reqs[r] == old(world.reqs[r]).(pc := Leaving, outcome := if ok then Outcome.Valid else Error)
    {
      ok := ToSyncRemoved !in faults;
      if ok {
        Finishing(Action.SyncConsume(r), p, r);
      } else {
        Abandon(r, p);
      }
    }

    method NothingToConsume(r: Rid, ghost p: iset<State>)
      requires Valid() && On(world, pid, r, p, Durable) && world.reqs[r].resv.None?
      modifies this`world
      ensures Valid()
      ensures On(world, pid, r, p, Leaving)
          && world.reqs[r] == old(world.reqs[r]).(pc := Leaving, outcome := Outcome.Valid)
    {
      Finishing(Action.Consume(r), p, r);
    }

    // -------------------------------------------------------------------
    // The helpers of the handler
    // -------------------------------------------------------------------

    /** Sets a live challenge aside under a name of its own. */
    method ReserveChallenge(r: Rid, nonce: Nonce, ghost p: iset<State>) returns (reserved: Option<Path>)
      requires Valid() && On(world, pid, r, p, Loaded) && world.reqs[r].nonce == nonce && world.reqs[r].strict
      modifies this`dir, this`counter, this`world
      ensures Valid()
      ensures (reserved, dir) ==
              old(Reservation(StandingOf(dir, records, clock, nonce), faults, dir, nonce,
                              Reserved(nonce, pid.number, counter)))
      ensures reserved.Some? ==> counter == old(counter) + 1
      ensures On(world, pid, r, p, if reserved.Some? then Ready else Leaving)
      ensures Kept(world.reqs[r], old(world.reqs[r]), if reserved.Some? then reserved else world.reqs[r].resv)
      ensures reserved.None? ==> world.reqs[r].outcome == Error
    {
      ReservationCases(StandingOf(dir, records, clock, nonce), faults, dir, nonce,
                       Reserved(nonce, pid.number, counter));
      var ok := ReadChallenge(r, nonce, p);
      if !ok {
        return None;
      }
      reserved := MoveAside(r, nonce, p);
    }

    /** The record gets its reserved name, for good once the directory is synced. */
    method MoveAside(r: Rid, nonce: Nonce, ghost p: iset<State>) returns (reserved: Option<Path>)
      requires Valid() && On(world, pid, r, p, RecordRead) && world.reqs[r].nonce == nonce
      modifies this`dir, this`counter, this`world
      ensures Valid()
      ensures reserved.Some? <==> Available(nonce) in old(dir) && ToMoveAside !in faults && ToSyncAside !in faults
      ensures dir == if Available(nonce) in old(dir) && ToMoveAside !in faults
                     then Move(old(dir), Available(nonce), Reserved(nonce, pid.number, old(counter))) else old(dir)
      ensures reserved.Some? ==>
        reserved.value == Reserved(nonce, pid.number, old(counter)) && counter == old(counter) + 1
      ensures On(world, pid, r, p, if reserved.Some? then Ready else Leaving)
      ensures Kept(world.reqs[r], old(world.reqs[r]), if reserved.Some? then reserved else world.reqs[r].resv)
      ensures reserved.None? ==> world.reqs[r].outcome == Error
    {
      var name := Reserved(nonce, pid.number, counter);
      var ok := MoveRecord(r, nonce, p);
      if ok {
        ok := SyncReserved(r, p);
      }
      reserved := if ok then Some(name) else None;
    }

    /** Replaces the state file by the table in memory; when only the last sync fails, the file has the new
        table although the call fails. */
    method PersistReplayState(r: Rid, ghost p: iset<State>) returns (ok: bool)
      requires Valid() && On(world, pid, r, p, Checked)
      modifies this`file, this`temps, this`counter, this`world
      ensures Valid()
      ensures (ok, file) ==
              Persistence(TempName(pid.number, old(counter)) !in old(temps), faults, mem, old(file))
      ensures ok || (TempName(pid.number, old(counter)) !in old(temps)
                     && ToCreate !in faults && ToCleanUp !in faults) ==>
        temps == old(temps) - {TempName(pid.number, old(counter))}
      ensures On(world, pid, r, p, if ok then Durable else Undo)
      ensures Kept(world.reqs[r], old(world.reqs[r]), old(world.reqs[r]).resv)
      ensures world.reqs[r].prev == old(world.reqs[r]).prev
    {
      Overwritten(temps, TempName(pid.number, counter), Torn);
      var name;
      name, ok := CreateTemp(r, p);
      if !ok {
        return;
      }
      ok := FillAndRename(r, name, p);
    }

    /** The temporary file becomes the state file, or goes. */
    method FillAndRename(r: Rid, name: TempName, ghost p: iset<State>) returns (ok: bool)
      requires Valid() && On(world, pid, r, p, TempMade) && name == MyTemp(world.reqs[r]) && name in temps
      modifies this`file, this`temps, this`world
      ensures Valid()
      ensures ok <==> Writes(faults) && ToSyncReplaced !in faults
      ensures file == if Writes(faults) then Some(Whole(mem)) else old(file)
      ensures ok || ToCleanUp !in faults ==> temps == old(temps) - {name}
      ensures On(world, pid, r, p, if ok then Durable else Undo)
      ensures Kept(world.reqs[r], old(world.reqs[r]), old(world.reqs[r]).resv)
      ensures world.reqs[r].prev == old(world.reqs[r]).prev
    {
      ok := WriteAndRename(r, name, p);
      if !ok {
        RemoveTemp(r, name, p);
      }
    }

    method WriteAndRename(r: Rid, name: TempName, ghost p: iset<State>) returns (ok: bool)
      requires Valid() && On(world, pid, r, p, TempMade) && name == MyTemp(world.reqs[r]) && name in temps
      modifies this`file, this`temps, this`world
      ensures Valid()
      ensures ok <==> Writes(faults) && ToSyncReplaced !in faults
      ensures file == if Writes(faults) then Some(Whole(mem)) else old(file)
      ensures temps - {name} == old(temps) - {name}
      ensures ok ==> temps == old(temps) - {name}
      ensures On(world, pid, r, p, if ok then Durable else CleanTemp)
      ensures Kept(world.reqs[r], old(world.reqs[r]), old(world.reqs[r]).resv)
      ensures world.reqs[r].prev == old(world.reqs[r]).prev && MyTemp(world.reqs[r]) == name
    {
      RemovedTwice(temps, name);
      ok := WriteTemp(r, name, p);
      if !ok {
        return;
      }
      ok := RenameTemp(r, name, p);
      if !ok {
        return;
      }
      ok := SyncParent(r, p);
    }

    /** On failure memory is what it was before the receipt was accepted, also when the file is not. */
    method PersistReplayStateOrRollback(r: Rid, previous: Table, ghost p: iset<State>) returns (ok: bool)
      requires Valid() && On(world, pid, r, p, Checked) && previous == world.reqs[r].prev
      modifies this`file, this`temps, this`counter, this`mem, this`world
      ensures Valid()
      ensures (ok, file) == Persistence(TempName(pid.number, old(counter)) !in old(temps), faults, old(mem), old(file))
      ensures mem == if ok then old(mem) else previous
      ensures On(world, pid, r, p,
                 if ok then Durable else if old(world.reqs[r]).resv.Some? then PutBack else Leaving)
      ensures Kept(world.reqs[r], old(world.reqs[r]), old(world.reqs[r]).resv)
      ensures !ok ==> world.reqs[r].outcome == Error
    {
      ok := PersistReplayState(r, p);
      if !ok {
        SetPrevious(r, previous, p);
      }
    }

    /** Puts the challenge back; what the reserved name held is then the available challenge again. */
    method RestoreReservation(r: Rid, nonce: Nonce, reserved: Path, ghost p: iset<State>) returns (ok: bool)
      requires Valid() && On(world, pid, r, p, PutBack)
          && world.reqs[r].nonce == nonce && world.reqs[r].resv == Some(reserved)
      modifies this`dir, this`world
      ensures Valid()
      ensures ok <==> PutBackWorks(old(dir), Some(reserved), faults)
      ensures dir == PutBackIn(old(dir), nonce, Some(reserved), faults)
      ensures On(world, pid, r, p, Leaving) && Kept(world.reqs[r], old(world.reqs[r]), Some(reserved))
      ensures world.reqs[r].outcome == if ok then old(world.reqs[r]).outcome else Error
    {
      ok := RestoreRecord(r, nonce, reserved, p);
      if ok {
        ok := SyncRestored(r, p);
      }
    }

    /** Removes the reserved record for good. */
    method ConsumeReservation(r: Rid, reserved: Path, ghost p: iset<State>) returns (ok: bool)
      requires Valid() && On(world, pid, r, p, Durable) && world.reqs[r].resv == Some(reserved)
      modifies this`dir, this`world
      ensures Valid()
      ensures ok <==> RemovalWorks(old(dir), Some(reserved), faults)
      ensures dir == RemovedFrom(old(dir), Some(reserved), faults)
      ensures On(world, pid, r, p, Leaving) && Kept(world.reqs[r], old(world.reqs[r]), Some(reserved))
      ensures world.reqs[r].outcome == if ok then Outcome.Valid else Error
    {
      ok := RemoveRecord(r, reserved, p);
      if ok {
        ok := SyncRemoved(r, p);
      }
    }

    // -------------------------------------------------------------------
    // The verify handler
    // -------------------------------------------------------------------

    /** After a receipt that was not accepted: the challenge, if any, goes back. */
    method GiveBack(r: Rid, nonce: Nonce, reservation: Option<Path>, ghost p: iset<State>) returns (ok: bool)
      requires Valid() && r in world.reqs && world.reqs[r].resv == reservation && world.reqs[r].nonce == nonce
      requires On(world, pid, r, p, if reservation.Some? then PutBack else Leaving)
      modifies this`dir, this`world
      ensures Valid()
      ensures ok <==> PutBackWorks(old(dir), reservation, faults)
      ensures dir == PutBackIn(old(dir), nonce, reservation, faults)
      ensures On(world, pid, r, p, Leaving) && Kept(world.reqs[r], old(world.reqs[r]), reservation)
      ensures world.reqs[r].outcome == if ok then old(world.reqs[r]).outcome else Error
    {
      ok := true;
      if reservation.Some? {
        ok := RestoreReservation(r, nonce, reservation.value, p);
      }
    }

    /** After a receipt that was accepted and persisted: the challenge, if any, is used up. */
    method UseUp(r: Rid, reservation: Option<Path>, ghost p: iset<State>) returns (ok: bool)
      requires Valid() && r in world.reqs && world.reqs[r].resv == reservation && On(world, pid, r, p, Durable)
      modifies this`dir, this`world
      ensures Valid()
      ensures ok <==> RemovalWorks(old(dir), reservation, faults)
      ensures dir == RemovedFrom(old(dir), reservation, faults)
      ensures On(world, pid, r, p, Leaving) && Kept(world.reqs[r], old(world.reqs[r]), reservation)
      ensures world.reqs[r].outcome == if ok then Outcome.Valid else Error
    {
      if reservation.Some? {
        ok := ConsumeReservation(r, reservation.value, p);
      } else {
        NothingToConsume(r, p);
        ok := true;
      }
    }

    /** The receipt was accepted in memory: make that durable and use the challenge up, or undo. */
    method Commit(r: Rid, nonce: Nonce, previous: Table, reservation: Option<Path>, ghost p: iset<State>)
      returns (ok: bool)
      requires Valid() && On(world, pid, r, p, Checked) && world.reqs[r].resv == reservation
      requires world.reqs[r].nonce == nonce && world.reqs[r].prev == previous
      modifies this`mem, this`counter, this`file, this`temps, this`dir, this`world
      ensures Valid()
      ensures (ok, Store(mem, file, dir)) ==
              Commitment(TempName(pid.number, old(counter)) !in old(temps), faults, nonce, previous, reservation,
                         Store(old(mem), old(file), old(dir)))
      ensures On(world, pid, r, p, Leaving) && Kept(world.reqs[r], old(world.reqs[r]), reservation)
      ensures world.reqs[r].outcome == if ok then Outcome.Valid else Error
    {
      ok := PersistReplayStateOrRollback(r, previous, p);
      if !ok {
        var _ := GiveBack(r, nonce, reservation, p);
        return;
      }
      ok := UseUp(r, reservation, p);
    }

    /** The verifier's answer, and for a receipt it refuses the way back. */
    method Judge(r: Rid, nonce: Nonce, fp: Fingerprint, seqNum: nat, verdict: Verdict, reservation: Option<Path>,
                 ghost p: iset<State>) returns (answer: Verified)
      requires Valid() && On(world, pid, r, p, Snapped) && world.reqs[r].resv == reservation
      requires world.reqs[r].nonce == nonce && world.reqs[r].fp == fp && world.reqs[r].seqNum == seqNum
      modifies this`mem, this`dir, this`world
      ensures Valid()
      ensures (answer, Store(mem, file, dir)) ==
              Verdicted(Judgement(verdict, old(mem), fp, seqNum), faults, nonce, old(mem)[fp := seqNum], reservation,
                        Store(old(mem), file, old(dir)))
      ensures On(world, pid, r, p, if answer == Ok(true) then Checked else Leaving)
      ensures Kept(world.reqs[r], old(world.reqs[r]), reservation)
      ensures answer == Ok(true) ==> world.reqs[r].prev == old(world.reqs[r]).prev
      ensures answer != Ok(true) ==> world.reqs[r].outcome == OutcomeOf(answer)
    {
      answer := CallVerifier(r, fp, seqNum, verdict, p);
      if answer == Ok(false) {
        var ok := GiveBack(r, nonce, reservation, p);
        if !ok {
          answer := Err(ReplayStateError);
        }
      }
    }

    /** From the reloaded table to the answer, with the challenge in hand. */
    method Decide(r: Rid, nonce: Nonce, fp: Fingerprint, seqNum: nat, verdict: Verdict, reservation: Option<Path>,
                  ghost p: iset<State>, ghost c: Situation) returns (answer: Verified)
      requires Valid() && On(world, pid, r, p, Ready) && world.reqs[r].resv == reservation
      requires world.reqs[r].nonce == nonce && world.reqs[r].fp == fp && world.reqs[r].seqNum == seqNum
      requires c == Situation(strict, nonce, fp, seqNum, verdict, mem, c.challenge,
                              TempName(pid.number, counter) !in temps, faults)
      modifies this`mem, this`counter, this`file, this`temps, this`dir, this`world
      ensures Valid()
      ensures (answer, Store(mem, file, dir)) == Decision(c, reservation, Store(old(mem), old(file), old(dir)))
      ensures On(world, pid, r, p, Leaving) && Kept(world.reqs[r], old(world.reqs[r]), reservation)
      ensures world.reqs[r].outcome == OutcomeOf(answer)
    {
      var previous := Snapshot(r, p);
      if previous.None? {
        return Err(ReplayStateError);
      }
      answer := Settle(r, nonce, fp, seqNum, verdict, previous.value, reservation, p, c);
    }

    /** The verifier's answer and all that follows from it. */
    method Settle(r: Rid, nonce: Nonce, fp: Fingerprint, seqNum: nat, verdict: Verdict, previous: Table,
                  reservation: Option<Path>, ghost p: iset<State>, ghost c: Situation) returns (answer: Verified)
      requires Valid() && On(world, pid, r, p, Snapped) && world.reqs[r].resv == reservation
      requires world.reqs[r].nonce == nonce && world.reqs[r].fp == fp && world.reqs[r].seqNum == seqNum
      requires previous == mem && world.reqs[r].prev == previous
      requires c == Situation(strict, nonce, fp, seqNum, verdict, mem, c.challenge,
                              TempName(pid.number, counter) !in temps, faults)
      modifies this`mem, this`counter, this`file, this`temps, this`dir, this`world
      ensures Valid()
      ensures (answer, Store(mem, file, dir)) == Settlement(c, reservation, Store(old(mem), old(file), old(dir)))
      ensures On(world, pid, r, p, Leaving) && Kept(world.reqs[r], old(world.reqs[r]), reservation)
      ensures world.reqs[r].outcome == OutcomeOf(answer)
    {
      answer := Judge(r, nonce, fp, seqNum, verdict, reservation, p);
      if answer == Ok(true) {
        var ok := Commit(r, nonce, previous, reservation, p);
        if !ok {
          answer := Err(ReplayStateError);
        }
      }
    }

    /** The challenge of a request that has to name one. */
    method SetAside(r: Rid, nonce: Nonce, ghost p: iset<State>) returns (ok: bool, reservation: Option<Path>)
      requires Valid() && On(world, pid, r, p, Loaded) && world.reqs[r].nonce == nonce
      requires world.reqs[r].strict == strict && world.reqs[r].resv.None?
      modifies this`dir, this`counter, this`world
      ensures Valid()
      ensures ok <==> strict ==> old(StandingOf(dir, records, clock, nonce)).Current? && Reserves(faults)
      ensures dir == old(AfterReserving(strict, StandingOf(dir, records, clock, nonce), faults, dir, nonce,
                                        Reserved(nonce, pid.number, counter)))
      ensures ok ==> counter == old(counter) + (if strict then 1 else 0)
      ensures ok ==> reservation == if strict then Some(Reserved(nonce, pid.number, old(counter))) else None
      ensures On(world, pid, r, p, if ok then Ready else Leaving)
      ensures Kept(world.reqs[r], old(world.reqs[r]), if ok then reservation else world.reqs[r].resv)
      ensures !ok ==> world.reqs[r].outcome == Error
    {
      reservation := None;
      ok := true;
      if strict {
        reservation := ReserveChallenge(r, nonce, p);
        ok := reservation.Some?;
      } else {
        SkipReserve(r, p);
      }
    }

    /** The transaction after the reload. */
    method Proceed(r: Rid, nonce: Nonce, fp: Fingerprint, seqNum: nat, verdict: Verdict, ghost p: iset<State>,
                   ghost c: Situation) returns (answer: Verified)
      requires Valid() && On(world, pid, r, p, Pc.Loaded) && world.reqs[r].resv.None? && world.reqs[r].strict == strict
      requires Asks(world.reqs[r], nonce, fp, seqNum)
      requires c == Situation(strict, nonce, fp, seqNum, verdict, mem, StandingOf(dir, records, clock, nonce),
                              TempFor(pid, counter, strict) !in temps, faults)
      modifies this`mem, this`counter, this`file, this`temps, this`dir, this`world
      ensures Valid()
      ensures (answer, Store(mem, file, dir)) ==
              Conclusion(true, c, Reserved(nonce, pid.number, old(counter)), Store(old(mem), old(file), old(dir)))
      ensures On(world, pid, r, p, Leaving) && world.reqs[r].outcome == OutcomeOf(answer)
      ensures Asks(world.reqs[r], nonce, fp, seqNum)
    {
      DecisionConcludes(c, Reserved(nonce, pid.number, counter), Store(mem, file, dir));
      var ok, reservation := SetAside(r, nonce, p);
      if !ok {
        return Err(InvalidChallenge);
      }
      answer := Decide(r, nonce, fp, seqNum, verdict, reservation, p, c);
    }

    /** Everything done under the file lock. */
    method Transaction(r: Rid, nonce: Nonce, fp: Fingerprint, seqNum: nat, verdict: Verdict, ghost p: iset<State>)
      returns (answer: Verified)
      requires Valid() && On(world, pid, r, p, Locked) && world.reqs[r].resv.None? && world.reqs[r].strict == strict
      requires Asks(world.reqs[r], nonce, fp, seqNum)
      modifies this`mem, this`counter, this`file, this`temps, this`dir, this`world
      ensures Valid()
      ensures (answer, Store(mem, file, dir)) ==
              old(Conclusion(Reloads(file, faults),
                             Facing(strict, nonce, fp, seqNum, verdict, Store(mem, file, dir), records, clock,
                                    TempFor(pid, counter, strict) !in temps, faults),
                             Reserved(nonce, pid.number, counter), Store(mem, file, dir)))
      ensures On(world, pid, r, p, Leaving) && world.reqs[r].outcome == OutcomeOf(answer)
      ensures Asks(world.reqs[r], nonce, fp, seqNum)
    {
      ghost var c := Facing(strict, nonce, fp, seqNum, verdict, Store(mem, file, dir), records, clock,
                            TempFor(pid, counter, strict) !in temps, faults);
      var ok := LoadReplayState(r, p);
      if !ok {
        return Err(ReplayStateError);
      }
      assert mem == TableNow(old(mem), old(file));
      answer := Proceed(r, nonce, fp, seqNum, verdict, p, c);
    }

    /** Both guards go, the mutex first after an accepted receipt and the lock first otherwise. */
    method DropGuards(r: Rid, answer: Verified, ghost p: iset<State>)
      requires Valid() && On(world, pid, r, p, Leaving) && world.reqs[r].outcome == OutcomeOf(answer)
      modifies this`mutex, this`lock, this`world
      ensures Valid()
      ensures mutex.None? && lock.None?
      ensures On(world, pid, r, p, Pc.Answer) && world.reqs[r].outcome == OutcomeOf(answer)
      ensures Asks(world.reqs[r], old(world.reqs[r]).nonce, old(world.reqs[r]).fp, old(world.reqs[r]).seqNum)
    {
      if answer == Ok(true) {
        DropMutex(r, p);
        DropLock(r, p);
      } else {
        DropLock(r, p);
        DropMutex(r, p);
      }
    }

    /** A new request of this process. */
    ghost method Begin(r: Rid, nonce: Nonce, fp: Fingerprint, seqNum: nat) returns (p: iset<State>)
      requires Valid() && r == world.nextRid
      modifies this`world
      ensures Valid() && world == WithRequest(old(world), pid, nonce, fp, seqNum)
      ensures On(world, pid, r, p, Pc.Arrived) && world.reqs[r].resv.None? && world.reqs[r].strict == strict
      ensures Asks(world.reqs[r], nonce, fp, seqNum)
      ensures p == ReachedBy(WithRequest(old(world), pid, nonce, fp, seqNum), r)
    {
      WithRequestResult(world, pid, nonce, fp, seqNum);
      world := WithRequest(world, pid, nonce, fp, seqNum);
      p := ReachedBy(world, r);
      ReachesItself(world, r);
      ReachedIsClosed(world, r);
    }

    ghost method Finish(r: Rid, nonce: Nonce, fp: Fingerprint, seqNum: nat, answer: Verified, p: iset<State>)
      requires Valid() && On(world, pid, r, p, Pc.Answer) && world.reqs[r].outcome == OutcomeOf(answer)
      requires Asks(world.reqs[r], nonce, fp, seqNum)
      modifies this`world
      ensures Valid() && world in p
      ensures r in world.responses && Responds(world.responses[r], answer == Ok(true), nonce, fp, seqNum)
    {
      RespondResult(world, r);
      world := Next(world, Respond(r));
    }

    /** The handler once it has both guards. */
    method ServeLocked(r: Rid, nonce: Nonce, fp: Fingerprint, seqNum: nat, verdict: Verdict, ghost p: iset<State>)
      returns (answer: Verified)
      requires Valid() && On(world, pid, r, p, Locked) && world.reqs[r].resv.None? && world.reqs[r].strict == strict
      requires Asks(world.reqs[r], nonce, fp, seqNum)
      modifies this`mem, this`counter, this`mutex, this`file, this`temps, this`dir, this`lock, this`world
      ensures Valid() && mutex.None? && lock.None?
      ensures (answer, Store(mem, file, dir)) ==
              old(Conclusion(Reloads(file, faults),
                             Facing(strict, nonce, fp, seqNum, verdict, Store(mem, file, dir), records, clock,
                                    TempFor(pid, counter, strict) !in temps, faults),
                             Reserved(nonce, pid.number, counter), Store(mem, file, dir)))
      ensures On(world, pid, r, p, Pc.Answer) && world.reqs[r].outcome == OutcomeOf(answer)
      ensures Asks(world.reqs[r], nonce, fp, seqNum)
    {
      answer := Transaction(r, nonce, fp, seqNum, verdict, p);
      DropGuards(r, answer, p);
    }

    /** Without the file lock there is only the mutex to drop. */
    method LeaveUnlocked(r: Rid, ghost p: iset<State>) returns (answer: Verified)
      requires Valid() && On(world, pid, r, p, HalfLeft) && world.reqs[r].outcome == Error
      modifies this`mutex, this`world
      ensures Valid() && mutex.None? && answer == Err(ReplayStateError)
      ensures On(world, pid, r, p, Pc.Answer) && world.reqs[r].outcome == OutcomeOf(answer)
      ensures Asks(world.reqs[r], old(world.reqs[r]).nonce, old(world.reqs[r]).fp, old(world.reqs[r]).seqNum)
    {
      DropMutex(r, p);
      answer := Err(ReplayStateError);
    }

    /** A new request gets the mutex. */
    method Admit(r: Rid, nonce: Nonce, fp: Fingerprint, seqNum: nat) returns (ghost p: iset<State>)
      requires Valid() && r == world.nextRid && mutex.None?
      modifies this`mutex, this`world
      ensures Valid()
      ensures On(world, pid, r, p, Mutexed) && world.reqs[r].resv.None? && world.reqs[r].strict == strict
      ensures Asks(world.reqs[r], nonce, fp, seqNum)
      ensures p == ReachedBy(WithRequest(old(world), pid, nonce, fp, seqNum), r)
    {
      p := Begin(r, nonce, fp, seqNum);
      TakeMutex(r, p);
    }

    /** The handler once it has the mutex. */
    method Serve(r: Rid, nonce: Nonce, fp: Fingerprint, seqNum: nat, verdict: Verdict, ghost p: iset<State>)
      returns (answer: Verified)
      requires Valid() && lock.None?
      requires On(world, pid, r, p, Mutexed) && world.reqs[r].resv.None? && world.reqs[r].strict == strict
      requires Asks(world.reqs[r], nonce, fp, seqNum)
      modifies this`mem, this`counter, this`mutex, this`file, this`temps, this`dir, this`lock, this`world
      ensures Valid() && mutex.None? && lock.None?
      ensures (answer, Store(mem, file, dir)) ==
              old(Conclusion(ToLock !in faults && Reloads(file, faults),
                             Facing(strict, nonce, fp, seqNum, verdict, Store(mem, file, dir), records, clock,
                                    TempFor(pid, counter, strict) !in temps, faults),
                             Reserved(nonce, pid.number, counter), Store(mem, file, dir)))
      ensures On(world, pid, r, p, Pc.Answer) && world.reqs[r].outcome == OutcomeOf(answer)
      ensures Asks(world.reqs[r], nonce, fp, seqNum)
    {
      var ok := AcquireReplayLock(r, p);
      if !ok {
        answer := LeaveUnlocked(r, p);
        return;
      }
      answer := ServeLocked(r, nonce, fp, seqNum, verdict, p);
    }

    /** POST /v1/verify, when no other request holds a guard: a run of the request's own protocol steps,
        with both guards dropped however it ends. */
    method VerifyHandler(r: Rid, nonce: Nonce, fp: Fingerprint, seqNum: nat, verdict: Verdict)
      returns (answer: Verified)
      requires Valid() && r == world.nextRid && mutex.None? && lock.None?
      modifies this`mem, this`counter, this`mutex, this`file, this`temps, this`dir, this`lock, this`world
      ensures Valid() && mutex.None? && lock.None?
      ensures (answer, Store(mem, file, dir)) ==
              old(Conclusion(ToLock !in faults && Reloads(file, faults),
                             Facing(strict, nonce, fp, seqNum, verdict, Store(mem, file, dir), records, clock,
                                    TempFor(pid, counter, strict) !in temps, faults),
                             Reserved(nonce, pid.number, counter), Store(mem, file, dir)))
      ensures world in ReachedBy(WithRequest(old(world), pid, nonce, fp, seqNum), r)
      ensures r in world.responses && Responds(world.responses[r], answer == Ok(true), nonce, fp, seqNum)
    {
      ghost var p := Admit(r, nonce, fp, seqNum);
      answer := Serve(r, nonce, fp, seqNum, verdict, p);
      Finish(r, nonce, fp, seqNum, answer, p);
    }

    // -------------------------------------------------------------------
    // The challenge handler
    // -------------------------------------------------------------------

    /** An issuer of this process is at this point. */
    ghost predicate IssuerAt(r: Rid, p: iset<State>, issuer: Issuer)
      reads this`world
    {
      r in world.issuers && world.issuers[r] == issuer && world in p && StepClosed(p, r)
    }

    ghost method Issuing(a: Action, p: iset<State>, r: Rid)
      requires world in p && StepClosed(p, r) && OwnStep(a, r) && ReplayProtocol.Issuing(a)
      modifies this`world
      ensures world == NextIssuing(old(world), a) && world in p
    {
      world := Next(world, a);
    }

    /** Draws nonces until one names no available challenge; gives up after eight. */
    method DrawNonce(r: Rid, draws: seq<Nonce>, expires: nat, ghost p: iset<State>) returns (k: nat, created: bool)
      requires Valid() && IssuerAt(r, p, Drawing(pid, expires, 0)) && |draws| >= CHALLENGE_DRAWS
      modifies this`dir, this`records, this`world
      ensures Valid()
      ensures created <==> !AllTaken(draws, old(dir)) && ToOpen !in faults
      ensures created ==>
        && FirstFree(draws, k, old(dir))
        && dir == old(dir)[Available(draws[k]) := |old(records)|]
        && records == old(records) + [Issue(draws[k], expires, false)]
        && IssuerAt(r, p, Writing(pid, |old(records)|))
      ensures !created ==> dir == old(dir) && records == old(records) && world in p && StepClosed(p, r)
    {
      k, created := 0, false;
      while k < CHALLENGE_DRAWS
        invariant Valid() && k <= CHALLENGE_DRAWS && IssuerAt(r, p, Drawing(pid, expires, k))
        invariant dir == old(dir) && records == old(records)
        invariant forall j | 0 <= j < k :: Available(draws[j]) in dir
      {
        if Available(draws[k]) in dir {
          Issuing(IssueDraw(r, draws[k]), p, r);
        } else {
          if ToOpen in faults {
            return;
          }
          dir := dir[Available(draws[k]) := |records|];
          records := records + [Issue(draws[k], expires, false)];
          Issuing(IssueDraw(r, draws[k]), p, r);
          return k, true;
        }
        k := k + 1;
      }
    }

    /** The issuer is done, whether or not it succeeded. */
    ghost method EndIssue(r: Rid, p: iset<State>)
      requires Valid() && world in p && StepClosed(p, r)
      modifies this`world
      ensures Valid() && world in p
    {
      Issuing(IssueEnd(r), p, r);
    }

    /** Fills in the record whose name was created last. */
    method WriteRecord(r: Rid, id: nat, ghost p: iset<State>)
      requires Valid() && IssuerAt(r, p, Writing(pid, id)) && id < |records|
      modifies this`records, this`world
      ensures Valid() && world in p
      ensures records == old(records)[id := old(records)[id].(written := true)]
    {
      records := records[id := records[id].(written := true)];
      Issuing(IssueWrite(r), p, r);
    }

    /** Creates and fills in one record. */
    method CreateRecord(r: Rid, draws: seq<Nonce>, expires: nat, ghost p: iset<State>) returns (k: nat, ok: bool)
      requires Valid() && IssuerAt(r, p, Drawing(pid, expires, 0)) && |draws| >= CHALLENGE_DRAWS
      modifies this`dir, this`records, this`world
      ensures Valid() && world in p
      ensures ok <==> !AllTaken(draws, old(dir)) && ToOpen !in faults && ToFill !in faults
      ensures Recorded(faults, draws, k, expires, old(dir), dir, old(records), records)
    {
      var created;
      k, created := DrawNonce(r, draws, expires, p);
      ok := created && ToFill !in faults;
      if !ok {
        EndIssue(r, p);
        return k, false;
      }
      WriteRecord(r, |records| - 1, p);
      EndIssue(r, p);
      assert records == old(records) + [Issue(draws[k], expires, true)];
    }

    /** The handler once the expiry is known. */
    method IssueChallenge(r: Rid, draws: seq<Nonce>, expires: nat)
      returns (result: Result<(Nonce, nat), ServiceError>, k: nat)
      requires Valid() && r == world.nextRid && |draws| >= CHALLENGE_DRAWS
      requires expires == clock + CHALLENGE_TTL_SECONDS <= U64_MAX
      modifies this`dir, this`records, this`world
      ensures Valid() && world in ReachedBy(Next(old(world), IssueArrive(pid)), r)
      ensures Recorded(faults, draws, k, expires, old(dir), dir, old(records), records)
      ensures result == if !AllTaken(draws, old(dir)) && Issues(faults) then Ok((draws[k], expires))
                        else Err(ReplayStateError)
    {
      ghost var p := BeginIssue(r, expires);
      var ok;
      k, ok := CreateRecord(r, draws, expires, p);
      result := if ok && ToSyncRecord !in faults then Ok((draws[k], expires)) else Err(ReplayStateError);
    }

    /** POST /v1/challenge, which takes no lock: a challenge that is announced is a complete new record under a
        nonce that was free; a failure leaves a record nobody was told of only when filling it in or syncing
        it is what failed. */
    method ChallengeHandler(r: Rid, draws: seq<Nonce>) returns (result: Result<(Nonce, nat), ServiceError>, k: nat)
      requires Valid() && r == world.nextRid && |draws| >= CHALLENGE_DRAWS
      modifies this`dir, this`records, this`world
      ensures Valid()
      ensures var expires := clock + 300;
        if ToPrepare in faults || expires > 18446744073709551615 then
          result == Err(ReplayStateError) && dir == old(dir) && records == old(records) && world == old(world)
        else
          && world in ReachedBy(Next(old(world), IssueArrive(pid)), r)
          && if ToOpen in faults || (forall j | 0 <= j < 8 :: Available(draws[j]) in old(dir)) then
               result == Err(ReplayStateError) && dir == old(dir) && records == old(records)
             else
               && k < 8 && Available(draws[k]) !in old(dir)
               && (forall j | 0 <= j < k :: Available(draws[j]) in old(dir))
               && dir == old(dir)[Available(draws[k]) := |old(records)|]
               && records == old(records) + [Issue(draws[k], expires, ToFill !in faults)]
               && result == if ToFill !in faults && ToSyncRecord !in faults then Ok((draws[k], expires))
                            else Err(ReplayStateError)
    {
      ghost var before := dir;
      var expires := clock + CHALLENGE_TTL_SECONDS;
      if expires > U64_MAX || ToPrepare in faults {
        return Err(ReplayStateError), 0;
      }
      result, k := IssueChallenge(r, draws, expires);
      DrawsMean(draws, k, before);
    }

    ghost method BeginIssue(r: Rid, expires: nat) returns (p: iset<State>)
      requires Valid() && r == world.nextRid && expires == clock + CHALLENGE_TTL_SECONDS <= U64_MAX
      modifies this`world
      ensures Valid() && p == ReachedBy(Next(old(world), IssueArrive(pid)), r)
      ensures IssuerAt(r, p, Drawing(pid, expires, 0))
    {
      world := Next(world, IssueArrive(pid));
      p := ReachedBy(world, r);
      ReachesItself(world, r);
      ReachedIsClosed(world, r);
    }
  }
}
