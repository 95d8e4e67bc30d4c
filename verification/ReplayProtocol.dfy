/**
 The replay and challenge protocol of the verifier service as a state machine.

 Any number of service processes share one state file, one advisory lock file
 and one challenge directory.  A step is one action of one request (or a clock
 change, a process start, a process crash); every I/O action also has a failing
 variant.  `Next` executes one action and leaves the state alone when the action
 is not enabled, so the runs of the system are exactly the finite action lists.
 */
module ReplayProtocol {
  import opened Types

  type Rid = nat
  type Nonce = nat        // the 32 nonce bytes; only equality matters
  type Fingerprint = nat  // the 32 fingerprint bytes; only equality matters
  type Table = map<Fingerprint, nat>

  /** A process: the number it puts into names, which processes in other containers and later processes may
      share, and what tells it from all others. */
  datatype Pid = Pid(instance: nat, number: nat)

  /** File contents: a file still being written is torn, whatever bytes it holds. */
  datatype Content = Torn | Whole(table: Table)

  datatype TempName = TempName(number: nat, counter: nat)

  /** A name in the challenge directory. */
  datatype Path =
    | Available(nonce: Nonce)
    | Reserved(nonce: Nonce, number: nat, counter: nat)

  /** One successful exclusive creation of a challenge record.  Its index in the
      issue log stands for the inode, which renames carry along. */
  datatype Issue = Issue(nonce: Nonce, expires: nat, written: bool)

  datatype Commit = Commit(rid: Rid, fp: Fingerprint, seqNum: nat)

  datatype Outcome = Pending | Valid | Invalid | Error

  /** Where a verify request stands; each name says what has just been done. */
  datatype Pc =
    | Arrived      // decoded, waits for the in-process mutex
    | Mutexed      // waits for the file lock
    | Locked       // about to reload
    | Loaded       // about to reserve the challenge
    | RecordRead   // record read and not expired, about to rename it
    | RecordMoved  // about to sync the challenge directory
    | Ready        // about to snapshot the replay state
    | Snapped      // about to call the verifier
    | Checked      // verifier accepted, memory is ahead of the file
    | TempMade     // temporary file created
    | TempDone     // temporary file written and synced
    | Replaced     // state file renamed over, directory not synced
    | Durable      // about to consume the challenge
    | Removed      // reserved record removed, directory not synced
    | CleanTemp    // persisting failed, about to remove the temporary file
    | Undo         // about to roll memory back
    | PutBack      // about to rename the record back
    | PutBackMoved // about to sync the challenge directory
    | Leaving      // about to drop the first guard
    | HalfLeft     // about to drop the second guard
    | Answer       // about to return

  datatype Req = Req(
    pid: Pid, strict: bool, nonce: Nonce, fp: Fingerprint, seqNum: nat,
    pc: Pc, outcome: Outcome, prev: Table, tempCounter: nat,
    resv: Option<Path>, expires: nat, reservedAt: nat)

  datatype Issuer =
    | Drawing(pid: Pid, expires: nat, tries: nat)
    | Writing(pid: Pid, id: nat)
    | Syncing(pid: Pid, id: nat)

  datatype Proc = Proc(mem: Table, counter: nat, mutex: Option<Rid>, strict: bool)

  datatype Response = Response(
    valid: bool, strict: bool, nonce: Nonce, fp: Fingerprint, seqNum: nat, reservedAt: nat)

  datatype State = State(
    file: Option<Content>,            // the state file
    temps: map<TempName, Content>,    // its temporary siblings
    dir: map<Path, nat>,              // challenge directory: name to inode
    lock: Option<Rid>,                // the advisory file lock
    procs: map<Pid, Proc>,
    reqs: map<Rid, Req>,
    issuers: map<Rid, Issuer>,
    nextRid: Rid,
    clock: nat,
    // history
    issues: seq<Issue>,
    commits: seq<Commit>,
    spent: map<Rid, nat>,             // inode each request removed from the directory
    responses: map<Rid, Response>)

  const CHALLENGE_TTL_SECONDS: nat := 300
  const CHALLENGE_DRAWS: nat := 8

  datatype Verdict = InfraError | PolicyFails | PolicyHolds

  datatype Action =
    | Tick(now: nat)
    | Start(pid: Pid, strict: bool)
    | Crash(pid: Pid)
    | Arrive(pid: Pid, nonce: Nonce, fp: Fingerprint, seqNum: nat)
    | TakeMutex(rid: Rid)
    | TakeLock(rid: Rid)
    | LockFails(rid: Rid)
    | Reload(rid: Rid)
    | SkipReserve(rid: Rid)
    | ReadRecord(rid: Rid)
    | DropExpired(rid: Rid, removed: bool)
    | MoveRecord(rid: Rid)
    | MoveFails(rid: Rid)
    | SyncMove(rid: Rid)
    | Snapshot(rid: Rid)
    | Verify(rid: Rid, verdict: Verdict)
    | MakeTemp(rid: Rid)
    | MakeTempFails(rid: Rid)
    | WriteTemp(rid: Rid)
    | WriteTempFails(rid: Rid, left: Content)
    | Rename(rid: Rid)
    | RenameFails(rid: Rid)
    | SyncRename(rid: Rid)
    | SyncRenameFails(rid: Rid)
    | RemoveTemp(rid: Rid, removed: bool)
    | Rollback(rid: Rid)
    | Restore(rid: Rid)
    | SyncRestore(rid: Rid)
    | Consume(rid: Rid)
    | SyncConsume(rid: Rid)
    | GiveUp(rid: Rid)                // an operation whose failure is returned at once
    | DropGuard(rid: Rid)
    | Respond(rid: Rid)
    | IssueArrive(pid: Pid)
    | IssueDraw(rid: Rid, nonce: Nonce)
    | IssueWrite(rid: Rid)
    | IssueEnd(rid: Rid)              // success after the directory sync, or any failure

  /** What the state file says; an absent file says nothing. */
  function DurableTable(s: State): Table {
    if s.file.Some? && s.file.value.Whole? then s.file.value.table else map[]
  }

  predicate At(s: State, r: Rid, pc: Pc) {
    r in s.reqs && s.reqs[r].pid in s.procs && s.reqs[r].pc == pc
  }

  function Put(s: State, r: Rid, q: Req): State {
    s.(reqs := s.reqs[r := q])
  }

  function Goto(s: State, r: Rid, pc: Pc): State
    requires r in s.reqs
  {
    Put(s, r, s.reqs[r].(pc := pc))
  }

  function Leave(s: State, r: Rid, outcome: Outcome): State
    requires r in s.reqs
  {
    Put(s, r, s.reqs[r].(pc := Leaving, outcome := outcome))
  }

  function PutProc(s: State, p: Pid, proc: Proc): State {
    s.(procs := s.procs[p := proc])
  }

  function Bump(s: State, p: Pid): State
    requires p in s.procs
  {
    PutProc(s, p, s.procs[p].(counter := s.procs[p].counter + 1))
  }

  /** rename(2): replaces whatever the target named. */
  function Move(dir: map<Path, nat>, from: Path, to: Path): map<Path, nat>
    requires from in dir
  {
    (dir - {from})[to := dir[from]]
  }

  function MyTemp(q: Req): TempName { TempName(q.pid.number, q.tempCounter) }

  /** After a request whose receipt was not accepted: restore the challenge if there is one. */
  function Decline(s: State, r: Rid, outcome: Outcome): State
    requires r in s.reqs
  {
    if s.reqs[r].resv.Some? then Put(s, r, s.reqs[r].(pc := PutBack, outcome := outcome))
    else Leave(s, r, outcome)
  }

  /** Guards drop mutex first on the success path and lock first on every other path. */
  function DropMutex(s: State, p: Pid): State
    requires p in s.procs
  {
    PutProc(s, p, s.procs[p].(mutex := None))
  }

  /** The operations whose failure `?` returns straight away. */
  predicate GivesUp(pc: Pc) {
    pc in {Locked, Loaded, RecordMoved, Ready, Durable, Removed, PutBack, PutBackMoved}
  }

  function DoArrive(s: State, p: Pid, nonce: Nonce, fp: Fingerprint, seqNum: nat): State
    requires p in s.procs
  {
    var q := Req(p, s.procs[p].strict, nonce, fp, seqNum, Arrived, Pending, map[], 0, None, 0, 0);
    Put(s, s.nextRid, q).(nextRid := s.nextRid + 1)
  }

  function DoCrash(s: State, p: Pid): State {
    s.(procs := s.procs - {p},
       reqs := map r | r in s.reqs && s.reqs[r].pid != p :: s.reqs[r],
       issuers := map r | r in s.issuers && s.issuers[r].pid != p :: s.issuers[r],
       lock := if s.lock.Some? && s.lock.value in s.reqs && s.reqs[s.lock.value].pid == p
               then None else s.lock)
  }

  function DoReload(s: State, r: Rid): State
    requires At(s, r, Locked)
  {
    var p := s.reqs[r].pid;
    match s.file
    case None => Goto(s, r, Loaded)
    case Some(Torn) => Leave(s, r, Error)
    case Some(Whole(table)) => Goto(PutProc(s, p, s.procs[p].(mem := table)), r, Loaded)
  }

  predicate Readable(s: State, nonce: Nonce) {
    Available(nonce) in s.dir
    && s.dir[Available(nonce)] < |s.issues| && s.issues[s.dir[Available(nonce)]].written
  }

  function DoReadRecord(s: State, r: Rid): State
    requires At(s, r, Loaded) && Readable(s, s.reqs[r].nonce)
  {
    var expires := s.issues[s.dir[Available(s.reqs[r].nonce)]].expires;
    if s.clock > expires then s
    else Put(s, r, s.reqs[r].(pc := RecordRead, expires := expires, reservedAt := s.clock))
  }

  function DoDropExpired(s: State, r: Rid, removed: bool): State
    requires At(s, r, Loaded) && Readable(s, s.reqs[r].nonce)
  {
    var path := Available(s.reqs[r].nonce);
    if s.clock <= s.issues[s.dir[path]].expires then s
    else Leave(if removed then s.(dir := s.dir - {path}) else s, r, Error)
  }

  function DoMoveRecord(s: State, r: Rid): State
    requires At(s, r, RecordRead) && Available(s.reqs[r].nonce) in s.dir
  {
    var q := s.reqs[r];
    var to := Reserved(q.nonce, q.pid.number, s.procs[q.pid].counter);
    var s' := Bump(s, q.pid).(dir := Move(s.dir, Available(q.nonce), to));
    Put(s', r, q.(pc := RecordMoved, resv := Some(to)))
  }

  function DoVerify(s: State, r: Rid, verdict: Verdict): State
    requires At(s, r, Snapped)
  {
    var q := s.reqs[r];
    var mem := s.procs[q.pid].mem;
    match verdict
    case InfraError => Leave(s, r, Error)
    case PolicyFails => Decline(s, r, Invalid)
    case PolicyHolds =>
      if q.fp in mem && q.seqNum <= mem[q.fp] then Decline(s, r, Invalid)
      else Goto(PutProc(s, q.pid, s.procs[q.pid].(mem := mem[q.fp := q.seqNum])), r, Checked)
  }

  function DoMakeTemp(s: State, r: Rid): State
    requires At(s, r, Checked)
  {
    var q := s.reqs[r];
    var c := s.procs[q.pid].counter;
    if TempName(q.pid.number, c) in s.temps then s
    else
      Put(Bump(s, q.pid).(temps := s.temps[TempName(q.pid.number, c) := Torn]), r,
          q.(pc := TempMade, tempCounter := c))
  }

  function DoRename(s: State, r: Rid): State
    requires At(s, r, TempDone) && MyTemp(s.reqs[r]) in s.temps
  {
    var q := s.reqs[r];
    var s' := s.(file := Some(s.temps[MyTemp(q)]), temps := s.temps - {MyTemp(q)},
                 commits := s.commits + [Commit(r, q.fp, q.seqNum)]);
    Goto(s', r, Replaced)
  }

  function DoRestore(s: State, r: Rid): State
    requires At(s, r, PutBack) && s.reqs[r].resv.Some? && s.reqs[r].resv.value in s.dir
  {
    var q := s.reqs[r];
    Goto(s.(dir := Move(s.dir, q.resv.value, Available(q.nonce))), r, PutBackMoved)
  }

  function DoConsume(s: State, r: Rid): State
    requires At(s, r, Durable)
  {
    var q := s.reqs[r];
    if q.resv.None? then Leave(s, r, Valid)
    else if q.resv.value !in s.dir then s
    else
      var s' := s.(dir := s.dir - {q.resv.value}, spent := s.spent[r := s.dir[q.resv.value]]);
      Goto(s', r, Removed)
  }

  function DoDropGuard(s: State, r: Rid): State
    requires r in s.reqs && s.reqs[r].pid in s.procs
  {
    var q := s.reqs[r];
    var mutexNow := (q.pc == Leaving) == (q.outcome == Valid);
    var s' := if mutexNow then DropMutex(s, q.pid) else s.(lock := None);
    Goto(s', r, if q.pc == Leaving then HalfLeft else Answer)
  }

  function DoRespond(s: State, r: Rid): State
    requires At(s, r, Answer)
  {
    var q := s.reqs[r];
    s.(reqs := s.reqs - {r},
       responses := s.responses[r := Response(q.outcome == Valid, q.strict, q.nonce, q.fp, q.seqNum, q.reservedAt)])
  }

  function DoIssueDraw(s: State, r: Rid, nonce: Nonce): State
    requires r in s.issuers && s.issuers[r].Drawing?
  {
    var i := s.issuers[r];
    if i.tries >= CHALLENGE_DRAWS then s
    else if Available(nonce) in s.dir then s.(issuers := s.issuers[r := i.(tries := i.tries + 1)])
    else
      s.(dir := s.dir[Available(nonce) := |s.issues|],
         issues := s.issues + [Issue(nonce, i.expires, false)],
         issuers := s.issuers[r := Writing(i.pid, |s.issues|)])
  }

  function DoIssueWrite(s: State, r: Rid): State
    requires r in s.issuers && s.issuers[r].Writing? && s.issuers[r].id < |s.issues|
  {
    var id := s.issuers[r].id;
    s.(issues := s.issues[id := s.issues[id].(written := true)],
       issuers := s.issuers[r := Syncing(s.issuers[r].pid, id)])
  }

  predicate Reserving(a: Action) {
    a.Reload? || a.SkipReserve? || a.ReadRecord? || a.DropExpired? || a.MoveRecord? || a.MoveFails? || a.SyncMove?
  }

  /** Reloading and setting the challenge aside, under the file lock. */
  function NextReserving(s: State, a: Action): State
    requires Reserving(a)
  {
    match a
    case Reload(r) => if At(s, r, Locked) then DoReload(s, r) else s
    case SkipReserve(r) => if At(s, r, Loaded) && !s.reqs[r].strict then Goto(s, r, Ready) else s
    case ReadRecord(r) =>
      if At(s, r, Loaded) && s.reqs[r].strict && Readable(s, s.reqs[r].nonce) then DoReadRecord(s, r) else s
    case DropExpired(r, removed) =>
      if At(s, r, Loaded) && s.reqs[r].strict && Readable(s, s.reqs[r].nonce)
      then DoDropExpired(s, r, removed) else s
    case MoveRecord(r) =>
      if At(s, r, RecordRead) && Available(s.reqs[r].nonce) in s.dir then DoMoveRecord(s, r) else s
    case MoveFails(r) =>
      if At(s, r, RecordRead) then Leave(Bump(s, s.reqs[r].pid), r, Error) else s
    case SyncMove(r) => if At(s, r, RecordMoved) then Goto(s, r, Ready) else s
  }

  predicate Checking(a: Action) {
    a.Snapshot? || a.Verify? || a.MakeTemp? || a.MakeTempFails? || a.WriteTemp? || a.WriteTempFails?
  }

  /** Verifying, and writing the temporary file. */
  function NextChecking(s: State, a: Action): State
    requires Checking(a)
  {
    match a
    case Snapshot(r) =>
      if At(s, r, Ready)
      then Put(s, r, s.reqs[r].(pc := Snapped, prev := s.procs[s.reqs[r].pid].mem)) else s
    case Verify(r, verdict) => if At(s, r, Snapped) then DoVerify(s, r, verdict) else s
    case MakeTemp(r) => if At(s, r, Checked) then DoMakeTemp(s, r) else s
    case MakeTempFails(r) => if At(s, r, Checked) then Goto(Bump(s, s.reqs[r].pid), r, Undo) else s
    case WriteTemp(r) =>
      if At(s, r, TempMade)
      then Goto(s.(temps := s.temps[MyTemp(s.reqs[r]) := Whole(s.procs[s.reqs[r].pid].mem)]), r, TempDone) else s
    case WriteTempFails(r, left) =>
      if At(s, r, TempMade) then Goto(s.(temps := s.temps[MyTemp(s.reqs[r]) := left]), r, CleanTemp) else s
  }

  predicate Persisting(a: Action) {
    a.Rename? || a.RenameFails? || a.SyncRename? || a.SyncRenameFails? || a.RemoveTemp? || a.Rollback?
  }

  /** Replacing the state file, or undoing. */
  function NextPersisting(s: State, a: Action): State
    requires Persisting(a)
  {
    match a
    case Rename(r) => if At(s, r, TempDone) && MyTemp(s.reqs[r]) in s.temps then DoRename(s, r) else s
    case RenameFails(r) => if At(s, r, TempDone) then Goto(s, r, CleanTemp) else s
    case SyncRename(r) => if At(s, r, Replaced) then Goto(s, r, Durable) else s
    case SyncRenameFails(r) => if At(s, r, Replaced) then Goto(s, r, CleanTemp) else s
    case RemoveTemp(r, removed) =>
      if At(s, r, CleanTemp)
      then Goto(if removed then s.(temps := s.temps - {MyTemp(s.reqs[r])}) else s, r, Undo) else s
    case Rollback(r) =>
      if At(s, r, Undo)
      then Decline(PutProc(s, s.reqs[r].pid, s.procs[s.reqs[r].pid].(mem := s.reqs[r].prev)), r, Error) else s
  }

  predicate Finishing(a: Action) {
    a.Restore? || a.SyncRestore? || a.Consume? || a.SyncConsume? || a.GiveUp?
  }

  /** Restoring or consuming the challenge. */
  function NextFinishing(s: State, a: Action): State
    requires Finishing(a)
  {
    match a
    case Restore(r) =>
      if At(s, r, PutBack) && s.reqs[r].resv.Some? && s.reqs[r].resv.value in s.dir then DoRestore(s, r) else s
    case SyncRestore(r) => if At(s, r, PutBackMoved) then Leave(s, r, s.reqs[r].outcome) else s
    case Consume(r) => if At(s, r, Durable) then DoConsume(s, r) else s
    case SyncConsume(r) => if At(s, r, Removed) then Leave(s, r, Valid) else s
    case GiveUp(r) =>
      if r in s.reqs && At(s, r, s.reqs[r].pc) && GivesUp(s.reqs[r].pc) then Leave(s, r, Error) else s
  }

  predicate Guarding(a: Action) {
    a.TakeMutex? || a.TakeLock? || a.LockFails? || a.DropGuard?
  }

  /** Taking and dropping the two guards. */
  function NextGuarding(s: State, a: Action): State
    requires Guarding(a)
  {
    match a
    case TakeMutex(r) =>
      if At(s, r, Arrived) && s.procs[s.reqs[r].pid].mutex.None?
      then Goto(PutProc(s, s.reqs[r].pid, s.procs[s.reqs[r].pid].(mutex := Some(r))), r, Mutexed) else s
    case TakeLock(r) =>
      if At(s, r, Mutexed) && s.lock.None? then Goto(s.(lock := Some(r)), r, Locked) else s
    case LockFails(r) =>
      if At(s, r, Mutexed) then Put(s, r, s.reqs[r].(pc := HalfLeft, outcome := Error)) else s
    case DropGuard(r) =>
      if At(s, r, Leaving) || At(s, r, HalfLeft) then DoDropGuard(s, r) else s
  }

  predicate Issuing(a: Action) {
    a.Tick? || a.IssueArrive? || a.IssueDraw? || a.IssueWrite? || a.IssueEnd?
  }

  /** The clock and the unlocked issuance of challenges. */
  function NextIssuing(s: State, a: Action): State
    requires Issuing(a)
  {
    match a
    case Tick(now) => s.(clock := now)
    case IssueArrive(p) =>
      if p in s.procs && s.clock + CHALLENGE_TTL_SECONDS <= U64_MAX
      then s.(issuers := s.issuers[s.nextRid := Drawing(p, s.clock + CHALLENGE_TTL_SECONDS, 0)],
              nextRid := s.nextRid + 1) else s
    case IssueDraw(r, nonce) =>
      if r in s.issuers && s.issuers[r].Drawing? then DoIssueDraw(s, r, nonce) else s
    case IssueWrite(r) =>
      if r in s.issuers && s.issuers[r].Writing? && s.issuers[r].id < |s.issues| then DoIssueWrite(s, r) else s
    case IssueEnd(r) => s.(issuers := s.issuers - {r})
  }

  predicate Passing(a: Action) {
    a.Start? || a.Crash? || a.Arrive? || a.Respond?
  }

  /** Processes and requests that come and go. */
  function NextPassing(s: State, a: Action): State
    requires Passing(a)
  {
    match a
    case Start(p, strict) =>
      if p in s.procs || s.file == Some(Torn) then s
      else PutProc(s, p, Proc(DurableTable(s), 0, None, strict))
    case Crash(p) => DoCrash(s, p)
    case Arrive(p, nonce, fp, seqNum) =>
      if p in s.procs then DoArrive(s, p, nonce, fp, seqNum) else s
    case Respond(r) => if At(s, r, Answer) then DoRespond(s, r) else s
  }

  /** One step of the whole system. */
  function Next(s: State, a: Action): State {
    if Reserving(a) then NextReserving(s, a)
    else if Checking(a) then NextChecking(s, a)
    else if Persisting(a) then NextPersisting(s, a)
    else if Finishing(a) then NextFinishing(s, a)
    else if Guarding(a) then NextGuarding(s, a)
    else if Issuing(a) then NextIssuing(s, a)
    else NextPassing(s, a)
  }

  /** No process runs, no challenge was issued; the state file is absent or was left whole. */
  function Initial(table: Option<Table>): State {
    State(match table case None => None case Some(t) => Some(Whole(t)),
          map[], map[], None, map[], map[], map[], 0, 0, [], [], map[], map[])
  }

  function Run(s: State, actions: seq<Action>): State
    decreases |actions|
  {
    if actions == [] then s else Next(Run(s, actions[..|actions| - 1]), actions[|actions| - 1])
  }
}
