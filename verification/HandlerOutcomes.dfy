/**
 What one verify request comes to when no other request comes between: the receipt, the challenge and the
 I/O operations that fail decide the answer, the remembered table, the state file and the challenge.
 */
module HandlerOutcomes {
  import opened Types
  import opened ReplayProtocol

  /** The I/O operations of the two handlers, each tried at most once by one request. */
  datatype Operation =
    | ToLock | ToReadState
    | ToReadRecord | ToReadClock | ToDropExpired | ToMoveAside | ToSyncAside
    | ToSnapshot
    | ToCreate | ToWrite | ToReplace | ToSyncReplaced | ToCleanUp
    | ToPutBack | ToSyncBack
    | ToRemove | ToSyncRemoved
    | ToPrepare | ToOpen | ToFill | ToSyncRecord

  datatype ServiceError = ReplayStateError | InvalidChallenge | VerificationError

  /** What the client is told: an error, or whether the receipt is valid. */
  type Verified = Result<bool, ServiceError>

  /** What a request reads and writes: the remembered table, the state file, the challenge directory. */
  datatype Store = Store(mem: Table, file: Option<Content>, dir: map<Path, nat>)

  /** All that decides a request once the table was reloaded: the receipt and what the verifier makes of it
      apart from its number, the table, the challenge, and what fails. */
  datatype Situation = Situation(
    strict: bool, nonce: Nonce, fp: Fingerprint, seqNum: nat, verdict: Verdict,
    table: Table, challenge: Standing, nameFree: bool, faults: set<Operation>)

  /** How the record of a nonce stands; a record that is still being written counts as none. */
  datatype Standing = Absent | Current | Overdue

  /** What can become of the challenge that a request names. */
  datatype Fate = Untouched | Dropped | LeftAside | GivenBack | UsedUp

  function StandingOf(dir: map<Path, nat>, records: seq<Issue>, clock: nat, nonce: Nonce): Standing {
    var path := Available(nonce);
    if path !in dir || dir[path] >= |records| || !records[dir[path]].written then Absent
    else if clock <= records[dir[path]].expires then Current
    else Overdue
  }

  /** The temporary file a request creates, its reserved challenge having used up one name before. */
  function TempFor(pid: Pid, counter: nat, strict: bool): TempName {
    TempName(pid.number, counter + if strict then 1 else 0)
  }

  /** The table a transaction starts from. */
  function TableNow(mem: Table, file: Option<Content>): Table {
    if file.Some? && file.value.Whole? then file.value.table else mem
  }

  /** The answer to a receipt against a table, when nothing else goes wrong. */
  function Judgement(verdict: Verdict, table: Table, fp: Fingerprint, seqNum: nat): Verified {
    match verdict
    case InfraError => Err(VerificationError)
    case PolicyFails => Ok(false)
    case PolicyHolds => Ok(fp in table ==> table[fp] < seqNum)
  }

  /** The answer of the handler when no I/O operation fails. */
  function Expected(verdict: Verdict, table: Table, fp: Fingerprint, seqNum: nat, strict: bool, live: bool): Verified {
    if strict && !live then Err(InvalidChallenge) else Judgement(verdict, table, fp, seqNum)
  }

  /** What a request faces that is let into the transaction. */
  function Facing(strict: bool, nonce: Nonce, fp: Fingerprint, seqNum: nat, verdict: Verdict, s: Store,
                  records: seq<Issue>, clock: nat, nameFree: bool, faults: set<Operation>): Situation {
    Situation(strict, nonce, fp, seqNum, verdict, TableNow(s.mem, s.file), StandingOf(s.dir, records, clock, nonce),
              nameFree, faults)
  }

  function Judged(c: Situation): Verified { Judgement(c.verdict, c.table, c.fp, c.seqNum) }

  /** The table with the receipt in it. */
  function Raised(c: Situation): Table { c.table[c.fp := c.seqNum] }

  // Operations that have to succeed together

  predicate Reads(faults: set<Operation>) { ToReadRecord !in faults && ToReadClock !in faults }

  predicate Moves(faults: set<Operation>) { Reads(faults) && ToMoveAside !in faults }

  predicate Reserves(faults: set<Operation>) { Moves(faults) && ToSyncAside !in faults }

  /** The new table gets to the state file's name. */
  predicate Writes(faults: set<Operation>) { ToWrite !in faults && ToReplace !in faults }

  predicate Replaces(nameFree: bool, faults: set<Operation>) { nameFree && ToCreate !in faults && Writes(faults) }

  predicate Persists(nameFree: bool, faults: set<Operation>) {
    Replaces(nameFree, faults) && ToSyncReplaced !in faults
  }

  predicate PutsBack(faults: set<Operation>) { ToPutBack !in faults && ToSyncBack !in faults }

  predicate Removes(faults: set<Operation>) { ToRemove !in faults && ToSyncRemoved !in faults }

  predicate Issues(faults: set<Operation>) { ToOpen !in faults && ToFill !in faults && ToSyncRecord !in faults }

  // How far a request gets

  /** The challenge gets as far as its reserved name. */
  predicate MovesAside(c: Situation) { c.strict && c.challenge.Current? && Moves(c.faults) }

  /** The verifier gets to see the receipt. */
  predicate Judges(c: Situation) {
    (c.strict ==> MovesAside(c) && ToSyncAside !in c.faults) && ToSnapshot !in c.faults
  }

  /** The receipt is accepted and the acceptance is in the file for good. */
  predicate Commits(c: Situation) { Judges(c) && Judged(c) == Ok(true) && Persists(c.nameFree, c.faults) }

  /** The receipt was judged, and its challenge is due to go back. */
  predicate TurnsBack(c: Situation) { Judges(c) && Judged(c).Ok? && !Commits(c) }

  // What it leaves behind

  function FateOf(c: Situation): Fate {
    if !c.strict then Untouched
    else if !MovesAside(c) then FateOfReserving(c.challenge, c.faults)
    else if Commits(c) && ToRemove !in c.faults then UsedUp
    else if TurnsBack(c) && ToPutBack !in c.faults then GivenBack
    else LeftAside
  }

  /** What reserving alone does to the challenge. */
  function FateOfReserving(challenge: Standing, faults: set<Operation>): Fate {
    match challenge
    case Current => if Moves(faults) then LeftAside else Untouched
    case Overdue => if Reads(faults) && ToDropExpired !in faults then Dropped else Untouched
    case Absent => Untouched
  }

  function AnswerOf(c: Situation): Verified {
    if c.strict && (!MovesAside(c) || ToSyncAside in c.faults) then Err(InvalidChallenge)
    else if !Judges(c) then Err(ReplayStateError)
    else if Judged(c).Err? then Judged(c)
    else if Commits(c) && (c.strict ==> Removes(c.faults)) then Ok(true)
    else if Judged(c) == Ok(false) && (c.strict ==> PutsBack(c.faults)) then Ok(false)
    else Err(ReplayStateError)
  }

  function FileAfter(c: Situation, file: Option<Content>): Option<Content> {
    if Judges(c) && Judged(c) == Ok(true) && Replaces(c.nameFree, c.faults) then Some(Whole(Raised(c))) else file
  }

  function DirAfter(fate: Fate, before: map<Path, nat>, nonce: Nonce, name: Path): map<Path, nat> {
    match fate
    case Untouched => before
    case Dropped => before - {Available(nonce)}
    case LeftAside => if Available(nonce) in before then Move(before, Available(nonce), name) else before
    case GivenBack => before - {name}
    case UsedUp => before - {Available(nonce), name}
  }

  function StoreAfter(c: Situation, name: Path, before: Store): Store {
    Store(if Commits(c) then Raised(c) else c.table, FileAfter(c, before.file),
          DirAfter(FateOf(c), before.dir, c.nonce, name))
  }

  /** The state file can be read back, or there is none. */
  predicate Reloads(file: Option<Content>, faults: set<Operation>) {
    file.Some? ==> file.value.Whole? && ToReadState !in faults
  }

  /** Nothing is touched when the request does not get as far as a reloaded table. */
  function Conclusion(begun: bool, c: Situation, name: Path, before: Store): (Verified, Store) {
    if begun then (AnswerOf(c), StoreAfter(c, name, before)) else (Err(ReplayStateError), before)
  }

  // -------------------------------------------------------------------
  // With the challenge in hand
  // -------------------------------------------------------------------

  /** What reserving comes to: the reserved name, if it works, and the directory. */
  function Reservation(challenge: Standing, faults: set<Operation>, before: map<Path, nat>, nonce: Nonce, name: Path)
    : (Option<Path>, map<Path, nat>)
  {
    (if challenge.Current? && Reserves(faults) then Some(name) else None,
     DirAfter(FateOfReserving(challenge, faults), before, nonce, name))
  }

  lemma ReservationCases(challenge: Standing, faults: set<Operation>, before: map<Path, nat>, nonce: Nonce, name: Path)
    ensures !(challenge.Current? && Reads(faults)) ==>
      Reservation(challenge, faults, before, nonce, name)
      == (None, if challenge.Overdue? && Reads(faults) && ToDropExpired !in faults then before - {Available(nonce)}
                else before)
    ensures challenge.Current? && Reads(faults) && Available(nonce) in before ==>
      Reservation(challenge, faults, before, nonce, name)
      == (if ToMoveAside !in faults && ToSyncAside !in faults then Some(name) else None,
          if ToMoveAside !in faults then Move(before, Available(nonce), name) else before)
  {
  }

  /** The directory after an attempt to put the reserved record back. */
  function PutBackIn(dir: map<Path, nat>, nonce: Nonce, reservation: Option<Path>, faults: set<Operation>)
    : map<Path, nat>
  {
    if reservation.Some? && reservation.value in dir && ToPutBack !in faults
    then Move(dir, reservation.value, Available(nonce)) else dir
  }

  predicate PutBackWorks(dir: map<Path, nat>, reservation: Option<Path>, faults: set<Operation>) {
    reservation.Some? ==> reservation.value in dir && PutsBack(faults)
  }

  /** The directory after an attempt to remove the reserved record. */
  function RemovedFrom(dir: map<Path, nat>, reservation: Option<Path>, faults: set<Operation>): map<Path, nat> {
    if reservation.Some? && ToRemove !in faults then dir - {reservation.value} else dir
  }

  predicate RemovalWorks(dir: map<Path, nat>, reservation: Option<Path>, faults: set<Operation>) {
    reservation.Some? ==> reservation.value in dir && Removes(faults)
  }

  /** What persisting a table comes to: whether it works, and the file. */
  function Persistence(nameFree: bool, faults: set<Operation>, mem: Table, file: Option<Content>)
    : (bool, Option<Content>)
  {
    (Persists(nameFree, faults), if Replaces(nameFree, faults) then Some(Whole(mem)) else file)
  }

  /** What committing an accepted receipt comes to: in memory it is there already. */
  function Commitment(nameFree: bool, faults: set<Operation>, nonce: Nonce, previous: Table,
                      reservation: Option<Path>, s: Store): (bool, Store) {
    if Persists(nameFree, faults) then
      (RemovalWorks(s.dir, reservation, faults),
       Store(s.mem, Some(Whole(s.mem)), RemovedFrom(s.dir, reservation, faults)))
    else
      (false, Store(previous, if Replaces(nameFree, faults) then Some(Whole(s.mem)) else s.file,
                    PutBackIn(s.dir, nonce, reservation, faults)))
  }

  /** What judging comes to: a receipt that is refused gives its challenge back. */
  function Verdicted(judged: Verified, faults: set<Operation>, nonce: Nonce, raised: Table,
                     reservation: Option<Path>, s: Store): (Verified, Store) {
    if judged.Err? then (judged, s)
    else if judged.value then (judged, s.(mem := raised))
    else (if PutBackWorks(s.dir, reservation, faults) then judged else Err(ReplayStateError),
          s.(dir := PutBackIn(s.dir, nonce, reservation, faults)))
  }

  /** What judging and committing come to. */
  function Settlement(c: Situation, reservation: Option<Path>, taken: Store): (Verified, Store) {
    var (answer, s) := Verdicted(Judged(c), c.faults, c.nonce, Raised(c), reservation, taken);
    if answer != Ok(true) then (answer, s)
    else
      var (ok, end) := Commitment(c.nameFree, c.faults, c.nonce, taken.mem, reservation, s);
      (if ok then Ok(true) else Err(ReplayStateError), end)
  }

  /** What deciding comes to, from the directory in which the challenge was set aside. */
  function Decision(c: Situation, reservation: Option<Path>, taken: Store): (Verified, Store) {
    if ToSnapshot in c.faults then (Err(ReplayStateError), taken) else Settlement(c, reservation, taken)
  }

  lemma MovedThereAndBack(dir: map<Path, nat>, path: Path, name: Path)
    requires path in dir && path != name
    ensures Move(Move(dir, path, name), name, path) == dir - {name}
    ensures Move(dir, path, name) - {name} == dir - {path, name}
  {
  }

  /** The directory once a request has tried to reserve its challenge, if it needs one. */
  function AfterReserving(strict: bool, challenge: Standing, faults: set<Operation>, before: map<Path, nat>,
                          nonce: Nonce, name: Path): map<Path, nat> {
    if strict then DirAfter(FateOfReserving(challenge, faults), before, nonce, name) else before
  }

  /** Setting a challenge aside and removing it removes it; setting it aside and putting it back leaves the
      directory as it was, but for a leftover of the same reserved name. */
  lemma DecisionConcludes(c: Situation, name: Path, before: Store)
    requires name.Reserved? && before.mem == c.table
    requires c.strict && c.challenge.Current? ==> Available(c.nonce) in before.dir
    ensures var taken := before.(dir := AfterReserving(c.strict, c.challenge, c.faults, before.dir, c.nonce, name));
      (AnswerOf(c), StoreAfter(c, name, before)) ==
      if c.strict && !(c.challenge.Current? && Reserves(c.faults)) then (Err(InvalidChallenge), taken)
      else Decision(c, if c.strict then Some(name) else None, taken)
  {
    if c.strict && MovesAside(c) {
      MovedThereAndBack(before.dir, Available(c.nonce), name);
    }
  }

  // -------------------------------------------------------------------
  // What it means
  // -------------------------------------------------------------------

  /** The operations that an acceptance depends on. */
  function Needed(strict: bool): set<Operation> {
    {ToSnapshot, ToCreate, ToWrite, ToReplace, ToSyncReplaced}
    + if strict then {ToReadRecord, ToReadClock, ToMoveAside, ToSyncAside, ToRemove, ToSyncRemoved} else {}
  }

  /** A receipt is accepted exactly when the policy holds, its number is new, a strict request names a live
      challenge, and none of the needed operations fails. */
  lemma AcceptedExactly(c: Situation)
    ensures AnswerOf(c) == Ok(true) <==>
      && c.verdict.PolicyHolds? && (c.fp in c.table ==> c.table[c.fp] < c.seqNum)
      && (c.strict ==> c.challenge.Current?) && c.nameFree && c.faults !! Needed(c.strict)
  {
  }

  lemma ExpectedWithoutFaults(c: Situation)
    requires c.faults == {} && c.nameFree
    ensures AnswerOf(c) == Expected(c.verdict, c.table, c.fp, c.seqNum, c.strict, c.challenge.Current?)
  {
  }

  /** Accepted: newer than what was known, now in memory and in the file. */
  predicate Accepted(before: Table, mem: Table, file: Option<Content>, fp: Fingerprint, seqNum: nat) {
    (fp in before ==> before[fp] < seqNum) && mem == before[fp := seqNum] && file == Some(Whole(mem))
  }

  /** After a failure memory and file are as before but for this one receipt, and memory is not ahead. */
  predicate AtMostAhead(
    before: Table, mem: Table, fileBefore: Option<Content>, file: Option<Content>, fp: Fingerprint, seqNum: nat) {
    || (mem == before && file == fileBefore)
    || (mem == before && file == Some(Whole(before[fp := seqNum])))
    || (mem == before[fp := seqNum] && file == Some(Whole(mem)))
  }

  /** What each answer tells of memory, file and challenge. */
  lemma AnswersMean(c: Situation, name: Path, before: Store)
    ensures var (answer, after) := (AnswerOf(c), StoreAfter(c, name, before));
      && AtMostAhead(c.table, after.mem, before.file, after.file, c.fp, c.seqNum)
      && (answer == Ok(true) ==>
            && Accepted(c.table, after.mem, after.file, c.fp, c.seqNum)
            && after.dir == if c.strict then before.dir - {Available(c.nonce), name} else before.dir)
      && (answer == Ok(false) ==>
            && after.mem == c.table && after.file == before.file
            && after.dir == if c.strict then before.dir - {name} else before.dir)
      && (c.verdict.InfraError? ==> after.mem == c.table && after.file == before.file)
      && (!c.strict ==> after.dir == before.dir)
  {
  }

  /** The receipt would be accepted and the acceptance made durable. */
  predicate Committable(c: Situation) { Judged(c) == Ok(true) && Persists(c.nameFree, c.faults) }

  /** Where a live challenge is after a strict request that was not accepted, and exactly when it is there:
      available, left aside under the reserved name, or gone. */
  lemma ChallengeAfterFailure(c: Situation, name: Path, before: Store)
    requires c.strict && c.challenge.Current? && AnswerOf(c) != Ok(true)
    requires Available(c.nonce) in before.dir && name.Reserved? && name !in before.dir
    ensures var dir := StoreAfter(c, name, before).dir;
      && (Available(c.nonce) in dir <==>
          || !Moves(c.faults)
          || (ToSyncAside !in c.faults && ToSnapshot !in c.faults && ToPutBack !in c.faults
              && !c.verdict.InfraError? && !Committable(c)))
      && (name in dir <==>
          && Moves(c.faults)
          && (ToSyncAside in c.faults || ToSnapshot in c.faults || c.verdict.InfraError?
              || (if Committable(c) then ToRemove else ToPutBack) in c.faults))
      && (Available(c.nonce) !in dir && name !in dir <==>
          && Reserves(c.faults) && ToSnapshot !in c.faults && Committable(c)
          && ToRemove !in c.faults && ToSyncRemoved in c.faults)
      && (Available(c.nonce) in dir ==> dir == before.dir)
      && (name in dir ==> dir == Move(before.dir, Available(c.nonce), name))
  {
  }

  /** A record only disappears when it had expired, or when its request was committed in memory and file. */
  lemma OnlySpentOrExpiredDisappear(c: Situation, name: Path, before: Store)
    requires name.Reserved? && Available(c.nonce) in before.dir
    requires var dir := StoreAfter(c, name, before).dir; Available(c.nonce) !in dir && name !in dir
    ensures var after := StoreAfter(c, name, before);
      || (c.challenge.Overdue? && AnswerOf(c) == Err(InvalidChallenge)
          && after.mem == c.table && after.file == before.file)
      || (c.challenge.Current? && Accepted(c.table, after.mem, after.file, c.fp, c.seqNum))
  {
  }

  /** A receipt that was acceptable and could not be made durable may be presented again with the same
      challenge, exactly when the new table had not yet got to the state file's name: with only the last
      sync failing, the file already holds the number and the receipt is refused as a replay. */
  lemma RetryAfterFailedPersist(c: Situation, name: Path, before: Store, again: Situation)
    requires Judges(c) && Judged(c) == Ok(true) && !Persists(c.nameFree, c.faults)
    requires before.file.None? || before.file == Some(Whole(c.table))
    requires c.strict ==> again.challenge.Current?
    requires var after := StoreAfter(c, name, before);
      again == c.(table := TableNow(after.mem, after.file), challenge := again.challenge, nameFree := true,
                  faults := {})
    ensures AnswerOf(c) == Err(ReplayStateError) && StoreAfter(c, name, before).mem == c.table
    ensures AnswerOf(again) == Ok(!Replaces(c.nameFree, c.faults))
    ensures c.strict && ToPutBack !in c.faults && name !in before.dir ==>
      StoreAfter(c, name, before).dir == before.dir
  {
  }

  // -------------------------------------------------------------------
  // From the disk
  // -------------------------------------------------------------------

  /** The lock can be had, and the state file, if there is one, holds a table that can be read. */
  predicate Opens(file: Option<Content>, faults: set<Operation>) {
    ToLock !in faults && (file.None? || (file.value.Whole? && ToReadState !in faults))
  }

  /** The record of the nonce is complete and has not expired. */
  predicate LiveRecord(dir: map<Path, nat>, records: seq<Issue>, clock: nat, nonce: Nonce) {
    && Available(nonce) in dir && dir[Available(nonce)] < |records|
    && records[dir[Available(nonce)]].written && clock <= records[dir[Available(nonce)]].expires
  }

  /** A strict request gets hold of its challenge; any other needs none. */
  predicate HasChallenge(strict: bool, live: bool, faults: set<Operation>) {
    strict ==> live && ToReadRecord !in faults && ToReadClock !in faults && ToMoveAside !in faults
               && ToSyncAside !in faults
  }

  /** Nothing is known of the identity, or a lower number. */
  predicate Higher(mem: Table, file: Option<Content>, fp: Fingerprint, seqNum: nat) {
    var table := if file.Some? && file.value.Whole? then file.value.table else mem;
    fp !in table || table[fp] < seqNum
  }

  /** Each of the answers, and exactly when it is given, in terms of lock, state file, challenge directory, clock,
      temporary files and failing operations; every other request gets ReplayStateError. */
  lemma AnswersFromDisk(strict: bool, nonce: Nonce, fp: Fingerprint, seqNum: nat, verdict: Verdict, s: Store,
                        records: seq<Issue>, clock: nat, pid: Pid, counter: nat, temps: map<TempName, Content>,
                        faults: set<Operation>, name: Path)
    ensures var begun := ToLock !in faults && Reloads(s.file, faults);
      var c := Facing(strict, nonce, fp, seqNum, verdict, s, records, clock, TempFor(pid, counter, strict) !in temps,
                      faults);
      var answer := Conclusion(begun, c, name, s).0;
      var judged := Opens(s.file, faults)
                    && HasChallenge(strict, LiveRecord(s.dir, records, clock, nonce), faults)
                    && ToSnapshot !in faults;
      var higher := Higher(s.mem, s.file, fp, seqNum);
      && (answer == Ok(true) <==>
            && judged && verdict.PolicyHolds? && higher
            && TempName(pid.number, if strict then counter + 1 else counter) !in temps
            && ToCreate !in faults && ToWrite !in faults && ToReplace !in faults && ToSyncReplaced !in faults
            && (strict ==> ToRemove !in faults && ToSyncRemoved !in faults))
      && (answer == Ok(false) <==>
            && judged && (verdict.PolicyFails? || (verdict.PolicyHolds? && !higher))
            && (strict ==> ToPutBack !in faults && ToSyncBack !in faults))
      && (answer == Err(VerificationError) <==> judged && verdict.InfraError?)
      && (answer == Err(InvalidChallenge) <==>
            && Opens(s.file, faults)
            && !HasChallenge(strict, LiveRecord(s.dir, records, clock, nonce), faults))
  {
  }
}
