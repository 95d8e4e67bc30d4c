/**
 The handlers of the service inside the protocol: what holds of every run of the protocol holds of them.
 */
module ServiceRefinement {
  import opened Types
  import opened ReplayProtocol
  import opened ReplayInvariant
  import opened ReplaySafety
  import opened ReplayTheorems
  import opened VerifierService

  /** A system that some run of the protocol produced. */
  ghost predicate Reachable(s: State) {
    exists table: Option<Table>, actions: seq<Action> :: s == Run(Initial(table), actions)
  }

  lemma ReachableSteps(s: State, actions: seq<Action>)
    requires Reachable(s)
    ensures Reachable(Run(s, actions))
  {
    var table: Option<Table>, before: seq<Action> :| s == Run(Initial(table), before);
    RunOfRun(Initial(table), before, actions);
    assert Run(s, actions) == Run(Initial(table), before + actions);
  }

  /** A verify request served without waiting leaves a system that the protocol can reach, so every law
      about the runs of the protocol speaks of it. */
  lemma HandlerStaysInProtocol(before: State, after: State, pid: Pid, nonce: Nonce, fp: Fingerprint, seqNum: nat)
    requires Reachable(before)
    requires after in ReachedBy(WithRequest(before, pid, nonce, fp, seqNum), before.nextRid)
    ensures Reachable(after)
  {
    var arrive := [Arrive(pid, nonce, fp, seqNum)];
    ReachableSteps(before, arrive);
    assert arrive[..0] == [] && Run(before, arrive) == WithRequest(before, pid, nonce, fp, seqNum);
    var actions: seq<Action> :|
      (forall a | a in actions :: OwnStep(a, before.nextRid))
      && after == Run(WithRequest(before, pid, nonce, fp, seqNum), actions);
    ReachableSteps(WithRequest(before, pid, nonce, fp, seqNum), actions);
  }

  /** The same for a challenge. */
  lemma IssueStaysInProtocol(before: State, after: State, pid: Pid)
    requires Reachable(before)
    requires after in ReachedBy(Next(before, IssueArrive(pid)), before.nextRid)
    ensures Reachable(after)
  {
    var arrive := [IssueArrive(pid)];
    ReachableSteps(before, arrive);
    assert arrive[..0] == [] && Run(before, arrive) == Next(before, IssueArrive(pid));
    var actions: seq<Action> :|
      (forall a | a in actions :: OwnStep(a, before.nextRid)) && after == Run(Next(before, IssueArrive(pid)), actions);
    ReachableSteps(Next(before, IssueArrive(pid)), actions);
  }

  /** A valid answer of the handler is the only one its pair ever gets, in every run from there on, and it is
      durable from when it is given. */
  lemma ServedOnce(before: State, after: State, pid: Pid, nonce: Nonce, fp: Fingerprint, seqNum: nat,
                   later: seq<Action>, other: Rid)
    requires Reachable(before)
    requires after in ReachedBy(WithRequest(before, pid, nonce, fp, seqNum), before.nextRid)
    requires before.nextRid in after.responses && Responds(after.responses[before.nextRid], true, nonce, fp, seqNum)
    ensures var end := Run(after, later);
      && fp in DurableTable(end) && seqNum <= DurableTable(end)[fp]
      && ((other in end.responses && end.responses[other].valid && end.responses[other].fp == fp
           && end.responses[other].seqNum == seqNum) ==> other == before.nextRid)
  {
    HandlerStaysInProtocol(before, after, pid, nonce, fp, seqNum);
    ReachableInv(after);
    ResponsesStay(after, later, before.nextRid);
    ReachableSteps(after, later);
    var table: Option<Table>, actions: seq<Action> :| Run(after, later) == Run(Initial(table), actions);
    DurableBeforeAcknowledged(table, actions);
    var end := Run(after, later);
    if other in end.responses && end.responses[other].valid && end.responses[other].fp == fp
       && end.responses[other].seqNum == seqNum {
      NoReplay(table, actions, other, before.nextRid);
    }
  }

  lemma ReachableInv(s: State)
    requires Reachable(s)
    ensures Inv(s)
  {
    var table: Option<Table>, actions: seq<Action> :| s == Run(Initial(table), actions);
    RunInv(table, actions);
  }
}
