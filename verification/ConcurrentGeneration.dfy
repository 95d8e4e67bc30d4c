/**
 Any number of callers sharing one receipt generator, in every interleaving.
 */
module ConcurrentGeneration {
  import opened Types

  type Caller = nat

  datatype Place =
    | Waiting               // for the generation lock
    | Attesting             // holds the lock, waits for the provider
    | Allocating            // attested
    | Signing(number: u64)  // has a sequence number

  datatype State = State(
    counter: u64, lock: Option<Caller>, callers: map<Caller, Place>, nextCaller: Caller,
    // history
    completed: seq<u64>,    // the numbers of the receipts returned, in the order of their return
    lost: nat)              // numbers whose call failed after the allocation

  datatype Action =
    | Arrive
    | TakeLock(caller: Caller)
    | Attested(caller: Caller)
    | AttestationFails(caller: Caller)
    | Allocate(caller: Caller)
    | SigningFails(caller: Caller)  // no clock, or the receipt cannot be written
    | Complete(caller: Caller)
    | Abandon(caller: Caller)       // the caller gives up while it waits for the lock or the provider

  predicate At(s: State, c: Caller, place: Place) { c in s.callers && s.callers[c] == place }

  predicate IsSigning(s: State, c: Caller) { c in s.callers && s.callers[c].Signing? }

  /** The call is over; its guard, if it held one, is dropped. */
  function Leave(s: State, c: Caller): State {
    s.(callers := s.callers - {c}, lock := if s.lock == Some(c) then None else s.lock)
  }

  function Next(s: State, a: Action): State {
    match a
    case Arrive => s.(callers := s.callers[s.nextCaller := Waiting], nextCaller := s.nextCaller + 1)
    case TakeLock(c) =>
      if At(s, c, Waiting) && s.lock.None? then s.(lock := Some(c), callers := s.callers[c := Attesting]) else s
    case Attested(c) => if At(s, c, Attesting) then s.(callers := s.callers[c := Allocating]) else s
    case AttestationFails(c) => if At(s, c, Attesting) then Leave(s, c) else s
    case Allocate(c) =>
      if !At(s, c, Allocating) then s
      else if s.counter == U64_MAX then Leave(s, c)
      else s.(callers := s.callers[c := Signing(s.counter)], counter := s.counter + 1)
    case SigningFails(c) => if IsSigning(s, c) then Leave(s, c).(lost := s.lost + 1) else s
    case Complete(c) =>
      if IsSigning(s, c) then Leave(s, c).(completed := s.completed + [s.callers[c].number]) else s
    case Abandon(c) => if At(s, c, Waiting) || At(s, c, Attesting) then Leave(s, c) else s
  }

  function Run(s: State, actions: seq<Action>): State
    decreases |actions|
  {
    if actions == [] then s else Next(Run(s, actions[..|actions| - 1]), actions[|actions| - 1])
  }

  /** A generator whose counter stands at first. */
  function Initial(first: u64): State { State(first, None, map[], 0, [], 0) }

  // ---------------------------------------------------------------------
  // What every step keeps
  // ---------------------------------------------------------------------

  /** Only the holder of the lock is past waiting. */
  ghost predicate Exclusive(s: State) {
    && (forall c | c in s.callers :: c < s.nextCaller)
    && (forall c | c in s.callers && !s.callers[c].Waiting? :: s.lock == Some(c))
    && (s.lock.Some? ==> s.lock.value in s.callers && !s.callers[s.lock.value].Waiting?)
  }

  predicate InFlight(s: State) { s.lock.Some? && IsSigning(s, s.lock.value) }

  /** Numbers not yet handed out to a completed or lost call start here. */
  function Pending(s: State): nat { if InFlight(s) && s.counter > 0 then s.counter - 1 else s.counter }

  ghost predicate Increasing(numbers: seq<u64>) {
    forall i, j | 0 <= i < j < |numbers| :: numbers[i] < numbers[j]
  }

  ghost predicate Inv(s: State, first: u64) {
    && Exclusive(s)
    && (forall c | IsSigning(s, c) :: s.callers[c].number + 1 == s.counter)
    && Increasing(s.completed)
    && (forall n | n in s.completed :: first <= n < Pending(s))
    && s.counter == first + |s.completed| + s.lost + if InFlight(s) then 1 else 0
  }

  /** A call that leaves: the lock is free when it was the holder. */
  lemma LeaveKeeps(s: State, c: Caller)
    requires Exclusive(s) && c in s.callers
    ensures Exclusive(Leave(s, c))
    ensures IsSigning(s, c) ==> !InFlight(Leave(s, c)) && forall d :: !IsSigning(Leave(s, c), d)
    ensures !IsSigning(s, c) ==> (InFlight(Leave(s, c)) <==> InFlight(s))
  {
    var s' := Leave(s, c);
    assert forall d :: d in s'.callers <==> d in s.callers && d != c;
  }

  lemma CompleteKeeps(s: State, c: Caller, first: u64)
    requires Inv(s, first) && IsSigning(s, c)
    ensures Inv(Next(s, Complete(c)), first)
  {
    var s' := Next(s, Complete(c));
    LeaveKeeps(s, c);
    assert s.lock == Some(c) && s'.completed == s.completed + [s.counter - 1];
    assert forall i | 0 <= i < |s.completed| :: s.completed[i] in s.completed;
  }

  lemma FailureKeeps(s: State, a: Action, first: u64)
    requires Inv(s, first) && (a.AttestationFails? || a.SigningFails? || a.Abandon?)
    ensures Inv(Next(s, a), first)
  {
    if a.caller in s.callers {
      LeaveKeeps(s, a.caller);
    }
  }

  lemma AllocateKeeps(s: State, c: Caller, first: u64)
    requires Inv(s, first) && At(s, c, Allocating)
    ensures Inv(Next(s, Allocate(c)), first)
  {
    assert s.lock == Some(c);
    LeaveKeeps(s, c);
  }

  lemma StepKeeps(s: State, a: Action, first: u64)
    requires Inv(s, first)
    ensures Inv(Next(s, a), first)
  {
    if a.Complete? && IsSigning(s, a.caller) {
      CompleteKeeps(s, a.caller, first);
    } else if a.AttestationFails? || a.SigningFails? || a.Abandon? {
      FailureKeeps(s, a, first);
    } else if a.Allocate? && At(s, a.caller, Allocating) {
      AllocateKeeps(s, a.caller, first);
    }
  }

  lemma {:induction false} RunKeeps(first: u64, actions: seq<Action>)
    ensures Inv(Run(Initial(first), actions), first)
    decreases |actions|
  {
    if actions != [] {
      RunKeeps(first, actions[..|actions| - 1]);
      StepKeeps(Run(Initial(first), actions[..|actions| - 1]), actions[|actions| - 1], first);
    }
  }

  // ---------------------------------------------------------------------
  // The laws
  // ---------------------------------------------------------------------

  /** Completed receipts carry strictly increasing numbers in the order of completion, and never the
      greatest u64. */
  lemma CompletionOrder(first: u64, actions: seq<Action>)
    ensures var s := Run(Initial(first), actions);
      Increasing(s.completed) && forall n | n in s.completed :: first <= n < U64_MAX
  {
    RunKeeps(first, actions);
  }

  /** Every number the counter passed was completed, or lost after its allocation, or is in flight: a
      failed attestation and an abandoned call use none up. */
  lemma NumbersConserved(first: u64, actions: seq<Action>)
    ensures var s := Run(Initial(first), actions);
      s.counter - first == |s.completed| + s.lost + if InFlight(s) then 1 else 0
  {
    RunKeeps(first, actions);
  }

  /** Without calls that fail after the allocation the numbers are consecutive. */
  lemma ConsecutiveWithoutLoss(first: u64, actions: seq<Action>)
    requires Run(Initial(first), actions).lost == 0
    ensures var s := Run(Initial(first), actions);
      forall i | 0 <= i < |s.completed| :: s.completed[i] == first + i
  {
    RunKeeps(first, actions);
    var s := Run(Initial(first), actions);
    Squeezed(s.completed, first, Pending(s));
  }

  /** Increasing numbers in a range with no room to spare fill it. */
  lemma {:induction false} Squeezed(numbers: seq<u64>, low: nat, high: nat)
    requires Increasing(numbers) && high == low + |numbers|
    requires forall n | n in numbers :: low <= n < high
    ensures forall i | 0 <= i < |numbers| :: numbers[i] == low + i
    decreases |numbers|
  {
    if numbers != [] {
      var n := |numbers| - 1;
      AtLeast(numbers, low, n);
      var init := numbers[..n];
      forall x | x in init
        ensures low <= x < high - 1
      {
        var i :| 0 <= i < n && init[i] == x;
        assert numbers[i] < numbers[n] && numbers[n] in numbers && numbers[i] in numbers;
      }
      Squeezed(init, low, high - 1);
      forall i | 0 <= i < |numbers|
        ensures numbers[i] == low + i
      {
        assert i < n ==> init[i] == numbers[i];
        assert numbers[n] in numbers;
      }
    }
  }

  lemma {:induction false} AtLeast(numbers: seq<u64>, low: nat, i: nat)
    requires Increasing(numbers) && i < |numbers|
    requires forall n | n in numbers :: low <= n
    ensures numbers[i] >= low + i
  {
    assert numbers[i] in numbers;
    if i > 0 {
      AtLeast(numbers, low, i - 1);
      assert numbers[i - 1] < numbers[i];
    }
  }

  /** Once the counter stands at the greatest u64 with no number in flight, nothing completes any more. */
  lemma {:induction false} ExhaustionIsPermanent(s: State, first: u64, actions: seq<Action>)
    requires Inv(s, first) && s.counter == U64_MAX && !InFlight(s)
    ensures var s' := Run(s, actions);
      Inv(s', first) && s'.counter == U64_MAX && !InFlight(s') && s'.completed == s.completed && s'.lost == s.lost
    decreases |actions|
  {
    if actions != [] {
      var before := Run(s, actions[..|actions| - 1]);
      var a := actions[|actions| - 1];
      ExhaustionIsPermanent(s, first, actions[..|actions| - 1]);
      StepKeeps(before, a, first);
    }
  }

  /** With a number still in flight at exhaustion at most that one completes. */
  lemma {:induction false} LastNumber(s: State, first: u64, actions: seq<Action>)
    requires Inv(s, first) && s.counter == U64_MAX && InFlight(s)
    ensures var s' := Run(s, actions);
      && Inv(s', first) && s'.counter == U64_MAX
      && (s'.completed == s.completed || s'.completed == s.completed + [U64_MAX - 1])
      && (InFlight(s') ==> s'.completed == s.completed)
    decreases |actions|
  {
    if actions != [] {
      var before := Run(s, actions[..|actions| - 1]);
      LastNumber(s, first, actions[..|actions| - 1]);
      StepKeeps(before, actions[|actions| - 1], first);
    }
  }

  /** One caller by itself, to the end: what the generator's method does in one call. */
  function WholeCall(s: State, attested: bool, signed: bool): seq<Action> {
    var c := s.nextCaller;
    [Arrive, TakeLock(c), if attested then Attested(c) else AttestationFails(c), Allocate(c),
     if signed then Complete(c) else SigningFails(c)]
  }

  lemma RunOfFive(s: State, a: Action, b: Action, c: Action, d: Action, e: Action)
    ensures Run(s, [a, b, c, d, e]) == Next(Next(Next(Next(Next(s, a), b), c), d), e)
  {
    assert [a, b, c, d, e][..4] == [a, b, c, d] && [a, b, c, d][..3] == [a, b, c];
    assert [a, b, c][..2] == [a, b] && [a, b][..1] == [a] && [a][..0] == [];
    assert Run(s, [a]) == Next(s, a);
    assert Run(s, [a, b]) == Next(Next(s, a), b);
    assert Run(s, [a, b, c]) == Next(Run(s, [a, b]), c);
    assert Run(s, [a, b, c, d]) == Next(Run(s, [a, b, c]), d);
  }

  lemma WholeCallOutcome(s: State, first: u64, attested: bool, signed: bool)
    requires Inv(s, first) && s.lock.None?
    ensures var s' := Run(s, WholeCall(s, attested, signed));
      && s'.lock.None? && s'.callers == s.callers
      && s'.counter == (if attested && s.counter < U64_MAX then s.counter + 1 else s.counter)
      && s'.completed == (if attested && s.counter < U64_MAX && signed then s.completed + [s.counter] else s.completed)
  {
    var c := s.nextCaller;
    var outcome := if attested then Attested(c) else AttestationFails(c);
    RunOfFive(s, Arrive, TakeLock(c), outcome, Allocate(c), if signed then Complete(c) else SigningFails(c));
    var s2 := Next(Next(s, Arrive), TakeLock(c));
    assert c !in s.callers && s2.callers == s.callers[c := Attesting] && s2.lock == Some(c);
    assert s.callers[c := Attesting] - {c} == s.callers;
    var s3 := Next(s2, outcome);
    assert attested ==> s3 == s2.(callers := s.callers[c := Allocating]);
    assert s.callers[c := Allocating] - {c} == s.callers;
    assert attested && s.counter < U64_MAX ==> s.callers[c := Signing(s.counter)] - {c} == s.callers;
  }

  // ---------------------------------------------------------------------
  // How calls begin and end
  // ---------------------------------------------------------------------

  /** A call begins by waiting; it may be given up while it waits for the lock or the provider, and fail at the
      provider or, with its number lost, when its receipt is signed; its guard then is free. */
  lemma CallsBeginAndEnd(s: State, c: Caller)
    ensures Next(s, Arrive) == s.(callers := s.callers[s.nextCaller := Waiting], nextCaller := s.nextCaller + 1)
    ensures var gone := s.(callers := s.callers - {c}, lock := if s.lock == Some(c) then None else s.lock);
      && (At(s, c, Waiting) || At(s, c, Attesting) ==> Next(s, Abandon(c)) == gone)
      && (At(s, c, Attesting) ==> Next(s, AttestationFails(c)) == gone)
      && (IsSigning(s, c) ==> Next(s, SigningFails(c)) == gone.(lost := s.lost + 1))
  {
  }
}
