/** The revocable submission capability under every interleaving of the
    dispatching thread, guarded submissions, shutdown signals and halts.

    Each step is one read or write of shared state; signals and halts try the lock
    without waiting, so they also act while somebody else holds it. */
module SubmissionGuard {
  import opened Options

  datatype Actor = Dispatcher | Guard(id: nat) | Signal(id: nat) | Halter(id: nat)

  /** The runtime's own thread around one dispatcher call. */
  datatype DispatchPc = Idle | ArmLocked | ArmChecked | ArmSet | Dispatching | DisarmLocked | DisarmCleared

  /** One entry into the guard: under the lock it reads the status from the store,
      then the capability, then the shutdown flag, and decides last. */
  datatype GuardPc =
    | Outside | Locked
    | StatusRead(halted: bool, ready: bool) | ActiveSeen(halted: bool, ready: bool) | FlagSeen(halted: bool, ready: bool)
    | Body | Refused

  datatype SignalPc = Ready | Tried(acquired: bool) | Flagged(acquired: bool) | Cleared

  datatype HaltPc = HaltReady | HaltLocked | HaltCleared | HaltTried

  /** `halted` is the persisted manual halt and `ready` everything else the guard
      wants from the persisted status. */
  datatype State = State(
    lock: Option<Actor>, active: bool, shutdown: bool, halted: bool, ready: bool,
    dispatch: DispatchPc, guards: nat -> GuardPc, signals: nat -> SignalPc, halts: nat -> HaltPc)

  datatype Step =
    | ArmAcquire | ArmCheck | ArmGiveUp | ArmWrite | ArmRelease
    | DispatchReturns | DisarmWrite | DisarmRelease
    | GuardAcquire(id: nat) | GuardRead(id: nat) | GuardCheckActive(id: nat) | GuardCheckShutdown(id: nat)
    | GuardDecide(id: nat) | GuardRelease(id: nat)
    | SignalTry(id: nat) | SignalFlag(id: nat) | SignalClear(id: nat) | SignalRelease(id: nat)
    | HaltTry(id: nat) | HaltClear(id: nat) | HaltRelease(id: nat) | HaltPersist(id: nat, written: bool)
    | StatusChanges(halted: bool, ready: bool)

  function Put<T>(f: nat -> T, id: nat, value: T): nat -> T {
    (i: nat) => if i == id then value else f(i)
  }

  /** The guard has read the status and not decided yet. */
  predicate Deciding(pc: GuardPc) {
    pc.StatusRead? || pc.ActiveSeen? || pc.FlagSeen?
  }

  /** The dispatching thread arms the capability, dispatches and disarms it; other
      processes change the persisted status. */
  function NextDispatch(s: State, step: Step): Option<State> {
    match step
    case ArmAcquire =>
      if s.dispatch == Idle && s.lock == None then Some(s.(lock := Some(Dispatcher), dispatch := ArmLocked)) else None
    case ArmCheck =>
      if s.dispatch == ArmLocked && !s.shutdown then Some(s.(dispatch := ArmChecked)) else None
    case ArmGiveUp =>
      if s.dispatch == ArmLocked && s.shutdown then Some(s.(lock := None, dispatch := Idle)) else None
    case ArmWrite =>
      if s.dispatch == ArmChecked then Some(s.(active := true, dispatch := ArmSet)) else None
    case ArmRelease =>
      if s.dispatch == ArmSet then Some(s.(lock := None, dispatch := Dispatching)) else None
    case DispatchReturns =>
      if s.dispatch == Dispatching && s.lock == None then Some(s.(lock := Some(Dispatcher), dispatch := DisarmLocked)) else None
    case DisarmWrite =>
      if s.dispatch == DisarmLocked then Some(s.(active := false, dispatch := DisarmCleared)) else None
    case DisarmRelease =>
      if s.dispatch == DisarmCleared then Some(s.(lock := None, dispatch := Idle)) else None
    case StatusChanges(halted, ready) => Some(s.(halted := halted, ready := ready))
    case _ => None
  }

  /** A guarded submission. */
  function NextGuard(s: State, step: Step): Option<State> {
    match step
    case GuardAcquire(id) =>
      if s.guards(id) == Outside && s.lock == None then
        Some(s.(lock := Some(Guard(id)), guards := Put(s.guards, id, Locked))) else None
    case GuardRead(id) =>
      if s.guards(id) == Locked then Some(s.(guards := Put(s.guards, id, StatusRead(s.halted, s.ready)))) else None
    case GuardCheckActive(id) =>
      if !s.guards(id).StatusRead? then None
      else
        var seen := ActiveSeen(s.guards(id).halted, s.guards(id).ready);
        Some(s.(guards := Put(s.guards, id, if s.active then seen else Refused)))
    case GuardCheckShutdown(id) =>
      if !s.guards(id).ActiveSeen? then None
      else
        var seen := FlagSeen(s.guards(id).halted, s.guards(id).ready);
        Some(s.(guards := Put(s.guards, id, if s.shutdown then Refused else seen)))
    case GuardDecide(id) =>
      if !s.guards(id).FlagSeen? then None
      else Some(s.(guards := Put(s.guards, id, if s.guards(id) == FlagSeen(false, true) then Body else Refused)))
    case GuardRelease(id) =>
      if s.guards(id) == Body || s.guards(id) == Refused then
        Some(s.(lock := None, guards := Put(s.guards, id, Outside))) else None
    case _ => None
  }

  /** A shutdown request: the flag is set whether or not the lock was free. */
  function NextSignal(s: State, step: Step): Option<State> {
    match step
    case SignalTry(id) =>
      if s.signals(id) != Ready then None
      else if s.lock == None then Some(s.(lock := Some(Signal(id)), signals := Put(s.signals, id, Tried(true))))
      else Some(s.(signals := Put(s.signals, id, Tried(false))))
    case SignalFlag(id) =>
      if s.signals(id).Tried? then
        Some(s.(shutdown := true, signals := Put(s.signals, id, Flagged(s.signals(id).acquired)))) else None
    case SignalClear(id) =>
      if s.signals(id) == Flagged(true) then Some(s.(active := false, signals := Put(s.signals, id, Cleared))) else None
    case SignalRelease(id) =>
      if s.signals(id) == Cleared then Some(s.(lock := None, signals := Put(s.signals, id, Ready)))
      else if s.signals(id) == Flagged(false) then Some(s.(signals := Put(s.signals, id, Ready)))
      else None
    case _ => None
  }

  /** A halt: revoke if the lock is free, then try to persist. */
  function NextHalt(s: State, step: Step): Option<State> {
    match step
    case HaltTry(id) =>
      if s.halts(id) != HaltReady then None
      else if s.lock == None then Some(s.(lock := Some(Halter(id)), halts := Put(s.halts, id, HaltLocked)))
      else Some(s.(halts := Put(s.halts, id, HaltTried)))
    case HaltClear(id) =>
      if s.halts(id) == HaltLocked then Some(s.(active := false, halts := Put(s.halts, id, HaltCleared))) else None
    case HaltRelease(id) =>
      if s.halts(id) == HaltCleared then Some(s.(lock := None, halts := Put(s.halts, id, HaltTried))) else None
    case HaltPersist(id, written) =>
      if s.halts(id) == HaltTried then
        Some(s.(halted := s.halted || written, halts := Put(s.halts, id, HaltReady))) else None
    case _ => None
  }

  /** The next state, if the step is enabled. */
  function Next(s: State, step: Step): Option<State> {
    if GuardStep(step) then NextGuard(s, step)
    else if SignalStep(step) then NextSignal(s, step)
    else if HaltStep(step) then NextHalt(s, step)
    else NextDispatch(s, step)
  }

  predicate GuardStep(step: Step) {
    || step.GuardAcquire? || step.GuardRead? || step.GuardCheckActive? || step.GuardCheckShutdown?
    || step.GuardDecide? || step.GuardRelease?
  }

  predicate SignalStep(step: Step) {
    step.SignalTry? || step.SignalFlag? || step.SignalClear? || step.SignalRelease?
  }

  predicate HaltStep(step: Step) {
    step.HaltTry? || step.HaltClear? || step.HaltRelease? || step.HaltPersist?
  }

  ghost const START := State(None, false, false, false, false, Idle, _ => Outside, _ => Ready, _ => HaltReady)

  datatype Run = Run(steps: seq<Step>, states: seq<State>)

  ghost predicate Connected(r: Run, i: nat)
    requires |r.states| == |r.steps| + 1 && i < |r.steps|
  {
    Next(r.states[i], r.steps[i]) == Some(r.states[i + 1])
  }

  ghost predicate ValidRun(r: Run) {
    && |r.states| == |r.steps| + 1
    && r.states[0] == START
    && forall i :: 0 <= i < |r.steps| ==> Connected(r, i)
  }

  // ----- what every reachable state satisfies -----

  /** The actor is at a place in the code where it holds the lock. */
  predicate Holds(s: State, a: Actor) {
    match a
    case Dispatcher => s.dispatch != Idle && s.dispatch != Dispatching
    case Guard(id) => s.guards(id) != Outside
    case Signal(id) => s.signals(id) == Tried(true) || s.signals(id) == Flagged(true) || s.signals(id) == Cleared
    case Halter(id) => s.halts(id) == HaltLocked || s.halts(id) == HaltCleared
  }

  ghost predicate LockMatches(s: State) {
    forall a :: Holds(s, a) <==> s.lock == Some(a)
  }

  /** The capability is on only around a dispatch. */
  predicate ActiveOnlyInDispatch(s: State) {
    s.active ==> s.dispatch == ArmSet || s.dispatch == Dispatching || s.dispatch == DisarmLocked
  }

  /** The lock is held by exactly the actor whose place in the code holds it. */
  ghost predicate Safe(s: State) {
    LockMatches(s) && ActiveOnlyInDispatch(s)
  }

  function Who(step: Step): Option<Actor> {
    if GuardStep(step) then Some(Guard(step.id))
    else if SignalStep(step) then Some(Signal(step.id))
    else if HaltStep(step) then Some(Halter(step.id))
    else if step.StatusChanges? then None
    else Some(Dispatcher)
  }

  /** Everybody else stays at their place in the code. */
  ghost predicate OthersStay(s: State, t: State, who: Option<Actor>) {
    forall a :: Some(a) != who ==> Holds(t, a) == Holds(s, a)
  }

  /** The actor's place and the lock change together: kept, taken or given back;
      the capability is switched on only inside a dispatch and no step takes a
      shutdown request back. */
  predicate ActorMoves(s: State, t: State, who: Option<Actor>) {
    && (who.None? ==> t.lock == s.lock)
    && (who.Some? ==>
          || (t.lock == s.lock && Holds(t, who.value) == Holds(s, who.value))
          || (s.lock == None && t.lock == who && Holds(t, who.value))
          || (t.lock == None && Holds(s, who.value) && !Holds(t, who.value)))
    && (ActiveOnlyInDispatch(s) ==> ActiveOnlyInDispatch(t))
    && (s.shutdown ==> t.shutdown)
  }

  lemma DispatchLeavesOthers(s: State, step: Step)
    requires !GuardStep(step) && !SignalStep(step) && !HaltStep(step) && NextDispatch(s, step).Some?
    ensures OthersStay(s, NextDispatch(s, step).value, Who(step))
  {
    var t := NextDispatch(s, step).value;
    assert t.guards == s.guards && t.signals == s.signals && t.halts == s.halts;
    assert step.StatusChanges? ==> t.dispatch == s.dispatch;
    hide NextDispatch, Holds, OthersStay;
    SameMaps(s, t, Who(step));
  }

  lemma DispatchMoves(s: State, step: Step)
    requires !GuardStep(step) && !SignalStep(step) && !HaltStep(step) && NextDispatch(s, step).Some?
    ensures ActorMoves(s, NextDispatch(s, step).value, Who(step))
  {
  }

  /** Actors whose own record did not change are where they were. */
  lemma SameMaps(s: State, t: State, who: Option<Actor>)
    requires who != Some(Dispatcher) ==> t.dispatch == s.dispatch
    requires forall id :: Some(Guard(id)) != who ==> t.guards(id) == s.guards(id)
    requires forall id :: Some(Signal(id)) != who ==> t.signals(id) == s.signals(id)
    requires forall id :: Some(Halter(id)) != who ==> t.halts(id) == s.halts(id)
    ensures OthersStay(s, t, who)
  {
    forall a | Some(a) != who ensures Holds(t, a) == Holds(s, a) {
      match a
      case Dispatcher =>
      case Guard(id) => assert t.guards(id) == s.guards(id);
      case Signal(id) => assert t.signals(id) == s.signals(id);
      case Halter(id) => assert t.halts(id) == s.halts(id);
    }
  }

  lemma GuardLeavesOthers(s: State, step: Step)
    requires GuardStep(step) && NextGuard(s, step).Some?
    ensures OthersStay(s, NextGuard(s, step).value, Some(Guard(step.id)))
  {
    var t := NextGuard(s, step).value;
    assert t.signals == s.signals && t.halts == s.halts && t.dispatch == s.dispatch;
    assert forall id :: id != step.id ==> t.guards(id) == s.guards(id);
    hide NextGuard, Holds, OthersStay;
    SameMaps(s, t, Some(Guard(step.id)));
  }

  lemma GuardMoves(s: State, step: Step)
    requires GuardStep(step) && NextGuard(s, step).Some?
    ensures ActorMoves(s, NextGuard(s, step).value, Some(Guard(step.id)))
  {
  }

  lemma SignalLeavesOthers(s: State, step: Step)
    requires SignalStep(step) && NextSignal(s, step).Some?
    ensures OthersStay(s, NextSignal(s, step).value, Some(Signal(step.id)))
  {
    var t := NextSignal(s, step).value;
    assert t.guards == s.guards && t.halts == s.halts && t.dispatch == s.dispatch;
    assert forall id :: id != step.id ==> t.signals(id) == s.signals(id);
    hide NextSignal, Holds, OthersStay;
    SameMaps(s, t, Some(Signal(step.id)));
  }

  lemma SignalMoves(s: State, step: Step)
    requires SignalStep(step) && NextSignal(s, step).Some?
    ensures ActorMoves(s, NextSignal(s, step).value, Some(Signal(step.id)))
  {
  }

  lemma HaltLeavesOthers(s: State, step: Step)
    requires HaltStep(step) && NextHalt(s, step).Some?
    ensures OthersStay(s, NextHalt(s, step).value, Some(Halter(step.id)))
  {
    var t := NextHalt(s, step).value;
    assert t.guards == s.guards && t.signals == s.signals && t.dispatch == s.dispatch;
    assert forall id :: id != step.id ==> t.halts(id) == s.halts(id);
    hide NextHalt, Holds, OthersStay;
    SameMaps(s, t, Some(Halter(step.id)));
  }

  lemma HaltMoves(s: State, step: Step)
    requires HaltStep(step) && NextHalt(s, step).Some?
    ensures ActorMoves(s, NextHalt(s, step).value, Some(Halter(step.id)))
  {
  }

  lemma LockFollows(s: State, t: State, who: Option<Actor>)
    requires Safe(s) && OthersStay(s, t, who) && ActorMoves(s, t, who)
    ensures Safe(t)
  {
    hide Holds, ActiveOnlyInDispatch;
    if who.Some? {
      assert Holds(s, who.value) <==> s.lock == Some(who.value);
    }
  }

  lemma StepKeepsSafe(s: State, step: Step)
    requires Safe(s) && Next(s, step).Some?
    ensures Safe(Next(s, step).value)
    ensures s.shutdown ==> Next(s, step).value.shutdown
  {
    if GuardStep(step) {
      GuardLeavesOthers(s, step);
      GuardMoves(s, step);
    } else if SignalStep(step) {
      SignalLeavesOthers(s, step);
      SignalMoves(s, step);
    } else if HaltStep(step) {
      HaltLeavesOthers(s, step);
      HaltMoves(s, step);
    } else {
      DispatchLeavesOthers(s, step);
      DispatchMoves(s, step);
    }
    hide NextGuard, NextSignal, NextHalt, NextDispatch, OthersStay, Safe, Holds, ActiveOnlyInDispatch;
    LockFollows(s, Next(s, step).value, Who(step));
  }

  lemma {:induction false} RunIsSafe(r: Run, k: nat)
    requires ValidRun(r) && k < |r.states|
    ensures Safe(r.states[k])
  {
    if k > 0 {
      RunIsSafe(r, k - 1);
      assert Connected(r, k - 1);
      StepKeepsSafe(r.states[k - 1], r.steps[k - 1]);
    }
  }

  /** At most one guarded submission runs at a time. */
  lemma OneBodyAtATime(r: Run, k: nat, a: nat, b: nat)
    requires ValidRun(r) && k < |r.states|
    requires r.states[k].guards(a) == Body && r.states[k].guards(b) == Body
    ensures a == b
  {
    RunIsSafe(r, k);
    assert Holds(r.states[k], Guard(a)) && Holds(r.states[k], Guard(b));
  }

  /** Once the dispatcher call has returned and cleaned up, the capability is off. */
  lemma CapabilityOffOutsideDispatch(r: Run, k: nat)
    requires ValidRun(r) && k < |r.states| && r.states[k].dispatch == Idle
    ensures !r.states[k].active
  {
    RunIsSafe(r, k);
  }

  lemma {:induction false} ShutdownStays(r: Run, i: nat, k: nat)
    requires ValidRun(r) && i <= k < |r.states| && r.states[i].shutdown
    ensures r.states[k].shutdown
  {
    if i < k {
      ShutdownStays(r, i, k - 1);
      RunIsSafe(r, k - 1);
      assert Connected(r, k - 1);
      StepKeepsSafe(r.states[k - 1], r.steps[k - 1]);
    }
  }

  /** Step `k` starts the guarded body of `id`. */
  ghost predicate Starts(r: Run, id: nat, k: nat)
    requires ValidRun(r) && k < |r.steps|
  {
    r.steps[k] == GuardDecide(id) && r.states[k + 1].guards(id) == Body
  }

  /** The lock has been the guard's ever since. */
  predicate HeldSince(r: Run, id: nat, j: nat, k: nat)
    requires |r.states| == |r.steps| + 1 && k < |r.states|
  {
    forall i :: j < i <= k ==> r.states[i].lock == Some(Guard(id))
  }

  predicate ReadAt(r: Run, id: nat, j: nat, k: nat)
    requires |r.states| == |r.steps| + 1 && k < |r.states|
  {
    && j < k
    && r.steps[j] == GuardRead(id)
    && Deciding(r.states[k].guards(id))
    && r.states[k].guards(id).halted == r.states[j].halted
    && r.states[k].guards(id).ready == r.states[j].ready
    && HeldSince(r, id, j, k)
  }

  /** A status a guard decides on was read under the lock it still holds. */
  lemma {:induction false} StatusWasRead(r: Run, id: nat, k: nat) returns (j: nat)
    requires ValidRun(r) && k < |r.states| && Deciding(r.states[k].guards(id))
    ensures ReadAt(r, id, j, k)
  {
    RunIsSafe(r, k);
    assert Holds(r.states[k], Guard(id));
    assert k > 0;
    assert Connected(r, k - 1);
    if r.steps[k - 1] == GuardRead(id) {
      j := k - 1;
    } else {
      hide Next, Holds;
      KeepsStatus(r.states[k - 1], r.steps[k - 1], id);
      j := StatusWasRead(r, id, k - 1);
    }
  }

  lemma KeepsStatus(s: State, step: Step, id: nat)
    requires Next(s, step).Some? && Deciding(Next(s, step).value.guards(id)) && step != GuardRead(id)
    ensures
      var before, after := s.guards(id), Next(s, step).value.guards(id);
      Deciding(before) && before.halted == after.halted && before.ready == after.ready
  {
    if !(GuardStep(step) && step.id == id) {
      OthersKeepGuard(s, step, id);
      hide *;
    } else {
      hide NextSignal, NextHalt, NextDispatch;
    }
  }

  lemma OthersKeepGuard(s: State, step: Step, id: nat)
    requires Next(s, step).Some? && !(GuardStep(step) && step.id == id)
    ensures Next(s, step).value.guards(id) == s.guards(id)
  {
  }

  /** The shutdown flag was read, and was not set, at step `c`. */
  predicate FlagReadAt(r: Run, id: nat, c: nat, k: nat)
    requires |r.states| == |r.steps| + 1 && k < |r.states|
  {
    && c < k
    && r.steps[c] == GuardCheckShutdown(id) && !r.states[c].shutdown
    && HeldSince(r, id, c, k)
    && forall i :: c < i <= k ==> r.states[i].guards(id).FlagSeen?
  }

  lemma {:induction false} FlagWasRead(r: Run, id: nat, k: nat) returns (c: nat)
    requires ValidRun(r) && k < |r.states| && r.states[k].guards(id).FlagSeen?
    ensures FlagReadAt(r, id, c, k)
  {
    RunIsSafe(r, k);
    assert Holds(r.states[k], Guard(id));
    assert k > 0;
    assert Connected(r, k - 1);
    FlagSeenFrom(r.states[k - 1], r.steps[k - 1], id);
    if r.steps[k - 1] == GuardCheckShutdown(id) {
      c := k - 1;
    } else {
      c := FlagWasRead(r, id, k - 1);
    }
  }

  lemma FlagSeenFrom(s: State, step: Step, id: nat)
    requires Next(s, step).Some? && Next(s, step).value.guards(id).FlagSeen?
    ensures if step == GuardCheckShutdown(id) then !s.shutdown else s.guards(id).FlagSeen?
  {
    if !(GuardStep(step) && step.id == id) {
      OthersKeepGuard(s, step, id);
      hide *;
    } else {
      hide NextSignal, NextHalt, NextDispatch;
    }
  }

  /** While a guard holds the lock nobody switches the capability off. */
  lemma CapabilityNeedsLock(s: State, step: Step, id: nat)
    requires LockMatches(s) && s.lock == Some(Guard(id)) && Next(s, step).Some?
    ensures Next(s, step).value.active == s.active
  {
    assert Holds(s, Dispatcher) ==> s.lock == Some(Dispatcher);
    if step.SignalClear? {
      assert Holds(s, Signal(step.id));
    }
    if step.HaltClear? {
      assert Holds(s, Halter(step.id));
    }
  }

  lemma ChecksCapability(s: State, step: Step, id: nat)
    requires Next(s, step).Some?
    requires var pc := Next(s, step).value.guards(id); pc.ActiveSeen? || pc.FlagSeen?
    ensures s.guards(id).ActiveSeen? || s.guards(id).FlagSeen? || (s.active && Next(s, step).value.active)
  {
    if !(GuardStep(step) && step.id == id) {
      OthersKeepGuard(s, step, id);
      hide *;
    } else {
      hide NextSignal, NextHalt, NextDispatch;
    }
  }

  /** Past the first check the capability stays on: switching it off needs the
      lock, which the guard holds. */
  lemma {:induction false} CapabilityStaysOn(r: Run, id: nat, k: nat)
    requires ValidRun(r) && k < |r.states|
    requires r.states[k].guards(id).ActiveSeen? || r.states[k].guards(id).FlagSeen?
    ensures r.states[k].active && r.states[k].dispatch == Dispatching
  {
    RunIsSafe(r, k);
    assert Holds(r.states[k], Guard(id)) && !Holds(r.states[k], Dispatcher);
    assert k > 0;
    assert Connected(r, k - 1);
    var s, step := r.states[k - 1], r.steps[k - 1];
    ChecksCapability(s, step, id);
    if s.guards(id).ActiveSeen? || s.guards(id).FlagSeen? {
      CapabilityStaysOn(r, id, k - 1);
      RunIsSafe(r, k - 1);
      assert Holds(s, Guard(id));
      hide Next;
      CapabilityNeedsLock(s, step, id);
    }
  }

  /** Revocation: a submission body starts only on a status that showed no manual
      halt, with the capability on, and with a shutdown flag that was not set, now
      or at any earlier moment, when the guard read it.  The lock is held from the
      status read to the start. */
  lemma NoBodyAfterRevocation(r: Run, k: nat, id: nat) returns (j: nat, c: nat)
    requires ValidRun(r) && k < |r.steps| && Starts(r, id, k)
    ensures ReadAt(r, id, j, k) && !r.states[j].halted && r.states[j].ready
    ensures FlagReadAt(r, id, c, k) && forall i :: 0 <= i <= c ==> !r.states[i].shutdown
    ensures r.states[k].active && r.states[k].dispatch == Dispatching
  {
    assert Connected(r, k);
    j := StatusWasRead(r, id, k);
    c := FlagWasRead(r, id, k);
    CapabilityStaysOn(r, id, k);
    forall i | 0 <= i <= c ensures !r.states[i].shutdown {
      if r.states[i].shutdown {
        ShutdownStays(r, i, c);
      }
    }
  }

  /** A signal that failed to get the lock revokes all the same: no body starts
      whose guard read the flag after the signal had set it. */
  lemma LosingTheLockStillRevokes(r: Run, i: nat, k: nat, signal: nat, id: nat) returns (c: nat)
    requires ValidRun(r) && i < |r.steps| && k < |r.steps|
    requires r.steps[i] == SignalFlag(signal) && Starts(r, id, k)
    ensures FlagReadAt(r, id, c, k) && c < i
  {
    assert Connected(r, i);
    assert r.states[i + 1].shutdown;
    var _, read := NoBodyAfterRevocation(r, k, id);
    c := read;
  }

  /** So at most one body starts after a signal has set the flag: the one whose
      guard held the lock and had passed the flag already. */
  lemma OneLateBody(r: Run, i: nat, signal: nat, k: nat, a: nat, m: nat, b: nat)
    requires ValidRun(r) && i < k < |r.steps| && i < m < |r.steps|
    requires r.steps[i] == SignalFlag(signal) && Starts(r, a, k) && Starts(r, b, m)
    ensures k == m && a == b
  {
    var c := LosingTheLockStillRevokes(r, i, k, signal, a);
    var d := LosingTheLockStillRevokes(r, i, m, signal, b);
    assert r.states[i + 1].lock == Some(Guard(a)) && r.states[i + 1].lock == Some(Guard(b));
  }

  // ----- exactly when a revocation comes too late -----

  /** `q` goes on from where `r` ends. */
  ghost predicate Extends(q: Run, r: Run) {
    r.steps <= q.steps && r.states <= q.states
  }

  /** `q` goes on from `r` and starts a body at step `k`, after the end of `r`. */
  ghost predicate LateStart(q: Run, r: Run, k: nat, id: nat) {
    ValidRun(q) && Extends(q, r) && |r.steps| <= k < |q.steps| && Starts(q, id, k)
  }

  /** The guard can still start its body on the status it has read. */
  predicate CanStart(s: State, id: nat) {
    || s.guards(id) == FlagSeen(false, true)
    || (s.guards(id) == ActiveSeen(false, true) && !s.shutdown)
    || (s.guards(id) == StatusRead(false, true) && !s.shutdown && s.active)
  }

  /** Once revoked, whoever can start its body could do so before the step already. */
  lemma CouldStartBefore(s: State, step: Step, id: nat)
    requires Safe(s) && Next(s, step).Some? && CanStart(Next(s, step).value, id)
    requires s.halted || s.shutdown
    ensures CanStart(s, id)
  {
    if step == GuardRead(id) {
      FreshReadRefuses(s, step, id);
    }
    KeepsStatus(s, step, id);
    assert Holds(s, Guard(id));
    CapabilityNeedsLock(s, step, id);
    StepKeepsSafe(s, step);
    if !(GuardStep(step) && step.id == id) {
      OthersKeepGuard(s, step, id);
      hide Next, Safe, Holds;
    } else {
      hide NextSignal, NextHalt, NextDispatch, Safe, Holds;
    }
  }

  /** A status read after a revocation lets nobody start. */
  lemma FreshReadRefuses(s: State, step: Step, id: nat)
    requires Next(s, step).Some? && (s.halted || s.shutdown) && step == GuardRead(id)
    ensures !CanStart(Next(s, step).value, id)
  {
  }

  /** A body that starts while the revocation lasts could start at its beginning. */
  lemma {:induction false} CouldStartAt(r: Run, id: nat, n: nat, k: nat)
    requires ValidRun(r) && n <= k < |r.states| && CanStart(r.states[k], id)
    requires forall i :: n <= i <= k ==> r.states[i].halted || r.states[i].shutdown
    ensures CanStart(r.states[n], id)
  {
    if n < k {
      RunIsSafe(r, k - 1);
      assert Connected(r, k - 1);
      hide Next, CanStart;
      CouldStartBefore(r.states[k - 1], r.steps[k - 1], id);
      CouldStartAt(r, id, n, k - 1);
    }
  }

  lemma Appended(r: Run, step: Step) returns (q: Run)
    requires ValidRun(r) && Next(r.states[|r.steps|], step).Some?
    ensures ValidRun(q) && Extends(q, r) && q.steps == r.steps + [step]
    ensures q.states == r.states + [Next(r.states[|r.steps|], step).value]
  {
    q := Run(r.steps + [step], r.states + [Next(r.states[|r.steps|], step).value]);
    hide Next;
    forall i | 0 <= i < |q.steps| ensures Connected(q, i) {
      if i < |r.steps| {
        assert Connected(r, i);
      }
    }
  }

  /** A guard that can start its body does so in at most three steps of its own,
      which leave the persisted halt alone. */
  lemma StartsSoon(r: Run, id: nat) returns (q: Run, k: nat)
    requires ValidRun(r) && CanStart(r.states[|r.steps|], id)
    ensures LateStart(q, r, k, id)
    ensures forall i :: |r.steps| <= i <= k ==> q.states[i].halted == r.states[|r.steps|].halted
    decreases GuardStepsLeft(r.states[|r.steps|].guards(id))
  {
    var s := r.states[|r.steps|];
    if s.guards(id).FlagSeen? {
      q := Appended(r, GuardDecide(id));
      k := |r.steps|;
    } else {
      var step := if s.guards(id).StatusRead? then GuardCheckActive(id) else GuardCheckShutdown(id);
      var next := Appended(r, step);
      q, k := StartsSoon(next, id);
      hide Next;
      assert q.states[|r.steps|] == s;
    }
  }

  function GuardStepsLeft(pc: GuardPc): nat {
    match pc
    case StatusRead(_, _) => 2
    case ActiveSeen(_, _) => 1
    case _ => 0
  }

  /** After a shutdown request has set the flag a body can still start if and only
      if some guard has passed the flag, with a status that lets it start. */
  lemma LateAfterSignalExactly(r: Run, signal: nat)
    requires ValidRun(r) && r.steps != [] && r.steps[|r.steps| - 1] == SignalFlag(signal)
    ensures (exists q: Run, k: nat, id: nat :: LateStart(q, r, k, id)) <==>
      exists id :: r.states[|r.steps|].guards(id) == FlagSeen(false, true)
  {
    var n := |r.steps|;
    assert Connected(r, n - 1);
    if q: Run, k: nat, id: nat :| LateStart(q, r, k, id) {
      assert q.states[n] == r.states[n] && Connected(q, k);
      forall i | n <= i <= k ensures q.states[i].halted || q.states[i].shutdown {
        ShutdownStays(q, n, i);
      }
      CouldStartAt(q, id, n, k);
    }
    if id: nat :| r.states[n].guards(id) == FlagSeen(false, true) {
      var q, k := StartsSoon(r, id);
      assert LateStart(q, r, k, id);
    }
  }

  /** A signal that got the lock is final: no body starts once it has set the flag. */
  lemma AcquiredSignalIsFinal(r: Run, i: nat, k: nat, signal: nat, id: nat)
    requires ValidRun(r) && i < k < |r.steps| && r.steps[i] == SignalFlag(signal)
    requires r.states[i].signals(signal) == Tried(true)
    ensures !Starts(r, id, k)
  {
    RunIsSafe(r, i);
    assert Holds(r.states[i], Signal(signal));
    if Starts(r, id, k) {
      var _ := LosingTheLockStillRevokes(r, i, k, signal, id);
    }
  }

  /** The halt stays persisted from state `n` through state `k`. */
  predicate StaysHalted(q: Run, n: nat, k: nat)
    requires k < |q.states|
  {
    forall i :: n <= i <= k ==> q.states[i].halted
  }

  /** While a halt that was just persisted stays so, a body can still start if and
      only if some guard can start on the status it read before. */
  lemma LateAfterHaltExactly(r: Run, halter: nat)
    requires ValidRun(r) && r.steps != [] && r.steps[|r.steps| - 1] == HaltPersist(halter, true)
    ensures (exists q: Run, k: nat, id: nat :: LateStart(q, r, k, id) && StaysHalted(q, |r.steps|, k)) <==>
      exists id :: CanStart(r.states[|r.steps|], id)
    ensures (exists id :: CanStart(r.states[|r.steps|], id)) ==> exists id :: r.states[|r.steps|].lock == Some(Guard(id))
  {
    var n := |r.steps|;
    RunIsSafe(r, n);
    assert Connected(r, n - 1);
    assert r.states[n].halted;
    if q: Run, k: nat, id: nat :| LateStart(q, r, k, id) && StaysHalted(q, n, k) {
      assert q.states[n] == r.states[n] && Connected(q, k);
      CouldStartAt(q, id, n, k);
    }
    if id: nat :| CanStart(r.states[n], id) {
      assert Holds(r.states[n], Guard(id));
      var q, k := StartsSoon(r, id);
      assert LateStart(q, r, k, id) && StaysHalted(q, n, k);
    }
  }

  /** The states between `t[0]` and the last one follow from the steps. */
  ghost predicate Follows(t: seq<State>, steps: seq<Step>) {
    |t| == |steps| + 1 && forall i :: 0 <= i < |steps| ==> Next(t[i], steps[i]) == Some(t[i + 1])
  }

  ghost const ARMED := START.(active := true, ready := true, dispatch := Dispatching)

  const ARM_STEPS := [ArmAcquire, ArmCheck, ArmWrite, ArmRelease, StatusChanges(false, true)]

  const CHECK_STEPS := [GuardAcquire(0), GuardRead(0), GuardCheckActive(0), GuardCheckShutdown(0)]

  const LATE_STEPS := [SignalTry(0), SignalFlag(0), GuardDecide(0)]

  const LATE_HALT_STEPS := [HaltTry(0), HaltPersist(0, true), GuardDecide(0)]

  lemma ArmingHappens() returns (t: seq<State>)
    ensures Follows(t, ARM_STEPS) && t[0] == START && t[5] == ARMED
  {
    var s1 := START.(lock := Some(Dispatcher), dispatch := ArmLocked);
    var s2 := s1.(dispatch := ArmChecked);
    var s3 := s2.(active := true, dispatch := ArmSet);
    t := [START, s1, s2, s3, s3.(lock := None, dispatch := Dispatching), ARMED];
  }

  lemma ChecksHappen() returns (t: seq<State>)
    ensures Follows(t, CHECK_STEPS) && t[0] == ARMED
    ensures t[4].lock.Some? && t[4].guards(0) == FlagSeen(false, true)
    ensures t[4].signals(0) == Ready && t[4].halts(0) == HaltReady
  {
    var s1 := ARMED.(lock := Some(Guard(0)), guards := Put(ARMED.guards, 0, Locked));
    var s2 := s1.(guards := Put(s1.guards, 0, StatusRead(false, true)));
    var s3 := s2.(guards := Put(s2.guards, 0, ActiveSeen(false, true)));
    t := [ARMED, s1, s2, s3, s3.(guards := Put(s3.guards, 0, FlagSeen(false, true)))];
  }

  lemma SignalComesLate(s: State) returns (t: seq<State>)
    requires s.lock.Some? && s.guards(0) == FlagSeen(false, true) && s.signals(0) == Ready
    ensures Follows(t, LATE_STEPS) && t[0] == s && t[3].guards(0) == Body
  {
    var s1 := s.(signals := Put(s.signals, 0, Tried(false)));
    var s2 := s1.(shutdown := true, signals := Put(s1.signals, 0, Flagged(false)));
    t := [s, s1, s2, s2.(guards := Put(s2.guards, 0, Body))];
  }

  lemma HaltComesLate(s: State) returns (t: seq<State>)
    requires s.lock.Some? && s.guards(0) == FlagSeen(false, true) && s.halts(0) == HaltReady
    ensures Follows(t, LATE_HALT_STEPS) && t[0] == s && t[3].guards(0) == Body && t[2].halted && t[3].halted
  {
    var s1 := s.(halts := Put(s.halts, 0, HaltTried));
    var s2 := s1.(halted := true, halts := Put(s1.halts, 0, HaltReady));
    t := [s, s1, s2, s2.(guards := Put(s2.guards, 0, Body))];
  }

  lemma Chain(a: seq<State>, p: seq<Step>, b: seq<State>, q: seq<Step>)
    requires Follows(a, p) && Follows(b, q) && a[|p|] == b[0]
    ensures Follows(a + b[1..], p + q)
  {
    hide Next;
    var t := a + b[1..];
    forall i | 0 <= i < |p + q| ensures Next(t[i], (p + q)[i]) == Some(t[i + 1]) {
      if i >= |p| {
        assert t[i] == b[i - |p|] && t[i + 1] == b[i - |p| + 1];
      }
    }
  }

  /** Such a late body exists: the signal finds the lock taken and sets the flag
      between the guard's read of it and the start of the body. */
  lemma LateBodyHappens() returns (r: Run)
    ensures ValidRun(r) && |r.steps| == 12
    ensures r.steps[10] == SignalFlag(0) && Starts(r, 0, 11)
  {
    var a := ArmingHappens();
    var b := ChecksHappen();
    var c := SignalComesLate(b[4]);
    Chain(a, ARM_STEPS, b, CHECK_STEPS);
    Chain(a + b[1..], ARM_STEPS + CHECK_STEPS, c, LATE_STEPS);
    hide Next, ARMED, START;
    r := Run(ARM_STEPS + CHECK_STEPS + LATE_STEPS, a + b[1..] + c[1..]);
    assert forall i :: 0 <= i < |r.steps| ==> Connected(r, i);
  }

  /** So does one after a persisted halt: the halting thread finds the lock taken
      and persists the halt between the guard's checks and the start of the body. */
  lemma LateBodyAfterHaltHappens() returns (r: Run)
    ensures ValidRun(r) && |r.steps| == 12
    ensures r.steps[10] == HaltPersist(0, true) && Starts(r, 0, 11) && r.states[11].halted
  {
    var a := ArmingHappens();
    var b := ChecksHappen();
    var c := HaltComesLate(b[4]);
    Chain(a, ARM_STEPS, b, CHECK_STEPS);
    Chain(a + b[1..], ARM_STEPS + CHECK_STEPS, c, LATE_HALT_STEPS);
    hide Next, ARMED, START;
    r := Run(ARM_STEPS + CHECK_STEPS + LATE_HALT_STEPS, a + b[1..] + c[1..]);
    assert forall i :: 0 <= i < |r.steps| ==> Connected(r, i);
  }

  /** A persisted halt likewise: no body starts whose status was read after the
      halt was written and before anybody cleared it. */
  lemma PersistedHaltRevokes(r: Run, i: nat, k: nat, id: nat) returns (j: nat)
    requires ValidRun(r) && i < k < |r.steps| && Starts(r, id, k)
    requires forall m :: i < m <= k ==> r.states[m].halted
    ensures ReadAt(r, id, j, k) && j <= i
  {
    var read, _ := NoBodyAfterRevocation(r, k, id);
    j := read;
  }
}
