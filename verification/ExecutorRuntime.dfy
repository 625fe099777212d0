/** The serialized runtime: start, one strict-priority step per tick, bounded
    shutdown.  Injected handlers, dispatchers, scans and loss snapshots answer
    arbitrarily; signals and other processes may intervene. */
module ExecutorRuntime {
  import opened Options
  import opened RuntimeStore
  import opened WorkScanner

  datatype Disposition = NoWork | Progressed | Waiting | Complete

  datatype Answer = Raises | Answered(disposition: Disposition, changed: bool)

  /** The result type rejects a progress without a change and a change without
      progress; a handler that builds such a result raises. */
  predicate WellFormed(a: Answer) {
    a.Answered? ==>
      && (a.disposition == Progressed ==> a.changed)
      && (a.disposition == NoWork || a.disposition == Waiting ==> !a.changed)
  }

  datatype DispatchAnswer = DispatchRaises | Dispatched(found: bool, wrote: bool)

  datatype Local = LocalFails | Local(covered: bool, remaining: real, compatible: bool, items: seq<Item>)

  datatype Refresh = RefreshRaises(error: Error) | Refreshed(compatible: bool, kinds: set<Kind>)

  /** Integrity and orchestration failures, against a store conflict that is not
      one of them. */
  datatype Error = Orchestration | Conflict

  datatype Outcome<+T> = Ok(value: T) | Raised(error: Error)

  datatype Step =
    | IntegrityBlocked | LossBlocked | StepRecoveryReconcile | RecoveryWait | ParentReconcile | ParentWait
    | ProtectionCheck | SafetyAction | StepRecoveryDispatch | StartupReconcile | GateReconciling | GateReady
    | EntryDispatch | Idle | ShutdownDrain

  datatype StepResult = StepResult(step: Step, disposition: Disposition, changed: bool, wrote: bool, eligible: bool)

  datatype Call =
    | CallRecovery | CallParent | CallProtection | CallSafety | CallRecoveryDispatch | CallStartup | CallEntry

  /** Everything the outside answers during one tick. */
  datatype Input = Input(
    local: Local, recovery: Answer, parent: Answer, protection: Answer, safety: Answer, startup: Answer,
    refreshed: Refresh, dispatch: DispatchAnswer, entry: DispatchAnswer,
    signalFirst: bool, signalAssess: bool, signalEntry: bool, signalLock: bool)

  datatype Assessment = Assessment(
    kinds: set<Kind>, remaining: nat, eligible: bool, lossBlocked: bool, integrityBlocked: bool)

  datatype Report = Report(steps: seq<StepResult>, remaining: nat, clean: bool, released: bool)

  datatype View = View(state: Option<State>, at: int)

  // ----- the lanes above entry -----

  predicate ProtectionWork(kinds: set<Kind>) {
    ProtectionGap in kinds || OpenPosition in kinds
  }

  predicate SafetyWork(kinds: set<Kind>) {
    ProtectionGap in kinds || OpenIncident in kinds
  }

  predicate NothingToReconcile(kinds: set<Kind>) {
    RecoveryReconcile !in kinds && RecoveryInFlight !in kinds && CommandReconcile !in kinds && CommandInFlight !in kinds
  }

  /** The protection and safety lanes find nothing to do. */
  predicate ProtectClear(kinds: set<Kind>, i: Input) {
    && (ProtectionWork(kinds) ==> SafetyWork(kinds) && i.protection == Answered(NoWork, false))
    && (SafetyWork(kinds) ==> i.safety == Answered(NoWork, false) && RecoveryDispatch !in kinds)
  }

  /** The precise condition under which a step falls through every safety lane. */
  predicate LanesClear(kinds: set<Kind>, i: Input) {
    NothingToReconcile(kinds) && RecoveryDispatch !in kinds && ProtectClear(kinds, i)
  }

  /** What one look at the local truth says. */
  function Assessed(local: Local, shutdown: bool): Assessment
    requires local.Local?
  {
    Assessment(
      Kinds(local.items), RemainingSafetyWork(local.items),
      local.compatible && local.covered && local.remaining > 0.0 && !shutdown,
      !local.covered || local.remaining <= 0.0, !local.compatible)
  }

  // ----- what the ports answer -----

  function Waits(step: Step): StepResult {
    StepResult(step, Waiting, false, false, false)
  }

  /** A handler's answer as a step; one that raises or is malformed fails closed. */
  function Reply(a: Answer, step: Step): Outcome<Option<StepResult>> {
    if a.Raises? || !WellFormed(a) then Raised(Orchestration)
    else Ok(Some(StepResult(step, a.disposition, a.changed, false, false)))
  }

  function DispatchReply(a: DispatchAnswer): Outcome<Option<StepResult>> {
    if a.DispatchRaises? then Raised(Orchestration)
    else Ok(Some(StepResult(StepRecoveryDispatch, if a.found then Progressed else NoWork, a.found, a.found, false)))
  }

  /** The recovery dispatcher follows the safety handler in the same step exactly
      when a recovery was already visible and nothing was added, or when the
      handler progressed and a fresh scan shows one. */
  predicate DispatchFollows(i: Input, visible: bool) {
    || (i.safety == Answered(NoWork, false) && visible)
    || (i.safety == Answered(Progressed, true) && i.refreshed.Refreshed? && i.refreshed.compatible
        && RecoveryDispatch in i.refreshed.kinds)
  }

  function SafetyPorts(i: Input, visible: bool): seq<Call> {
    [CallSafety] + if DispatchFollows(i, visible) then [CallRecoveryDispatch] else []
  }

  /** The ports the reconciliation lanes call. */
  function ReconcilePorts(kinds: set<Kind>, i: Input): seq<Call> {
    if RecoveryReconcile in kinds then [CallRecovery]
    else if RecoveryInFlight in kinds || CommandReconcile !in kinds then []
    else if OpenIncident !in kinds then [CallParent]
    else
      SafetyPorts(i, RecoveryDispatch in kinds)
      + if i.safety.Answered? && WellFormed(i.safety) && i.safety.disposition != Progressed
           && !DispatchFollows(i, RecoveryDispatch in kinds)
        then [CallParent] else []
  }

  /** The ports the protection and safety lanes call. */
  function ProtectPorts(kinds: set<Kind>, i: Input): seq<Call> {
    var inspection := if ProtectionWork(kinds) then [CallProtection] else [];
    if SafetyWork(kinds) && (ProtectionWork(kinds) ==> i.protection == Answered(NoWork, false))
    then inspection + SafetyPorts(i, RecoveryDispatch in kinds)
    else inspection
  }

  /** The conditions checked between the gate and the entry dispatcher. */
  predicate MayEnter(a: Assessment, permitted: bool, shutdown: bool, i: Input) {
    a.eligible && permitted && !shutdown && !i.signalEntry && !i.signalLock
  }

  /** The entry lane is reached and calls the dispatcher. */
  predicate EntersBelow(a: Assessment, allowEntry: bool, drain: bool, permitted: bool, shutdown: bool, i: Input, view: View) {
    && allowEntry && CommandDispatch in a.kinds && (drain || !a.lossBlocked)
    && MayEnter(a, permitted, shutdown, i) && Effective(view.state, view.at) == Ready
  }

  /** The ports the lanes below safety call: at most one. */
  function LowerPorts(a: Assessment, allowEntry: bool, allowStartup: bool, drain: bool, permitted: bool,
                      shutdown: bool, reconciled: bool, i: Input, view: View): seq<Call> {
    if RecoveryDispatch in a.kinds then [CallRecoveryDispatch]
    else if allowStartup && !reconciled then [CallStartup]
    else if EntersBelow(a, allowEntry, drain, permitted, shutdown, i, view) then [CallEntry]
    else []
  }

  /** The ports one step calls, in order. */
  function StepPorts(a: Assessment, allowEntry: bool, allowStartup: bool, drain: bool, permitted: bool,
                     shutdown: bool, reconciled: bool, i: Input, view: View): seq<Call> {
    if a.integrityBlocked then []
    else if !NothingToReconcile(a.kinds) then ReconcilePorts(a.kinds, i)
    else if !ProtectClear(a.kinds, i) then ProtectPorts(a.kinds, i)
    else
      ProtectPorts(a.kinds, i)
      + LowerPorts(a, allowEntry, allowStartup, drain, permitted, shutdown, reconciled, i, view)
  }

  /** A step calls the entry dispatcher exactly when every lane above is clear,
      startup is proved if it may be asked for, and the entry lane lets it through;
      it calls the startup reconciler exactly when every lane above is clear and
      startup is still unproved.  Neither call is followed by another. */
  lemma EntryExactly(a: Assessment, allowEntry: bool, allowStartup: bool, drain: bool, permitted: bool,
                     shutdown: bool, reconciled: bool, i: Input, view: View)
    ensures
      var ports := StepPorts(a, allowEntry, allowStartup, drain, permitted, shutdown, reconciled, i, view);
      && (CallEntry in ports <==>
            && !a.integrityBlocked && LanesClear(a.kinds, i) && (allowStartup ==> reconciled)
            && EntersBelow(a, allowEntry, drain, permitted, shutdown, i, view))
      && (CallStartup in ports <==> !a.integrityBlocked && LanesClear(a.kinds, i) && allowStartup && !reconciled)
      && (CallEntry in ports || CallStartup in ports ==>
            forall k :: 0 <= k < |ports| - 1 ==> ports[k] == CallProtection || ports[k] == CallSafety)
  {
    hide EntersBelow, Calm;
    UpperPortsOnly(a.kinds, i);
    if !a.integrityBlocked && NothingToReconcile(a.kinds) && ProtectClear(a.kinds, i) {
      var lower := LowerPorts(a, allowEntry, allowStartup, drain, permitted, shutdown, reconciled, i, view);
      assert forall c :: c in ProtectPorts(a.kinds, i) + lower <==> c in ProtectPorts(a.kinds, i) || c in lower;
    }
  }

  lemma UpperPortsOnly(kinds: set<Kind>, i: Input)
    ensures CallEntry !in ReconcilePorts(kinds, i) && CallStartup !in ReconcilePorts(kinds, i)
    ensures CallEntry !in ProtectPorts(kinds, i) && CallStartup !in ProtectPorts(kinds, i)
    ensures ProtectClear(kinds, i) ==>
      forall k :: 0 <= k < |ProtectPorts(kinds, i)| ==>
        ProtectPorts(kinds, i)[k] == CallProtection || ProtectPorts(kinds, i)[k] == CallSafety
  {
  }

  // ----- what a dry run forecasts -----

  function DryStep(a: Assessment, reconciled: bool): Step {
    if RecoveryReconcile in a.kinds then StepRecoveryReconcile
    else if RecoveryInFlight in a.kinds then RecoveryWait
    else if CommandReconcile in a.kinds then ParentReconcile
    else if CommandInFlight in a.kinds then ParentWait
    else if ProtectionGap in a.kinds then ProtectionCheck
    else if OpenPosition in a.kinds then ProtectionCheck
    else if OpenIncident in a.kinds then SafetyAction
    else if RecoveryDispatch in a.kinds then StepRecoveryDispatch
    else if a.integrityBlocked then IntegrityBlocked
    else if !reconciled then StartupReconcile
    else if a.lossBlocked then LossBlocked
    else if CommandDispatch in a.kinds then EntryDispatch
    else Idle
  }

  /** The persisted gate; a store that was never started reads halted. */
  predicate GateIs(state: Option<State>, gate: Gate) {
    if state.None? then gate == Halted else state.value.gate == gate
  }

  /** The forecast: an idle or entry step gives way to a manual halt and, if entry
      is eligible, to a gate that is still to be opened. */
  function Forecast(a: Assessment, reconciled: bool, state: Option<State>): Step {
    var step := DryStep(a, reconciled);
    if step != Idle && step != EntryDispatch then step
    else if state.Some? && state.value.manualHalt then LossBlocked
    else if reconciled && a.eligible && GateIs(state, Halted) then GateReconciling
    else if reconciled && a.eligible && GateIs(state, Reconciling) then GateReady
    else step
  }

  /** Nothing above entry is left, startup is proved, the budget is positive and no
      manual halt is set. */
  predicate EntryOpen(local: Local, reconciled: bool, state: Option<State>) {
    && local.Local? && RemainingSafetyWork(local.items) == 0 && reconciled
    && local.compatible && local.covered && local.remaining > 0.0
    && !(state.Some? && state.value.manualHalt)
  }

  predicate NoSafetyKind(kinds: set<Kind>) {
    && NothingToReconcile(kinds) && RecoveryDispatch !in kinds
    && ProtectionGap !in kinds && OpenPosition !in kinds && OpenIncident !in kinds
  }

  lemma NoSafetyKindExactly(items: seq<Item>)
    ensures NoSafetyKind(Kinds(items)) <==> RemainingSafetyWork(items) == 0
  {
    if RemainingSafetyWork(items) != 0 {
      var k :| 0 <= k < |items| && Draining(items[k].kind);
      assert items[k].kind in Kinds(items);
    }
  }

  lemma NothingAboveEntry(a: Assessment, reconciled: bool)
    ensures
      var step := DryStep(a, reconciled);
      && (step == EntryDispatch || step == Idle <==>
            NoSafetyKind(a.kinds) && !a.integrityBlocked && reconciled && !a.lossBlocked)
      && (step == EntryDispatch ==> CommandDispatch in a.kinds)
      && (step == Idle ==> CommandDispatch !in a.kinds)
      && step != GateReady && step != GateReconciling
  {
  }

  /** When a dry run forecasts an entry or a move of the gate. */
  lemma ForecastsExactly(local: Local, shutdown: bool, reconciled: bool, state: Option<State>)
    requires local.Local?
    ensures
      var step, open := Forecast(Assessed(local, shutdown), reconciled, state), EntryOpen(local, reconciled, state);
      && (step == EntryDispatch <==>
            open && CommandDispatch in Kinds(local.items) && (shutdown || GateIs(state, Ready)))
      && (step == GateReady <==> open && !shutdown && GateIs(state, Reconciling))
      && (step == GateReconciling <==> open && !shutdown && GateIs(state, Halted))
  {
    NothingAboveEntry(Assessed(local, shutdown), reconciled);
    NoSafetyKindExactly(local.items);
    hide DryStep, NoSafetyKind, RemainingSafetyWork, Kinds;
  }

  /** The gate is still reconciling, and after a shutdown request the forecast is an
      entry all the same; without the request it is the move of the gate. */
  lemma ShutdownHidesGate()
    ensures
      var local := Local(true, 1.0, true, [Item(CommandDispatch, "c", 40, 0)]);
      var state := Some(State(1, true, "a", Running, Reconciling, false, 10, Some(10), 0));
      && Forecast(Assessed(local, true), true, state) == EntryDispatch
      && Forecast(Assessed(local, false), true, state) == GateReady
  {
    var local := Local(true, 1.0, true, [Item(CommandDispatch, "c", 40, 0)]);
    var state := Some(State(1, true, "a", Running, Reconciling, false, 10, Some(10), 0));
    assert local.items[0].kind in Kinds(local.items);
    ForecastsExactly(local, true, true, state);
    ForecastsExactly(local, false, true, state);
  }

  /** The forecast names the lane that a real step would enter, whatever the
      ports answer, given that an incompatible scan carries no items. */
  lemma ForecastAgrees(a: Assessment, permitted: bool, shutdown: bool, reconciled: bool, i: Input, view: View)
    requires a.integrityBlocked ==> a.kinds == {}
    ensures
      var ports := StepPorts(a, true, true, false, permitted, shutdown, reconciled, i, view);
      match DryStep(a, reconciled)
      case StepRecoveryReconcile => ports == [CallRecovery]
      case ParentReconcile => ports != [] && ports[0] == (if OpenIncident in a.kinds then CallSafety else CallParent)
      case ProtectionCheck => ports != [] && ports[0] == CallProtection
      case SafetyAction => ports != [] && ports[0] == CallSafety
      case StepRecoveryDispatch => ports == [CallRecoveryDispatch]
      case StartupReconcile => ports == [CallStartup]
      case EntryDispatch => ports == if EntersBelow(a, true, false, permitted, shutdown, i, view) then [CallEntry] else []
      case _ => ports == []
  {
    hide MayEnter, Effective, DispatchFollows;
  }

  /** Nothing the outside answers makes a step fail. */
  predicate Calm(i: Input) {
    && i.local.Local?
    && i.recovery.Answered? && i.parent.Answered? && i.protection.Answered? && i.safety.Answered?
    && WellFormed(i.recovery) && WellFormed(i.parent) && WellFormed(i.protection) && WellFormed(i.safety)
    && i.refreshed.Refreshed? && i.refreshed.compatible && i.dispatch.Dispatched?
  }

  class Runtime {
    const store: Store
    const leaseSeconds: nat
    var lease: Option<nat>
    var startupReconciled: bool
    var shutdownRequested: bool
    var submissionActive: bool
    ghost var calls: seq<Call>
    /** The fencing tokens under which the startup reconciler answered complete. */
    ghost var proved: set<nat>

    /** A process that has not started may infer a completed startup only from a
        gate that reads ready. */
    constructor (store: Store, leaseSeconds: nat)
      requires HaltDeclared(store.state)
      modifies store`state, store`accesses
      ensures Valid() && this.store == store && lease == None && !submissionActive && !shutdownRequested && calls == []
      ensures startupReconciled <==> Effective(old(store.Seen()), old(store.Time())) == Ready
    {
      this.store, this.leaseSeconds, lease := store, leaseSeconds, None;
      shutdownRequested, submissionActive, startupReconciled := false, false, false;
      calls, proved := [], {};
      new;
      DisturbedKeepsHalt(store.state, store.others(store.accesses), store.self);
      var seen, effective := store.Read();
      startupReconciled := seen.Some? && seen.value.active && effective == Ready;
    }

    /** Our lease is the newest or has been taken over; while it is ours a
        declared READY gate means that startup completed under it. */
    ghost predicate Valid()
      reads this, store
    {
      && HaltDeclared(store.state)
      && (lease.Some? ==> Ours(store.state))
      && (lease.Some? && startupReconciled ==> lease.value in proved)
    }

    ghost predicate Ours(s: Option<State>)
      requires lease.Some?
      reads this
    {
      && s.Some? && s.value.token >= lease.value
      && (s.value.token == lease.value ==> s.value.owner == store.self)
      && (s.value.token == lease.value && s.value.gate == Ready ==> startupReconciled)
    }

    /** In every state a run can reach, a READY gate declared under our own lease
        means that the startup reconciler answered complete under that lease. */
    lemma ReadyMeansProved()
      requires Valid() && lease.Some? && store.state.Some?
      requires store.state.value.token == lease.value && store.state.value.gate == Ready
      ensures startupReconciled && lease.value in proved
      ensures !store.state.value.manualHalt
    {
      assert Ours(store.state);
    }

    lemma OthersKeepOurs()
      requires Valid()
      ensures HaltDeclared(store.Seen())
      ensures lease.Some? ==> Ours(store.Seen())
    {
      DisturbedKeepsHalt(store.state, store.others(store.accesses), store.self);
      DisturbedKeepsFence(store.state, store.others(store.accesses), store.self);
    }

    /** A signal handler may request shutdown at any moment. */
    method Signal(arrives: bool)
      modifies this`shutdownRequested
      ensures shutdownRequested == (old(shutdownRequested) || arrives)
    {
      if arrives {
        shutdownRequested := true;
      }
    }

    method Read() returns (seen: Option<State>, effective: Gate)
      requires Valid()
      modifies store`state, store`accesses
      ensures Valid() && store.state == seen
      ensures seen == old(store.Seen()) && effective == Effective(seen, old(store.Time()))
      ensures lease.Some? && effective == Ready && seen.value.token == lease.value ==> startupReconciled
    {
      OthersKeepOurs();
      seen, effective := store.Read();
    }

    method Heartbeat() returns (ok: bool)
      requires Valid() && lease.Some?
      modifies store`state, store`accesses
      ensures Valid()
      ensures ok ==> store.state.Some? && store.state.value.token == lease.value
    {
      OthersKeepOurs();
      ok := store.Heartbeat(lease.value, leaseSeconds);
    }

    /** Declares the gate halted unless it is already. */
    method HaltGate() returns (r: Outcome<bool>)
      requires Valid()
      modifies store`state, store`accesses
      ensures Valid()
      ensures r.Ok? && lease.Some? ==> store.state.value.gate == Halted
      ensures r.Raised? ==> r.error == Conflict
    {
      if lease.None? {
        return Ok(false);
      }
      var seen, _ := Read();
      if seen.value.gate == Halted {
        return Ok(false);
      }
      OthersKeepOurs();
      var ok := store.Transition(lease.value, None, Some(Halted));
      return if ok then Ok(true) else Raised(Conflict);
    }

    /** Revokes the submission capability and persists a manual halt if it can. */
    method EngageHalt()
      requires Valid()
      modifies this`submissionActive, store`state, store`accesses
      ensures Valid() && !submissionActive
      ensures old(store.Seen()).Some? && old(store.Time()) >= old(store.Seen()).value.updatedAt ==>
        store.state.Some? && store.state.value.manualHalt && store.state.value.gate == Halted
    {
      OthersKeepOurs();
      submissionActive := false;
      var _ := store.EngageManualHalt();
    }

    method Start() returns (r: Outcome<Gate>)
      requires Valid()
      modifies this`lease, this`startupReconciled, this`shutdownRequested, store`state, store`accesses
      ensures Valid()
      ensures old(lease).Some? ==> r == Raised(Conflict) && lease == old(lease) && startupReconciled == old(startupReconciled)
      ensures r.Ok? ==> lease.Some? && !startupReconciled && !shutdownRequested && r.value != Ready
      ensures lease.Some? && old(lease).None? ==> !startupReconciled
    {
      if lease.Some? {
        return Raised(Conflict);
      }
      OthersKeepOurs();
      var token := store.Acquire(leaseSeconds);
      if token.None? {
        return Raised(Conflict);
      }
      ghost var acquired := store.state;
      DisturbedKeepsFence(store.state, store.others(store.accesses), store.self);
      OthersKeepOurs();
      var ok := store.Heartbeat(token.value, leaseSeconds);
      if !ok {
        return Raised(Conflict);
      }
      DisturbedKeepsFence(store.state, store.others(store.accesses), store.self);
      OthersKeepOurs();
      ok := store.Transition(token.value, Some(Running), Some(Reconciling));
      if !ok {
        return Raised(Conflict);
      }
      lease, startupReconciled, shutdownRequested := token, false, false;
      var _, effective := Read();
      if effective == Ready {
        return Raised(Orchestration);
      }
      return Ok(effective);
    }

    /** Verifies local truth; a block halts the gate, a failure halts manually. */
    method AssessLocal(local: Local) returns (r: Outcome<Assessment>)
      requires Valid()
      modifies this`submissionActive, store`state, store`accesses
      ensures Valid()
      ensures local.LocalFails? <==> r == Raised(Orchestration)
      ensures !old(submissionActive) ==> !submissionActive
      ensures r.Ok? ==>
        && r.value == Assessed(local, shutdownRequested)
        && ((r.value.integrityBlocked || r.value.lossBlocked) && lease.Some? ==> store.state.value.gate == Halted)
    {
      if local.LocalFails? {
        EngageHalt();
        return Raised(Orchestration);
      }
      var integrityBlocked, lossBlocked := !local.compatible, !local.covered || local.remaining <= 0.0;
      if integrityBlocked || lossBlocked {
        var halted := HaltGate();
        if halted.Raised? {
          return Raised(halted.error);
        }
      }
      return Ok(Assessment(
        Kinds(local.items), RemainingSafetyWork(local.items),
        local.compatible && local.covered && local.remaining > 0.0 && !shutdownRequested,
        lossBlocked, integrityBlocked));
    }

    /** One handler call; a failing handler engages the halt. */
    method Invoke(call: Call, answer: Answer, step: Step) returns (r: Outcome<Option<StepResult>>)
      requires Valid()
      modifies this`calls, this`submissionActive, store`state, store`accesses
      ensures Valid() && calls == old(calls) + [call]
      ensures !old(submissionActive) ==> !submissionActive
      ensures r == Reply(answer, step)
    {
      calls := calls + [call];
      if answer.Raises? || !WellFormed(answer) {
        EngageHalt();
        return Raised(Orchestration);
      }
      return Ok(Some(StepResult(step, answer.disposition, answer.changed, false, false)));
    }

    method DispatchRecovery(answer: DispatchAnswer) returns (r: Outcome<Option<StepResult>>)
      requires Valid()
      modifies this`calls, this`submissionActive, store`state, store`accesses
      ensures Valid() && calls == old(calls) + [CallRecoveryDispatch]
      ensures !old(submissionActive) ==> !submissionActive
      ensures r == DispatchReply(answer)
    {
      calls := calls + [CallRecoveryDispatch];
      if answer.DispatchRaises? {
        EngageHalt();
        return Raised(Orchestration);
      }
      return Ok(Some(StepResult(
        StepRecoveryDispatch, if answer.found then Progressed else NoWork, answer.found, answer.found, false)));
    }

    /** The safety handler, followed by the recovery it made ready.  None means
        that the handler changed nothing and nothing was ready. */
    method SafetyLane(i: Input, visible: bool) returns (r: Outcome<Option<StepResult>>)
      requires Valid()
      modifies this`calls, this`submissionActive, store`state, store`accesses
      ensures Valid()
      ensures !old(submissionActive) ==> !submissionActive
      ensures calls == old(calls) + SafetyPorts(i, visible)
      ensures DispatchFollows(i, visible) ==> r == DispatchReply(i.dispatch)
      ensures Reply(i.safety, SafetyAction).Raised? ==> r == Raised(Orchestration)
      ensures r == Ok(None) <==>
        Reply(i.safety, SafetyAction).Ok? && i.safety.disposition != Progressed && !DispatchFollows(i, visible)
      ensures r.Ok? && r.value.Some? && !DispatchFollows(i, visible) ==> r == Reply(i.safety, SafetyAction)
      ensures r.Raised? ==> !Calm(i) && (r.error == Orchestration || i.refreshed == RefreshRaises(r.error))
    {
      r := Invoke(CallSafety, i.safety, SafetyAction);
      if r.Raised? {
        return;
      }
      if i.safety.disposition == NoWork && visible {
        r := DispatchRecovery(i.dispatch);
        return;
      }
      if i.safety.disposition == Progressed {
        if i.refreshed.RefreshRaises? {
          return Raised(i.refreshed.error);
        }
        if !i.refreshed.compatible {
          return Raised(Orchestration);
        }
        if RecoveryDispatch in i.refreshed.kinds {
          r := DispatchRecovery(i.dispatch);
        }
        return;
      }
      return Ok(None);
    }

    /** The protection and safety lanes below the parent lane.  None means that
        the step falls through to the lanes below. */
    method ProtectLanes(kinds: set<Kind>, i: Input) returns (r: Outcome<Option<StepResult>>)
      requires Valid()
      modifies this`calls, this`submissionActive, store`state, store`accesses
      ensures Valid() && calls == old(calls) + ProtectPorts(kinds, i)
      ensures !old(submissionActive) ==> !submissionActive
      ensures r == Ok(None) <==> ProtectClear(kinds, i)
      ensures r.Ok? && r.value.Some? ==> r.value.value.step in {ProtectionCheck, SafetyAction, StepRecoveryDispatch}
      ensures r.Raised? ==> !Calm(i) && (r.error == Orchestration || i.refreshed == RefreshRaises(r.error))
    {
      if ProtectionWork(kinds) {
        r := Invoke(CallProtection, i.protection, ProtectionCheck);
        if r.Raised? || i.protection.disposition != NoWork {
          return;
        }
        if !SafetyWork(kinds) {
          return Ok(Some(Waits(ProtectionCheck)));
        }
      }
      if SafetyWork(kinds) {
        r := SafetyLane(i, RecoveryDispatch in kinds);
        if r == Ok(None) && i.safety.disposition != NoWork {
          r := Ok(Some(StepResult(SafetyAction, i.safety.disposition, i.safety.changed, false, false)));
        }
        return;
      }
      return Ok(None);
    }

    /** A gate that reads ready under our own lease means that startup is proved. */
    ghost predicate ReadyProved(view: View)
      reads this
    {
      lease.Some? && Effective(view.state, view.at) == Ready && view.state.value.token == lease.value ==> startupReconciled
    }

    /** The entry lane: the last gate checks, then one dispatcher call with the
        submission capability switched on only for that call. */
    method EntryLane(a: Assessment, permitted: bool, i: Input) returns (r: Outcome<Option<StepResult>>, ghost view: View)
      requires Valid() && !submissionActive && lease.Some?
      modifies this`calls, this`submissionActive, this`shutdownRequested, store`state, store`accesses
      ensures Valid() && !submissionActive
      ensures view == View(old(store.Seen()), old(store.Time()))
      ensures
        var enters := Effective(view.state, view.at) == Ready && MayEnter(a, permitted, old(shutdownRequested), i);
        calls == old(calls) + if enters then [CallEntry] else []
      ensures ReadyProved(view)
      ensures old(shutdownRequested) ==> shutdownRequested
      ensures Effective(view.state, view.at) != Ready <==> r == Ok(None)
      ensures r.Ok? && r.value.Some? ==> r.value.value.step in {IntegrityBlocked, LossBlocked, Idle, EntryDispatch}
      ensures r.Ok? && r.value.Some? && r.value.value.step == EntryDispatch ==> calls == old(calls) + [CallEntry]
      ensures r.Raised? ==> r.error == Orchestration && i.entry.DispatchRaises?
    {
      var seen, effective := Read();
      view := View(seen, old(store.Time()));
      if effective != Ready {
        return Ok(None), view;
      }
      if !a.eligible || !permitted {
        return Ok(Some(Waits(if a.integrityBlocked then IntegrityBlocked else LossBlocked))), view;
      }
      Signal(i.signalEntry);
      if shutdownRequested {
        return Ok(Some(Waits(Idle))), view;
      }
      Signal(i.signalLock);
      if shutdownRequested {
        return Ok(Some(Waits(Idle))), view;
      }
      submissionActive := true;
      calls := calls + [CallEntry];
      assert calls[|calls| - 1] == CallEntry;
      if i.entry.DispatchRaises? {
        EngageHalt();
        submissionActive := false;
        return Raised(Orchestration), view;
      }
      submissionActive := false;
      return Ok(Some(StepResult(
        EntryDispatch, if i.entry.found then Progressed else NoWork, i.entry.found, i.entry.found && i.entry.wrote, true))),
        view;
    }

    /** The reconciliation lanes.  None means that none of them has work.  With an
        open incident the safety handler comes before the parent reconciler. */
    method ReconcileLanes(kinds: set<Kind>, i: Input) returns (r: Outcome<Option<StepResult>>)
      requires Valid()
      modifies this`calls, this`submissionActive, store`state, store`accesses
      ensures Valid() && calls == old(calls) + ReconcilePorts(kinds, i)
      ensures !old(submissionActive) ==> !submissionActive
      ensures r == Ok(None) <==> NothingToReconcile(kinds)
      ensures RecoveryReconcile in kinds ==> r == Reply(i.recovery, StepRecoveryReconcile)
      ensures RecoveryReconcile !in kinds && RecoveryInFlight in kinds ==> r == Ok(Some(Waits(RecoveryWait)))
      ensures CallParent in ReconcilePorts(kinds, i) ==> r == Reply(i.parent, ParentReconcile)
      ensures r.Ok? && r.value.Some? ==>
        r.value.value.step in {StepRecoveryReconcile, RecoveryWait, SafetyAction, StepRecoveryDispatch, ParentReconcile, ParentWait}
      ensures r.Raised? ==> !Calm(i) && (r.error == Orchestration || i.refreshed == RefreshRaises(r.error))
    {
      if RecoveryReconcile in kinds {
        r := Invoke(CallRecovery, i.recovery, StepRecoveryReconcile);
        return;
      }
      if RecoveryInFlight in kinds {
        return Ok(Some(Waits(RecoveryWait)));
      }
      if CommandReconcile in kinds && OpenIncident in kinds {
        r := SafetyLane(i, RecoveryDispatch in kinds);
        if r != Ok(None) {
          return;
        }
      }
      if CommandReconcile in kinds {
        r := Invoke(CallParent, i.parent, ParentReconcile);
        return;
      }
      if CommandInFlight in kinds {
        return Ok(Some(Waits(ParentWait)));
      }
      return Ok(None);
    }

    /** The startup proof, asked once per lease. */
    method StartupLane(i: Input) returns (r: Outcome<Option<StepResult>>)
      requires Valid() && lease.Some? && !startupReconciled
      modifies this`calls, this`submissionActive, this`startupReconciled, this`proved, store`state, store`accesses
      ensures Valid() && calls == old(calls) + [CallStartup] && r == Reply(i.startup, StartupReconcile)
      ensures !old(submissionActive) ==> !submissionActive
      ensures startupReconciled <==> i.startup.Answered? && i.startup.disposition == Complete
      ensures proved == if startupReconciled then old(proved) + {lease.value} else old(proved)
    {
      r := Invoke(CallStartup, i.startup, StartupReconcile);
      if r.Ok? && i.startup.disposition == Complete {
        startupReconciled := true;
        proved := proved + {lease.value};
      }
    }

    /** The lanes below safety: recovery dispatch, startup, loss and entry. */
    method LowerLanes(a: Assessment, allowEntry: bool, allowStartup: bool, drain: bool, permitted: bool, i: Input)
      returns (r: Outcome<Option<StepResult>>, ghost view: View)
      requires Valid() && !submissionActive && lease.Some?
      modifies this`calls, this`submissionActive, this`shutdownRequested, this`startupReconciled, this`proved,
        store`state, store`accesses
      ensures Valid() && !submissionActive
      ensures view == View(old(store.Seen()), old(store.Time()))
      ensures old(shutdownRequested) ==> shutdownRequested
      ensures !allowEntry ==> shutdownRequested == old(shutdownRequested)
      ensures
        calls == old(calls) + LowerPorts(a, allowEntry, allowStartup, drain, permitted, old(shutdownRequested),
                                         old(startupReconciled), i, view)
      ensures ReadyProved(view)
      ensures startupReconciled <==>
        || old(startupReconciled)
        || (RecoveryDispatch !in a.kinds && allowStartup && i.startup.Answered? && i.startup.disposition == Complete)
      ensures startupReconciled == old(startupReconciled) ==> proved == old(proved)
      ensures RecoveryDispatch in a.kinds ==> r == DispatchReply(i.dispatch)
      ensures RecoveryDispatch !in a.kinds && allowStartup && !old(startupReconciled) ==> r == Reply(i.startup, StartupReconcile)
      ensures r == Ok(None) ==>
        RecoveryDispatch !in a.kinds && (allowStartup ==> startupReconciled) && (drain || !a.lossBlocked)
      ensures r.Ok? && r.value.Some? ==>
        r.value.value.step in {StepRecoveryDispatch, StartupReconcile, LossBlocked, IntegrityBlocked, Idle, EntryDispatch}
      ensures r.Raised? ==> r.error == Orchestration && (allowEntry || allowStartup || !Calm(i))
    {
      OthersKeepOurs();
      view := View(store.Seen(), store.Time());
      if RecoveryDispatch in a.kinds {
        r := DispatchRecovery(i.dispatch);
        return;
      }
      if allowStartup && !startupReconciled {
        r := StartupLane(i);
        return;
      }
      if !drain && a.lossBlocked {
        return Ok(Some(Waits(LossBlocked))), view;
      }
      if allowEntry && CommandDispatch in a.kinds {
        r, view := EntryLane(a, permitted, i);
        return;
      }
      return Ok(None), view;
    }

    /** One strict-priority step.  `view` is the projection read before an entry. */
    method RunPriority(a: Assessment, allowEntry: bool, allowStartup: bool, drain: bool, permitted: bool, i: Input)
      returns (r: Outcome<Option<StepResult>>, ghost view: View)
      requires Valid() && !submissionActive && lease.Some?
      modifies this`calls, this`submissionActive, this`shutdownRequested, this`startupReconciled, this`proved,
        store`state, store`accesses
      ensures Valid() && !submissionActive && old(calls) <= calls
      ensures old(shutdownRequested) ==> shutdownRequested
      ensures !allowEntry ==> shutdownRequested == old(shutdownRequested)
      ensures
        calls == old(calls) + StepPorts(a, allowEntry, allowStartup, drain, permitted, old(shutdownRequested),
                                        old(startupReconciled), i, view)
      ensures ReadyProved(view)
      ensures startupReconciled <==>
        || old(startupReconciled)
        || (!a.integrityBlocked && LanesClear(a.kinds, i) && allowStartup
            && i.startup.Answered? && i.startup.disposition == Complete)
      ensures startupReconciled == old(startupReconciled) ==> proved == old(proved)
      ensures r == Ok(None) ==>
        !a.integrityBlocked && LanesClear(a.kinds, i) && (allowStartup ==> startupReconciled) && (drain || !a.lossBlocked)
      ensures r.Ok? && r.value.Some? ==> r.value.value.step !in {GateReconciling, GateReady, ShutdownDrain}
      ensures r.Raised? ==> r.error == Orchestration || i.refreshed == RefreshRaises(r.error)
      ensures r.Raised? ==> allowEntry || allowStartup || !Calm(i)
    {
      hide Effective, Calm, EntersBelow, SafetyPorts, ProtectPorts, LowerPorts, Reply, DispatchReply;
      view := View(None, 0);
      NothingReady(view.at);
      if a.integrityBlocked {
        return Ok(Some(Waits(IntegrityBlocked))), view;
      }
      r := ReconcileLanes(a.kinds, i);
      if r != Ok(None) {
        return;
      }
      r := ProtectLanes(a.kinds, i);
      if r != Ok(None) {
        return;
      }
      r, view := LowerLanes(a, allowEntry, allowStartup, drain, permitted, i);
    }

    lemma NothingReady(at: int)
      ensures Effective(None, at) == Halted
    {
    }

    /** What one active tick guarantees about the calls it made. */
    ghost predicate EntryJustified(permitted: bool, i: Input, wasReconciled: bool, view: View)
      reads this, store
    {
      && permitted && wasReconciled && lease.Some?
      && i.local.Local? && i.local.compatible && i.local.covered && i.local.remaining > 0.0
      && LanesClear(Kinds(i.local.items), i) && CommandDispatch in Kinds(i.local.items)
      && Effective(view.state, view.at) == Ready
      && ReadyProved(view)
      && !i.signalFirst && !i.signalAssess && !i.signalEntry && !i.signalLock
    }

    function Opened(gate: Gate): StepResult {
      if gate == Halted then StepResult(GateReconciling, Progressed, true, false, false)
      else StepResult(GateReady, Progressed, true, false, true)
    }

    /** Moves the declared gate one step towards ready when nothing blocks it. */
    method OpenGate(a: Assessment) returns (r: Outcome<StepResult>)
      requires Valid() && lease.Some? && startupReconciled
      modifies store`state, store`accesses
      ensures Valid()
      ensures r.Raised? ==> r.error == Conflict
      ensures var seen := old(store.Seen());
        && (!a.eligible ==> store.state == seen && r == Ok(Waits(if a.integrityBlocked then IntegrityBlocked else LossBlocked)))
        && seen.Some?
        && (a.eligible && seen.value.manualHalt ==> store.state == seen && r == Ok(Waits(LossBlocked)))
        && (a.eligible && !seen.value.manualHalt && seen.value.gate == Ready ==>
              store.state == seen && r == Ok(StepResult(Idle, NoWork, false, false, true)))
        && (r.Ok? && a.eligible && !seen.value.manualHalt && seen.value.gate != Ready ==>
              && r.value == Opened(seen.value.gate)
              && store.state.value.gate == (if seen.value.gate == Halted then Reconciling else Ready))
      ensures r.Ok? && (r.value.step == GateReconciling || r.value.step == GateReady) ==>
        a.eligible && store.state.value.token == lease.value && !store.state.value.manualHalt
    {
      var seen, _ := Read();
      if !a.eligible {
        return Ok(Waits(if a.integrityBlocked then IntegrityBlocked else LossBlocked));
      }
      if seen.value.manualHalt {
        return Ok(Waits(LossBlocked));
      }
      if seen.value.gate == Halted {
        OthersKeepOurs();
        var ok := store.Transition(lease.value, None, Some(Reconciling));
        return if ok then Ok(Opened(Halted)) else Raised(Conflict);
      }
      if seen.value.gate == Reconciling {
        OthersKeepOurs();
        var ok := store.Transition(lease.value, None, Some(Ready));
        return if ok then Ok(Opened(Reconciling)) else Raised(Conflict);
      }
      return Ok(StepResult(Idle, NoWork, false, false, true));
    }

    lemma TickPorts(a: Assessment, permitted: bool, shutdown: bool, reconciled: bool, i: Input, view: View)
      ensures
        var ports := StepPorts(a, true, true, false, permitted, shutdown, reconciled, i, view);
        && (CallEntry in ports ==>
              && permitted && reconciled && !shutdown && !i.signalEntry && !i.signalLock
              && a.eligible && !a.lossBlocked && LanesClear(a.kinds, i) && CommandDispatch in a.kinds
              && Effective(view.state, view.at) == Ready)
        && (CallStartup in ports <==> !a.integrityBlocked && LanesClear(a.kinds, i) && !reconciled)
        && (a.integrityBlocked ==> ports == [])
    {
      EntryExactly(a, true, true, false, permitted, shutdown, reconciled, i, view);
    }

    /** Exactly one serialized active step. */
    method Tick(permitted: bool, i: Input) returns (r: Outcome<StepResult>, ghost view: View)
      requires Valid() && !submissionActive
      modifies this`calls, this`submissionActive, this`shutdownRequested, this`startupReconciled, this`proved,
        store`state, store`accesses
      ensures Valid() && !submissionActive && old(calls) <= calls
      ensures lease.None? || old(shutdownRequested) || i.signalFirst ==> calls == old(calls)
      ensures lease.None? ==> r == Raised(Orchestration)
      ensures old(shutdownRequested) ==> shutdownRequested
      ensures CallEntry in calls[|old(calls)|..] ==> EntryJustified(permitted, i, old(startupReconciled), view)
      ensures startupReconciled <==>
        old(startupReconciled) || (CallStartup in calls[|old(calls)|..] && i.startup.Answered? && i.startup.disposition == Complete)
      ensures startupReconciled == old(startupReconciled) ==> proved == old(proved)
      ensures CallStartup in calls[|old(calls)|..] ==> i.local.Local? && i.local.compatible && LanesClear(Kinds(i.local.items), i)
      // The ports called are exactly those of one priority step.
      ensures
        var shut := old(shutdownRequested) || i.signalFirst || i.signalAssess;
        calls != old(calls) || (r.Ok? && !old(shutdownRequested) && !i.signalFirst) ==>
          && i.local.Local?
          && calls == old(calls) +
               StepPorts(Assessed(i.local, shut), true, true, false, permitted, shut, old(startupReconciled), i, view)
      ensures i.local.LocalFails? || (i.local.Local? && !i.local.compatible) ==> calls == old(calls)
      // The gate opens only when nothing blocks it and startup is proved.
      ensures r.Ok? && (r.value.step == GateReconciling || r.value.step == GateReady) ==>
        && i.local.Local? && i.local.compatible && i.local.covered && i.local.remaining > 0.0
        && LanesClear(Kinds(i.local.items), i) && startupReconciled && !old(shutdownRequested)
        && lease.Some? && store.state.Some? && store.state.value.token == lease.value && !store.state.value.manualHalt
        && (store.state.value.gate == Ready <==> r.value.step == GateReady)
    {
      view := View(None, 0);
      if lease.None? {
        return Raised(Orchestration), view;
      }
      Signal(i.signalFirst);
      if shutdownRequested {
        var halted := HaltGate();
        return if halted.Raised? then Raised(halted.error) else Ok(Waits(ShutdownDrain)),
          view;
      }
      var beat := Heartbeat();
      if !beat {
        return Raised(Conflict), view;
      }
      Signal(i.signalAssess);
      var assessed := AssessLocal(i.local);
      if assessed.Raised? {
        return Raised(assessed.error), view;
      }
      ghost var shut, reconciled := shutdownRequested, startupReconciled;
      var selected;
      selected, view := RunPriority(assessed.value, true, true, false, permitted, i);
      TickPorts(assessed.value, permitted, shut, reconciled, i, view);
      hide LanesClear, StepPorts, Assessed;
      if selected.Raised? {
        return Raised(selected.error), view;
      }
      if selected.value.Some? {
        return Ok(selected.value.value), view;
      }
      r := OpenGate(assessed.value);
    }

    // ----- bounded shutdown -----

    lemma DrainPorts(a: Assessment, reconciled: bool, i: Input, view: View)
      ensures
        var ports := StepPorts(a, false, false, true, false, true, reconciled, i, view);
        CallEntry !in ports && CallStartup !in ports
    {
      EntryExactly(a, false, false, true, false, true, reconciled, i, view);
    }

    lemma LocalFailure(i: Input)
      ensures i.local.LocalFails? ==> !Calm(i)
    {
    }

    /** At most `limit` drain steps; false when a step failed. */
    method Drain(limit: nat, inputs: nat -> Input) returns (r: Outcome<(seq<StepResult>, bool)>)
      requires Valid() && !submissionActive && lease.Some? && shutdownRequested
      modifies this`calls, this`submissionActive, this`shutdownRequested, this`startupReconciled, this`proved,
        store`state, store`accesses
      ensures Valid() && !submissionActive && shutdownRequested && old(calls) <= calls
      ensures CallEntry !in calls[|old(calls)|..] && CallStartup !in calls[|old(calls)|..]
      ensures startupReconciled == old(startupReconciled)
      ensures r.Ok? ==> |r.value.0| <= limit
      ensures r.Ok? && !r.value.1 ==> exists k: nat :: k < limit && !Calm(inputs(k))
    {
      hide *;
      var steps: seq<StepResult> := [];
      for k := 0 to limit
        invariant Valid() && !submissionActive && shutdownRequested
        invariant old(calls) <= calls && |steps| <= k
        invariant CallEntry !in calls[|old(calls)|..] && CallStartup !in calls[|old(calls)|..]
        invariant startupReconciled == old(startupReconciled)
      {
        var beat := Heartbeat();
        if !beat {
          return Raised(Conflict);
        }
        var assessed := AssessLocal(inputs(k).local);
        if assessed.Raised? {
          LocalFailure(inputs(k));
          return if assessed.error == Conflict then Raised(Conflict) else Ok((steps, false));
        }
        if assessed.value.integrityBlocked || assessed.value.remaining == 0 {
          return Ok((steps, true));
        }
        ghost var before := calls;
        var selected;
        ghost var view;
        selected, view := RunPriority(assessed.value, false, false, true, false, inputs(k));
        DrainPorts(assessed.value, startupReconciled, inputs(k), view);
        assert calls[|old(calls)|..] == before[|old(calls)|..] + calls[|before|..];
        if selected.Raised? {
          return if selected.error == Conflict then Raised(Conflict) else Ok((steps, false));
        }
        if selected.value.None? {
          return Ok((steps, true));
        }
        steps := steps + [selected.value.value];
      }
      return Ok((steps, true));
    }

    /** Disables entry, drains at most `limit` safety steps, then stops and
        releases the lease.  `inputs` answers each drain step and `final` is the
        local view after the drain. */
    method Shutdown(limit: nat, inputs: nat -> Input, final: Local) returns (r: Outcome<Report>, ghost failed: bool)
      requires Valid() && !submissionActive
      modifies this`calls, this`submissionActive, this`shutdownRequested, this`startupReconciled, this`proved,
        this`lease, store`state, store`accesses
      ensures Valid() && !submissionActive && old(calls) <= calls
      ensures CallEntry !in calls[|old(calls)|..] && CallStartup !in calls[|old(calls)|..]
      ensures startupReconciled == old(startupReconciled)
      ensures old(lease).Some? ==> shutdownRequested
      ensures r.Ok? ==> lease == None && |r.value.steps| <= limit
      ensures r.Ok? ==>
        && (r.value.clean <==>
              !failed && final.Local? && final.compatible && RemainingSafetyWork(final.items) == 0)
        && (final.Local? ==> r.value.remaining == RemainingSafetyWork(final.items))
      ensures r.Ok? ==> store.state.Some? && r.value.released == !store.state.value.active
      ensures final.LocalFails? && r.Ok? ==> failed
      ensures failed && final.Local? ==> exists k: nat :: k < limit && !Calm(inputs(k))
    {
      failed := false;
      if lease.None? {
        return Raised(Orchestration), failed;
      }
      shutdownRequested := true;
      var halted := HaltGate();
      if halted.Raised? {
        return Raised(halted.error), failed;
      }
      var drained := Drain(limit, inputs);
      if drained.Raised? {
        return Raised(drained.error), failed;
      }
      var drainFailed := !drained.value.1;
      var remaining, compatible := 1, false;
      if final.LocalFails? {
        drainFailed := true;
      } else {
        remaining, compatible := RemainingSafetyWork(final.items), final.compatible;
      }
      failed := drainFailed;
      var ok := Heartbeat();
      if ok {
        ok := Stop();
      }
      if !ok {
        return Raised(Conflict), failed;
      }
      var seen, _ := Read();
      lease := None;
      return Ok(Report(drained.value.0, remaining, remaining == 0 && compatible && !drainFailed, !seen.value.active)), failed;
    }

    /** Requests the stop, marks it and releases the lease. */
    method Stop() returns (ok: bool)
      requires Valid() && lease.Some?
      modifies store`state, store`accesses
      ensures Valid()
      ensures ok ==> store.state.Some? && !store.state.value.active && store.state.value.token == lease.value
    {
      OthersKeepOurs();
      ok := store.RequestStop(lease.value);
      if !ok {
        return;
      }
      OthersKeepOurs();
      ok := store.MarkStopped(lease.value);
      if !ok {
        return;
      }
      OthersKeepOurs();
      ok := store.Release(lease.value);
    }

    // ----- dry run -----

    /** Names the next lane without calling a port.  It forecasts an entry exactly
        when nothing above entry is left, the budget is positive, no manual halt is
        set, and the gate is ready or shutdown was requested: a requested shutdown
        hides the gate. */
    method DryRun(local: Local) returns (r: Outcome<Step>)
      requires Valid()
      modifies store`state, store`accesses
      ensures Valid()
      ensures r.Raised? <==> local.LocalFails?
      ensures r.Raised? ==> r.error == Orchestration
      ensures r.Ok? ==>
        && r.value == Forecast(Assessed(local, shutdownRequested), startupReconciled, store.state)
        && (r.value == EntryDispatch <==>
              && EntryOpen(local, startupReconciled, store.state) && CommandDispatch in Kinds(local.items)
              && (shutdownRequested || GateIs(store.state, Ready)))
        && (r.value == GateReady <==>
              EntryOpen(local, startupReconciled, store.state) && !shutdownRequested && GateIs(store.state, Reconciling))
        && (r.value == GateReconciling <==>
              EntryOpen(local, startupReconciled, store.state) && !shutdownRequested && GateIs(store.state, Halted))
    {
      if local.LocalFails? {
        return Raised(Orchestration);
      }
      var a := Assessed(local, shutdownRequested);
      var step := DryStep(a, startupReconciled);
      var seen, _ := Read();
      ForecastsExactly(local, shutdownRequested, startupReconciled, seen);
      if seen.Some? && seen.value.manualHalt && (step == Idle || step == EntryDispatch) {
        step := LossBlocked;
      } else if startupReconciled && a.eligible && (step == Idle || step == EntryDispatch) {
        if seen.None? || seen.value.gate == Halted {
          step := GateReconciling;
        } else if seen.value.gate == Reconciling {
          step := GateReady;
        }
      }
      hide DryStep, EntryOpen, Assessed;
      return Ok(step);
    }
  }
}
