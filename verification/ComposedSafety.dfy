/** The real safety handler behind the runtime's safety lane, and what the two
    guarantee together: an open critical incident keeps entry closed. */
module ComposedSafety {
  import opened Options
  import RS = RecoveryStore
  import SC = SafetyController
  import WS = WorkScanner
  import opened ExecutorRuntime

  // ----- the one-shot preparation cache -----

  const MAX_FUTURE_SKEW_MS := 5000
  const MAX_SNAPSHOT_AGE_MS := 5000

  /** The evidence an action was built from. */
  datatype Evidence = AccountSnapshot(serverMs: int) | EntryAttempt

  datatype Preparation = Preparation(order: RS.Order, evidence: Evidence)

  predicate Current(p: Preparation, at: int) {
    var atMs := SC.Milliseconds(at);
    && atMs < p.order.actionExpiresMs
    && (p.evidence.AccountSnapshot? ==>
          -MAX_FUTURE_SKEW_MS <= atMs - p.evidence.serverMs <= MAX_SNAPSHOT_AGE_MS)
  }

  function Prepares(order: RS.Order, s: SC.Snapshot): Preparation {
    Preparation(order, if order.kind == RS.NoopFence then EntryAttempt else AccountSnapshot(s.serverMs))
  }

  datatype Prepared = Prepared(value: Preparation) | StateConflict

  /** The runtime's view of a safety verdict. */
  function HandlerFromSafety(v: SC.Verdict, changed: bool, startup: bool, ready: bool): Answer {
    if changed then Answered(Progressed, true)
    else if v.Clear? then Answered(if startup then Complete else NoWork, false)
    else if v.Active? && ready then Answered(NoWork, false)
    else Answered(Waiting, false)
  }

  class SafetyActionHandler {
    const controller: SC.SafetyController
    var cache: Option<Preparation>

    constructor (controller: SC.SafetyController)
      ensures this.controller == controller && cache == None
    {
      this.controller, cache := controller, None;
    }

    /** Remembers the preparation of the verdict's recovery, if there is one, and
        says whether a current one is at hand. */
    method CachePrepared(v: SC.Verdict, s: SC.Snapshot, at: int) returns (ready: bool)
      modifies this`cache
      ensures v.Clear? || v.Halted? ==> cache == None && !ready
      ensures ready <==>
        && (v.Queued? || v.Active?)
        && cache.Some? && cache.value.order.id == v.order.id && Current(cache.value, at)
      ensures v.Queued? || (v.Active? && v.prepared) ==>
        cache == if Current(Prepares(v.order, s), at) then Some(Prepares(v.order, s)) else None
      ensures v.Active? && !v.prepared ==>
        var stale := old(cache).Some? && old(cache).value.order.id == v.order.id && !Current(old(cache).value, at);
        cache == if stale then None else old(cache)
    {
      if v.Clear? || v.Halted? {
        cache := None;
        return false;
      }
      if v.Queued? || v.prepared {
        cache := Some(Prepares(v.order, s));
      }
      if cache.None? || cache.value.order.id != v.order.id {
        return false;
      }
      if !Current(cache.value, at) {
        cache := None;
        return false;
      }
      return true;
    }

    /** Hands the cached preparation to the dispatcher once: only for the exact
        durable command, only while it is current, and never a second time. */
    method Prepare(order: RS.Order, durable: bool, at: int) returns (p: Prepared)
      modifies this`cache
      ensures p.Prepared? <==>
        durable && old(cache).Some? && old(cache).value.order == order && Current(old(cache).value, at)
      ensures p.Prepared? ==> p.value == old(cache).value && cache == None
      ensures p.StateConflict? ==>
        var stale := durable && old(cache).Some? && old(cache).value.order == order && !Current(old(cache).value, at);
        cache == if stale then None else old(cache)
    {
      if !durable {
        return StateConflict;
      }
      if cache.None? || cache.value.order.id != order.id {
        return StateConflict;
      }
      if cache.value.order != order {
        return StateConflict;
      }
      var found := cache.value;
      if !Current(found, at) {
        cache := None;
        return StateConflict;
      }
      cache := None;
      return Prepared(found);
    }

    /** One evaluation on a fresh snapshot, answered to the runtime. */
    method Act(store: SC.ExecutionStore, s: SC.Snapshot, market: Option<SC.Market>, accepts: bool, gaps: SC.Gaps,
               at: int, startup: bool) returns (answer: Answer, v: SC.Verdict)
      requires store.Valid()
      modifies this`cache, store`db, store`moves
      ensures store.Valid() && WellFormed(answer)
      ensures store.db != old(store.db) <==> answer == Answered(Progressed, true)
      ensures store.db == old(store.db) && v.Clear? ==> answer == Answered(if startup then Complete else NoWork, false)
      ensures store.db == old(store.db) && v.Halted? ==> answer == Answered(Waiting, false)
      ensures store.db == old(store.db) && v.Active? ==>
        (answer == Answered(NoWork, false) <==>
          cache.Some? && cache.value.order.id == v.order.id && Current(cache.value, at))
      ensures answer == Answered(NoWork, false) ==> v.Clear? || v.Active?
      ensures SC.Quiet(gaps) && !startup ==> SafeAnswer(old(store.db), s, answer)
      ensures SC.Quiet(gaps) && startup && answer.Answered? && answer.disposition == Complete ==>
        NoOpenCritical(old(store.db)) && s.positions == [] && s.openOrders == []
      ensures startup && answer.Answered? && answer.disposition == Complete ==>
        v.Clear? && store.db == old(store.db) && RS.AllTerminal(store.db.recoveries)
    {
      var before := store.db;
      ghost var seen;
      v, seen := controller.Evaluate(store, s, market, accepts, gaps, at);
      var ready := CachePrepared(v, s, at);
      answer := HandlerFromSafety(v, store.db != before, startup, ready);
    }
  }

  class StartupReconciler {
    const handler: SafetyActionHandler

    constructor (handler: SafetyActionHandler)
      ensures this.handler == handler
    {
      this.handler := handler;
    }

    /** The proof that opens the gate.  It is complete only on a flat account with
        nothing to reconcile, no open recovery and no open critical incident. */
    method ReconcileStartup(store: SC.ExecutionStore, commandsPending: bool, inspection: Answer, s: SC.Snapshot,
                            market: Option<SC.Market>, accepts: bool, gaps: SC.Gaps, at: int) returns (answer: Answer)
      requires store.Valid() && WellFormed(inspection)
      modifies handler`cache, store`db, store`moves
      ensures store.Valid() && WellFormed(answer)
      ensures answer.Answered? && answer.disposition == Complete && SC.Quiet(gaps) ==>
        && !commandsPending && !NeedsReconciling(old(store.db))
        && NoOpenCritical(old(store.db)) && s.positions == [] && s.openOrders == []
      ensures answer.Answered? && answer.disposition == Complete ==>
        store.db == old(store.db) && RS.AllTerminal(store.db.recoveries)
      ensures commandsPending || NeedsReconciling(old(store.db)) ==>
        answer == Answered(Waiting, false) && store.db == old(store.db)
      ensures !commandsPending && !NeedsReconciling(old(store.db)) && (inspection.Raises? || inspection.disposition == Progressed) ==>
        answer == inspection && store.db == old(store.db)
    {
      if commandsPending || NeedsReconciling(store.db) {
        return Answered(Waiting, false);
      }
      if inspection.Raises? || inspection.disposition == Progressed {
        return inspection;
      }
      var verdict;
      answer, verdict := handler.Act(store, s, market, accepts, gaps, at, true);
    }
  }

  predicate NeedsReconciling(db: RS.Db) {
    exists k :: 0 <= k < |db.recoveries|
      && (db.recoveries[k].state == RS.SubmittedUnknown || db.recoveries[k].state == RS.Reconciling)
  }

  predicate NoOpenCritical(db: RS.Db) {
    forall i :: i in db.incidents ==> !RS.OpenCritical(i)
  }

  /** What the safety lane's "no work" means: unless a recovery is open, the
      account is flat and no critical incident is open. */
  predicate SafeAnswer(db: RS.Db, s: SC.Snapshot, answer: Answer) {
    answer == Answered(NoWork, false) && RS.AllTerminal(db.recoveries) ==>
      NoOpenCritical(db) && s.positions == [] && s.openOrders == []
  }

  // ----- the scan and the handler read the same store -----

  /** The scanner's tables show the recoveries and incidents of the store. */
  predicate Projects(t: WS.Tables, db: RS.Db) {
    && |t.recoveries| == |db.recoveries|
    && (forall k :: 0 <= k < |db.recoveries| ==> t.recoveries[k].state == db.recoveries[k].state)
    && t.incidents == db.incidents
  }

  /** A recovery that has not ended always shows up in one of the three recovery
      lanes. */
  lemma OpenRecoveryShows(t: WS.Tables, db: RS.Db, observed: int)
    requires WS.Readable(t) && Projects(t, db) && !RS.AllTerminal(db.recoveries)
    ensures
      || WS.Evidence(t, observed, WS.RecoveryDispatch)
      || WS.Evidence(t, observed, WS.RecoveryReconcile)
      || WS.Evidence(t, observed, WS.RecoveryInFlight)
  {
    var k :| 0 <= k < |db.recoveries| && db.recoveries[k].state != RS.Terminal;
    var r := t.recoveries[k];
    hide WS.Identified, WS.CommandReadable;
    assert WS.RecoveryReadable(r, t.recoveryBoxes);
    var box := t.recoveryBoxes[WS.FindBox(t.recoveryBoxes, r.id).value];
    var kind := WS.RecoveryWork(r, box, observed).value;
    assert WS.RecoveryHas(r, t.recoveryBoxes, observed, kind);
    assert kind == WS.RecoveryDispatch || kind == WS.RecoveryReconcile || kind == WS.RecoveryInFlight;
  }

  lemma IncidentShows(t: WS.Tables, db: RS.Db, observed: int)
    requires Projects(t, db) && !NoOpenCritical(db)
    ensures WS.Evidence(t, observed, WS.OpenIncident)
  {
    var i :| i in db.incidents && RS.OpenCritical(i);
    var k :| 0 <= k < |t.incidents| && t.incidents[k] == i;
  }

  /** With an open critical incident in the scanned store, the real safety
      answer never lets a step fall through to the lanes below safety. */
  lemma CriticalBlocksLanes(t: WS.Tables, db: RS.Db, s: SC.Snapshot, observed: int, mark: WS.Fingerprint, i: Input)
    requires WS.Readable(t) && Projects(t, db) && !NoOpenCritical(db) && SafeAnswer(db, s, i.safety)
    ensures !LanesClear(WS.Kinds(WS.SortItems(WS.AllItems(t, observed, mark))), i)
  {
    IncidentShows(t, db, observed);
    WS.KindsExactly(t, observed, mark, WS.OpenIncident);
    if !RS.AllTerminal(db.recoveries) {
      OpenRecoveryShows(t, db, observed);
      WS.KindsExactly(t, observed, mark, WS.RecoveryDispatch);
      WS.KindsExactly(t, observed, mark, WS.RecoveryReconcile);
      WS.KindsExactly(t, observed, mark, WS.RecoveryInFlight);
    }
  }

  predicate RecoveryLane(kinds: set<WS.Kind>) {
    WS.RecoveryDispatch in kinds || WS.RecoveryReconcile in kinds || WS.RecoveryInFlight in kinds
  }

  /** With an open critical incident in the scanned store, an answer of no work can
      only mean that a recovery is open, and then the scan shows a recovery lane. */
  lemma NoWorkShowsRecovery(t: WS.Tables, db: RS.Db, s: SC.Snapshot, observed: int, mark: WS.Fingerprint, answer: Answer)
    requires WS.Readable(t) && Projects(t, db) && !NoOpenCritical(db)
    requires SafeAnswer(db, s, answer) && answer == Answered(NoWork, false)
    ensures RecoveryLane(WS.Kinds(WS.SortItems(WS.AllItems(t, observed, mark))))
  {
    OpenRecoveryShows(t, db, observed);
    hide WS.Readable, WS.Evidence;
    WS.KindsExactly(t, observed, mark, WS.RecoveryDispatch);
    WS.KindsExactly(t, observed, mark, WS.RecoveryReconcile);
    WS.KindsExactly(t, observed, mark, WS.RecoveryInFlight);
  }

  lemma ReconcileThenDispatch(kinds: set<WS.Kind>, i: Input)
    requires RecoveryLane(kinds) && i.safety == Answered(NoWork, false) && CallSafety in ReconcilePorts(kinds, i)
    ensures EndsInDispatch(ReconcilePorts(kinds, i))
  {
    assert WS.RecoveryReconcile !in kinds && WS.RecoveryInFlight !in kinds && WS.CommandReconcile in kinds;
    assert WS.OpenIncident in kinds;
    assert DispatchFollows(i, true);
    hide DispatchFollows;
    assert ReconcilePorts(kinds, i) == SafetyPorts(i, true) + [];
  }

  lemma ProtectThenDispatch(kinds: set<WS.Kind>, i: Input)
    requires WS.RecoveryDispatch in kinds && i.safety == Answered(NoWork, false) && CallSafety in ProtectPorts(kinds, i)
    ensures EndsInDispatch(ProtectPorts(kinds, i)) && !ProtectClear(kinds, i)
  {
    assert SafetyWork(kinds);
    assert DispatchFollows(i, true);
    hide DispatchFollows;
    assert SafetyPorts(i, true) == [CallSafety, CallRecoveryDispatch];
  }

  /** A step that reaches the safety handler while a recovery is open and hears no
      work goes on to the recovery dispatcher, and that call is its last. */
  lemma SafetyThenDispatch(a: Assessment, permitted: bool, shutdown: bool, reconciled: bool, i: Input, view: View)
    requires RecoveryLane(a.kinds) && i.safety == Answered(NoWork, false)
    requires CallSafety in StepPorts(a, true, true, false, permitted, shutdown, reconciled, i, view)
    ensures EndsInDispatch(StepPorts(a, true, true, false, permitted, shutdown, reconciled, i, view))
  {
    hide EntersBelow, EndsInDispatch, ReconcilePorts, ProtectPorts, ProtectClear;
    if !NothingToReconcile(a.kinds) {
      ReconcileThenDispatch(a.kinds, i);
    } else {
      var protect := ProtectPorts(a.kinds, i);
      var lower := LowerPorts(a, true, true, false, permitted, shutdown, reconciled, i, view);
      assert CallSafety !in lower;
      assert forall c :: c in protect + lower ==> c in protect || c in lower;
      ProtectThenDispatch(a.kinds, i);
    }
  }

  predicate EndsInDispatch(calls: seq<Call>) {
    |calls| >= 2 && calls[|calls| - 2] == CallSafety && calls[|calls| - 1] == CallRecoveryDispatch
  }

  /** The verdict names an open recovery and its preparation is at hand. */
  predicate ReadyToDispatch(v: SC.Verdict, cache: Option<Preparation>, at: int) {
    v.Active? && cache.Some? && cache.value.order.id == v.order.id && Current(cache.value, at)
  }

  /** One tick whose scan shows an open critical incident, with the real safety
      handler and no other writer between the scan and the evaluation: neither the
      entry dispatcher nor the startup reconciler is called, and an active recovery
      that is ready falls from the safety lane into the recovery dispatcher.  The
      handler is asked ahead of the tick; the tick uses its answer only if it
      reaches that lane. */
  method CriticalTick(runtime: Runtime, handler: SafetyActionHandler, store: SC.ExecutionStore, permitted: bool, i: Input,
                      t: WS.Tables, observed: int, mark: WS.Fingerprint, s: SC.Snapshot, market: Option<SC.Market>,
                      accepts: bool, gaps: SC.Gaps, at: int) returns (r: Outcome<StepResult>, v: SC.Verdict)
    requires runtime.Valid() && !runtime.submissionActive && store.Valid() && SC.Quiet(gaps)
    requires WS.Readable(t) && Projects(t, store.db) && !NoOpenCritical(store.db)
    requires i.local.Local? ==> i.local.items == WS.SortItems(WS.AllItems(t, observed, mark))
    modifies handler`cache, store`db, store`moves
    modifies runtime`calls, runtime`submissionActive, runtime`shutdownRequested, runtime`startupReconciled,
      runtime`proved, runtime.store`state, runtime.store`accesses
    ensures runtime.Valid() && store.Valid() && old(runtime.calls) <= runtime.calls
    ensures CallEntry !in runtime.calls[|old(runtime.calls)|..]
    ensures CallStartup !in runtime.calls[|old(runtime.calls)|..]
    ensures runtime.startupReconciled == old(runtime.startupReconciled)
    ensures r.Ok? ==> r.value.step != GateReconciling && r.value.step != GateReady
    ensures
      && ReadyToDispatch(v, handler.cache, at) && store.db == old(store.db)
      && CallSafety in runtime.calls[|old(runtime.calls)|..] ==>
        EndsInDispatch(runtime.calls[|old(runtime.calls)|..])
  {
    var answer;
    answer, v := handler.Act(store, s, market, accepts, gaps, at, false);
    var input := i.(safety := answer);
    CriticalBlocksLanes(t, old(store.db), s, observed, mark, input);
    ghost var hears := ReadyToDispatch(v, handler.cache, at) && store.db == old(store.db);
    assert hears ==> answer == Answered(NoWork, false);
    if hears {
      NoWorkShowsRecovery(t, old(store.db), s, observed, mark, answer);
    }
    ghost var shut := runtime.shutdownRequested || i.signalFirst || i.signalAssess;
    hide *;
    ghost var view;
    r, view := runtime.Tick(permitted, input);
    if hears && CallSafety in runtime.calls[|old(runtime.calls)|..] {
      var a := Assessed(i.local, shut);
      AssessedKinds(i.local, shut);
      SafetyThenDispatch(a, permitted, shut, old(runtime.startupReconciled), input, view);
      assert runtime.calls[|old(runtime.calls)|..]
        == StepPorts(a, true, true, false, permitted, shut, old(runtime.startupReconciled), input, view);
    }
  }

  lemma AssessedKinds(local: Local, shutdown: bool)
    requires local.Local?
    ensures Assessed(local, shutdown).kinds == WS.Kinds(local.items)
  {
  }

  /** A shutdown during which no port fails reports clean exactly when the final
      records are drained. */
  method DrainedShutdown(runtime: Runtime, limit: nat, inputs: nat -> Input, final: Local, t: WS.Tables, observed: int,
                         mark: WS.Fingerprint) returns (r: Outcome<Report>)
    requires runtime.Valid() && !runtime.submissionActive
    requires WS.Readable(t) && final.Local? && final.compatible && final.items == WS.SortItems(WS.AllItems(t, observed, mark))
    modifies runtime`calls, runtime`submissionActive, runtime`shutdownRequested, runtime`startupReconciled,
      runtime`proved, runtime`lease, runtime.store`state, runtime.store`accesses
    ensures runtime.Valid()
    ensures (forall k: nat :: k < limit ==> Calm(inputs(k))) && r.Ok? ==> (r.value.clean <==> WS.Drained(t, observed))
    ensures r.Ok? && r.value.clean ==> WS.Drained(t, observed)
  {
    WS.DrainedExactly(t, observed, mark);
    hide *;
    ghost var failed;
    r, failed := runtime.Shutdown(limit, inputs, final);
  }
}
