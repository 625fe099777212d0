/** One service tick: a dry-run preview, the evidence an entry needs, and then one
    runtime tick that may use it. */
module ExecutorService {
  import opened Options
  import opened ExecutorRuntime

  /** What the loss synchronizer reported, if it did not raise. */
  datatype LossSync = SyncRaises | Synced(complete: bool)

  datatype Service = ConsumeReady | SyncLoss | SyncLearning | CheckRoute

  datatype ServiceInput = ServiceInput(
    now: int, preview: Local, loss: LossSync, learningOk: bool, routeReady: bool, tick: Input)

  /** What the service did before it gave the runtime its turn. */
  datatype Evidence = Evidence(
    preview: Step, skipped: bool, report: Option<bool>, failed: bool, learning: bool, route: Option<bool>)

  predicate Urgent(s: Step) {
    || s == StepRecoveryReconcile || s == RecoveryWait || s == ParentReconcile || s == ParentWait
    || s == ProtectionCheck || s == SafetyAction || s == StepRecoveryDispatch || s == StartupReconcile
    || s == ShutdownDrain
  }

  predicate Permits(e: Evidence) {
    e.report == Some(true) && !e.failed && e.learning && e.route == Some(true)
  }

  class ExecutorService {
    const runtime: Runtime
    const reconcileMicros: nat
    var lastLossSync: Option<int>
    ghost var work: seq<Service>

    constructor (runtime: Runtime, reconcileMicros: nat)
      ensures this.runtime == runtime && lastLossSync == None && work == []
    {
      this.runtime, this.reconcileMicros, lastLossSync, work := runtime, reconcileMicros, None, [];
    }

    function Due(now: int): bool
      reads this
    {
      lastLossSync.None? || now - lastLossSync.value >= reconcileMicros
    }

    function LossRefreshDue(now: int): bool
      reads this
    {
      lastLossSync.None? || now - lastLossSync.value >= 5_000_000
    }

    /** The work of a tick before the runtime's turn.  Urgent previews get none of
        it; losses are synced when due, and always for an entry. */
    function Planned(i: ServiceInput, preview: Step): seq<Service>
      reads this
    {
      var lossNeeded := Due(i.now) || preview == EntryDispatch || (preview == LossBlocked && LossRefreshDue(i.now));
      (if preview == GateReady || preview == Idle then [ConsumeReady] else [])
      + (if Urgent(preview) then []
         else
           (if lossNeeded then [SyncLoss] else []) + [SyncLearning]
           + if preview == EntryDispatch then [CheckRoute] else [])
    }

    /** Gathers what this tick may show for an entry. */
    method Gather(i: ServiceInput, preview: Step) returns (e: Evidence)
      modifies this`lastLossSync, this`work
      ensures e.preview == preview && e.skipped == Urgent(preview)
      ensures work == old(work) + old(Planned(i, preview))
      // A permit needs a complete loss sync, a learning sync and a ready route, all of this tick.
      ensures Permits(e) ==>
        && preview == EntryDispatch && i.loss == Synced(true) && i.learningOk && i.routeReady
        && lastLossSync == Some(i.now)
      ensures preview == EntryDispatch && i.loss == Synced(true) && i.learningOk && i.routeReady ==> Permits(e)
      ensures lastLossSync ==
        if SyncLoss in old(Planned(i, preview)) && i.loss == Synced(true) then Some(i.now) else old(lastLossSync)
    {
      var entryNeeds := preview == EntryDispatch;
      var lossNeeds := preview == LossBlocked && LossRefreshDue(i.now);
      var due := Due(i.now);
      var skipped := Urgent(preview);
      var report: Option<bool>, failed := None, false;
      if preview == GateReady || preview == Idle {
        work := work + [ConsumeReady];
      }
      if !skipped && (due || entryNeeds || lossNeeds) {
        work := work + [SyncLoss];
        match i.loss {
          case SyncRaises => failed := true;
          case Synced(complete) => report := Some(complete);
        }
        if report == Some(true) {
          lastLossSync := Some(i.now);
        } else if entryNeeds {
          failed := true;
        }
      }
      var learning := false;
      if !skipped {
        work := work + [SyncLearning];
        learning := i.learningOk;
      }
      var route: Option<bool> := None;
      if entryNeeds && !skipped {
        work := work + [CheckRoute];
        route := Some(i.routeReady);
      }
      return Evidence(preview, skipped, report, failed, learning, route);
    }

    lemma OnlyPermitted(permitted: bool, i: Input, reconciled: bool, view: View)
      ensures runtime.EntryJustified(permitted, i, reconciled, view) ==> permitted
    {
    }

    lemma EntryPlan(i: ServiceInput, preview: Step)
      ensures preview == EntryDispatch ==> Planned(i, preview) == [SyncLoss, SyncLearning, CheckRoute]
    {
    }

    /** One service tick.  If it calls the entry dispatcher, then this same tick
        previewed an entry, synced the losses completely, synced the learning
        state and found the route ready, and the runtime's own conditions hold.
        After a step that is neither urgent nor a venue write the learning state is
        synced once more. */
    method Tick(i: ServiceInput) returns (r: Outcome<StepResult>, ghost e: Option<Evidence>, ghost view: View)
      requires runtime.Valid() && !runtime.submissionActive
      modifies this`lastLossSync, this`work, runtime`calls, runtime`submissionActive, runtime`shutdownRequested,
        runtime`startupReconciled, runtime`proved, runtime.store`state, runtime.store`accesses
      ensures runtime.Valid() && !runtime.submissionActive && old(runtime.calls) <= runtime.calls
      ensures CallEntry in runtime.calls[|old(runtime.calls)|..] ==>
        && e.Some? && e.value.preview == EntryDispatch && Permits(e.value)
        && i.loss == Synced(true) && i.learningOk && i.routeReady
        && old(work) + [SyncLoss, SyncLearning, CheckRoute] <= work
        && runtime.EntryJustified(true, i.tick, old(runtime.startupReconciled), view)
      ensures i.preview.LocalFails? <==> e.None?
      ensures e.None? ==> r == Raised(Orchestration) && runtime.calls == old(runtime.calls) && work == old(work)
      ensures e.Some? ==>
        var again := r.Ok? && !Urgent(e.value.preview) && !r.value.wrote && !Urgent(r.value.step);
        work == old(work) + old(Planned(i, e.value.preview)) + if again then [SyncLearning] else []
    {
      hide *;
      e, view := None, View(None, 0);
      var preview := runtime.DryRun(i.preview);
      if preview.Raised? {
        return Raised(preview.error), e, view;
      }
      EntryPlan(i, preview.value);
      var gathered := Gather(i, preview.value);
      e := Some(gathered);
      ghost var reconciled := runtime.startupReconciled;
      r, view := runtime.Tick(Permits(gathered), i.tick);
      OnlyPermitted(Permits(gathered), i.tick, reconciled, view);
      if r.Ok? && !gathered.skipped && !r.value.wrote && !Urgent(r.value.step) {
        work := work + [SyncLearning];
      }
    }
  }
}
