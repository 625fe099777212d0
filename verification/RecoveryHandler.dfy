/** The handler that reconciles one submitted recovery against fresh venue truth,
    with no other writer at work meanwhile: the venue reading and the clock
    readings of one call are its inputs. */
module RecoveryHandler {
  import opened Options
  import RS = RecoveryStore
  import RR = RecoveryRuns
  import SC = SafetyController
  import WS = WorkScanner
  import opened ExecutorRuntime

  /** The evidence that snapshot and venue gave, and what follows from it.
      `accepted` says that the store takes the proof for this recovery. */
  datatype Reading = Reading(
    serverMs: int, observedAt: int, complete: bool, success: bool,
    resolution: Option<RS.IncidentState>, accepted: bool)

  /** `claimAt`, `applyAt` and `laterAt` are read before the claim, after it, and
      when applying failed. */
  datatype Clock = Clock(now: int, claimAt: int, applyAt: int, laterAt: int)

  const MAX_EVIDENCE_AGE_MS := 5000

  predicate Fresh(v: Reading, at: int) {
    v.observedAt <= at && SC.Milliseconds(at) - v.serverMs <= MAX_EVIDENCE_AGE_MS
  }

  /** A claim whose lease ran out with an attempt on record. */
  predicate ExpiredWithAttempt(r: RS.Recovery, at: int) {
    && (r.state == RS.Claimed || r.state == RS.Signing)
    && r.lease.Some? && r.lease.value.until <= at && r.attempt.Some?
  }

  predicate NeedsReconciling(r: RS.Recovery, at: int) {
    r.state == RS.SubmittedUnknown || r.state == RS.Reconciling || ExpiredWithAttempt(r, at)
  }

  function Ids(rs: seq<RS.Recovery>): (ids: seq<string>)
    ensures |ids| == |rs| && forall i :: 0 <= i < |rs| ==> ids[i] == rs[i].order.id
  {
    seq(|rs|, i requires 0 <= i < |rs| => rs[i].order.id)
  }

  /** The handler goes on only when normalising made the recovery unknown, which
      happens exactly for an attempt that may have been sent.  An attempt that was
      only prepared is closed instead, so the handler raises and the runtime halts. */
  lemma ExpiredAttemptContinuesExactly(r: RS.Recovery, at: int)
    requires RS.ValidRecovery(r) && ExpiredWithAttempt(r, at)
    ensures RS.NormalizeOne(r, at).state == RS.SubmittedUnknown <==> r.attempt.value.state == RS.Sending
    ensures RS.NormalizeOne(r, at).state == RS.Terminal <==> r.attempt.value.state == RS.Prepared
  {
  }

  // ----- when a call goes through -----

  /** The recovery can still be claimed for reconciliation. */
  predicate Claimable(r: RS.Recovery, c: Clock) {
    if ExpiredWithAttempt(r, c.now) then r.attempt.value.state == RS.Sending
    else r.lease.None? || r.lease.value.until <= c.claimAt
  }

  /** The call gets as far as holding the claim. */
  predicate Claims(r: RS.Recovery, venue: Option<Reading>, c: Clock) {
    NeedsReconciling(r, c.now) && venue.Some? && Fresh(venue.value, c.claimAt) && Claimable(r, c)
  }

  /** The evidence aged, or the lease ran out, between the claim and its use. */
  predicate AgedUnderClaim(v: Reading, leaseSeconds: nat, c: Clock) {
    !Fresh(v, c.applyAt) || c.applyAt >= c.claimAt + leaseSeconds * RS.MICROS
  }

  predicate Applies(v: Reading) {
    v.accepted && (v.resolution.Some? ==> v.complete && v.success)
  }

  /** The runtime takes an answer that is a wait and a change for a failure and
      halts.  Such a call exists: evidence of four seconds at the claim and of six
      when it is used. */
  lemma AgedAnswerHalts(r: RS.Recovery)
    requires r.state == RS.SubmittedUnknown && r.lease.None?
    ensures Reply(Answered(Waiting, true), StepRecoveryReconcile) == Raised(Orchestration)
    ensures
      var v, c := Reading(0, 0, true, true, None, true), Clock(0, 4_000_000, 6_000_000, 7_000_000);
      Claims(r, Some(v), c) && AgedUnderClaim(v, 15, c) && c.claimAt <= c.applyAt
  {
  }

  // ----- what the store answers -----

  lemma FoundByItsId(rs: seq<RS.Recovery>, k: nat)
    requires k < |rs| && WS.Distinct(Ids(rs))
    ensures RS.FindRecovery(rs, rs[k].order.id) == Some(k)
  {
    hide RS.FindRecovery;
    var ids, id := Ids(rs), rs[k].order.id;
    var found := RS.FindRecovery(rs, id);
    DistinctPlaces(ids, k, if found.Some? then found.value else k);
  }

  lemma DistinctPlaces(ids: seq<string>, i: nat, j: nat)
    requires WS.Distinct(ids) && i < |ids| && j < |ids| && ids[i] == ids[j]
    ensures i == j
  {
  }

  lemma SameIds(a: seq<RS.Recovery>, b: seq<RS.Recovery>)
    requires RS.AllAdvance(a, b)
    ensures Ids(a) == Ids(b)
  {
    forall i | 0 <= i < |a| ensures Ids(a)[i] == Ids(b)[i] {
      assert RS.Advances(a[i], b[i]);
    }
  }

  lemma ClaimAnswer(db: RS.Db, k: nat, worker: string, at: int, seconds: nat)
    requires k < |db.recoveries| && WS.Distinct(Ids(db.recoveries))
    requires db.recoveries[k].state == RS.SubmittedUnknown || db.recoveries[k].state == RS.Reconciling
    ensures
      var r := db.recoveries[k];
      var step := RS.ClaimReconciliation(r.order.id, worker, at, seconds);
      && (RS.Answer(db, step).Done? <==> r.lease.None? || r.lease.value.until <= at)
      && (RS.Answer(db, step).Done? ==>
            && k < |RS.Apply(db, step).recoveries|
            && RS.Apply(db, step).recoveries[k] == r.(
                 state := RS.Reconciling, lease := Some(RS.Lease(worker, at, at + seconds * RS.MICROS)), fencing := r.fencing + 1))
  {
    var swept := RS.NormalizeAll(db.recoveries, at);
    assert Ids(swept) == Ids(db.recoveries);
    FoundByItsId(swept, k);
    hide RS.FindRecovery;
  }

  lemma NormalizeAnswer(db: RS.Db, k: nat, at: int)
    requires k < |db.recoveries| && RS.ValidRecovery(db.recoveries[k]) && ExpiredWithAttempt(db.recoveries[k], at)
    ensures
      var after := RS.Apply(db, RS.Normalize(at)).recoveries;
      && k < |after|
      && (after[k].state == RS.SubmittedUnknown <==> db.recoveries[k].attempt.value.state == RS.Sending)
      && (after[k].state == RS.SubmittedUnknown ==> after[k].lease.None?)
  {
    ExpiredAttemptContinuesExactly(db.recoveries[k], at);
  }

  /** A recovery that waits to be reconciled has an attempt that was sent, so only
      the evidence, the lease and an unsent attempt can stop the handler. */
  lemma ClaimsExactly(r: RS.Recovery, venue: Option<Reading>, c: Clock)
    requires RS.ValidRecovery(r) && NeedsReconciling(r, c.now)
    ensures r.attempt.Some?
    ensures !ExpiredWithAttempt(r, c.now) ==>
      && (r.state == RS.SubmittedUnknown || r.state == RS.Reconciling)
      && r.attempt.value.state in {RS.Unknown, RS.ResponseReceived}
    ensures Claims(r, venue, c) <==>
      && venue.Some? && Fresh(venue.value, c.claimAt)
      && if ExpiredWithAttempt(r, c.now) then r.attempt.value.state == RS.Sending
         else r.lease.None? || r.lease.value.until <= c.claimAt
  {
  }

  lemma ReleaseAnswer(db: RS.Db, k: nat, at: int)
    requires k < |db.recoveries| && WS.Distinct(Ids(db.recoveries))
    requires db.recoveries[k].state == RS.Reconciling && db.recoveries[k].lease.Some?
    ensures
      var r := db.recoveries[k];
      var step := RS.ReleaseReconciliation(r.order.id, r.lease.value.worker, r.fencing, at);
      && (RS.Answer(db, step).Done? <==> r.lease.value.since <= at)
      && (RS.Answer(db, step).Done? ==>
            k < |RS.Apply(db, step).recoveries| && RS.Apply(db, step).recoveries[k] == r.(lease := None))
  {
    FoundByItsId(db.recoveries, k);
  }

  lemma ReconcileAnswer(db: RS.Db, k: nat, v: Reading, at: int)
    requires k < |db.recoveries| && WS.Distinct(Ids(db.recoveries))
    requires db.recoveries[k].state == RS.Reconciling && db.recoveries[k].lease.Some?
    ensures
      var r := db.recoveries[k];
      var step := RS.Reconcile(r.order.id, r.lease.value.worker, r.fencing, v.complete, v.success, v.resolution, at);
      && (RS.Answer(db, step).Done? <==>
            r.lease.value.since <= at < r.lease.value.until && (v.resolution.Some? ==> v.complete && v.success))
      && (RS.Answer(db, step).Done? ==>
            && k < |RS.Apply(db, step).recoveries|
            && RS.Apply(db, step).recoveries[k].lease.None?
            && RS.Apply(db, step).recoveries[k].state == (if v.complete then RS.Terminal else RS.Reconciling))
  {
    FoundByItsId(db.recoveries, k);
  }

  class RecoveryReconciler {
    const worker: string
    const leaseSeconds: nat

    constructor (worker: string, leaseSeconds: nat)
      ensures this.worker == worker && this.leaseSeconds == leaseSeconds
    {
      this.worker, this.leaseSeconds := worker, leaseSeconds;
    }

    /** The only recovery that needs reconciling, if there is one. */
    method FindCandidate(rs: seq<RS.Recovery>, now: int) returns (k: Option<nat>)
      ensures k.Some? ==> k.value < |rs| && NeedsReconciling(rs[k.value], now)
      ensures k.None? <==> forall i :: 0 <= i < |rs| ==> !NeedsReconciling(rs[i], now)
    {
      k := None;
      for i := 0 to |rs|
        invariant forall j :: 0 <= j < i ==> !NeedsReconciling(rs[j], now)
      {
        if NeedsReconciling(rs[i], now) {
          return Some(i);
        }
      }
    }

    /** Reconciles the open recovery.  The answer is exact: work is progressed when
        the claim is used in time on a proof the store takes; a claim on evidence
        that aged meanwhile is given back and answered as a wait that changed the
        store, which no handler result may be. */
    method ReconcileNext(store: SC.ExecutionStore, venue: Option<Reading>, c: Clock) returns (answer: Answer)
      requires store.Valid()
      modifies store`db, store`moves
      ensures store.Valid() && RS.AllAdvance(old(store.db.recoveries), store.db.recoveries)
      ensures answer.Raises? || answer in {Answered(NoWork, false), Answered(Waiting, true), Answered(Progressed, true)}
      ensures answer == Answered(NoWork, false) <==>
        WS.Distinct(Ids(old(store.db.recoveries)))
        && forall k :: 0 <= k < |old(store.db.recoveries)| ==> !NeedsReconciling(old(store.db.recoveries)[k], c.now)
      ensures answer == Answered(Waiting, true) <==>
        WS.Distinct(Ids(old(store.db.recoveries)))
        && exists k :: 0 <= k < |old(store.db.recoveries)| && Claims(old(store.db.recoveries)[k], venue, c)
             && AgedUnderClaim(venue.value, leaseSeconds, c) && c.claimAt <= c.applyAt
      ensures answer == Answered(Progressed, true) <==>
        WS.Distinct(Ids(old(store.db.recoveries)))
        && exists k :: 0 <= k < |old(store.db.recoveries)| && Claims(old(store.db.recoveries)[k], venue, c)
             && !AgedUnderClaim(venue.value, leaseSeconds, c) && c.claimAt <= c.applyAt && Applies(venue.value)
      // Whatever the answer, no claim of this call survives it unless giving it back failed.
      ensures answer == Answered(Waiting, true) ==>
        exists k :: 0 <= k < |store.db.recoveries| && NeedsReconciling(old(store.db.recoveries)[k], c.now)
          && store.db.recoveries[k].state == RS.Reconciling && store.db.recoveries[k].lease.None?
      ensures answer == Answered(Progressed, true) ==>
        exists k :: 0 <= k < |store.db.recoveries| && NeedsReconciling(old(store.db.recoveries)[k], c.now)
          && store.db.recoveries[k].lease.None?
          && store.db.recoveries[k].state == (if venue.value.complete then RS.Terminal else RS.Reconciling)
    {
      ghost var start := store.db.recoveries;
      store.IsSafe();
      SC.AdvanceSame(start);
      hide *;
      var unique := WS.Unique(Ids(store.db.recoveries));
      if !unique {
        return Raises;
      }
      var found := FindCandidate(store.db.recoveries, c.now);
      if found.None? {
        return Answered(NoWork, false);
      }
      var k := found.value;
      OnlyCandidate(start, k, c.now);
      ClaimsExactly(start[k], venue, c);
      if store.db.recoveries[k].attempt.None? {
        return Raises;
      }
      if ExpiredWithAttempt(store.db.recoveries[k], c.now) {
        NormalizeAnswer(store.db, k, c.now);
        var _ := store.Step(RS.Normalize(c.now));
        if store.db.recoveries[k].state != RS.SubmittedUnknown {
          return Raises;
        }
      } else if store.db.recoveries[k].attempt.value.state !in {RS.Unknown, RS.ResponseReceived} {
        return Raises;
      }
      if venue.None? || !Fresh(venue.value, c.claimAt) {
        return Raises;
      }
      ghost var mid := store.db.recoveries;
      SameIds(start, mid);
      answer := ClaimAndApply(store, k, venue.value, c);
      RS.AdvancesTwice(start, mid, store.db.recoveries);
    }

    /** Takes the claim, and uses it in time or gives it back. */
    method ClaimAndApply(store: SC.ExecutionStore, k: nat, v: Reading, c: Clock) returns (answer: Answer)
      requires store.Valid()
      requires k < |store.db.recoveries| && WS.Distinct(Ids(store.db.recoveries))
      requires store.db.recoveries[k].state == RS.SubmittedUnknown || store.db.recoveries[k].state == RS.Reconciling
      modifies store`db, store`moves
      ensures store.Valid() && RS.AllAdvance(old(store.db.recoveries), store.db.recoveries)
      ensures answer.Raises? || answer in {Answered(Waiting, true), Answered(Progressed, true)}
      ensures
        var r := old(store.db.recoveries)[k];
        var claims := r.lease.None? || r.lease.value.until <= c.claimAt;
        && (answer == Answered(Waiting, true) <==>
              claims && AgedUnderClaim(v, leaseSeconds, c) && c.claimAt <= c.applyAt)
        && (answer == Answered(Progressed, true) <==>
              claims && !AgedUnderClaim(v, leaseSeconds, c) && c.claimAt <= c.applyAt && Applies(v))
      ensures answer == Answered(Waiting, true) ==>
        store.db.recoveries[k].state == RS.Reconciling && store.db.recoveries[k].lease.None?
      ensures answer == Answered(Progressed, true) ==>
        store.db.recoveries[k].lease.None?
        && store.db.recoveries[k].state == (if v.complete then RS.Terminal else RS.Reconciling)
    {
      hide RS.Answer, RS.Apply, RS.Advances;
      var id := store.db.recoveries[k].order.id;
      ghost var before := store.db;
      SC.AdvanceSame(before.recoveries);
      ClaimAnswer(before, k, worker, c.claimAt, leaseSeconds);
      var claimed := store.Step(RS.ClaimReconciliation(id, worker, c.claimAt, leaseSeconds));
      if !claimed {
        return Raises;
      }
      var token := store.db.recoveries[k].fencing;
      ghost var held := store.db;
      SameIds(before.recoveries, held.recoveries);
      ReleaseAnswer(held, k, c.applyAt);
      ReconcileAnswer(held, k, v, c.applyAt);
      if !Fresh(v, c.applyAt) || c.applyAt >= c.claimAt + leaseSeconds * RS.MICROS {
        var released := store.Step(RS.ReleaseReconciliation(id, worker, token, c.applyAt));
        RS.AdvancesTwice(before.recoveries, held.recoveries, store.db.recoveries);
        return if released then Answered(Waiting, true) else Raises;
      }
      var done := false;
      if v.accepted {
        done := store.Step(RS.Reconcile(id, worker, token, v.complete, v.success, v.resolution, c.applyAt));
      }
      ghost var used := store.db;
      if !v.accepted {
        SC.AdvanceSame(held.recoveries);
      }
      RS.AdvancesTwice(before.recoveries, held.recoveries, used.recoveries);
      if !done {
        var _ := store.Step(RS.ReleaseReconciliation(id, worker, token, c.laterAt));
        RS.AdvancesTwice(before.recoveries, used.recoveries, store.db.recoveries);
        return Raises;
      }
      return Answered(Progressed, true);
    }

    lemma OnlyCandidate(rs: seq<RS.Recovery>, k: nat, now: int)
      requires RR.OneActive(rs) && k < |rs| && NeedsReconciling(rs[k], now)
      ensures forall i :: 0 <= i < |rs| && NeedsReconciling(rs[i], now) ==> i == k
    {
    }
  }

  // ----- a prepared attempt whose claim expires -----

  const CANCEL := RS.Order(
    "r", "c", "i", RS.CancelByCloid, "p", 0, 60_000_000, 60_000, "s", {"x"}, {}, 0)

  const INCIDENT := RS.Incident("i", Some("c"), "code", RS.Critical, RS.Open, 0, 0)

  const QUEUED := RS.Recovery(CANCEL, 0, RS.Queued, None, 0, None, 0, false)

  const CLAIMED := QUEUED.(state := RS.Claimed, lease := Some(RS.Lease("w", 0, 5_000_000)), fencing := 1)

  const SIGNING := CLAIMED.(state := RS.Signing)

  const PREPARED := SIGNING.(attempt := Some(RS.Attempt("a", 1, RS.Prepared, false)), attemptCount := 1)

  lemma QueuedFirst(db: RS.Db)
    requires db.recoveries == [] && db.permits == [RS.Permit(CANCEL, false)] && db.incidents == [INCIDENT]
    ensures RS.QueueRecovery(db, "r", 0).Done? && RS.QueueRecovery(db, "r", 0).db.incidents == [INCIDENT]
    ensures RR.Legal(db, RR.Queue("r", 0))
    ensures RS.FindPermit(db.permits, "r") == Some(0)
  {
    assert db.permits[0].order.id == "r" && db.incidents[0].id == "i";
  }

  lemma ClaimedNext(db: RS.Db)
    requires db.recoveries == [QUEUED]
    ensures
      var after := RS.Apply(db, RS.ClaimNext("w", 0, 5));
      after.recoveries == [CLAIMED] && after.incidents == db.incidents
  {
    assert RS.NormalizeAll(db.recoveries, 0) == [QUEUED] && RS.ExpireAll([QUEUED], 0) == [QUEUED];
    assert RS.NextQueued([QUEUED]) == Some(0);
  }

  lemma SignedNext(db: RS.Db)
    requires db.recoveries == [CLAIMED] && db.incidents == [INCIDENT]
    ensures RS.Apply(db, RS.Sign("r", "w", 1, 1)).recoveries == [SIGNING]
  {
    assert RS.FindRecovery(db.recoveries, "r") == Some(0);
    assert RS.IncidentOpen(db, "i");
  }

  lemma PreparedNext(db: RS.Db)
    requires db.recoveries == [SIGNING]
    ensures RS.Apply(db, RS.Prepare("r", "w", 1, "a", 1, true, 2)).recoveries == [PREPARED]
  {
    assert RS.FindRecovery(db.recoveries, "r") == Some(0);
  }

  /** The recovery is queued, claimed, signed and prepared, but never sent. */
  method PreparedStore() returns (store: SC.ExecutionStore)
    ensures fresh(store) && store.Valid() && store.db.recoveries == [PREPARED]
  {
    var start := RS.Db([], [RS.Permit(CANCEL, false)], [INCIDENT], [], [], 0, []);
    store := new SC.ExecutionStore(start);
    QueuedFirst(start);
    hide RS.Apply, RS.Answer, RS.QueueRecovery, RR.Exec, RR.LegalRun, RR.Legal;
    var refused := store.QueueRecovery("r", 0);
    assert store.db.recoveries == [QUEUED];
    ClaimedNext(store.db);
    var done := store.Step(RS.ClaimNext("w", 0, 5));
    SignedNext(store.db);
    done := store.Step(RS.Sign("r", "w", 1, 1));
    PreparedNext(store.db);
    done := store.Step(RS.Prepare("r", "w", 1, "a", 1, true, 2));
  }

  /** Once that claim has expired the handler raises, whatever the venue says. */
  method PreparedAttemptRaises(reconciler: RecoveryReconciler, venue: Option<Reading>, c: Clock) returns (answer: Answer)
    requires c.now >= 5_000_000
    ensures answer == Raises
  {
    var store := PreparedStore();
    var r := store.db.recoveries[0];
    assert ExpiredWithAttempt(r, c.now) && !Claims(r, venue, c);
    answer := reconciler.ReconcileNext(store, venue, c);
  }
}
