/** The durable recovery outbox that the safety controller and the recovery
    dispatcher share: one record per recovery command, its claim lease, its
    single attempt and the transitions between their states.

    A record joins the command, outbox and attempt rows, which every transition
    updates in one transaction.  Instants are microseconds.  A transition that
    raises leaves the store as it was. */
module RecoveryStore {
  import opened Options

  datatype Kind = NoopFence | CancelByCloid | ReduceOnlyClose

  datatype State = Queued | Claimed | Signing | SubmittedUnknown | Reconciling | Terminal

  datatype AttemptState = Prepared | Sending | Unknown | ResponseReceived

  datatype Attempt = Attempt(attemptId: string, nonce: int, state: AttemptState, transport: bool)

  datatype Lease = Lease(worker: string, since: int, until: int)

  /** What a permit authorises, and so what never changes in a recovery. */
  datatype Order = Order(
    id: string, parent: string, incident: string, kind: Kind, policy: string,
    issuedAt: int, permitExpires: int, actionExpiresMs: int,
    source: string, cloids: set<string>, assets: set<nat>, originalNonce: int)

  datatype Recovery = Recovery(
    order: Order, createdAt: int, state: State, lease: Option<Lease>, fencing: nat,
    attempt: Option<Attempt>, attemptCount: nat, fenced: bool)

  datatype Permit = Permit(order: Order, consumed: bool)

  datatype Severity = Critical | High | Warning

  datatype IncidentState = Open | Contained | Closed

  datatype Incident = Incident(
    id: string, command: Option<string>, code: string, severity: Severity,
    state: IncidentState, openedAt: int, updatedAt: int)

  /** The entry attempt a parent command owns. */
  datatype ParentAttempt = ParentAttempt(command: string, unknown: bool, nonce: int, evidence: string)

  /** What the controller reads from a durable command, its plan and its legs. */
  datatype Command = Command(
    id: string, readable: bool, symbol: string, entryBuy: bool, stopCloid: string, cloids: set<string>)

  /** `truthAt` is the newest observation behind a durable position or
      protection; `authorised` lists the recoveries that were given the right to
      write to the venue, in the order of the grants. */
  datatype Db = Db(
    recoveries: seq<Recovery>, permits: seq<Permit>, incidents: seq<Incident>,
    parents: seq<ParentAttempt>, commands: seq<Command>, truthAt: int, authorised: seq<Order>)

  datatype Error = AdmissionDenied | StateConflict | RecordNotFound | StorageError

  datatype Reply = Done(db: Db) | Refused(error: Error)

  // ----- lookups -----

  function FindRecovery(rs: seq<Recovery>, id: string): (k: Option<nat>)
    ensures k.Some? ==> k.value < |rs| && rs[k.value].order.id == id
    ensures k.None? ==> forall i :: 0 <= i < |rs| ==> rs[i].order.id != id
  {
    if rs == [] then None
    else if rs[|rs| - 1].order.id == id then Some(|rs| - 1)
    else FindRecovery(rs[..|rs| - 1], id)
  }

  function FindPermit(ps: seq<Permit>, id: string): (k: Option<nat>)
    ensures k.Some? ==> k.value < |ps| && ps[k.value].order.id == id
    ensures k.None? ==> forall i :: 0 <= i < |ps| ==> ps[i].order.id != id
  {
    if ps == [] then None
    else if ps[|ps| - 1].order.id == id then Some(|ps| - 1)
    else FindPermit(ps[..|ps| - 1], id)
  }

  function FindIncident(xs: seq<Incident>, id: string): (k: Option<nat>)
    ensures k.Some? ==> k.value < |xs| && xs[k.value].id == id
    ensures k.None? ==> forall i :: 0 <= i < |xs| ==> xs[i].id != id
  {
    if xs == [] then None
    else if xs[|xs| - 1].id == id then Some(|xs| - 1)
    else FindIncident(xs[..|xs| - 1], id)
  }

  function FindParent(xs: seq<ParentAttempt>, command: string): (k: Option<nat>)
    ensures k.Some? ==> k.value < |xs| && xs[k.value].command == command
    ensures k.None? ==> forall i :: 0 <= i < |xs| ==> xs[i].command != command
  {
    if xs == [] then None
    else if xs[|xs| - 1].command == command then Some(|xs| - 1)
    else FindParent(xs[..|xs| - 1], command)
  }

  predicate OpenCritical(x: Incident) {
    x.state == Open && x.severity == Critical
  }

  predicate IncidentOpen(db: Db, id: string) {
    var k := FindIncident(db.incidents, id);
    k.Some? && OpenCritical(db.incidents[k.value])
  }

  predicate AllTerminal(rs: seq<Recovery>) {
    forall i :: 0 <= i < |rs| ==> rs[i].state == Terminal
  }

  // ----- normalisation of expired claims -----

  /** A claim or signature whose lease has run out: without an attempt it is
      requeued or closed unsent, a prepared attempt is closed unsent, and an
      attempt that may have been sent becomes unknown. */
  function NormalizeOne(r: Recovery, at: int): Recovery {
    if (r.state == Claimed || r.state == Signing) && r.lease.Some? && r.lease.value.until <= at then
      if r.attempt.None? then
        if r.state == Claimed then r.(state := Queued, lease := None) else r.(state := Terminal, lease := None)
      else if r.attempt.value.state == Prepared then r.(state := Terminal, lease := None)
      else r.(state := SubmittedUnknown, lease := None,
              attempt := Some(r.attempt.value.(state := Unknown, transport := true)))
    else r
  }

  function ExpireOne(r: Recovery, at: int): Recovery {
    if r.state == Queued && r.order.permitExpires <= at then r.(state := Terminal, lease := None) else r
  }

  function NormalizeAll(rs: seq<Recovery>, at: int): (n: seq<Recovery>)
    ensures |n| == |rs| && forall i :: 0 <= i < |rs| ==> n[i] == NormalizeOne(rs[i], at)
  {
    seq(|rs|, i requires 0 <= i < |rs| => NormalizeOne(rs[i], at))
  }

  function ExpireAll(rs: seq<Recovery>, at: int): (n: seq<Recovery>)
    ensures |n| == |rs| && forall i :: 0 <= i < |rs| ==> n[i] == ExpireOne(rs[i], at)
  {
    seq(|rs|, i requires 0 <= i < |rs| => ExpireOne(rs[i], at))
  }

  // ----- transitions -----

  /** What other processes do to the store: dispatch workers, reconcilers and
      everything that records incidents and parent attempts. */
  datatype Step =
    | Normalize(at: int)
    | ClaimNext(worker: string, at: int, seconds: nat)
    | Sign(id: string, worker: string, token: nat, at: int)
    | Prepare(id: string, worker: string, token: nat, attemptId: string, nonce: int, bound: bool, at: int)
    | Authorise(id: string, worker: string, token: nat, attemptId: string, at: int)
    | RecordOutcome(id: string, worker: string, token: nat, outcomeUnknown: bool, at: int)
    | ClaimReconciliation(id: string, worker: string, at: int, seconds: nat)
    | Reconcile(id: string, worker: string, token: nat, complete: bool, success: bool, resolution: Option<IncidentState>, at: int)
    | ReleaseReconciliation(id: string, worker: string, token: nat, at: int)
    | RecordFacts(incidents: seq<Incident>, parents: seq<ParentAttempt>, commands: seq<Command>, truthAt: int)

  function Before(a: Recovery, b: Recovery): bool {
    var p, q := Priority(a.order.kind), Priority(b.order.kind);
    p < q || (p == q && a.createdAt < b.createdAt)
  }

  function Priority(kind: Kind): nat {
    match kind
    case NoopFence => 0
    case CancelByCloid => 1
    case ReduceOnlyClose => 2
  }

  /** The queued recovery served next: by kind, then age, then insertion. */
  function NextQueued(rs: seq<Recovery>): (k: Option<nat>)
    ensures k.Some? ==> k.value < |rs| && rs[k.value].state == Queued
    ensures k.None? <==> forall i :: 0 <= i < |rs| ==> rs[i].state != Queued
  {
    if rs == [] then None
    else
      var rest := NextQueued(rs[..|rs| - 1]);
      var last := |rs| - 1;
      if rs[last].state == Queued && (rest.None? || Before(rs[last], rs[rest.value])) then Some(last) else rest
  }

  predicate HoldsClaim(r: Recovery, worker: string, token: nat, at: int) {
    r.lease.Some? && r.lease.value.worker == worker && r.fencing == token
    && r.lease.value.since <= at < r.lease.value.until
  }

  const MICROS := 1_000_000

  function Update(db: Db, k: nat, r: Recovery): Db
    requires k < |db.recoveries|
  {
    db.(recoveries := db.recoveries[k := r])
  }

  function ClaimNextStep(db: Db, worker: string, at: int, seconds: nat): (r: (Db, Option<nat>))
    ensures |r.0.recoveries| == |db.recoveries|
    ensures r.1.Some? ==> r.1.value < |db.recoveries|
  {
    var swept := db.(recoveries := ExpireAll(NormalizeAll(db.recoveries, at), at));
    match NextQueued(swept.recoveries)
    case None => (swept, None)
    case Some(k) =>
      var r := swept.recoveries[k];
      (Update(swept, k, r.(
         state := Claimed, lease := Some(Lease(worker, at, at + seconds * MICROS)),
         fencing := r.fencing + 1, attempt := None)), Some(k))
  }

  function SignStep(db: Db, k: nat, worker: string, token: nat, at: int): Reply
    requires k < |db.recoveries|
  {
    var r := db.recoveries[k];
    if r.state != Claimed || !HoldsClaim(r, worker, token, at) then Refused(StateConflict)
    else if r.attempt.Some? || r.attemptCount != 0 then Refused(StateConflict)
    else if at >= r.order.permitExpires then Refused(StateConflict)
    else if !IncidentOpen(db, r.order.incident) then Refused(StateConflict)
    else if r.order.kind == NoopFence && !UnknownWithNonce(db, r.order.parent, r.order.originalNonce) then
      Refused(StateConflict)
    else Done(Update(db, k, r.(state := Signing)))
  }

  predicate UnknownWithNonce(db: Db, command: string, nonce: int) {
    var k := FindParent(db.parents, command);
    k.Some? && db.parents[k.value].unknown && db.parents[k.value].nonce == nonce
  }

  function PrepareStep(db: Db, k: nat, worker: string, token: nat, attemptId: string, nonce: int, bound: bool, at: int): Reply
    requires k < |db.recoveries|
  {
    var r := db.recoveries[k];
    if r.state != Signing || !HoldsClaim(r, worker, token, at) then Refused(StateConflict)
    else if at >= r.order.permitExpires then Refused(AdmissionDenied)
    else if !bound then Refused(StateConflict)
    else if r.order.kind == NoopFence && nonce != r.order.originalNonce then Refused(StateConflict)
    else if r.attempt.Some? then Refused(StateConflict)
    else Done(Update(db, k, r.(
      attempt := Some(Attempt(attemptId, nonce, Prepared, false)), attemptCount := r.attemptCount + 1)))
  }

  /** The sole grant of the right to write to the venue: prepared to sending. */
  function AuthoriseStep(db: Db, k: nat, worker: string, token: nat, attemptId: string, at: int): Reply
    requires k < |db.recoveries|
  {
    var r := db.recoveries[k];
    if r.state != Signing || !HoldsClaim(r, worker, token, at) then Refused(StateConflict)
    else if r.attempt.None? || r.attempt.value.attemptId != attemptId then Refused(StateConflict)
    else if r.attempt.value.state != Prepared || r.attempt.value.transport then Refused(StateConflict)
    else
      var sent := r.(attempt := Some(r.attempt.value.(state := Sending)));
      Done(Update(db, k, sent).(authorised := db.authorised + [r.order]))
  }

  function RecordStep(db: Db, k: nat, worker: string, token: nat, outcomeUnknown: bool, at: int): Reply
    requires k < |db.recoveries|
  {
    var r := db.recoveries[k];
    if r.state != Signing || !HoldsClaim(r, worker, token, at) then Refused(StateConflict)
    else if r.attempt.None? || r.attempt.value.state != Sending then Refused(StateConflict)
    else
      var attempt := r.attempt.value.(
        state := if outcomeUnknown then Unknown else ResponseReceived, transport := true);
      Done(Update(db, k, r.(
        state := if outcomeUnknown then SubmittedUnknown else Reconciling, lease := None, attempt := Some(attempt))))
  }

  function ClaimReconciliationStep(db: Db, id: string, worker: string, at: int, seconds: nat): Reply {
    var swept := db.(recoveries := NormalizeAll(db.recoveries, at));
    match FindRecovery(swept.recoveries, id)
    case None => Refused(RecordNotFound)
    case Some(k) =>
      var r := swept.recoveries[k];
      if r.state != SubmittedUnknown && r.state != Reconciling then Refused(StateConflict)
      else if r.lease.Some? && at < r.lease.value.until then Refused(StateConflict)
      else Done(Update(swept, k, r.(
        state := Reconciling, lease := Some(Lease(worker, at, at + seconds * MICROS)), fencing := r.fencing + 1)))
  }

  function ReconcileStep(db: Db, k: nat, worker: string, token: nat, complete: bool, success: bool,
                         resolution: Option<IncidentState>, at: int): Reply
    requires k < |db.recoveries|
  {
    var r := db.recoveries[k];
    if resolution.Some? && (!complete || !success) then Refused(StateConflict)
    else if r.state != Reconciling || !HoldsClaim(r, worker, token, at) then Refused(StateConflict)
    else if !complete then Done(Update(db, k, r.(lease := None)))
    else
      var closed := Update(db, k, r.(state := Terminal, lease := None, fenced := success));
      var i := FindIncident(db.incidents, r.order.incident);
      if resolution.Some? && i.Some? then
        Done(closed.(incidents := db.incidents[i.value := db.incidents[i.value].(
          state := resolution.value, updatedAt := at)]))
      else Done(closed)
  }

  function ReleaseStep(db: Db, k: nat, worker: string, token: nat, at: int): Reply
    requires k < |db.recoveries|
  {
    var r := db.recoveries[k];
    if r.state != Reconciling || r.lease.None? || r.lease.value.worker != worker || r.fencing != token
      || at < r.lease.value.since
    then Refused(StateConflict)
    else Done(Update(db, k, r.(lease := None)))
  }

  /** The answer to one step; a step that names an unknown recovery is refused. */
  function Answer(db: Db, step: Step): Reply {
    match step
    case Normalize(at) => Done(db.(recoveries := ExpireAll(NormalizeAll(db.recoveries, at), at)))
    case ClaimNext(worker, at, seconds) => Done(ClaimNextStep(db, worker, at, seconds).0)
    case ClaimReconciliation(id, worker, at, seconds) => ClaimReconciliationStep(db, id, worker, at, seconds)
    case RecordFacts(incidents, parents, commands, truthAt) =>
      Done(db.(incidents := incidents, parents := parents, commands := commands, truthAt := truthAt))
    case Sign(id, worker, token, at) =>
      var k := FindRecovery(db.recoveries, id);
      if k.None? then Refused(RecordNotFound) else SignStep(db, k.value, worker, token, at)
    case Prepare(id, worker, token, attemptId, nonce, bound, at) =>
      var k := FindRecovery(db.recoveries, id);
      if k.None? then Refused(RecordNotFound)
      else PrepareStep(db, k.value, worker, token, attemptId, nonce, bound, at)
    case Authorise(id, worker, token, attemptId, at) =>
      var k := FindRecovery(db.recoveries, id);
      if k.None? then Refused(RecordNotFound) else AuthoriseStep(db, k.value, worker, token, attemptId, at)
    case RecordOutcome(id, worker, token, outcomeUnknown, at) =>
      var k := FindRecovery(db.recoveries, id);
      if k.None? then Refused(RecordNotFound) else RecordStep(db, k.value, worker, token, outcomeUnknown, at)
    case Reconcile(id, worker, token, complete, success, resolution, at) =>
      var k := FindRecovery(db.recoveries, id);
      if k.None? then Refused(RecordNotFound)
      else ReconcileStep(db, k.value, worker, token, complete, success, resolution, at)
    case ReleaseReconciliation(id, worker, token, at) =>
      var k := FindRecovery(db.recoveries, id);
      if k.None? then Refused(RecordNotFound) else ReleaseStep(db, k.value, worker, token, at)
  }

  /** One step of another process; a refused step changes nothing. */
  function Apply(db: Db, step: Step): Db {
    match Answer(db, step)
    case Done(after) => after
    case Refused(_) => db
  }

  // ----- creating authority -----

  predicate FencedBefore(db: Db, parent: string) {
    exists i :: 0 <= i < |db.recoveries| && db.recoveries[i].order.parent == parent
      && db.recoveries[i].order.kind == NoopFence && db.recoveries[i].state == Terminal && db.recoveries[i].fenced
  }

  /** A permit is accepted for an open critical incident bound to the parent; an
      unknown parent attempt admits only its own same-nonce noop until a noop has
      been reconciled successfully. */
  function RegisterPermit(db: Db, order: Order): Reply {
    var i := FindIncident(db.incidents, order.incident);
    var a := FindParent(db.parents, order.parent);
    var existing := FindPermit(db.permits, order.id);
    if i.None? then Refused(RecordNotFound)
    else if db.incidents[i.value].command != Some(order.parent) || !OpenCritical(db.incidents[i.value]) then
      Refused(StateConflict)
    else if a.Some? && db.parents[a.value].unknown && order.kind != NoopFence && !FencedBefore(db, order.parent) then
      Refused(StateConflict)
    else if order.kind == NoopFence && !UnknownWithNonce(db, order.parent, order.originalNonce) then
      Refused(StateConflict)
    else if existing.Some? then
      if db.permits[existing.value] == Permit(order, false) then Done(db) else Refused(StateConflict)
    else Done(db.(permits := db.permits + [Permit(order, false)]))
  }

  /** Consumes an issued permit and inserts its recovery, only while no other
      recovery is active. */
  function QueueRecovery(db: Db, id: string, at: int): Reply {
    var p := FindPermit(db.permits, id);
    if p.None? || db.permits[p.value].consumed then Refused(AdmissionDenied)
    else
      var order := db.permits[p.value].order;
      var i := FindIncident(db.incidents, order.incident);
      if !(order.issuedAt <= at < order.permitExpires) then Refused(AdmissionDenied)
      else if i.None? then Refused(StorageError)
      else if !OpenCritical(db.incidents[i.value]) then Refused(AdmissionDenied)
      else if !AllTerminal(db.recoveries) then Refused(StateConflict)
      else Done(db.(
        permits := db.permits[p.value := Permit(order, true)],
        recoveries := db.recoveries + [Recovery(order, at, Queued, None, 0, None, 0, false)]))
  }

  // ----- what every step keeps -----

  predicate EverSent(r: Recovery) {
    r.attempt.Some? && r.attempt.value.state != Prepared
  }

  /** One record is in a state the lifecycle allows. */
  predicate ValidRecovery(r: Recovery) {
    && r.attemptCount == (if r.attempt.Some? then 1 else 0)
    && (r.state == Queued || r.state == Claimed ==> r.attempt.None?)
    && (r.attempt.Some? && r.attempt.value.state == Prepared ==>
          !r.attempt.value.transport && (r.state == Signing || r.state == Terminal))
    && (r.attempt.Some? && r.attempt.value.state == Sending ==>
          !r.attempt.value.transport && r.state == Signing)
    && (EverSent(r) && r.attempt.value.state != Sending ==>
          r.attempt.value.transport && (r.state == SubmittedUnknown || r.state == Reconciling || r.state == Terminal))
    && (r.state == SubmittedUnknown || r.state == Reconciling ==> EverSent(r) && r.attempt.value.transport)
    && (r.attempt.Some? && r.order.kind == NoopFence ==> r.attempt.value.nonce == r.order.originalNonce)
  }

  /** What one step may do to one record: its order never changes, terminal is
      final, and a write that may have happened is never forgotten. */
  predicate Advances(r: Recovery, s: Recovery) {
    && s.order == r.order && s.createdAt == r.createdAt
    && s.fencing >= r.fencing
    && (r.state == Terminal ==> s == r)
    && (EverSent(r) ==> EverSent(s))
    && (ValidRecovery(r) ==> ValidRecovery(s))
  }

  predicate AllAdvance(rs: seq<Recovery>, ss: seq<Recovery>) {
    |rs| == |ss| && forall i :: 0 <= i < |rs| ==> Advances(rs[i], ss[i])
  }

  lemma AdvancesTwice(a: seq<Recovery>, b: seq<Recovery>, c: seq<Recovery>)
    requires AllAdvance(a, b) && AllAdvance(b, c)
    ensures AllAdvance(a, c)
  {
    hide ValidRecovery, EverSent;
  }

  predicate AllValid(rs: seq<Recovery>) {
    forall i :: 0 <= i < |rs| ==> ValidRecovery(rs[i])
  }

  lemma SweepAdvances(rs: seq<Recovery>, at: int)
    ensures AllAdvance(rs, NormalizeAll(rs, at))
    ensures AllAdvance(rs, ExpireAll(NormalizeAll(rs, at), at))
  {
    forall i | 0 <= i < |rs| ensures Advances(rs[i], NormalizeOne(rs[i], at)) {
    }
    var ns := NormalizeAll(rs, at);
    forall i | 0 <= i < |rs| ensures Advances(ns[i], ExpireOne(ns[i], at)) {
    }
    AdvancesTwice(rs, ns, ExpireAll(ns, at));
  }

  lemma UpdateAdvances(rs: seq<Recovery>, k: nat, s: Recovery)
    requires k < |rs| && Advances(rs[k], s)
    ensures AllAdvance(rs, rs[k := s])
  {
    hide ValidRecovery, EverSent;
    forall i | 0 <= i < |rs| ensures Advances(rs[i], rs[k := s][i]) {
    }
  }

  lemma ClaimAdvances(db: Db, worker: string, at: int, seconds: nat)
    requires AllValid(db.recoveries)
    ensures AllAdvance(db.recoveries, ClaimNextStep(db, worker, at, seconds).0.recoveries)
  {
    SweepAdvances(db.recoveries, at);
    var swept := ExpireAll(NormalizeAll(db.recoveries, at), at);
    var k := NextQueued(swept);
    if k.Some? {
      var claimed := ClaimNextStep(db, worker, at, seconds).0.recoveries;
      assert Advances(db.recoveries[k.value], swept[k.value]);
      UpdateAdvances(swept, k.value, claimed[k.value]);
      AdvancesTwice(db.recoveries, swept, claimed);
    }
  }

  lemma ReconciliationClaimAdvances(db: Db, id: string, worker: string, at: int, seconds: nat)
    requires ClaimReconciliationStep(db, id, worker, at, seconds).Done?
    ensures AllAdvance(db.recoveries, ClaimReconciliationStep(db, id, worker, at, seconds).db.recoveries)
  {
    SweepAdvances(db.recoveries, at);
    var swept := NormalizeAll(db.recoveries, at);
    var k := FindRecovery(swept, id).value;
    var claimed := ClaimReconciliationStep(db, id, worker, at, seconds).db.recoveries;
    UpdateAdvances(swept, k, claimed[k]);
    AdvancesTwice(db.recoveries, swept, claimed);
  }

  /** Every step of another process advances every record: no order changes, no
      terminal record is touched and no possible write is forgotten. */
  lemma StepAdvances(db: Db, step: Step)
    requires AllValid(db.recoveries)
    ensures AllAdvance(db.recoveries, Apply(db, step).recoveries)
    ensures AllValid(Apply(db, step).recoveries)
  {
    var after := Apply(db, step).recoveries;
    match step
    case Normalize(at) => SweepAdvances(db.recoveries, at);
    case ClaimNext(worker, at, seconds) => ClaimAdvances(db, worker, at, seconds);
    case ClaimReconciliation(id, worker, at, seconds) =>
      if Answer(db, step).Done? {
        ReconciliationClaimAdvances(db, id, worker, at, seconds);
      }
    case RecordFacts(_, _, _, _) =>
    case _ =>
      var k := FindRecovery(db.recoveries, step.id);
      if k.Some? && Answer(db, step).Done? {
        OneRecordAdvances(db, step, k.value);
      }
  }

  predicate Targeted(step: Step) {
    step.Sign? || step.Prepare? || step.Authorise? || step.RecordOutcome? || step.Reconcile?
    || step.ReleaseReconciliation?
  }

  /** A step that names a record changes no other record. */
  lemma OneRecordChanges(db: Db, step: Step, k: nat)
    requires Targeted(step) && FindRecovery(db.recoveries, step.id) == Some(k) && Answer(db, step).Done?
    ensures |Apply(db, step).recoveries| == |db.recoveries|
    ensures Apply(db, step).recoveries == db.recoveries[k := Apply(db, step).recoveries[k]]
  {
    hide HoldsClaim, FindIncident, FindParent, FindRecovery;
    var after := Apply(db, step).recoveries;
    assert after == db.recoveries[k := after[k]];
  }

  lemma TargetAdvances(db: Db, step: Step, k: nat)
    requires Targeted(step) && FindRecovery(db.recoveries, step.id) == Some(k) && Answer(db, step).Done?
    requires |Apply(db, step).recoveries| == |db.recoveries|
    ensures Advances(db.recoveries[k], Apply(db, step).recoveries[k])
  {
    hide HoldsClaim, FindIncident, FindParent, FindRecovery;
  }

  lemma OneRecordAdvances(db: Db, step: Step, k: nat)
    requires Targeted(step) && FindRecovery(db.recoveries, step.id) == Some(k) && Answer(db, step).Done?
    ensures |Apply(db, step).recoveries| == |db.recoveries|
    ensures Apply(db, step).recoveries == db.recoveries[k := Apply(db, step).recoveries[k]]
    ensures AllAdvance(db.recoveries, Apply(db, step).recoveries)
  {
    OneRecordChanges(db, step, k);
    TargetAdvances(db, step, k);
    hide Apply, Answer, Advances;
    UpdateAdvances(db.recoveries, k, Apply(db, step).recoveries[k]);
  }
}
