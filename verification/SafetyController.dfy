/** The account-safety controller: one evaluation inspects the account and the
    durable store and queues at most one recovery.

    Other processes may step the store between the controller's own store calls;
    what they do in each gap is a parameter.  The file lock allows one evaluation
    at a time, so no other process queues a recovery. */
module SafetyController {
  import opened Options
  import opened Ordering
  import opened RecoveryStore
  import opened RecoveryRuns
  import WirePrice

  // ----- what the controller sees -----

  datatype Position = Position(symbol: string, assetId: nat, long: bool, size: real)

  datatype OpenOrder = OpenOrder(
    symbol: string, cloid: Option<string>, sell: bool, reduceOnly: bool,
    protectiveStop: bool, wholePosition: bool, remaining: real)

  datatype Snapshot = Snapshot(
    hash: string, testnet: bool, allowlisted: bool, owner: string, intact: bool,
    serverMs: int, receivedMs: int, ageMs: int,
    positions: seq<Position>, openOrders: seq<OpenOrder>, notional: real, marginUsed: real)

  /** Best prices in units of 10^-scale, already checked for scope, age and depth. */
  datatype Market = Market(bid: nat, ask: nat, scale: nat, szDecimals: int)

  datatype Reason =
    | NetworkNotTestnet | SourceNotAllowlisted | AddressMismatch | SnapshotIntegrityFailure
    | SnapshotProvenanceInvalid | SnapshotStaleOrFuture | FlatSummaryContradiction
    | DurableStateInvalidOrStale | MultipleActiveRecoveries | ActiveScopeInvalid
    | ActiveIncidentInvalid | ActiveAllowlistInvalid | NormalizationRace
    | MultipleUnknownParents | NoopAuthorityRejected | ForeignOpenOrder | DuplicateOpenOrder
    | ForeignOpenPosition | MultipleOpenPositions | UnboundCriticalIncident
    | PositionHasNoIncident | IncidentNotAutomatable | OwnershipAmbiguous
    | ExposureIncreasingOrderOpen | FlattenRejected | CleanupHasNoIncident
    | CleanupScopeAmbiguous | CancelRejected | IncidentRequiresReconciliation
    | FailClosed

  datatype Verdict =
    | Clear
    | Queued(order: Order, priceUnits: Option<nat>)
    | Active(order: Order, prepared: bool)
    | Halted(reason: Reason)

  /** What other processes do before each of the controller's store calls. */
  datatype Gaps = Gaps(
    beforeView: seq<Step>, beforeNormalize: seq<Step>, beforeReread: seq<Step>,
    beforeSecond: seq<Step>, beforeAttempts: seq<Step>, beforeRegister: seq<Step>, beforeQueue: seq<Step>)

  predicate Quiet(g: Gaps) {
    g == Gaps([], [], [], [], [], [], [])
  }

  /** What a recovery hash is computed from. */
  datatype Material = Material(
    kind: Kind, parent: string, incident: string, source: string,
    nonce: int, expiresMs: int, cloids: set<string>, price: Option<nat>)

  const RECOVERABLE: set<string> := {
    "PROTECTION_SUBMISSION_FAILED", "PROTECTION_FAILED", "POSITION_UNDER_PROTECTED",
    "POSITION_OVER_PROTECTED", "POSITION_DIRECTION_CONTRADICTION", "RECOVERY_REQUIRED",
    "ACCOUNT_SAFETY_RECOVERY" }

  const UNKNOWN_CODE := "UNKNOWN_SUBMISSION_ALL_CLOIDS_MISSING"
  const DIRECTION_CODE := "POSITION_DIRECTION_CONTRADICTION"

  function Milliseconds(at: int): int {
    at / 1000
  }

  predicate OpenedBefore(a: Incident, b: Incident) {
    a.openedAt < b.openedAt || (a.openedAt == b.openedAt && LexLess(a.id, b.id))
  }

  // ----- reading the durable store -----

  function FindCommand(cs: seq<Command>, id: string): (k: Option<nat>)
    ensures k.Some? ==> k.value < |cs| && cs[k.value].id == id
    ensures k.None? ==> forall i :: 0 <= i < |cs| ==> cs[i].id != id
  {
    if cs == [] then None
    else if cs[|cs| - 1].id == id then Some(|cs| - 1)
    else FindCommand(cs[..|cs| - 1], id)
  }

  function KnownCloids(cs: seq<Command>): (known: set<string>)
    ensures forall c :: c in known <==> exists i :: 0 <= i < |cs| && c in cs[i].cloids
  {
    if cs == [] then {} else KnownCloids(cs[..|cs| - 1]) + cs[|cs| - 1].cloids
  }

  predicate BoundIncident(db: Db, o: Order) {
    var i := FindIncident(db.incidents, o.incident);
    i.Some? && db.incidents[i.value].command == Some(o.parent)
  }

  /** The checks a store view must pass before anything is decided from it. */
  predicate ViewOk(db: Db, s: Snapshot, at: int) {
    && (forall i :: 0 <= i < |db.recoveries| ==>
          FindCommand(db.commands, db.recoveries[i].order.parent).Some? && BoundIncident(db, db.recoveries[i].order))
    && (forall i :: 0 <= i < |db.incidents| ==>
          && (db.incidents[i].command.Some? ==> FindCommand(db.commands, db.incidents[i].command.value).Some?)
          && db.incidents[i].updatedAt <= at)
    && db.truthAt <= s.serverMs * 1000
    && (forall i :: 0 <= i < |db.commands| ==> db.commands[i].readable)
  }

  // ----- the store object -----

  class ExecutionStore {
    var db: Db
    ghost const start: Db
    ghost var moves: seq<Move>

    /** The contents are those of a legal run from a store without recoveries. */
    ghost predicate Valid()
      reads this
    {
      Fresh(start) && LegalRun(start, moves) && db == Exec(start, moves)
    }

    constructor (start: Db)
      requires Fresh(start)
      ensures Valid() && db == start && this.start == start
    {
      this.start := start;
      db := start;
      moves := [];
    }

    lemma IsSafe()
      requires Valid()
      ensures Safe(db)
    {
      RunKeepsSafe(start, moves);
    }

    /** Whatever the controller and the other processes did, at most one recovery
        is open and at most one noop per parent was authorised to send. */
    lemma FenceHolds(parent: string)
      requires Valid()
      ensures OneActive(db.recoveries) && NoopGrants(db.authorised, parent) <= 1
    {
      FenceUsedOnce(start, moves, parent);
    }

    method Step(step: Step) returns (done: bool)
      requires Valid()
      modifies this`db, this`moves
      ensures Valid() && db == Apply(old(db), step) && done == Answer(old(db), step).Done?
      ensures AllAdvance(old(db.recoveries), db.recoveries)
    {
      IsSafe();
      StepAdvances(db, step);
      RunGrows(start, moves, Other(step));
      hide LegalRun, Exec, Apply, Answer;
      moves := moves + [Other(step)];
      var answer := Answer(db, step);
      done := answer.Done?;
      db := Apply(db, step);
    }

    /** Other processes take their steps. */
    method Others(steps: seq<Step>)
      requires Valid()
      modifies this`db, this`moves
      ensures Valid() && db.permits == old(db.permits)
      ensures AllAdvance(old(db.recoveries), db.recoveries)
      ensures steps == [] ==> db == old(db)
    {
      AdvanceSame(db.recoveries);
      for i := 0 to |steps|
        invariant Valid() && db.permits == old(db.permits)
        invariant AllAdvance(old(db.recoveries), db.recoveries)
        invariant i == 0 ==> db == old(db)
      {
        ghost var before := db;
        var _ := Step(steps[i]);
        PermitsKept(before, steps[i]);
        AdvancesTwice(old(db.recoveries), before.recoveries, db.recoveries);
      }
    }

    /** Claims the next queued recovery after normalising expired claims. */
    method ClaimNext(worker: string, at: int, seconds: nat) returns (claimed: bool)
      requires Valid()
      modifies this`db, this`moves
      ensures Valid() && AllAdvance(old(db.recoveries), db.recoveries)
      ensures db.(recoveries := []) == old(db).(recoveries := [])
      ensures !claimed ==> forall i :: 0 <= i < |db.recoveries| ==> db.recoveries[i].state != State.Queued
    {
      var answer := ClaimNextStep(db, worker, at, seconds);
      var _ := Step(RecoveryStore.ClaimNext(worker, at, seconds));
      claimed := answer.1.Some?;
    }

    method RegisterPermit(order: Order) returns (refused: Option<Error>)
      requires Valid()
      modifies this`db, this`moves
      ensures Valid() && db.(permits := []) == old(db).(permits := [])
      ensures refused.None? <==> RecoveryStore.RegisterPermit(old(db), order).Done?
      ensures refused.None? ==> db == RecoveryStore.RegisterPermit(old(db), order).db
      ensures refused.None? ==>
        FindPermit(db.permits, order.id).Some? && db.permits[FindPermit(db.permits, order.id).value] == Permit(order, false)
    {
      RunGrows(start, moves, Register(order));
      moves := moves + [Register(order)];
      var answer := RecoveryStore.RegisterPermit(db, order);
      match answer
      case Done(after) =>
        RegisteredFound(db, order);
        db := after;
        refused := None;
      case Refused(error) =>
        refused := Some(error);
    }

    /** Queues the recovery of a permit.  The caller answers for the fence. */
    method QueueRecovery(id: string, at: int) returns (refused: Option<Error>)
      requires Valid() && Legal(db, Move.Queue(id, at))
      modifies this`db, this`moves
      ensures Valid()
      ensures refused.Some? ==> db == old(db)
      ensures refused.None? <==> RecoveryStore.QueueRecovery(old(db), id, at).Done?
      ensures refused.None? ==> db.(recoveries := [], permits := []) == old(db).(recoveries := [], permits := [])
      ensures refused.None? ==>
        && AllTerminal(old(db.recoveries))
        && FindPermit(old(db.permits), id).Some?
        && var order := old(db).permits[FindPermit(old(db.permits), id).value].order;
        && db.recoveries == old(db.recoveries) + [Recovery(order, at, State.Queued, None, 0, None, 0, false)]
        && IncidentOpen(old(db), order.incident)
    {
      RunGrows(start, moves, Move.Queue(id, at));
      moves := moves + [Move.Queue(id, at)];
      var answer := RecoveryStore.QueueRecovery(db, id, at);
      match answer
      case Done(after) =>
        db := after;
        refused := None;
      case Refused(error) =>
        refused := Some(error);
    }
  }

  lemma AdvanceSame(rs: seq<Recovery>)
    ensures AllAdvance(rs, rs)
  {
  }

  lemma PermitsKept(db: Db, step: Step)
    ensures Apply(db, step).permits == db.permits
  {
  }

  /** Nothing stops a registered permit from being queued while no recovery is
      open and it is in force. */
  lemma RegisteredCanQueue(db: Db, order: Order, at: int)
    requires RecoveryStore.RegisterPermit(db, order).Done? && AllTerminal(db.recoveries)
    requires order.issuedAt <= at < order.permitExpires
    ensures RecoveryStore.QueueRecovery(RecoveryStore.RegisterPermit(db, order).db, order.id, at).Done?
  {
    RegisteredFound(db, order);
  }

  lemma RegisteredFound(db: Db, order: Order)
    requires RecoveryStore.RegisterPermit(db, order).Done?
    ensures
      var after := RecoveryStore.RegisterPermit(db, order).db;
      && FindPermit(after.permits, order.id).Some?
      && after.permits[FindPermit(after.permits, order.id).value] == Permit(order, false)
  {
  }

  // ----- when a replacement noop is allowed -----

  /** Whether an earlier noop forbids another one for the same parent. */
  predicate Suppresses(r: Recovery) {
    if r.state != Terminal then true
    else if r.attemptCount == 0 then r.attempt.Some?
    else if r.attemptCount != 1 || r.attempt.None? then true
    else r.attempt.value.state != Prepared || r.attempt.value.transport
  }

  /** An earlier noop stops suppressing exactly when it is closed and was never
      sent. */
  lemma SuppressesExactly(r: Recovery)
    requires ValidRecovery(r)
    ensures Suppresses(r) <==> r.state != Terminal || EverSent(r)
  {
  }

  /** A noop allowed on an earlier view is still allowed later: other processes
      queue nothing and cannot reopen or send what is closed. */
  lemma AllowedStaysAllowed(before: seq<Recovery>, after: seq<Recovery>, order: Order)
    requires AllAdvance(before, after) && NoopAllowed(before, order)
    ensures NoopAllowed(after, order)
  {
    hide ValidRecovery, EverSent;
    assert forall i :: 0 <= i < |before| ==> Advances(before[i], after[i]);
  }

  predicate AwaitsNoop(view: Db, now: Db, i: Incident) {
    && OpenCritical(i) && i.command.Some? && i.code == UNKNOWN_CODE
    && (var k := FindParent(now.parents, i.command.value);
        k.Some? && now.parents[k.value].unknown)
    && forall j :: 0 <= j < |view.recoveries| && NoopFor(view.recoveries[j].order, i.command.value) ==>
         !Suppresses(view.recoveries[j])
  }

  datatype Candidate = NoCandidate | Ambiguous | Candidate(incident: Incident, attempt: ParentAttempt)

  /** The unknown parent attempt to fence: the oldest incident awaiting a noop,
      if all of them belong to one parent. */
  method UnknownCandidate(view: Db, now: Db, s: Snapshot) returns (c: Candidate)
    ensures c.Candidate? ==>
      && s.positions == [] && s.openOrders == []
      && c.incident in view.incidents && AwaitsNoop(view, now, c.incident)
      && c.attempt in now.parents && c.attempt.command == c.incident.command.value && c.attempt.unknown
      && FindParent(now.parents, c.attempt.command).Some?
      && now.parents[FindParent(now.parents, c.attempt.command).value] == c.attempt
      && forall i :: i in view.incidents && AwaitsNoop(view, now, i) ==>
           i.command == c.incident.command && (i == c.incident || !OpenedBefore(i, c.incident))
    ensures c.Ambiguous? ==>
      exists i, j :: i in view.incidents && j in view.incidents && AwaitsNoop(view, now, i)
        && AwaitsNoop(view, now, j) && i.command != j.command
    ensures c.NoCandidate? && s.positions == [] && s.openOrders == [] ==>
      forall i :: i in view.incidents ==> !AwaitsNoop(view, now, i)
  {
    if s.positions != [] || s.openOrders != [] {
      return NoCandidate;
    }
    var found: seq<Incident> := [];
    for k := 0 to |view.incidents|
      invariant forall i :: i in found <==> i in view.incidents[..k] && AwaitsNoop(view, now, i)
    {
      var i := view.incidents[k];
      if AwaitsNoop(view, now, i) {
        found := found + [i];
      }
    }
    assert view.incidents[..|view.incidents|] == view.incidents;
    if found == [] {
      return NoCandidate;
    }
    var best := found[0];
    for k := 1 to |found|
      invariant best in found
      invariant forall j :: 0 <= j < k ==> found[j].command == found[0].command
      invariant forall j :: 0 <= j < k ==> found[j] == best || !OpenedBefore(found[j], best)
    {
      assert found[k] in found;
      if found[k].command != found[0].command {
        assert found[0] in found;
        return Ambiguous;
      }
      if OpenedBefore(found[k], best) {
        BeforeChains(found[..k], found[k], best);
        best := found[k];
      }
    }
    var p := FindParent(now.parents, best.command.value).value;
    assert forall i :: i in found ==> exists j :: 0 <= j < |found| && found[j] == i;
    return Candidate(best, now.parents[p]);
  }

  /** Nothing that was not before `best` is before something that is. */
  lemma BeforeChains(seen: seq<Incident>, next: Incident, best: Incident)
    requires OpenedBefore(next, best)
    requires forall j :: 0 <= j < |seen| ==> seen[j] == best || !OpenedBefore(seen[j], best)
    ensures forall j :: 0 <= j < |seen| ==> !OpenedBefore(seen[j], next)
  {
    forall j | 0 <= j < |seen| ensures !OpenedBefore(seen[j], next) {
      var x := seen[j];
      LexTotal(x.id, next.id);
      if OpenedBefore(x, next) && x.openedAt == next.openedAt && next.openedAt == best.openedAt {
        LexChains(x.id, next.id, best.id);
        LexTotal(best.id, next.id);
      }
      LexTotal(next.id, best.id);
    }
  }

  /** The recoveries before and after a decision: all of them only advanced, a
      queued verdict appended its recovery while nothing else was open, and an
      active verdict reports a recovery that was open before. */
  ghost predicate Evolved(before: seq<Recovery>, after: seq<Recovery>, v: Verdict, at: int) {
    if v.Queued? then
      && |after| == |before| + 1
      && AllAdvance(before, after[..|before|])
      && AllTerminal(after[..|before|])
      && after[|before|] == Recovery(v.order, at, State.Queued, None, 0, None, 0, false)
    else AllAdvance(before, after) && (v.Active? ==> OpenIn(before, v.order))
  }

  ghost predicate OpenIn(recoveries: seq<Recovery>, order: Order) {
    exists k :: 0 <= k < |recoveries| && recoveries[k].order == order && recoveries[k].state != Terminal
  }

  lemma NothingQueued(before: seq<Recovery>, after: seq<Recovery>, v: Verdict, at: int)
    requires AllAdvance(before, after) && !v.Queued?
    requires v.Active? ==> OpenIn(before, v.order)
    ensures Evolved(before, after, v, at)
  {
  }

  lemma OneAppended(before: seq<Recovery>, mid: seq<Recovery>, after: seq<Recovery>, v: Verdict, at: int)
    requires AllAdvance(before, mid) && AllTerminal(mid) && v.Queued?
    requires after == mid + [Recovery(v.order, at, State.Queued, None, 0, None, 0, false)]
    ensures Evolved(before, after, v, at)
  {
    assert after[..|before|] == mid;
  }

  lemma StillOpen(a: seq<Recovery>, b: seq<Recovery>)
    requires AllAdvance(a, b)
    ensures AllTerminal(a) ==> AllTerminal(b)
    ensures forall order :: OpenIn(b, order) ==> OpenIn(a, order)
  {
    hide ValidRecovery, EverSent;
    assert forall i :: 0 <= i < |a| ==> Advances(a[i], b[i]);
  }

  lemma EvolvedLater(a: seq<Recovery>, b: seq<Recovery>, c: seq<Recovery>, v: Verdict, at: int)
    requires AllAdvance(a, b) && Evolved(b, c, v, at)
    ensures Evolved(a, c, v, at)
  {
    AdvancesTwice(a, b, if v.Queued? then c[..|b|] else c);
    StillOpen(a, b);
  }

  // ----- the account checks -----

  predicate ForeignOrder(known: set<string>, o: OpenOrder) {
    o.cloid.None? || o.cloid.value !in known
  }

  predicate Duplicated(orders: seq<OpenOrder>) {
    exists i, j :: 0 <= i < j < |orders| && orders[i].cloid == orders[j].cloid
  }

  /** The stop coverage of a position by one protective stop. */
  function Covered(orders: seq<OpenOrder>, p: Position, stop: string): real {
    if orders == [] then 0.0
    else
      var o := orders[|orders| - 1];
      var rest := Covered(orders[..|orders| - 1], p, stop);
      if o.symbol == p.symbol && o.cloid == Some(stop) && o.sell == p.long && o.protectiveStop then
        rest + if o.wholePosition then p.size else o.remaining
      else rest
  }

  function OrderCloids(orders: seq<OpenOrder>): (c: set<string>)
    ensures forall x :: x in c <==> exists i :: 0 <= i < |orders| && orders[i].cloid == Some(x)
  {
    if orders == [] then {}
    else
      var o := orders[|orders| - 1];
      OrderCloids(orders[..|orders| - 1]) + if o.cloid.Some? then {o.cloid.value} else {}
  }

  /** An open critical incident whose parent trades the position and whose stop
      does not cover it exactly, or faces the other way. */
  predicate Unsafe(db: Db, s: Snapshot, p: Position, i: Incident) {
    && OpenCritical(i) && i.command.Some?
    && var k := FindCommand(db.commands, i.command.value);
    && k.Some?
    && var c := db.commands[k.value];
    && c.symbol == p.symbol
    && (Covered(s.openOrders, p, c.stopCloid) != p.size || p.long != c.entryBuy)
  }

  predicate FlattenFirst(a: Incident, b: Incident) {
    var p, q := if a.code == DIRECTION_CODE then 0 else 1, if b.code == DIRECTION_CODE then 0 else 1;
    p < q || (p == q && OpenedBefore(a, b))
  }

  /** An open critical incident whose parent owns every open order. */
  predicate Owns(db: Db, s: Snapshot, i: Incident) {
    && OpenCritical(i) && i.command.Some? && i.code in RECOVERABLE
    && var k := FindCommand(db.commands, i.command.value);
    && k.Some? && OrderCloids(s.openOrders) <= db.commands[k.value].cloids
  }

  /** Everything the account must be free of before entry is safe. */
  predicate ClearAccount(db: Db, s: Snapshot) {
    && AllTerminal(db.recoveries)
    && s.positions == [] && s.openOrders == []
    && forall i :: i in db.incidents ==> !OpenCritical(i)
  }

  type Positive = n: int | n > 0 witness 1

  class SafetyController {
    const policy: string
    const owner: string
    const permitTtlSeconds: Positive
    const maxSnapshotAgeMs: nat
    const futureSkewMs: nat
    /** Basis points in units of 10^-(slippageScale + 2). */
    const slippage: nat
    const slippageScale: nat
    const allowedAssets: set<nat>
    const identify: Material -> string
    const deriveCloid: (string, string) -> string

    constructor (policy: string, owner: string, permitTtlSeconds: Positive, maxSnapshotAgeMs: nat,
                 futureSkewMs: nat, slippage: nat, slippageScale: nat, allowedAssets: set<nat>,
                 identify: Material -> string, deriveCloid: (string, string) -> string)
      ensures this.policy == policy && this.owner == owner && this.permitTtlSeconds == permitTtlSeconds
    {
      this.policy, this.owner, this.permitTtlSeconds := policy, owner, permitTtlSeconds;
      this.maxSnapshotAgeMs, this.futureSkewMs := maxSnapshotAgeMs, futureSkewMs;
      this.slippage, this.slippageScale := slippage, slippageScale;
      this.allowedAssets, this.identify, this.deriveCloid := allowedAssets, identify, deriveCloid;
    }

    /** Action and permit live equally long. */
    function ActionExpiry(at: int): int {
      Milliseconds(at) + permitTtlSeconds * 1000
    }

    function HaltReason(s: Snapshot, at: int): Option<Reason> {
      var age := Milliseconds(at) - s.serverMs;
      if !s.testnet then Some(NetworkNotTestnet)
      else if !s.allowlisted then Some(SourceNotAllowlisted)
      else if s.owner != owner then Some(AddressMismatch)
      else if !s.intact then Some(SnapshotIntegrityFailure)
      else if s.receivedMs < s.serverMs || s.ageMs != s.receivedMs - s.serverMs
        || s.receivedMs > Milliseconds(at) + futureSkewMs then Some(SnapshotProvenanceInvalid)
      else if age > maxSnapshotAgeMs || age + futureSkewMs < 0 then Some(SnapshotStaleOrFuture)
      else if s.positions == [] && (s.notional != 0.0 || s.marginUsed != 0.0) then Some(FlatSummaryContradiction)
      else None
    }

    /** The assets and client ids an active recovery may touch. */
    predicate Allowlisted(db: Db, o: Order) {
      && o.assets <= allowedAssets
      && match o.kind
         case ReduceOnlyClose => o.cloids == {deriveCloid(o.incident, o.source)}
         case CancelByCloid =>
           var k := FindCommand(db.commands, o.parent);
           k.Some? && o.cloids <= db.commands[k.value].cloids
         case NoopFence => o.cloids == {}
    }

    predicate ActionExpired(r: Recovery, at: int) {
      var permitExpiresMs := Milliseconds(r.createdAt) + permitTtlSeconds * 1000;
      Milliseconds(at) >= r.order.actionExpiresMs || Milliseconds(at) >= permitExpiresMs
    }

    predicate Normalizable(r: Recovery, at: int) {
      && ActionExpired(r, at) && r.attemptCount == 0
      && (r.state == State.Queued
          || (r.state == Claimed && (r.lease.None? || r.lease.value.until <= at)))
    }

    /** The one open recovery of the view, bound and still in force. */
    ghost predicate IsActive(view: Db, order: Order, at: int) {
      exists k :: 0 <= k < |view.recoveries| && view.recoveries[k].state != Terminal
        && view.recoveries[k].order == order && !Normalizable(view.recoveries[k], at)
        && order.policy == policy && BoundIncident(view, order) && IncidentOpen(view, order.incident) && Allowlisted(view, order)
        && forall j :: 0 <= j < |view.recoveries| && j != k ==> view.recoveries[j].state == Terminal
    }

    /** An open recovery that expired unsent is left for the rest of the decision. */
    ghost predicate LeftOver(view: Db, at: int) {
      exists k :: 0 <= k < |view.recoveries| && view.recoveries[k].state != Terminal
        && Normalizable(view.recoveries[k], at) && IncidentOpen(view, view.recoveries[k].order.incident)
    }

    /** What must hold for the open recoveries to halt an evaluation. */
    ghost predicate ActiveExplained(view: Db, at: int, why: Reason) {
      match why
      case MultipleActiveRecoveries =>
        exists i, j :: 0 <= i < j < |view.recoveries| && view.recoveries[i].state != Terminal && view.recoveries[j].state != Terminal
      case ActiveScopeInvalid =>
        exists k :: 0 <= k < |view.recoveries| && view.recoveries[k].state != Terminal && view.recoveries[k].order.policy != policy
      case ActiveIncidentInvalid =>
        exists k :: 0 <= k < |view.recoveries| && view.recoveries[k].state != Terminal
          && (!BoundIncident(view, view.recoveries[k].order) || !IncidentOpen(view, view.recoveries[k].order.incident))
      case ActiveAllowlistInvalid =>
        exists k :: 0 <= k < |view.recoveries| && view.recoveries[k].state != Terminal && !Allowlisted(view, view.recoveries[k].order)
      case NormalizationRace =>
        exists k :: 0 <= k < |view.recoveries| && view.recoveries[k].state != Terminal && Normalizable(view.recoveries[k], at)
      case _ => false
    }


    method OpenRecoveries(recoveries: seq<Recovery>) returns (active: seq<nat>)
      ensures forall x :: x in active <==> 0 <= x < |recoveries| && recoveries[x].state != Terminal
      ensures forall i, j :: 0 <= i < j < |active| ==> active[i] < active[j]
    {
      active := [];
      for k := 0 to |recoveries|
        invariant forall x :: x in active <==> 0 <= x < k && recoveries[x].state != Terminal
        invariant forall i :: 0 <= i < |active| ==> active[i] < k
        invariant forall i, j :: 0 <= i < j < |active| ==> active[i] < active[j]
      {
        if recoveries[k].state != Terminal {
          active := active + [k];
        }
      }
    }

    /** Why an open recovery is not one this controller may wait for. */
    function Unbound(view: Db, order: Order): Option<Reason> {
      if order.policy != policy then Some(ActiveScopeInvalid)
      else if !BoundIncident(view, order) || !IncidentOpen(view, order.incident) then Some(ActiveIncidentInvalid)
      else if !Allowlisted(view, order) then Some(ActiveAllowlistInvalid)
      else None
    }

    lemma TwoOpen(view: Db, at: int, active: seq<nat>)
      requires |active| > 1 && active[0] < active[1]
      requires forall x :: x in active ==> x < |view.recoveries| && view.recoveries[x].state != Terminal
      ensures ActiveExplained(view, at, MultipleActiveRecoveries)
    {
      assert active[0] in active && active[1] in active;
    }

    lemma UnboundExplains(view: Db, at: int, n: nat)
      requires n < |view.recoveries| && view.recoveries[n].state != Terminal
      requires Unbound(view, view.recoveries[n].order).Some?
      ensures ActiveExplained(view, at, Unbound(view, view.recoveries[n].order).value)
    {
    }

    lemma RaceExplains(view: Db, at: int, n: nat)
      requires n < |view.recoveries| && view.recoveries[n].state != Terminal && Normalizable(view.recoveries[n], at)
      ensures ActiveExplained(view, at, NormalizationRace)
    {
    }

    lemma SoleOpen(view: Db, at: int, n: nat)
      requires n < |view.recoveries| && view.recoveries[n].state != Terminal
      requires forall x :: 0 <= x < |view.recoveries| && x != n ==> view.recoveries[x].state == Terminal
      requires Unbound(view, view.recoveries[n].order).None?
      ensures IncidentOpen(view, view.recoveries[n].order.incident)
      ensures !Normalizable(view.recoveries[n], at) ==> IsActive(view, view.recoveries[n].order, at)
    {
    }

    /** Reports an active recovery, or normalises it away once it has expired
        without an attempt. */
    method ActiveRecovery(store: ExecutionStore, view: Db, s: Snapshot, before: seq<Step>, at: int)
      returns (v: Option<Verdict>)
      requires store.Valid()
      modifies store`db, store`moves
      ensures store.Valid() && AllAdvance(old(store.db.recoveries), store.db.recoveries)
      ensures before == [] ==> store.db.(recoveries := []) == old(store.db).(recoveries := [])
      ensures v.Some? ==> v.value.Halted? || v.value.Active?
      ensures v.Some? && v.value.Halted? ==> ActiveExplained(view, at, v.value.reason)
      ensures v.Some? && v.value.Active? ==> IsActive(view, v.value.order, at)
      ensures v.None? ==>
        AllTerminal(view.recoveries) || LeftOver(view, at)
      ensures AllTerminal(view.recoveries) ==> v.None? && store.db == old(store.db)
    {
      AdvanceSame(store.db.recoveries);
      var active := OpenRecoveries(view.recoveries);
      if |active| > 1 {
        TwoOpen(view, at, active);
        return Some(Halted(MultipleActiveRecoveries));
      }
      if active == [] {
        assert forall k :: 0 <= k < |view.recoveries| ==> k !in active;
        return None;
      }
      var n := active[0];
      assert active == [n] && n in active;
      var r := view.recoveries[n];
      var why := Unbound(view, r.order);
      if why.Some? {
        UnboundExplains(view, at, n);
        return Some(Halted(why.value));
      }
      SoleOpen(view, at, n);
      hide Unbound, ActiveExplained, IsActive;
      if Normalizable(r, at) {
        store.Others(before);
        ghost var between := store.db.recoveries;
        var claimed := store.ClaimNext("account-safety-expiry-normalizer", at, 5);
        AdvancesTwice(old(store.db.recoveries), between, store.db.recoveries);
        if claimed {
          RaceExplains(view, at, n);
          return Some(Halted(NormalizationRace));
        }
        return None;
      }
      var prepared := false;
      if r.state == State.Queued && !ActionExpired(r, at) {
        if r.order.kind == NoopFence {
          var a := FindParent(store.db.parents, r.order.parent);
          prepared := a.Some? && store.db.parents[a.value].unknown
            && store.db.parents[a.value].nonce == r.order.originalNonce
            && store.db.parents[a.value].evidence == r.order.source;
        } else {
          prepared := s.hash == r.order.source;
        }
      }
      return Some(Active(r.order, prepared));
    }

    /** Queues the recovery of a registered permit, or finds that the very same
        recovery is already open. */
    method QueueRegistered(store: ExecutionStore, order: Order, price: Option<nat>, rejected: Reason, at: int)
      returns (v: Verdict)
      requires store.Valid() && NoopAllowed(store.db.recoveries, order)
      requires FindPermit(store.db.permits, order.id).Some?
      requires store.db.permits[FindPermit(store.db.permits, order.id).value] == Permit(order, false)
      modifies store`db, store`moves
      ensures store.Valid() && !v.Clear?
      ensures Evolved(old(store.db.recoveries), store.db.recoveries, v, at)
      ensures RecoveryStore.QueueRecovery(old(store.db), order.id, at).Done? ==> v == Verdict.Queued(order, price)
      ensures v.Queued? ==> v == Verdict.Queued(order, price)
      ensures v.Halted? ==> v.reason == rejected || v.reason == FailClosed
    {
      AdvanceSame(store.db.recoveries);
      hide Evolved, AllAdvance;
      ghost var last := store.db.recoveries;
      var refused := store.QueueRecovery(order.id, at);
      if refused.None? {
        v := Verdict.Queued(order, price);
        OneAppended(last, last, store.db.recoveries, v, at);
        return;
      }
      if refused.value == StorageError {
        v := Halted(FailClosed);
      } else {
        var exact := ExactlyActive(store.db.recoveries, order);
        v := if exact.Some? then Active(exact.value, true) else Halted(rejected);
      }
      NothingQueued(last, store.db.recoveries, v, at);
    }

    /** Registers the permit of one action and queues its recovery. */
    method QueueAction(store: ExecutionStore, view: Db, order: Order, price: Option<nat>, rejected: Reason,
                       accepts: bool, gaps: Gaps, at: int) returns (v: Verdict)
      requires store.Valid() && order.issuedAt == at < order.permitExpires
      requires AllAdvance(view.recoveries, store.db.recoveries) && NoopAllowed(view.recoveries, order)
      modifies store`db, store`moves
      ensures store.Valid() && !v.Clear?
      ensures Evolved(old(store.db.recoveries), store.db.recoveries, v, at)
      ensures v.Queued? ==> v == Verdict.Queued(order, price)
      ensures Quiet(gaps) && accepts && AllTerminal(old(store.db.recoveries)) && RegisterPermit(old(store.db), order).Done? ==>
        v.Queued?
      ensures v.Halted? ==> v.reason == rejected || v.reason == FailClosed
    {
      ghost var entry, entryDb := store.db.recoveries, store.db;
      AdvanceSame(entry);
      hide Evolved, AllAdvance, NoopAllowed;
      if !accepts {
        v := Halted(rejected);
        NothingQueued(entry, store.db.recoveries, v, at);
        return;
      }
      store.Others(gaps.beforeRegister);
      ghost var first := store.db.recoveries;
      var refused := store.RegisterPermit(order);
      if refused.Some? {
        v := Halted(if refused.value == StorageError then FailClosed else rejected);
        NothingQueued(entry, store.db.recoveries, v, at);
        return;
      }
      ghost var registered := store.db;
      store.Others(gaps.beforeQueue);
      AdvancesTwice(entry, first, store.db.recoveries);
      AdvancesTwice(view.recoveries, entry, store.db.recoveries);
      AllowedStaysAllowed(view.recoveries, store.db.recoveries, order);
      if Quiet(gaps) && AllTerminal(entry) {
        RegisteredCanQueue(entryDb, order, at);
      }
      ghost var last := store.db.recoveries;
      v := QueueRegistered(store, order, price, rejected, at);
      EvolvedLater(entry, last, store.db.recoveries, v, at);
    }

    /** The one open recovery that is this very action, if there is one. */
    method ExactlyActive(recoveries: seq<Recovery>, order: Order) returns (found: Option<Order>)
      ensures found.Some? ==> found.value.id == order.id && found.value.source == order.source
      ensures found.Some? ==>
        exists k :: 0 <= k < |recoveries| && recoveries[k].order == found.value && recoveries[k].state != Terminal
    {
      var exact: seq<Recovery> := [];
      for k := 0 to |recoveries|
        invariant forall r :: r in exact ==>
          r in recoveries && r.state != Terminal && r.order.id == order.id && r.order.source == order.source
      {
        var r := recoveries[k];
        if r.state != Terminal && r.order.id == order.id && r.order.source == order.source {
          exact := exact + [r];
        }
      }
      if |exact| != 1 {
        return None;
      }
      assert exact[0] in exact;
      return Some(exact[0].order);
    }

    function OrderOf(m: Material, assets: set<nat>, at: int): Order {
      Order(identify(m), m.parent, m.incident, m.kind, policy,
            at, at + permitTtlSeconds * MICROS, m.expiresMs, m.source, m.cloids, assets, m.nonce)
    }

    function NoopOrder(i: Incident, a: ParentAttempt, at: int): Order {
      OrderOf(Material(NoopFence, a.command, i.id, a.evidence, a.nonce, ActionExpiry(at), {}, None), {}, at)
    }

    /** The incidents a flatten may act for. */
    predicate Flattenable(view: Db, s: Snapshot, i: Incident)
      requires |s.positions| == 1
    {
      i.code in RECOVERABLE && Unsafe(view, s, s.positions[0], i)
    }

    /** Why no incident can be chosen to flatten for. */
    ghost predicate FlattenUnclear(view: Db, s: Snapshot, why: Reason)
      requires |s.positions| == 1
    {
      match why
      case PositionHasNoIncident => forall i :: i in view.incidents ==> !Unsafe(view, s, s.positions[0], i)
      case IncidentNotAutomatable => forall i :: i in view.incidents ==> !Flattenable(view, s, i)
      case OwnershipAmbiguous =>
        exists i, j :: i in view.incidents && j in view.incidents && Flattenable(view, s, i)
          && Flattenable(view, s, j) && i.command != j.command
      case _ => false
    }

    /** The incident to flatten for: first a contradicted direction, then the
        oldest, as long as all of them name one parent. */
    method FlattenIncident(view: Db, s: Snapshot) returns (r: (Option<Incident>, Reason))
      requires |s.positions| == 1
      ensures r.0.Some? ==>
        && r.0.value in view.incidents && Flattenable(view, s, r.0.value)
        && forall j :: j in view.incidents && Flattenable(view, s, j) ==>
             j.command == r.0.value.command && (j == r.0.value || !FlattenFirst(j, r.0.value))
      ensures r.0.None? ==> FlattenUnclear(view, s, r.1)
    {
      hide Unsafe, FlattenFirst;
      var p := s.positions[0];
      var candidates: seq<Incident> := [];
      var supported: seq<Incident> := [];
      for k := 0 to |view.incidents|
        invariant forall i :: i in candidates <==> i in view.incidents[..k] && Unsafe(view, s, p, i)
        invariant forall i :: i in supported <==> i in view.incidents[..k] && Flattenable(view, s, i)
      {
        if Unsafe(view, s, p, view.incidents[k]) {
          candidates := candidates + [view.incidents[k]];
          if view.incidents[k].code in RECOVERABLE {
            supported := supported + [view.incidents[k]];
          }
        }
      }
      assert view.incidents[..|view.incidents|] == view.incidents;
      if candidates == [] {
        return (None, PositionHasNoIncident);
      }
      if supported == [] {
        return (None, IncidentNotAutomatable);
      }
      var best := supported[0];
      for k := 1 to |supported|
        invariant best in supported
        invariant forall j :: 0 <= j < k ==> supported[j].command == supported[0].command
        invariant forall j :: 0 <= j < k ==> supported[j] == best || !FlattenFirst(supported[j], best)
      {
        if supported[k].command != supported[0].command {
          assert supported[k] in supported && supported[0] in supported;
          return (None, OwnershipAmbiguous);
        }
        if FlattenFirst(supported[k], best) {
          FlattenChains(supported[..k], supported[k], best);
          best := supported[k];
        }
      }
      assert forall i :: i in supported ==> exists j :: 0 <= j < |supported| && supported[j] == i;
      return (Some(best), FlattenRejected);
    }

    function CloseBound(p: Position, m: Market): WirePrice.PriceResult {
      WirePrice.CloseBound(if p.long then m.bid else m.ask, m.scale, slippage, slippageScale + 2,
                           if p.long then WirePrice.Long else WirePrice.Short, m.szDecimals)
    }

    /** Why a chosen incident still cannot be flattened for. */
    ghost predicate FlattenBlocked(view: Db, s: Snapshot, market: Option<Market>, why: Reason)
      requires |s.positions| == 1
    {
      match why
      case ExposureIncreasingOrderOpen => exists k :: 0 <= k < |s.openOrders| && !s.openOrders[k].reduceOnly
      case FlattenRejected =>
        || market.None?
        || CloseBound(s.positions[0], market.value).Rejected?
        || exists i :: i in view.incidents && Flattenable(view, s, i) && CloidUsed(view, s, deriveCloid(i.id, s.hash))
      case _ => false
    }

    /** The open position is flattened in full, bounded by the book, unless the
        incident, the orders, the price or the client id is unclear. */
    method Flatten(view: Db, s: Snapshot, market: Option<Market>, at: int)
      returns (r: (Option<Order>, Option<nat>, Reason))
      requires |s.positions| == 1
      ensures r.0.Some? ==> Flattens(view, s, market, at, r.0.value, r.1)
      ensures r.0.None? ==> FlattenUnclear(view, s, r.2) || FlattenBlocked(view, s, market, r.2)
    {
      hide Unsafe, FlattenFirst, CloseBound;
      var p := s.positions[0];
      var chosen := FlattenIncident(view, s);
      if chosen.0.None? {
        return (None, None, chosen.1);
      }
      var best := chosen.0.value;
      if exists k :: 0 <= k < |s.openOrders| && !s.openOrders[k].reduceOnly {
        return (None, None, ExposureIncreasingOrderOpen);
      }
      if market.None? || CloseBound(p, market.value).Rejected? {
        return (None, None, FlattenRejected);
      }
      var price := CloseBound(p, market.value).units;
      var cloid := deriveCloid(best.id, s.hash);
      if CloidUsed(view, s, cloid) {
        return (None, None, FlattenRejected);
      }
      FlattenableBound(view, s, best);
      var order := OrderOf(Material(ReduceOnlyClose, best.command.value, best.id, s.hash, 0,
        ActionExpiry(at), {cloid}, Some(price)), {p.assetId}, at);
      return (Some(order), Some(price), FlattenRejected);
    }

    lemma FlattenableBound(view: Db, s: Snapshot, i: Incident)
      requires |s.positions| == 1 && Flattenable(view, s, i)
      ensures i.command.Some? && OpenCritical(i)
    {
    }

    ghost predicate Flattens(view: Db, s: Snapshot, market: Option<Market>, at: int, order: Order, price: Option<nat>)
      requires |s.positions| == 1
    {
      && order.kind == ReduceOnlyClose && order.source == s.hash && order.assets == {s.positions[0].assetId}
      && order.issuedAt == at < order.permitExpires
      && (exists i :: i in view.incidents && i.id == order.incident && i.command == Some(order.parent)
            && Flattenable(view, s, i)
            && forall j :: j in view.incidents && Flattenable(view, s, j) ==>
                 j.command == i.command && (j == i || !FlattenFirst(j, i)))
      && (forall k :: 0 <= k < |s.openOrders| ==> s.openOrders[k].reduceOnly)
      && market.Some? && price.Some?
      && CloseBound(s.positions[0], market.value) == WirePrice.Price(price.value)
      && (forall c :: c in order.cloids ==> !CloidUsed(view, s, c))
    }

    predicate CloidUsed(view: Db, s: Snapshot, cloid: string) {
      || cloid in KnownCloids(view.commands)
      || cloid in OrderCloids(s.openOrders)
      || exists k :: 0 <= k < |view.recoveries| && view.recoveries[k].order.kind == ReduceOnlyClose
           && cloid in view.recoveries[k].order.cloids
    }

    /** Why the open orders of a flat account cannot be cancelled. */
    ghost predicate CleanupUnclear(view: Db, s: Snapshot, why: Reason) {
      match why
      case CleanupHasNoIncident => forall i :: i in view.incidents ==> !Owns(view, s, i)
      case CleanupScopeAmbiguous =>
        || |s.openOrders| > 20
        || exists i, j :: i in view.incidents && j in view.incidents && Owns(view, s, i) && Owns(view, s, j)
             && i.command != j.command
      case _ => false
    }

    /** On a flat account all open orders are cancelled for the oldest incident
        whose parent owns every one of them. */
    method Cleanup(view: Db, s: Snapshot, at: int) returns (r: (Option<Order>, Reason))
      ensures r.0.Some? ==>
        && r.0.value.kind == CancelByCloid && r.0.value.source == s.hash
        && r.0.value.cloids == OrderCloids(s.openOrders) && |s.openOrders| <= 20
        && r.0.value.issuedAt == at < r.0.value.permitExpires
        && exists i :: i in view.incidents && i.id == r.0.value.incident && i.command == Some(r.0.value.parent)
             && Owns(view, s, i)
             && forall j :: j in view.incidents && Owns(view, s, j) ==>
                  j.command == i.command && (j == i || !OpenedBefore(j, i))
      ensures r.0.None? ==> CleanupUnclear(view, s, r.1)
    {
      var candidates: seq<Incident> := [];
      for k := 0 to |view.incidents|
        invariant forall i :: i in candidates <==> i in view.incidents[..k] && Owns(view, s, i)
      {
        if Owns(view, s, view.incidents[k]) {
          candidates := candidates + [view.incidents[k]];
        }
      }
      assert view.incidents[..|view.incidents|] == view.incidents;
      if candidates == [] {
        return (None, CleanupHasNoIncident);
      }
      if |s.openOrders| > 20 {
        return (None, CleanupScopeAmbiguous);
      }
      var best := candidates[0];
      for k := 1 to |candidates|
        invariant best in candidates
        invariant forall j :: 0 <= j < k ==> candidates[j].command == candidates[0].command
        invariant forall j :: 0 <= j < k ==> candidates[j] == best || !OpenedBefore(candidates[j], best)
      {
        if candidates[k].command != candidates[0].command {
          assert candidates[k] in candidates && candidates[0] in candidates;
          return (None, CleanupScopeAmbiguous);
        }
        if OpenedBefore(candidates[k], best) {
          BeforeChains(candidates[..k], candidates[k], best);
          best := candidates[k];
        }
      }
      assert forall i :: i in candidates ==> exists j :: 0 <= j < |candidates| && candidates[j] == i;
      var order := OrderOf(Material(CancelByCloid, best.command.value, best.id, s.hash, 0,
        ActionExpiry(at), OrderCloids(s.openOrders), None), {}, at);
      return (Some(order), CancelRejected);
    }

    /** The account is flat and its oldest ambiguous entry attempt gets its
        same-nonce noop. */
    ghost predicate Fences(view: Db, s: Snapshot, order: Order) {
      && s.positions == [] && s.openOrders == []
      && order.kind == NoopFence && order.cloids == {}
      && NoopAllowed(view.recoveries, order)
      && exists i :: i in view.incidents && OpenCritical(i) && i.id == order.incident
           && i.command == Some(order.parent) && i.code == UNKNOWN_CODE
    }

    ghost predicate Cancels(view: Db, s: Snapshot, order: Order) {
      && s.positions == [] && order.kind == CancelByCloid
      && order.source == s.hash && order.cloids == OrderCloids(s.openOrders) && |s.openOrders| <= 20
      && exists i :: i in view.incidents && i.id == order.incident && i.command == Some(order.parent)
           && Owns(view, s, i)
           && forall j :: j in view.incidents && Owns(view, s, j) ==>
                j.command == i.command && (j == i || !OpenedBefore(j, i))
    }

    /** Every recovery is created for an open critical incident bound to its
        parent, and for one of three reasons. */
    ghost predicate Justified(view: Db, s: Snapshot, market: Option<Market>, at: int, order: Order, price: Option<nat>) {
      || Fences(view, s, order)
      || (|s.positions| == 1 && Flattens(view, s, market, at, order, price))
      || Cancels(view, s, order)
    }

    /** The store would refuse the permit of a justified recovery. */
    ghost predicate PermitRefused(view: Db, s: Snapshot, market: Option<Market>, at: int) {
      exists order, price :: Justified(view, s, market, at, order, price) && RegisterPermit(view, order).Refused?
    }

    ghost predicate AccountUnclear(view: Db, s: Snapshot, why: Reason) {
      match why
      case ForeignOpenOrder =>
        exists k :: 0 <= k < |s.openOrders| && ForeignOrder(KnownCloids(view.commands), s.openOrders[k])
      case DuplicateOpenOrder => Duplicated(s.openOrders)
      case ForeignOpenPosition => exists k :: 0 <= k < |s.positions| && s.positions[k].assetId !in allowedAssets
      case MultipleOpenPositions => |s.positions| > 1
      case UnboundCriticalIncident => exists i :: i in view.incidents && OpenCritical(i) && i.command.None?
      case _ => false
    }

    /** What must hold for an undisturbed evaluation to halt for this reason when
        no recovery is open and the action builder accepts. */
    ghost predicate Explained(view: Db, s: Snapshot, market: Option<Market>, at: int, why: Reason) {
      match why
      case MultipleUnknownParents =>
        exists i, j :: i in view.incidents && j in view.incidents && AwaitsNoop(view, view, i)
          && AwaitsNoop(view, view, j) && i.command != j.command
      case IncidentRequiresReconciliation =>
        && s.positions == [] && s.openOrders == []
        && (exists i :: i in view.incidents && OpenCritical(i))
        && forall i :: i in view.incidents ==> !AwaitsNoop(view, view, i)
      case _ =>
        || AccountUnclear(view, s, why)
        || PermitRefused(view, s, market, at)
        || (|s.positions| == 1 && (FlattenUnclear(view, s, why) || FlattenBlocked(view, s, market, why)))
        || (s.positions == [] && s.openOrders != [] && CleanupUnclear(view, s, why))
    }

    /** Other processes step, then a justified recovery is queued. */
    method QueueJustified(store: ExecutionStore, view: Db, s: Snapshot, market: Option<Market>, order: Order,
                          price: Option<nat>, rejected: Reason, accepts: bool, gaps: Gaps, at: int)
      returns (v: Verdict)
      requires store.Valid() && order.issuedAt == at < order.permitExpires
      requires AllAdvance(view.recoveries, store.db.recoveries) && NoopAllowed(view.recoveries, order)
      requires Justified(view, s, market, at, order, price)
      modifies store`db, store`moves
      ensures store.Valid() && !v.Clear?
      ensures Evolved(old(store.db.recoveries), store.db.recoveries, v, at)
      ensures v.Queued? ==> v.order == order && v.priceUnits == price
      ensures Quiet(gaps) && accepts && AllTerminal(view.recoveries) && view == old(store.db) && v.Halted? ==>
        PermitRefused(view, s, market, at) && (v.reason == rejected || v.reason == FailClosed)
    {
      hide Justified, AllAdvance, NoopAllowed, RegisterPermit, Evolved;
      v := QueueAction(store, view, order, price, rejected, accepts, gaps, at);
    }

    /** The account checks that come before any flatten or cancel. */
    method CheckAccount(view: Db, s: Snapshot) returns (why: Option<Reason>)
      ensures why.Some? ==> AccountUnclear(view, s, why.value)
      ensures why.None? ==> |s.positions| <= 1
    {
      hide OpenCritical;
      if exists k :: 0 <= k < |s.openOrders| && ForeignOrder(KnownCloids(view.commands), s.openOrders[k]) {
        return Some(ForeignOpenOrder);
      }
      if Duplicated(s.openOrders) {
        return Some(DuplicateOpenOrder);
      }
      if exists k :: 0 <= k < |s.positions| && s.positions[k].assetId !in allowedAssets {
        return Some(ForeignOpenPosition);
      }
      if |s.positions| > 1 {
        return Some(MultipleOpenPositions);
      }
      if exists k :: 0 <= k < |view.incidents| && OpenCritical(view.incidents[k]) && view.incidents[k].command.None? {
        return Some(UnboundCriticalIncident);
      }
      return None;
    }

    /** The decision for an open position. */
    method DecidePosition(store: ExecutionStore, view: Db, s: Snapshot, market: Option<Market>, accepts: bool,
                          gaps: Gaps, at: int) returns (v: Verdict)
      requires store.Valid() && |s.positions| == 1
      requires AllAdvance(view.recoveries, store.db.recoveries)
      modifies store`db, store`moves
      ensures store.Valid() && !v.Clear?
      ensures Quiet(gaps) && accepts && AllTerminal(view.recoveries) && view == old(store.db) && v.Halted? ==>
        Explained(view, s, market, at, v.reason)
      ensures Evolved(old(store.db.recoveries), store.db.recoveries, v, at)
      ensures v.Queued? ==> Justified(view, s, market, at, v.order, v.priceUnits)
    {
      ghost var entry := store.db.recoveries;
      AdvanceSame(entry);
      var flat := Flatten(view, s, market, at);
      if flat.0.None? {
        v := Halted(flat.2);
        NothingQueued(entry, store.db.recoveries, v, at);
        FlattenExplains(view, s, market, at, flat.2);
        return;
      }
      NotANoop(view, s, market, at, flat.0.value, flat.1);
      hide Flattens, Evolved, AllAdvance, NoopAllowed, PermitRefused, FlattenUnclear, FlattenBlocked;
      v := QueueJustified(store, view, s, market, flat.0.value, flat.1, FlattenRejected, accepts, gaps, at);
    }

    lemma FlattenExplains(view: Db, s: Snapshot, market: Option<Market>, at: int, why: Reason)
      requires |s.positions| == 1 && (FlattenUnclear(view, s, why) || FlattenBlocked(view, s, market, why))
      ensures Explained(view, s, market, at, why)
    {
    }

    /** The decision for a flat account with open orders. */
    method DecideOrders(store: ExecutionStore, view: Db, s: Snapshot, market: Option<Market>, accepts: bool,
                        gaps: Gaps, at: int) returns (v: Verdict)
      requires store.Valid() && s.positions == [] && s.openOrders != []
      requires AllAdvance(view.recoveries, store.db.recoveries)
      modifies store`db, store`moves
      ensures store.Valid() && !v.Clear?
      ensures Quiet(gaps) && accepts && AllTerminal(view.recoveries) && view == old(store.db) && v.Halted? ==>
        Explained(view, s, market, at, v.reason)
      ensures Evolved(old(store.db.recoveries), store.db.recoveries, v, at)
      ensures v.Queued? ==> Justified(view, s, market, at, v.order, v.priceUnits)
    {
      ghost var entry := store.db.recoveries;
      AdvanceSame(entry);
      var clean := Cleanup(view, s, at);
      if clean.0.None? {
        v := Halted(clean.1);
        NothingQueued(entry, store.db.recoveries, v, at);
        return;
      }
      CancelIsNoNoop(view, clean.0.value);
      assert Cancels(view, s, clean.0.value);
      hide Cancels, Owns, Evolved, AllAdvance, NoopAllowed, PermitRefused, CleanupUnclear;
      v := QueueJustified(store, view, s, market, clean.0.value, None, CancelRejected, accepts, gaps, at);
    }

    /** The decision when no entry attempt awaits a noop. */
    method DecideWithoutUnknown(store: ExecutionStore, view: Db, s: Snapshot, market: Option<Market>, accepts: bool,
                                gaps: Gaps, at: int) returns (v: Verdict)
      requires store.Valid()
      requires AllAdvance(view.recoveries, store.db.recoveries)
      requires AllTerminal(view.recoveries) || exists i :: i in view.incidents && OpenCritical(i)
      requires view == store.db && s.positions == [] && s.openOrders == [] ==>
        forall i :: i in view.incidents ==> !AwaitsNoop(view, view, i)
      modifies store`db, store`moves
      ensures store.Valid()
      ensures v.Clear? <==> ClearAccount(view, s)
      ensures Quiet(gaps) && accepts && AllTerminal(view.recoveries) && view == old(store.db) && v.Halted? ==>
        Explained(view, s, market, at, v.reason)
      ensures Evolved(old(store.db.recoveries), store.db.recoveries, v, at)
      ensures v.Queued? ==> Justified(view, s, market, at, v.order, v.priceUnits)
    {
      ghost var entry := store.db.recoveries;
      AdvanceSame(entry);
      hide AwaitsNoop, OpenCritical, Evolved, AllAdvance, Justified, FlattenUnclear, FlattenBlocked, CleanupUnclear,
        PermitRefused;
      var unclear := CheckAccount(view, s);
      if unclear.Some? {
        v := Halted(unclear.value);
        UnclearExplains(view, s, market, at, unclear.value);
        NothingQueued(entry, store.db.recoveries, v, at);
      } else if s.positions != [] {
        v := DecidePosition(store, view, s, market, accepts, gaps, at);
      } else if s.openOrders != [] {
        v := DecideOrders(store, view, s, market, accepts, gaps, at);
      } else {
        if exists k :: 0 <= k < |view.incidents| && OpenCritical(view.incidents[k]) {
          v := Halted(IncidentRequiresReconciliation);
        } else {
          assert forall i :: i in view.incidents ==> !OpenCritical(i);
          v := Clear;
        }
        NothingQueued(entry, store.db.recoveries, v, at);
      }
    }

    lemma UnclearExplains(view: Db, s: Snapshot, market: Option<Market>, at: int, why: Reason)
      requires AccountUnclear(view, s, why)
      ensures Explained(view, s, market, at, why)
      ensures !ClearAccount(view, s)
    {
    }

    /** What the rest of the evaluation decides once no recovery is active. */
    method DecideAccount(store: ExecutionStore, view: Db, s: Snapshot, market: Option<Market>, accepts: bool,
                         gaps: Gaps, at: int) returns (v: Verdict)
      requires store.Valid()
      requires AllAdvance(view.recoveries, store.db.recoveries)
      requires AllTerminal(view.recoveries) || exists i :: i in view.incidents && OpenCritical(i)
      modifies store`db, store`moves
      ensures store.Valid()
      ensures v.Clear? <==> ClearAccount(view, s)
      ensures Quiet(gaps) && accepts && AllTerminal(view.recoveries) && view == old(store.db) && v.Halted? ==>
        Explained(view, s, market, at, v.reason)
      ensures Evolved(old(store.db.recoveries), store.db.recoveries, v, at)
      ensures v.Queued? ==> Justified(view, s, market, at, v.order, v.priceUnits)
    {
      hide OpenCritical, Suppresses, AllAdvance, AllTerminal, AwaitsNoop, Evolved, NoopAllowed, Justified, Explained;
      ghost var entry := store.db.recoveries;
      store.Others(gaps.beforeAttempts);
      AdvancesTwice(view.recoveries, entry, store.db.recoveries);
      ghost var later := store.db.recoveries;
      var c := UnknownCandidate(view, store.db, s);
      if c.NoCandidate? {
        v := DecideWithoutUnknown(store, view, s, market, accepts, gaps, at);
      } else {
        UnknownIsNotClear(view, store.db, s, market, at, c);
        if c.Ambiguous? {
          v := Halted(MultipleUnknownParents);
          NothingQueued(later, later, v, at) by { AdvanceSame(later); }
        } else {
          var order := NoopOrder(c.incident, c.attempt, at);
          NoopIsAllowed(view, store.db, c.incident, order);
          FencesForCandidate(view, store.db, s, market, at, c.incident, order);
          v := QueueJustified(store, view, s, market, order, None, NoopAuthorityRejected, accepts, gaps, at);
          if PermitRefused(view, s, market, at) {
            RefusalExplains(view, s, market, at, NoopAuthorityRejected);
            RefusalExplains(view, s, market, at, FailClosed);
          }
        }
      }
      EvolvedLater(entry, later, store.db.recoveries, v, at);
    }

    lemma RefusalExplains(view: Db, s: Snapshot, market: Option<Market>, at: int, why: Reason)
      requires PermitRefused(view, s, market, at) && (why == NoopAuthorityRejected || why == FailClosed)
      ensures Explained(view, s, market, at, why)
    {
    }

    lemma UnknownIsNotClear(view: Db, now: Db, s: Snapshot, market: Option<Market>, at: int, c: Candidate)
      requires
        || (c.Candidate? && c.incident in view.incidents && AwaitsNoop(view, now, c.incident))
        || exists i, j :: i in view.incidents && j in view.incidents && AwaitsNoop(view, now, i)
             && AwaitsNoop(view, now, j) && i.command != j.command
      ensures !ClearAccount(view, s)
      ensures c.Ambiguous? && now == view ==> Explained(view, s, market, at, MultipleUnknownParents)
    {
    }

    lemma FencesForCandidate(view: Db, now: Db, s: Snapshot, market: Option<Market>, at: int, i: Incident, order: Order)
      requires s.positions == [] && s.openOrders == [] && i in view.incidents && AwaitsNoop(view, now, i)
      requires order.kind == NoopFence && order.cloids == {} && order.parent == i.command.value && order.incident == i.id
      requires NoopAllowed(view.recoveries, order)
      ensures Justified(view, s, market, at, order, None)
    {
      assert Fences(view, s, order);
    }

    lemma NotANoop(view: Db, s: Snapshot, market: Option<Market>, at: int, order: Order, price: Option<nat>)
      requires |s.positions| == 1 && Flattens(view, s, market, at, order, price)
      ensures NoopAllowed(view.recoveries, order) && order.issuedAt == at < order.permitExpires
    {
    }

    lemma CancelIsNoNoop(view: Db, order: Order)
      requires order.kind == CancelByCloid
      ensures NoopAllowed(view.recoveries, order)
    {
    }

    lemma NoopIsAllowed(view: Db, now: Db, i: Incident, order: Order)
      requires AwaitsNoop(view, now, i) && order.parent == i.command.value
      ensures NoopAllowed(view.recoveries, order)
    {
    }

    lemma ActiveIsOpen(view: Db, at: int)
      ensures forall order :: IsActive(view, order, at) ==> OpenIn(view.recoveries, order)
    {
    }

    /** The store view to decide from, or what an open recovery makes of it.  A
        recovery that expired unsent is normalised away and the store read again. */
    method FindActive(store: ExecutionStore, s: Snapshot, gaps: Gaps, at: int) returns (v: Option<Verdict>, view: Db)
      requires store.Valid()
      modifies store`db, store`moves
      ensures store.Valid() && AllAdvance(old(store.db.recoveries), store.db.recoveries)
      ensures AllAdvance(old(store.db.recoveries), view.recoveries) && AllAdvance(view.recoveries, store.db.recoveries)
      ensures v.None? ==>
        && ViewOk(view, s, at)
        && (AllTerminal(view.recoveries) || LeftOver(view, at))
      ensures v.Some? ==> v.value.Halted? || v.value.Active?
      ensures v.Some? && ViewOk(view, s, at) ==> !AllTerminal(view.recoveries)
      ensures v.Some? && v.value.Active? ==>
        ViewOk(view, s, at) && IsActive(view, v.value.order, at) && OpenIn(old(store.db.recoveries), v.value.order)
      ensures v.Some? && v.value.Halted? && ViewOk(view, s, at) ==> ActiveExplained(view, at, v.value.reason)
      ensures Quiet(gaps) ==> view.(recoveries := []) == old(store.db).(recoveries := [])
      ensures Quiet(gaps) && AllTerminal(old(store.db.recoveries)) ==> view == store.db == old(store.db)
    {
      hide ViewOk, IsActive, ActiveExplained, Normalizable, Advances;
      ghost var entry := store.db.recoveries;
      AdvanceSame(entry);
      store.Others(gaps.beforeView);
      view := store.db;
      StillOpen(entry, view.recoveries);
      AdvanceSame(view.recoveries);
      if !ViewOk(view, s, at) {
        return Some(Halted(DurableStateInvalidOrStale)), view;
      }
      v := ActiveRecovery(store, view, s, gaps.beforeNormalize, at);
      ActiveIsOpen(view, at);
      AdvancesTwice(entry, view.recoveries, store.db.recoveries);
      if v.Some? || AllTerminal(view.recoveries) {
        return;
      }
      ghost var between := store.db.recoveries;
      store.Others(gaps.beforeReread);
      AdvancesTwice(entry, between, store.db.recoveries);
      view := store.db;
      StillOpen(entry, view.recoveries);
      AdvanceSame(view.recoveries);
      if !ViewOk(view, s, at) {
        return Some(Halted(FailClosed)), view;
      }
      v := ActiveRecovery(store, view, s, gaps.beforeSecond, at);
      ActiveIsOpen(view, at);
      AdvancesTwice(entry, view.recoveries, store.db.recoveries);
    }

    /** One evaluation.  `seen` is the store view it decides from. */
    method Evaluate(store: ExecutionStore, s: Snapshot, market: Option<Market>, accepts: bool, gaps: Gaps, at: int)
      returns (v: Verdict, ghost seen: Db)
      requires store.Valid()
      modifies store`db, store`moves
      ensures store.Valid()
      ensures v.Clear? <==> HaltReason(s, at).None? && ViewOk(seen, s, at) && ClearAccount(seen, s)
      ensures Quiet(gaps) ==> seen.(recoveries := []) == old(store.db).(recoveries := [])
      ensures
        && Quiet(gaps) && accepts && AllTerminal(old(store.db.recoveries)) && HaltReason(s, at).None?
        && ViewOk(old(store.db), s, at) && v.Halted? ==>
          Explained(old(store.db), s, market, at, v.reason)
      ensures Evolved(old(store.db.recoveries), store.db.recoveries, v, at)
      ensures v.Queued? ==> Justified(seen, s, market, at, v.order, v.priceUnits)
      ensures v.Active? ==> ViewOk(seen, s, at) && (IsActive(seen, v.order, at) || LeftOver(seen, at))
      ensures HaltReason(s, at).Some? ==> v == Halted(HaltReason(s, at).value) && store.db == old(store.db)
      ensures Quiet(gaps) && AllTerminal(old(store.db.recoveries)) ==> seen == old(store.db)
      // The view is one the store went through: steps only advance to it and from it.
      ensures AllAdvance(old(store.db.recoveries), seen.recoveries)
      ensures Evolved(seen.recoveries, store.db.recoveries, v, at)
      ensures v.Clear? ==> AllTerminal(store.db.recoveries)
    {
      hide *;
      ghost var entry := store.db.recoveries;
      AdvanceSame(entry);
      seen := store.db;
      var halt := HaltReason(s, at);
      if halt.Some? {
        NothingQueued(entry, entry, Halted(halt.value), at);
        return Halted(halt.value), seen;
      }
      var active, view := FindActive(store, s, gaps, at);
      seen := view;
      if active.Some? {
        NothingQueued(entry, store.db.recoveries, active.value, at);
        NotClear(view, s);
        ActiveIsOpen(view, at);
        NothingQueued(view.recoveries, store.db.recoveries, active.value, at);
        return active.value, seen;
      }
      ghost var last := store.db.recoveries;
      StillOpen(view.recoveries, last);
      OpenIncidentListed(view, at);
      v := DecideAccount(store, view, s, market, accepts, gaps, at);
      ActiveNeedsOpen(last, store.db.recoveries, v, at);
      EvolvedLater(entry, last, store.db.recoveries, v, at);
      EvolvedLater(view.recoveries, last, store.db.recoveries, v, at);
      ClearMeansTerminal(view, s, store.db.recoveries, v, at);
    }

    lemma ClearMeansTerminal(view: Db, s: Snapshot, after: seq<Recovery>, v: Verdict, at: int)
      requires Evolved(view.recoveries, after, v, at)
      ensures ClearAccount(view, s) && !v.Queued? ==> AllTerminal(after)
    {
      if !v.Queued? {
        StillOpen(view.recoveries, after);
      }
    }

    lemma NotClear(view: Db, s: Snapshot)
      ensures !AllTerminal(view.recoveries) ==> !ClearAccount(view, s)
    {
    }

    lemma OpenIncidentListed(view: Db, at: int)
      ensures LeftOver(view, at) ==> exists i :: i in view.incidents && OpenCritical(i)
    {
    }

    lemma ActiveNeedsOpen(before: seq<Recovery>, after: seq<Recovery>, v: Verdict, at: int)
      requires Evolved(before, after, v, at)
      ensures v.Active? ==> !AllTerminal(before)
    {
    }
  }

  lemma FlattenChains(seen: seq<Incident>, next: Incident, best: Incident)
    requires FlattenFirst(next, best)
    requires forall j :: 0 <= j < |seen| ==> seen[j] == best || !FlattenFirst(seen[j], best)
    ensures forall j :: 0 <= j < |seen| ==> !FlattenFirst(seen[j], next)
  {
    forall j | 0 <= j < |seen| ensures !FlattenFirst(seen[j], next) {
      var x := seen[j];
      if x.code == next.code == best.code || (x.code != DIRECTION_CODE && best.code != DIRECTION_CODE) {
      }
      if OpenedBefore(next, best) && (x == best || !OpenedBefore(x, best)) {
        BeforeChains([x], next, best);
        assert !OpenedBefore([x][0], next);
      }
    }
  }
}
