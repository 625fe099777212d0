/** Runs of the recovery outbox: at most one same-nonce noop fence per parent is
    ever given the right to write to the venue. */
module RecoveryRuns {
  import opened Options
  import opened RecoveryStore

  // ----- counting grants -----

  predicate NoopFor(order: Order, parent: string) {
    order.kind == NoopFence && order.parent == parent
  }

  /** How often a noop fence of this parent was authorised to send. */
  function NoopGrants(grants: seq<Order>, parent: string): nat {
    if grants == [] then 0
    else NoopGrants(grants[..|grants| - 1], parent) + if NoopFor(grants[|grants| - 1], parent) then 1 else 0
  }

  function SentNoops(rs: seq<Recovery>, parent: string): nat {
    if rs == [] then 0
    else
      SentNoops(rs[..|rs| - 1], parent)
      + if NoopFor(rs[|rs| - 1].order, parent) && EverSent(rs[|rs| - 1]) then 1 else 0
  }

  lemma {:induction false} SameSent(a: seq<Recovery>, b: seq<Recovery>, parent: string)
    requires |a| == |b|
    requires forall i :: 0 <= i < |a| ==> a[i].order == b[i].order && EverSent(a[i]) == EverSent(b[i])
    ensures SentNoops(a, parent) == SentNoops(b, parent)
  {
    if a != [] {
      SameSent(a[..|a| - 1], b[..|b| - 1], parent);
    }
  }

  lemma {:induction false} OneMoreSent(rs: seq<Recovery>, k: nat, r: Recovery, parent: string)
    requires k < |rs| && r.order == rs[k].order && !EverSent(rs[k]) && EverSent(r)
    ensures SentNoops(rs[k := r], parent) ==
      SentNoops(rs, parent) + if NoopFor(r.order, parent) then 1 else 0
    decreases |rs|
  {
    var init := rs[..|rs| - 1];
    if k == |rs| - 1 {
      assert rs[k := r][..|rs| - 1] == init;
    } else {
      assert rs[k := r][..|rs| - 1] == init[k := r];
      OneMoreSent(init, k, r, parent);
    }
  }

  // ----- the invariant -----

  predicate OneActive(rs: seq<Recovery>) {
    forall i, j :: 0 <= i < j < |rs| ==> rs[i].state == Terminal || rs[j].state == Terminal
  }

  predicate Rivals(a: Recovery, b: Recovery) {
    a.order.kind == NoopFence && b.order.kind == NoopFence && a.order.parent == b.order.parent
  }

  /** A noop that may have been sent leaves every other noop of its parent closed
      and never sent. */
  predicate NoopsExclusive(rs: seq<Recovery>) {
    forall i, j :: 0 <= i < |rs| && 0 <= j < |rs| && i != j && Rivals(rs[i], rs[j]) && EverSent(rs[i]) ==>
      rs[j].state == Terminal && !EverSent(rs[j])
  }

  ghost predicate GrantsMatch(db: Db) {
    forall parent :: NoopGrants(db.authorised, parent) == SentNoops(db.recoveries, parent)
  }

  ghost predicate Safe(db: Db) {
    && AllValid(db.recoveries)
    && OneActive(db.recoveries)
    && NoopsExclusive(db.recoveries)
    && GrantsMatch(db)
  }

  /** No earlier noop of the parent was ever sent or is still open. */
  predicate NoopAllowed(rs: seq<Recovery>, order: Order) {
    order.kind == NoopFence ==>
      forall i :: 0 <= i < |rs| && NoopFor(rs[i].order, order.parent) ==> rs[i].state == Terminal && !EverSent(rs[i])
  }

  /** One move of the system: a step of another process, or the controller
      registering a permit or queueing the recovery it authorises. */
  datatype Move = Other(step: Step) | Register(order: Order) | Queue(id: string, at: int)

  function Moved(db: Db, move: Move): Db {
    match move
    case Other(step) => Apply(db, step)
    case Register(order) =>
      var r := RegisterPermit(db, order);
      if r.Done? then r.db else db
    case Queue(id, at) =>
      var r := QueueRecovery(db, id, at);
      if r.Done? then r.db else db
  }

  /** A queue move is legal when the noop it inserts, if any, has no rival that
      was sent or is open. */
  predicate Legal(db: Db, move: Move) {
    move.Queue? && QueueRecovery(db, move.id, move.at).Done? ==>
      var k := FindPermit(db.permits, move.id).value;
      NoopAllowed(db.recoveries, db.permits[k].order)
  }

  function Exec(db: Db, moves: seq<Move>): Db {
    if moves == [] then db else Moved(Exec(db, moves[..|moves| - 1]), moves[|moves| - 1])
  }

  predicate LegalRun(db: Db, moves: seq<Move>) {
    forall i :: 0 <= i < |moves| ==> Legal(Exec(db, moves[..i]), moves[i])
  }

  // ----- steps of other processes -----

  lemma AdvanceKeepsActive(a: seq<Recovery>, b: seq<Recovery>)
    requires AllAdvance(a, b) && OneActive(a)
    ensures OneActive(b)
  {
    hide ValidRecovery, EverSent;
    assert forall i :: 0 <= i < |a| ==> Advances(a[i], b[i]);
  }

  predicate SameSends(a: Db, b: Db) {
    && b.authorised == a.authorised
    && |b.recoveries| == |a.recoveries|
    && forall i :: 0 <= i < |a.recoveries| ==> EverSent(b.recoveries[i]) == EverSent(a.recoveries[i])
  }

  predicate GrantsOne(a: Db, b: Db, k: nat) {
    && k < |a.recoveries| == |b.recoveries|
    && a.recoveries[k].state == Signing && !EverSent(a.recoveries[k])
    && b.recoveries == a.recoveries[k := b.recoveries[k]]
    && EverSent(b.recoveries[k]) && b.recoveries[k].order == a.recoveries[k].order
    && b.authorised == a.authorised + [a.recoveries[k].order]
  }

  lemma SweepSends(rs: seq<Recovery>, at: int)
    requires AllValid(rs)
    ensures forall i :: 0 <= i < |rs| ==> EverSent(NormalizeAll(rs, at)[i]) == EverSent(rs[i])
    ensures forall i :: 0 <= i < |rs| ==> EverSent(ExpireAll(NormalizeAll(rs, at), at)[i]) == EverSent(rs[i])
  {
  }

  lemma ClaimSends(db: Db, worker: string, at: int, seconds: nat)
    requires AllValid(db.recoveries)
    ensures SameSends(db, ClaimNextStep(db, worker, at, seconds).0)
  {
    SweepSends(db.recoveries, at);
    SweepAdvances(db.recoveries, at);
    var swept := ExpireAll(NormalizeAll(db.recoveries, at), at);
    hide NormalizeOne, ExpireOne, Advances;
    var k := NextQueued(swept);
    if k.Some? {
      assert ValidRecovery(swept[k.value]) by {
        QueuedStaysValid(db.recoveries, at, k.value);
      }
    }
  }

  lemma QueuedStaysValid(rs: seq<Recovery>, at: int, k: nat)
    requires AllValid(rs) && k < |rs|
    ensures ValidRecovery(ExpireAll(NormalizeAll(rs, at), at)[k])
  {
    SweepAdvances(rs, at);
    hide NormalizeOne, ExpireOne, ValidRecovery;
    assert Advances(rs[k], ExpireAll(NormalizeAll(rs, at), at)[k]);
  }

  lemma TargetedSends(db: Db, step: Step, k: nat)
    requires AllValid(db.recoveries) && Targeted(step)
    requires FindRecovery(db.recoveries, step.id) == Some(k) && Answer(db, step).Done?
    ensures if step.Authorise? then GrantsOne(db, Apply(db, step), k) else SameSends(db, Apply(db, step))
  {
    OneRecordAdvances(db, step, k);
    var after := Apply(db, step);
    assert forall i :: 0 <= i < |db.recoveries| && i != k ==> after.recoveries[i] == db.recoveries[i];
    assert ValidRecovery(db.recoveries[k]);
  }

  /** Only the step that authorises changes what was sent, and only for the one
      record it names, which is open. */
  lemma StepSends(db: Db, step: Step)
    requires AllValid(db.recoveries)
    ensures
      if step.Authorise? && Answer(db, step).Done? then
        var k := FindRecovery(db.recoveries, step.id);
        k.Some? && GrantsOne(db, Apply(db, step), k.value)
      else SameSends(db, Apply(db, step))
  {
    match step
    case Normalize(at) => SweepSends(db.recoveries, at);
    case ClaimNext(worker, at, seconds) => ClaimSends(db, worker, at, seconds);
    case ClaimReconciliation(id, worker, at, seconds) => SweepSends(db.recoveries, at);
    case RecordFacts(_, _, _, _) =>
    case _ =>
      var k := FindRecovery(db.recoveries, step.id);
      if k.Some? && Answer(db, step).Done? {
        TargetedSends(db, step, k.value);
      }
  }

  lemma GrantAppended(grants: seq<Order>, order: Order, parent: string)
    ensures NoopGrants(grants + [order], parent) ==
      NoopGrants(grants, parent) + if NoopFor(order, parent) then 1 else 0
  {
    assert (grants + [order])[..|grants|] == grants;
  }

  lemma StepKeepsGrants(db: Db, step: Step)
    requires AllValid(db.recoveries) && GrantsMatch(db)
    ensures GrantsMatch(Apply(db, step))
  {
    StepSends(db, step);
    StepAdvances(db, step);
    hide Apply, Answer, ValidRecovery, EverSent;
    var after := Apply(db, step);
    forall parent ensures NoopGrants(after.authorised, parent) == SentNoops(after.recoveries, parent) {
      if step.Authorise? && Answer(db, step).Done? {
        var k := FindRecovery(db.recoveries, step.id).value;
        OneMoreSent(db.recoveries, k, after.recoveries[k], parent);
        GrantAppended(db.authorised, db.recoveries[k].order, parent);
      } else {
        SameSent(db.recoveries, after.recoveries, parent);
      }
    }
  }

  lemma StepKeepsExclusive(db: Db, step: Step)
    requires AllValid(db.recoveries) && OneActive(db.recoveries) && NoopsExclusive(db.recoveries)
    ensures NoopsExclusive(Apply(db, step).recoveries)
  {
    StepSends(db, step);
    StepAdvances(db, step);
    hide Apply, Answer, ValidRecovery, EverSent;
    var rs, after := db.recoveries, Apply(db, step).recoveries;
    assert forall i :: 0 <= i < |rs| ==> Advances(rs[i], after[i]);
    assert forall i :: 0 <= i < |rs| && rs[i].state == Terminal ==> after[i] == rs[i];
    forall i, j | 0 <= i < |after| && 0 <= j < |after| && i != j && Rivals(after[i], after[j]) && EverSent(after[i])
      ensures after[j].state == Terminal && !EverSent(after[j])
    {
      assert Rivals(rs[i], rs[j]) && Rivals(rs[j], rs[i]);
      if !EverSent(rs[i]) && !EverSent(rs[j]) {
        assert FindRecovery(rs, step.id) == Some(i);
      }
    }
  }

  /** Steps of the other processes keep the invariant. */
  lemma StepKeepsSafe(db: Db, step: Step)
    requires Safe(db)
    ensures Safe(Apply(db, step))
  {
    StepAdvances(db, step);
    AdvanceKeepsActive(db.recoveries, Apply(db, step).recoveries);
    StepKeepsExclusive(db, step);
    StepKeepsGrants(db, step);
  }

  /** Queueing a recovery keeps the invariant when its noop has no rival that was
      sent or is open. */
  lemma QueueKeepsSafe(db: Db, id: string, at: int)
    requires Safe(db) && QueueRecovery(db, id, at).Done? && Legal(db, Queue(id, at))
    ensures Safe(QueueRecovery(db, id, at).db)
  {
    var after := QueueRecovery(db, id, at).db;
    var n := |db.recoveries|;
    assert after.recoveries[..n] == db.recoveries;
    assert !EverSent(after.recoveries[n]) && ValidRecovery(after.recoveries[n]);
    hide ValidRecovery, EverSent;
    assert forall i :: 0 <= i < n && Rivals(after.recoveries[i], after.recoveries[n]) ==>
      NoopFor(db.recoveries[i].order, after.recoveries[n].order.parent) && !EverSent(db.recoveries[i]);
    forall i, j | 0 <= i <= n && 0 <= j <= n && i != j && Rivals(after.recoveries[i], after.recoveries[j])
      && EverSent(after.recoveries[i])
      ensures after.recoveries[j].state == Terminal && !EverSent(after.recoveries[j])
    {
    }
    forall parent ensures NoopGrants(after.authorised, parent) == SentNoops(after.recoveries, parent) {
    }
  }

  lemma MoveKeepsSafe(db: Db, move: Move)
    requires Safe(db) && Legal(db, move)
    ensures Safe(Moved(db, move))
  {
    match move
    case Other(step) => StepKeepsSafe(db, step);
    case Register(order) =>
    case Queue(id, at) =>
      if QueueRecovery(db, id, at).Done? {
        QueueKeepsSafe(db, id, at);
      }
  }

  lemma {:induction false} RunKeepsSafe(db: Db, moves: seq<Move>)
    requires Safe(db) && LegalRun(db, moves)
    ensures Safe(Exec(db, moves))
  {
    if moves != [] {
      var init := moves[..|moves| - 1];
      assert forall i :: 0 <= i < |init| ==> init[..i] == moves[..i];
      RunKeepsSafe(db, init);
      hide Safe, Legal, Moved;
      assert Legal(Exec(db, moves[..|moves| - 1]), moves[|moves| - 1]);
      MoveKeepsSafe(Exec(db, init), moves[|moves| - 1]);
    }
  }

  lemma {:induction false} AtMostOneSent(rs: seq<Recovery>, parent: string)
    requires NoopsExclusive(rs)
    ensures SentNoops(rs, parent) <= 1
  {
    hide EverSent;
    if rs != [] {
      var init, last := rs[..|rs| - 1], rs[|rs| - 1];
      if NoopFor(last.order, parent) && EverSent(last) {
        forall i | 0 <= i < |init| && NoopFor(init[i].order, parent) ensures !EverSent(init[i]) {
          assert Rivals(rs[|rs| - 1], rs[i]);
        }
        NoneSent(init, parent);
      } else {
        AtMostOneSent(init, parent);
      }
    }
  }

  lemma {:induction false} NoneSent(rs: seq<Recovery>, parent: string)
    requires forall i :: 0 <= i < |rs| && NoopFor(rs[i].order, parent) ==> !EverSent(rs[i])
    ensures SentNoops(rs, parent) == 0
  {
    if rs != [] {
      NoneSent(rs[..|rs| - 1], parent);
    }
  }

  /** A store in which no recovery has been queued yet. */
  predicate Fresh(db: Db) {
    db.recoveries == [] && db.authorised == []
  }

  /** The fence is used once: in every legal run at most one same-nonce noop per
      parent is authorised to send, whatever the other processes do between the
      controller's moves, and never more than one recovery is open. */
  lemma FenceUsedOnce(db: Db, moves: seq<Move>, parent: string)
    requires Fresh(db) && LegalRun(db, moves)
    ensures NoopGrants(Exec(db, moves).authorised, parent) <= 1
    ensures OneActive(Exec(db, moves).recoveries)
  {
    RunKeepsSafe(db, moves);
    AtMostOneSent(Exec(db, moves).recoveries, parent);
  }

  lemma RunGrows(db: Db, moves: seq<Move>, move: Move)
    requires LegalRun(db, moves) && Legal(Exec(db, moves), move)
    ensures LegalRun(db, moves + [move]) && Exec(db, moves + [move]) == Moved(Exec(db, moves), move)
  {
    hide Legal, Moved;
    var longer := moves + [move];
    assert longer[..|moves|] == moves;
    forall i | 0 <= i < |longer| ensures Legal(Exec(db, longer[..i]), longer[i]) {
      assert i < |moves| ==> longer[..i] == moves[..i];
    }
  }
}
