/** The durable runtime projection: one fenced lease, a process state, the
    declared risk gate and the manual halt.

    Before every access other processes may act on the store; `others` says what
    they did, and `clock` what each access reads as the time. */
module RuntimeStore {
  import opened Options

  datatype Process = Starting | Running | Degraded | Stopping | Stopped

  datatype Gate = Halted | Reconciling | Ready

  datatype State = State(
    token: nat, active: bool, owner: string, process: Process, gate: Gate, manualHalt: bool,
    leaseExpires: int, heartbeatExpires: Option<int>, updatedAt: int)

  /** Lease seconds on the microsecond clock. */
  function Seconds(n: nat): int {
    n * 1_000_000
  }

  predicate HasAuthority(s: State, owner: string, token: nat, now: int) {
    s.active && s.token == token && s.owner == owner && s.leaseExpires > now
  }

  predicate ProcessStep(a: Process, b: Process) {
    || a == b
    || (a == Starting && (b == Running || b == Degraded || b == Stopping))
    || (a == Running && (b == Degraded || b == Stopping))
    || (a == Degraded && (b == Running || b == Stopping))
    || (a == Stopping && b == Stopped)
  }

  predicate GateStep(a: Gate, b: Gate) {
    || a == b
    || (a == Halted && b == Reconciling)
    || (a == Reconciling && (b == Halted || b == Ready))
    || (a == Ready && (b == Halted || b == Reconciling))
  }

  // Each transition gives the next state, or None when it raises.

  function Acquired(s: Option<State>, owner: string, seconds: nat, now: int): Option<State> {
    if s.Some? && (now < s.value.updatedAt || (s.value.active && s.value.leaseExpires > now)) then None
    else Some(State(
      if s.None? then 1 else s.value.token + 1, true, owner, Starting, Halted,
      s.Some? && s.value.manualHalt, now + Seconds(seconds), None, now))
  }

  function Beaten(s: Option<State>, owner: string, token: nat, seconds: nat, now: int): Option<State> {
    if s.None? || !HasAuthority(s.value, owner, token, now) || now < s.value.updatedAt then None
    else Some(s.value.(
      leaseExpires := now + Seconds(seconds), heartbeatExpires := Some(now + Seconds(seconds)), updatedAt := now))
  }

  function Transitioned(s: Option<State>, owner: string, token: nat, process: Option<Process>, gate: Option<Gate>,
                        now: int): Option<State> {
    if s.None? || !HasAuthority(s.value, owner, token, now) then None
    else
      var p := if process.Some? then process.value else s.value.process;
      var g := if gate.Some? then gate.value else s.value.gate;
      if !ProcessStep(s.value.process, p) || !GateStep(s.value.gate, g) then None
      else if s.value.manualHalt && g != Halted then None
      else if g == Ready && (p != Running || s.value.heartbeatExpires.None? || s.value.heartbeatExpires.value <= now) then None
      else if p == Stopping || p == Stopped then None
      else if p == Degraded && g == Ready then None
      else if p == s.value.process && g == s.value.gate then s
      else if now < s.value.updatedAt then None
      else Some(s.value.(process := p, gate := g, updatedAt := now))
  }

  predicate Current(until: Option<int>, now: int) {
    until.Some? && until.value > now
  }

  /** When a transition is accepted. */
  predicate MayMove(s: State, owner: string, token: nat, process: Option<Process>, gate: Option<Gate>, now: int) {
    var p := if process.Some? then process.value else s.process;
    var g := if gate.Some? then gate.value else s.gate;
    && HasAuthority(s, owner, token, now)
    && ProcessStep(s.process, p) && GateStep(s.gate, g)
    && p != Stopping && p != Stopped
    && (s.manualHalt ==> g == Halted)
    && (g == Ready ==> p == Running && Current(s.heartbeatExpires, now))
    && ((p == s.process && g == s.gate) || now >= s.updatedAt)
  }

  function ManuallyHalted(s: Option<State>, now: int): Option<State> {
    if s.None? then None
    else if s.value.manualHalt then s
    else if now < s.value.updatedAt then None
    else Some(s.value.(manualHalt := true, gate := Halted, updatedAt := now))
  }

  function HaltCleared(s: Option<State>, owner: string, token: nat, now: int): Option<State> {
    if s.None? || !HasAuthority(s.value, owner, token, now) then None
    else if !s.value.manualHalt then s
    else if s.value.gate != Halted || now < s.value.updatedAt then None
    else Some(s.value.(manualHalt := false, updatedAt := now))
  }

  function StaleHaltAcknowledged(s: Option<State>, now: int): Option<State> {
    if s.None? || !s.value.manualHalt then None
    else if s.value.process != Stopped && now < s.value.leaseExpires then None
    else if s.value.gate != Halted || now < s.value.updatedAt then None
    else Some(s.value.(manualHalt := false, updatedAt := now))
  }

  function StopRequested(s: Option<State>, owner: string, token: nat, now: int): Option<State> {
    if s.None? || !HasAuthority(s.value, owner, token, now) then None
    else if s.value.process == Stopping || s.value.process == Stopped then s
    else if now < s.value.updatedAt then None
    else Some(s.value.(process := Stopping, gate := Halted, updatedAt := now))
  }

  function MarkedStopped(s: Option<State>, owner: string, token: nat, now: int): Option<State> {
    if s.None? || !HasAuthority(s.value, owner, token, now) then None
    else if s.value.process == Stopped then s
    else if s.value.process != Stopping || now < s.value.updatedAt then None
    else Some(s.value.(process := Stopped, updatedAt := now))
  }

  function Released(s: Option<State>, owner: string, token: nat, now: int): Option<State> {
    if s.None? then None
    else if !s.value.active && s.value.owner == owner && s.value.token == token then s
    else if !HasAuthority(s.value, owner, token, now) || s.value.process != Stopped || now < s.value.updatedAt then None
    else Some(s.value.(active := false, gate := Halted, updatedAt := now))
  }

  /** The gate that counts: halted unless the lease and the heartbeat are current,
      the process runs and no manual halt is set. */
  function Effective(s: Option<State>, observed: int): Gate {
    if s.None? || observed < s.value.updatedAt || !s.value.active || s.value.leaseExpires <= observed
      || s.value.heartbeatExpires.None? || s.value.heartbeatExpires.value <= observed
      || s.value.manualHalt || s.value.process != Running
    then Halted
    else s.value.gate
  }

  // ----- other processes -----

  datatype Move =
    | Acquire(owner: string, seconds: nat, at: int)
    | Heartbeat(owner: string, token: nat, seconds: nat, at: int)
    | Transition(owner: string, token: nat, process: Option<Process>, gate: Option<Gate>, at: int)
    | ClearHalt(owner: string, token: nat, at: int)
    | Stop(owner: string, token: nat, at: int)
    | MarkStop(owner: string, token: nat, at: int)
    | Release(owner: string, token: nat, at: int)
    | Halt(at: int)
    | AcknowledgeHalt(at: int)

  function Next(s: Option<State>, m: Move): Option<State> {
    match m
    case Acquire(owner, seconds, at) => Acquired(s, owner, seconds, at)
    case Heartbeat(owner, token, seconds, at) => Beaten(s, owner, token, seconds, at)
    case Transition(owner, token, process, gate, at) => Transitioned(s, owner, token, process, gate, at)
    case ClearHalt(owner, token, at) => HaltCleared(s, owner, token, at)
    case Stop(owner, token, at) => StopRequested(s, owner, token, at)
    case MarkStop(owner, token, at) => MarkedStopped(s, owner, token, at)
    case Release(owner, token, at) => Released(s, owner, token, at)
    case Halt(at) => ManuallyHalted(s, at)
    case AcknowledgeHalt(at) => StaleHaltAcknowledged(s, at)
  }

  /** Another process acts only under its own identity. */
  predicate ByAnother(m: Move, self: string) {
    match m
    case Halt(_) => true
    case AcknowledgeHalt(_) => true
    case _ => m.owner != self
  }

  function Disturbed(s: Option<State>, moves: seq<Move>, self: string): Option<State> {
    if moves == [] then s
    else
      var before := Disturbed(s, moves[..|moves| - 1], self);
      var m := moves[|moves| - 1];
      if !ByAnother(m, self) || Next(before, m).None? then before else Next(before, m)
  }

  /** What another process can do to a lease that is ours: nothing but halting it,
      or taking the lease over, which starts halted under a new token. */
  predicate KeepsFence(a: Option<State>, b: Option<State>, self: string) {
    a.Some? ==>
      && b.Some? && b.value.token >= a.value.token
      && (b.value.token == a.value.token ==> b.value.owner == a.value.owner)
      && (b.value.token == a.value.token && a.value.owner == self ==>
            && b.value.process == a.value.process
            && (b.value.gate == a.value.gate || b.value.gate == Halted))
      && (b.value.token > a.value.token ==> b.value.owner != self)
  }

  /** A manual halt is always declared as a halted gate. */
  predicate HaltDeclared(s: Option<State>) {
    s.Some? && s.value.manualHalt ==> s.value.gate == Halted
  }

  lemma {:induction false} DisturbedKeepsHalt(s: Option<State>, moves: seq<Move>, self: string)
    requires HaltDeclared(s)
    ensures HaltDeclared(Disturbed(s, moves, self))
  {
    if moves != [] {
      DisturbedKeepsHalt(s, moves[..|moves| - 1], self);
    }
  }

  lemma MoveKeepsFence(s: Option<State>, m: Move, self: string)
    requires ByAnother(m, self) && Next(s, m).Some?
    ensures KeepsFence(s, Next(s, m), self)
  {
  }

  lemma {:induction false} DisturbedKeepsFence(s: Option<State>, moves: seq<Move>, self: string)
    ensures KeepsFence(s, Disturbed(s, moves, self), self)
  {
    hide Next;
    if moves != [] {
      var init := moves[..|moves| - 1];
      DisturbedKeepsFence(s, init, self);
      var before := Disturbed(s, init, self);
      var m := moves[|moves| - 1];
      if ByAnother(m, self) && Next(before, m).Some? {
        MoveKeepsFence(before, m, self);
      }
    }
  }

  // ----- the store object of one runtime instance -----

  class Store {
    const self: string
    const clock: nat -> int
    const others: nat -> seq<Move>
    var state: Option<State>
    var accesses: nat

    constructor (self: string, clock: nat -> int, others: nat -> seq<Move>, state: Option<State>)
      ensures this.self == self && this.state == state && this.accesses == 0
    {
      this.self, this.clock, this.others := self, clock, others;
      this.state, this.accesses := state, 0;
    }

    /** What this access sees: the time, and the state after the others acted. */
    function Seen(): Option<State>
      reads this
    {
      Disturbed(state, others(accesses), self)
    }

    function Time(): int
      reads this
    {
      clock(accesses)
    }

    /** One access: a transition that raises leaves the state it saw. */
    method Access(next: Option<State>) returns (ok: bool)
      modifies this`state, this`accesses
      ensures accesses == old(accesses) + 1
      ensures ok == next.Some?
      ensures state == if next.Some? then next else old(Seen())
    {
      ok := next.Some?;
      state := if ok then next else Disturbed(state, others(accesses), self);
      accesses := accesses + 1;
    }

    /** Grants the lease exactly when nobody holds a current one: under the next
        token, starting and halted, with a manual halt kept. */
    method Acquire(seconds: nat) returns (token: Option<nat>)
      modifies this`state, this`accesses
      ensures accesses == old(accesses) + 1
      ensures
        var seen, now := old(Seen()), old(Time());
        token.Some? <==> (seen.Some? ==> now >= seen.value.updatedAt && (seen.value.active ==> seen.value.leaseExpires <= now))
      ensures token.Some? ==>
        && state.Some? && state.value.token == token.value
        && token.value == 1 + (if old(Seen()).Some? then old(Seen()).value.token else 0)
        && state.value.active && state.value.owner == self
        && state.value.leaseExpires == old(Time()) + Seconds(seconds)
        && state.value.process == Starting && state.value.gate == Halted && state.value.heartbeatExpires == None
        && state.value.manualHalt == (old(Seen()).Some? && old(Seen()).value.manualHalt)
      ensures state == if token.Some? then Acquired(old(Seen()), self, seconds, old(Time())) else old(Seen())
    {
      var ok := Access(Acquired(Seen(), self, seconds, Time()));
      token := if ok then Some(state.value.token) else None;
    }

    /** Extends lease and heartbeat exactly for the current holder, and changes
        neither process nor gate nor halt. */
    method Heartbeat(token: nat, seconds: nat) returns (ok: bool)
      modifies this`state, this`accesses
      ensures accesses == old(accesses) + 1
      ensures
        var seen, now := old(Seen()), old(Time());
        && (ok <==> seen.Some? && HasAuthority(seen.value, self, token, now) && now >= seen.value.updatedAt)
        && (ok ==>
              && state.Some? && state.value.active && state.value.owner == self && state.value.token == token
              && state.value.leaseExpires == now + Seconds(seconds)
              && state.value.heartbeatExpires == Some(now + Seconds(seconds))
              && state.value.process == seen.value.process && state.value.gate == seen.value.gate
              && state.value.manualHalt == seen.value.manualHalt)
        && state == if ok then Beaten(seen, self, token, seconds, now) else seen
    {
      ok := Access(Beaten(Seen(), self, token, seconds, Time()));
    }

    /** Moves process and gate exactly along their allowed steps: a halted store
        keeps its gate halted, and ready needs a running process with a current
        heartbeat.  Stopping has its own operations. */
    method Transition(token: nat, process: Option<Process>, gate: Option<Gate>) returns (ok: bool)
      modifies this`state, this`accesses
      ensures accesses == old(accesses) + 1
      ensures
        var seen, now := old(Seen()), old(Time());
        && (ok <==> seen.Some? && MayMove(seen.value, self, token, process, gate, now))
        && (ok ==>
              && state.Some? && HasAuthority(state.value, self, token, now)
              && (process.Some? ==> state.value.process == process.value)
              && (process.None? ==> state.value.process == seen.value.process)
              && (gate.Some? ==> state.value.gate == gate.value)
              && (gate.None? ==> state.value.gate == seen.value.gate)
              && state.value.manualHalt == seen.value.manualHalt
              && state.value.leaseExpires == seen.value.leaseExpires
              && state.value.heartbeatExpires == seen.value.heartbeatExpires
              && (state.value.gate == Ready ==>
                    state.value.process == Running && !state.value.manualHalt && Current(state.value.heartbeatExpires, now)))
        && state == if ok then Transitioned(seen, self, token, process, gate, now) else seen
    {
      ok := Access(Transitioned(Seen(), self, token, process, gate, Time()));
    }

    /** Anybody may halt: the gate is halted with it, and the lease is untouched. */
    method EngageManualHalt() returns (ok: bool)
      modifies this`state, this`accesses
      ensures accesses == old(accesses) + 1
      ensures
        var seen, now := old(Seen()), old(Time());
        && (ok <==> seen.Some? && (seen.value.manualHalt || now >= seen.value.updatedAt))
        && (ok ==>
              && state.Some? && state.value.manualHalt
              && (HaltDeclared(seen) ==> state.value.gate == Halted)
              && state.value.(manualHalt := false, gate := Halted, updatedAt := 0)
                   == seen.value.(manualHalt := false, gate := Halted, updatedAt := 0))
        && state == if ok then ManuallyHalted(seen, now) else seen
    {
      ok := Access(ManuallyHalted(Seen(), Time()));
    }

    /** The holder's process stops, and the gate is halted at once. */
    method RequestStop(token: nat) returns (ok: bool)
      modifies this`state, this`accesses
      ensures accesses == old(accesses) + 1
      ensures
        var seen, now := old(Seen()), old(Time());
        && (ok <==>
              && seen.Some? && HasAuthority(seen.value, self, token, now)
              && (seen.value.process in {Stopping, Stopped} || now >= seen.value.updatedAt))
        && (ok ==>
              && state.Some? && HasAuthority(state.value, self, token, now)
              && state.value.process in {Stopping, Stopped}
              && (seen.value.process !in {Stopping, Stopped} ==> state.value.process == Stopping && state.value.gate == Halted))
        && state == if ok then StopRequested(seen, self, token, now) else seen
    {
      ok := Access(StopRequested(Seen(), self, token, Time()));
    }

    /** Only the holder's stopping process becomes stopped. */
    method MarkStopped(token: nat) returns (ok: bool)
      modifies this`state, this`accesses
      ensures accesses == old(accesses) + 1
      ensures
        var seen, now := old(Seen()), old(Time());
        && (ok <==>
              && seen.Some? && HasAuthority(seen.value, self, token, now)
              && (seen.value.process == Stopped || (seen.value.process == Stopping && now >= seen.value.updatedAt)))
        && (ok ==>
              && state.Some? && HasAuthority(state.value, self, token, now)
              && state.value.process == Stopped && state.value.gate == seen.value.gate)
        && state == if ok then MarkedStopped(seen, self, token, now) else seen
    {
      ok := Access(MarkedStopped(Seen(), self, token, Time()));
    }

    /** Only the holder's stopped process gives the lease back; a second release
        changes nothing. */
    method Release(token: nat) returns (ok: bool)
      modifies this`state, this`accesses
      ensures accesses == old(accesses) + 1
      ensures
        var seen, now := old(Seen()), old(Time());
        && (ok <==>
              && seen.Some?
              && ((!seen.value.active && seen.value.owner == self && seen.value.token == token)
                  || (HasAuthority(seen.value, self, token, now) && seen.value.process == Stopped
                      && now >= seen.value.updatedAt)))
        && (ok ==>
              && state.Some? && !state.value.active && state.value.owner == self && state.value.token == token
              && (seen.value.active ==> state.value.process == Stopped && state.value.gate == Halted))
        && state == if ok then Released(seen, self, token, now) else seen
    {
      ok := Access(Released(Seen(), self, token, Time()));
    }

    /** Reads the projection; the effective gate is judged at the time of the read. */
    method Read() returns (seen: Option<State>, effective: Gate)
      modifies this`state, this`accesses
      ensures accesses == old(accesses) + 1
      ensures seen == state == old(Seen()) && effective == Effective(seen, old(Time()))
      ensures effective == Ready <==>
        && seen.Some? && seen.value.gate == Ready
        && seen.value.updatedAt <= old(Time()) && HasAuthority(seen.value, seen.value.owner, seen.value.token, old(Time()))
        && Current(seen.value.heartbeatExpires, old(Time()))
        && seen.value.process == Running && !seen.value.manualHalt
      ensures effective != Halted ==> effective == seen.value.gate
    {
      seen, effective := Seen(), Effective(Seen(), Time());
      state := seen;
      accesses := accesses + 1;
    }
  }
}
