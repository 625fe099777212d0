/** The persist-before-send entry dispatcher as a trace of its store, preparer,
    attestor, signer, guard and transport calls, each of which may fail.

    A failing clock counts as a failure of the call it was read for, and a type
    error in the venue's answer as a response error. */
module Dispatcher {
  import opened Options

  datatype Exception =
    | AdmissionDenied(transient: bool) | StateConflict | ValidationError | ResponseError | Revoked | OtherError

  datatype Call =
    | ExpireQueued | Claim | Load
    | Preflight | RegisterPreflight
    | AttestPreKey | RecordPreKey | RequirePreKey | Sign | Renew
    | PrepareAttempt
    | AttestPreSend | RecordPreSend | RequirePreSend
    | EnterGuard | Submit | CheckTransport
    | ParseResponse | RecordResponse | MarkUnknown | ListIncidents
    | Defer | Void(prepared: bool)

  datatype Reply = Returns | Fails(error: Exception)

  datatype Event = Event(call: Call, reply: Reply)

  /** What the calls return besides success. */
  datatype Facts = Facts(
    claimFound: bool, payloadsAgree: bool, claimedAt: Option<int>, deferredAt: int, planExpires: int,
    preflightExpired: bool, outcomeUnknown: bool)

  datatype Result =
    | NothingQueued
    | Raised(error: Exception)
    | PreflightDeferred | PreflightDenied | PreflightExpired | SubmissionRevoked
    | SentUnknown | SentResponse

  /** Everything that must have succeeded, in this order, before a submission. */
  const PROTOCOL: seq<Call> := [
    ExpireQueued, Claim, Load, Preflight, RegisterPreflight,
    AttestPreKey, RecordPreKey, RequirePreKey, Sign, Renew,
    PrepareAttempt,
    AttestPreSend, RecordPreSend, RequirePreSend, EnterGuard, Submit ]

  // ----- reading a trace -----

  predicate Succeeded(t: seq<Event>, call: Call) {
    exists i :: 0 <= i < |t| && t[i] == Event(call, Returns)
  }

  predicate Attempted(t: seq<Event>, call: Call) {
    exists i :: 0 <= i < |t| && t[i].call == call
  }

  /** The first `n` protocol calls, all successful. */
  function Passed(n: nat): (t: seq<Event>)
    requires n <= |PROTOCOL|
    ensures |t| == n && forall i :: 0 <= i < n ==> t[i] == Event(PROTOCOL[i], Returns)
  {
    seq(n, i requires 0 <= i < n => Event(PROTOCOL[i], Returns))
  }

  /** One whole dispatch: `n` protocol calls succeeded, then perhaps the next one
      failed, then `tail`. */
  datatype Shape = Shape(n: nat, failed: Option<Exception>, tail: seq<Event>)

  predicate WellShaped(s: Shape) {
    s.n <= |PROTOCOL| && (s.failed.Some? ==> s.n < |PROTOCOL|)
  }

  function Expand(s: Shape): seq<Event>
    requires WellShaped(s)
  {
    Passed(s.n) + (if s.failed.Some? then [Event(PROTOCOL[s.n], Fails(s.failed.value))] else []) + s.tail
  }

  lemma NextExpands(n: nat, r: Reply)
    requires n < |PROTOCOL|
    ensures Expand(Shape(n, None, [])) + [Event(PROTOCOL[n], r)] ==
      Expand(if r.Returns? then Shape(n + 1, None, []) else Shape(n, Some(r.error), []))
  {
    assert Passed(n + 1) == Passed(n) + [Event(PROTOCOL[n], Returns)];
  }

  const CLAIMED: nat := 2
  const LOADED: nat := 3
  const REGISTERED: nat := 5
  const RENEWED: nat := 10
  const PREPARED: nat := 11
  const ATTESTED: nat := 14
  const GUARDED: nat := 15
  const SUBMITTED: nat := 16

  /** Which failures the preflight block turns into a denial. */
  predicate PreflightDenial(e: Exception) {
    e.AdmissionDenied? || e.StateConflict? || e.ValidationError?
  }

  predicate ResponseDenial(e: Exception) {
    e.ResponseError? || e.StateConflict? || e.ValidationError?
  }

  /** `tail` is `head`, one attempt to mark the submission unknown, and what that
      attempt makes of the dispatch. */
  predicate Marked(tail: seq<Event>, head: seq<Event>, result: Result) {
    && |tail| == |head| + 1 && head <= tail
    && tail[|head|].call == MarkUnknown
    && result == if tail[|head|].reply.Fails? then Raised(tail[|head|].reply.error) else SentUnknown
  }

  /** The tail after a submission that returned. */
  predicate SubmitTail(tail: seq<Event>, f: Facts, result: Result) {
    && tail != [] && tail[0].call == CheckTransport
    && if tail[0].reply.Fails? then tail == tail[..1] && result == Raised(tail[0].reply.error)
       else if f.outcomeUnknown then Marked(tail, tail[..1], result)
       else ResponseTail(tail, result)
  }

  /** The venue answered: the answer is recorded, or failing that the submission
      is marked unknown. */
  predicate ResponseTail(tail: seq<Event>, result: Result) {
    && |tail| >= 2 && tail[1].call == ParseResponse
    && if tail[1].reply.Fails? then Unrecorded(tail, 2, result)
       else
         && |tail| >= 3 && tail[2].call == RecordResponse
         && if tail[2].reply.Fails? then Unrecorded(tail, 3, result)
            else
              && |tail| == 4 && tail[3].call == ListIncidents
              && result == if tail[3].reply.Fails? then Raised(tail[3].reply.error) else SentResponse
  }

  predicate Unrecorded(tail: seq<Event>, n: nat, result: Result)
    requires 0 < n <= |tail| && tail[n - 1].reply.Fails?
  {
    var e := tail[n - 1].reply.error;
    if ResponseDenial(e) then Marked(tail, tail[..n], result) else |tail| == n && result == Raised(e)
  }

  predicate VoidTail(tail: seq<Event>, prepared: bool, otherwise: Result, result: Result) {
    && |tail| == 1 && tail[0].call == Void(prepared)
    && result == if tail[0].reply.Fails? then Raised(tail[0].reply.error) else otherwise
  }

  predicate DeferTail(tail: seq<Event>, result: Result) {
    && |tail| == 1 && tail[0].call == Defer
    && result == if tail[0].reply.Fails? then Raised(tail[0].reply.error) else PreflightDeferred
  }

  /** A deferral, dated no earlier than the claim, still lies within the plan. */
  predicate InForce(f: Facts) {
    f.claimedAt.Some? && f.deferredAt < f.planExpires && f.claimedAt.value < f.planExpires
  }

  /** What a failing preflight leads to: a transient route problem defers while
      the plan is in force, every other denial voids, and the rest is raised. */
  predicate DenialTail(tail: seq<Event>, e: Exception, f: Facts, result: Result) {
    if !PreflightDenial(e) then tail == [] && result == Raised(e)
    else if e == AdmissionDenied(true) && f.claimedAt.None? then tail == [] && result == Raised(StateConflict)
    else if e == AdmissionDenied(true) && InForce(f) then DeferTail(tail, result)
    else VoidTail(tail, false, PreflightDenied, result)
  }

  /** The call after the first `n` was made. */
  predicate Reached(s: Shape, n: nat) {
    s.n > n || (s.n == n && s.failed.Some?)
  }

  /** A dispatch goes on only with a claim, agreeing payloads and a preflight that
      has not expired. */
  predicate FactsMet(s: Shape, f: Facts) {
    && (Reached(s, CLAIMED) ==> f.claimFound)
    && (Reached(s, LOADED) ==> f.payloadsAgree)
    && (Reached(s, RENEWED) ==> !f.preflightExpired)
  }

  /** Every way a dispatch can go. */
  predicate Allowed(s: Shape, f: Facts, result: Result) {
    && WellShaped(s) && FactsMet(s, f)
    && match s.failed
       case Some(e) =>
         if s.n < LOADED then s.tail == [] && result == Raised(e)
         else if s.n < REGISTERED then DenialTail(s.tail, e, f, result)
         else if s.n < RENEWED then VoidTail(s.tail, false, Raised(e), result)
         else if s.n < PREPARED then s.tail == [] && result == Raised(e)
         else if s.n < ATTESTED then VoidTail(s.tail, true, Raised(e), result)
         else if e == Revoked then VoidTail(s.tail, true, SubmissionRevoked, result)
         else s.tail == [] && result == Raised(e)
       case None =>
         || (s.n == CLAIMED && !f.claimFound && s.tail == [] && result == NothingQueued)
         || (s.n == LOADED && !f.payloadsAgree && s.tail == [] && result == Raised(StateConflict))
         || (s.n == RENEWED && f.preflightExpired && VoidTail(s.tail, false, PreflightExpired, result))
         || (s.n == SUBMITTED && SubmitTail(s.tail, f, result))
  }

  class ExecutionDispatcher {
    const replies: nat -> Reply
    ghost var trace: seq<Event>
    var calls: nat

    constructor (replies: nat -> Reply)
      ensures this.replies == replies && trace == [] && calls == 0
    {
      this.replies, calls := replies, 0;
      trace := [];
    }

    method Do(call: Call) returns (r: Reply)
      modifies this`trace, this`calls
      ensures trace == old(trace) + [Event(call, r)]
    {
      r := replies(calls);
      calls := calls + 1;
      trace := trace + [Event(call, r)];
    }

    /** The dispatch so far is `before` and the expansion of `s`. */
    ghost predicate At(before: seq<Event>, s: Shape)
      reads this`trace
    {
      WellShaped(s) && trace == before + Expand(s)
    }

    /** The next protocol call. */
    method Next(ghost before: seq<Event>, ghost n: nat, call: Call) returns (r: Reply)
      requires n < |PROTOCOL| && PROTOCOL[n] == call && At(before, Shape(n, None, []))
      modifies this`trace, this`calls
      ensures r.Returns? ==> At(before, Shape(n + 1, None, []))
      ensures r.Fails? ==> At(before, Shape(n, Some(r.error), []))
    {
      ghost var so := Expand(Shape(n, None, []));
      r := Do(call);
      NextExpands(n, r);
      hide Expand, Passed, PROTOCOL;
      assert trace == before + (so + [Event(call, r)]);
    }

    /** One call after the protocol part. */
    method Then(ghost before: seq<Event>, ghost s: Shape, call: Call) returns (r: Reply)
      requires At(before, s)
      modifies this`trace, this`calls
      ensures At(before, s.(tail := s.tail + [Event(call, r)]))
    {
      ghost var so := Expand(s);
      r := Do(call);
      assert so + [Event(call, r)] == Expand(s.(tail := s.tail + [Event(call, r)]));
      hide Expand, Passed, PROTOCOL;
      assert trace == before + (so + [Event(call, r)]);
    }

    /** Gives the claim back unsent. */
    method VoidUnsent(prepared: bool, otherwise: Result, ghost before: seq<Event>, ghost s: Shape)
      returns (result: Result, ghost after: Shape)
      requires At(before, s) && s.tail == []
      modifies this`trace, this`calls
      ensures At(before, after) && after.n == s.n && after.failed == s.failed
      ensures VoidTail(after.tail, prepared, otherwise, result)
    {
      var r := Then(before, s, Void(prepared));
      after := s.(tail := [Event(Void(prepared), r)]);
      result := if r.Fails? then Raised(r.error) else otherwise;
    }

    method ClaimAndLoad(f: Facts) returns (r: Option<Result>, ghost s: Shape)
      modifies this`trace, this`calls
      ensures At(old(trace), s)
      ensures r.None? ==> s == Shape(LOADED, None, []) && f.claimFound && f.payloadsAgree
      ensures r.Some? ==> Allowed(s, f, r.value)
    {
      ghost var before := trace;
      s := Shape(0, None, []);
      var x := Next(before, 0, ExpireQueued);
      if x.Fails? {
        return Some(Raised(x.error)), Shape(0, Some(x.error), []);
      }
      x := Next(before, 1, Claim);
      if x.Fails? {
        return Some(Raised(x.error)), Shape(1, Some(x.error), []);
      }
      if !f.claimFound {
        return Some(NothingQueued), Shape(CLAIMED, None, []);
      }
      x := Next(before, 2, Load);
      if x.Fails? {
        return Some(Raised(x.error)), Shape(2, Some(x.error), []);
      }
      s := Shape(LOADED, None, []);
      return if f.payloadsAgree then None else Some(Raised(StateConflict)), s;
    }

    /** A denied preflight defers a transient route problem while the plan is still
        in force and voids everything else. */
    method DenyPreflight(f: Facts, ghost before: seq<Event>, ghost n: nat, e: Exception)
      returns (result: Result, ghost s: Shape)
      requires LOADED <= n < REGISTERED && At(before, Shape(n, Some(e), []))
      requires f.claimFound && f.payloadsAgree
      modifies this`trace, this`calls
      ensures At(before, s) && Allowed(s, f, result)
    {
      s := Shape(n, Some(e), []);
      if !PreflightDenial(e) {
        return Raised(e), s;
      }
      if e == AdmissionDenied(true) {
        if f.claimedAt.None? {
          return Raised(StateConflict), s;
        }
        var deferredAt := if f.deferredAt < f.claimedAt.value then f.claimedAt.value else f.deferredAt;
        if deferredAt < f.planExpires {
          var r := Then(before, s, Defer);
          return if r.Fails? then Raised(r.error) else PreflightDeferred, s.(tail := [Event(Defer, r)]);
        }
      }
      result, s := VoidUnsent(false, PreflightDenied, before, s);
    }

    method PreflightPhase(f: Facts, ghost before: seq<Event>) returns (r: Option<Result>, ghost s: Shape)
      requires At(before, Shape(LOADED, None, []))
      requires f.claimFound && f.payloadsAgree
      modifies this`trace, this`calls
      ensures At(before, s)
      ensures r.None? ==> s == Shape(REGISTERED, None, [])
      ensures r.Some? ==> Allowed(s, f, r.value)
    {
      s := Shape(REGISTERED, None, []);
      var x := Next(before, 3, Preflight);
      if x.Fails? {
        var d;
        d, s := DenyPreflight(f, before, 3, x.error);
        return Some(d), s;
      }
      x := Next(before, 4, RegisterPreflight);
      if x.Fails? {
        var d;
        d, s := DenyPreflight(f, before, 4, x.error);
        return Some(d), s;
      }
      r := None;
    }

    /** Role, signature and lease renewal; any failure voids and is raised. */
    method SigningPhase(f: Facts, ghost before: seq<Event>) returns (r: Option<Result>, ghost s: Shape)
      requires At(before, Shape(REGISTERED, None, []))
      requires f.claimFound && f.payloadsAgree
      modifies this`trace, this`calls
      ensures At(before, s)
      ensures r.None? ==> s == Shape(RENEWED, None, [])
      ensures r.Some? ==> Allowed(s, f, r.value)
    {
      hide Passed, Expand;
      ghost var n := 5;
      var x := Next(before, 5, AttestPreKey);
      if x.Returns? {
        n := 6;
        x := Next(before, 6, RecordPreKey);
      }
      if x.Returns? {
        n := 7;
        x := Next(before, 7, RequirePreKey);
      }
      if x.Returns? {
        n := 8;
        x := Next(before, 8, Sign);
      }
      if x.Returns? {
        n := 9;
        x := Next(before, 9, Renew);
      }
      if x.Fails? {
        var d;
        d, s := VoidUnsent(false, Raised(x.error), before, Shape(n, Some(x.error), []));
        return Some(d), s;
      }
      return None, Shape(RENEWED, None, []);
    }

    /** The role that is proved again after the attempt was persisted. */
    method SecondRole(f: Facts, ghost before: seq<Event>) returns (r: Option<Result>, ghost s: Shape)
      requires At(before, Shape(PREPARED, None, []))
      requires f.claimFound && f.payloadsAgree && !f.preflightExpired
      modifies this`trace, this`calls
      ensures At(before, s)
      ensures r.None? ==> s == Shape(ATTESTED, None, [])
      ensures r.Some? ==> Allowed(s, f, r.value)
    {
      hide Passed, Expand;
      ghost var n := 11;
      var x := Next(before, 11, AttestPreSend);
      if x.Returns? {
        n := 12;
        x := Next(before, 12, RecordPreSend);
      }
      if x.Returns? {
        n := 13;
        x := Next(before, 13, RequirePreSend);
      }
      if x.Fails? {
        var d;
        d, s := VoidUnsent(true, Raised(x.error), before, Shape(n, Some(x.error), []));
        return Some(d), s;
      }
      return None, Shape(ATTESTED, None, []);
    }

    /** The guard is entered for the one submission. */
    method SubmitOnce(f: Facts, ghost before: seq<Event>) returns (r: Option<Result>, ghost s: Shape)
      requires At(before, Shape(ATTESTED, None, []))
      requires f.claimFound && f.payloadsAgree && !f.preflightExpired
      modifies this`trace, this`calls
      ensures At(before, s)
      ensures r.None? ==> s == Shape(SUBMITTED, None, [])
      ensures r.Some? ==> Allowed(s, f, r.value)
    {
      hide Passed, Expand;
      ghost var n := 14;
      var x := Next(before, 14, EnterGuard);
      if x.Returns? {
        n := 15;
        x := Next(before, 15, Submit);
      }
      if x.Fails? {
        s := Shape(n, Some(x.error), []);
        if x.error == Revoked {
          var d;
          d, s := VoidUnsent(true, SubmissionRevoked, before, s);
          return Some(d), s;
        }
        return Some(Raised(x.error)), s;
      }
      return None, Shape(SUBMITTED, None, []);
    }

    /** The attempt is persisted, the second role proved and the guard entered
        before the one submission. */
    method SendPhase(f: Facts, ghost before: seq<Event>) returns (r: Option<Result>, ghost s: Shape)
      requires At(before, Shape(RENEWED, None, []))
      requires f.claimFound && f.payloadsAgree
      modifies this`trace, this`calls
      ensures At(before, s)
      ensures r.None? ==> s == Shape(SUBMITTED, None, []) && !f.preflightExpired
      ensures r.Some? ==> Allowed(s, f, r.value)
    {
      hide Passed, Expand;
      if f.preflightExpired {
        var d;
        d, s := VoidUnsent(false, PreflightExpired, before, Shape(RENEWED, None, []));
        return Some(d), s;
      }
      var x := Next(before, 10, PrepareAttempt);
      if x.Fails? {
        return Some(Raised(x.error)), Shape(RENEWED, Some(x.error), []);
      }
      r, s := SecondRole(f, before);
      if r.None? {
        r, s := SubmitOnce(f, before);
      }
    }

    /** Marks the submission unknown. */
    method Mark(ghost before: seq<Event>, ghost s: Shape) returns (result: Result, ghost after: Shape)
      requires At(before, s)
      modifies this`trace, this`calls
      ensures At(before, after) && after.n == s.n && after.failed == s.failed
      ensures Marked(after.tail, s.tail, result)
    {
      var r := Then(before, s, MarkUnknown);
      after := s.(tail := s.tail + [Event(MarkUnknown, r)]);
      result := if r.Fails? then Raised(r.error) else SentUnknown;
    }

    method RecordPhase(f: Facts, ghost before: seq<Event>) returns (result: Result, ghost s: Shape)
      requires At(before, Shape(SUBMITTED, None, []))
      requires f.claimFound && f.payloadsAgree && !f.preflightExpired
      modifies this`trace, this`calls
      ensures At(before, s) && Allowed(s, f, result)
    {
      hide Passed, Expand;
      s := Shape(SUBMITTED, None, []);
      var x := Then(before, s, CheckTransport);
      s := s.(tail := s.tail + [Event(CheckTransport, x)]);
      if x.Fails? {
        return Raised(x.error), s;
      }
      if f.outcomeUnknown {
        result, s := Mark(before, s);
        return;
      }
      x := Then(before, s, ParseResponse);
      s := s.(tail := s.tail + [Event(ParseResponse, x)]);
      if x.Returns? {
        x := Then(before, s, RecordResponse);
        s := s.(tail := s.tail + [Event(RecordResponse, x)]);
      }
      if x.Fails? {
        if ResponseDenial(x.error) {
          result, s := Mark(before, s);
          return;
        }
        return Raised(x.error), s;
      }
      x := Then(before, s, ListIncidents);
      s := s.(tail := s.tail + [Event(ListIncidents, x)]);
      return if x.Fails? then Raised(x.error) else SentResponse, s;
    }

    /** Dispatches at most one queued entry.  Whatever fails, the trace of calls is
        one of the allowed shapes. */
    method DispatchNext(f: Facts) returns (result: Result, ghost s: Shape)
      modifies this`trace, this`calls
      ensures Allowed(s, f, result) && trace == old(trace) + Expand(s)
    {
      ghost var before := trace;
      var r;
      r, s := ClaimAndLoad(f);
      if r.Some? {
        return r.value, s;
      }
      r, s := PreflightPhase(f, before);
      if r.Some? {
        return r.value, s;
      }
      r, s := SigningPhase(f, before);
      if r.Some? {
        return r.value, s;
      }
      r, s := SendPhase(f, before);
      if r.Some? {
        return r.value, s;
      }
      result, s := RecordPhase(f, before);
    }
  }

  // ----- what every dispatch guarantees -----

  function Submits(t: seq<Event>): nat {
    if t == [] then 0 else Submits(t[..|t| - 1]) + if t[|t| - 1].call == Submit then 1 else 0
  }

  /** Successful records of the venue's answer and successful unknown marks. */
  function Conclusions(t: seq<Event>): nat {
    if t == [] then 0
    else
      Conclusions(t[..|t| - 1])
      + if t[|t| - 1].reply.Returns? && (t[|t| - 1].call == RecordResponse || t[|t| - 1].call == MarkUnknown) then 1 else 0
  }

  lemma {:induction false} SubmitsJoin(a: seq<Event>, b: seq<Event>)
    ensures Submits(a + b) == Submits(a) + Submits(b)
  {
    if b == [] {
      assert a + b == a;
    } else {
      assert (a + b)[..|a + b| - 1] == a + b[..|b| - 1];
      SubmitsJoin(a, b[..|b| - 1]);
    }
  }

  lemma {:induction false} ConclusionsJoin(a: seq<Event>, b: seq<Event>)
    ensures Conclusions(a + b) == Conclusions(a) + Conclusions(b)
  {
    if b == [] {
      assert a + b == a;
    } else {
      assert (a + b)[..|a + b| - 1] == a + b[..|b| - 1];
      ConclusionsJoin(a, b[..|b| - 1]);
    }
  }

  lemma {:induction false} PassedSubmits(n: nat)
    requires n <= |PROTOCOL|
    ensures Submits(Passed(n)) == (if n == SUBMITTED then 1 else 0) && Conclusions(Passed(n)) == 0
  {
    if n > 0 {
      assert Passed(n)[..n - 1] == Passed(n - 1);
      PassedSubmits(n - 1);
    }
  }

  function Failure(s: Shape): (t: seq<Event>)
    requires WellShaped(s)
  {
    if s.failed.Some? then [Event(PROTOCOL[s.n], Fails(s.failed.value))] else []
  }

  lemma TailCalls(s: Shape, f: Facts, result: Result)
    requires Allowed(s, f, result)
    ensures forall i :: 0 <= i < |s.tail| ==> s.tail[i].call != Submit
    ensures |s.tail| <= 4
    ensures Conclusions(s.tail) <= 1
    ensures Conclusions(s.tail) == 1 ==> s.n == SUBMITTED
    ensures (result == SentUnknown || result == SentResponse) ==> s.n == SUBMITTED && Conclusions(s.tail) == 1
  {
    if s.failed.None? && s.n == SUBMITTED {
      TailConclusions(s.tail, f, result);
    }
  }

  /** A failure after the submission that nothing handles: the transport result is
      not the one that was signed for, the unknown mark fails, or reading or
      recording the answer fails in a way that is not taken for an unclear answer. */
  predicate Escapes(e: Event) {
    && e.reply.Fails?
    && (|| e.call == CheckTransport
        || e.call == MarkUnknown
        || ((e.call == ParseResponse || e.call == RecordResponse) && !ResponseDenial(e.reply.error)))
  }

  lemma TailConclusions(tail: seq<Event>, f: Facts, result: Result)
    requires SubmitTail(tail, f, result)
    ensures |tail| <= 4 && forall i :: 0 <= i < |tail| ==> tail[i].call != Submit
    ensures Conclusions(tail) <= 1
    ensures result == SentUnknown || result == SentResponse ==> Conclusions(tail) == 1
    ensures Conclusions(tail) == 0 ==> result.Raised?
    ensures Conclusions(tail) == 1 <==> forall i :: 0 <= i < |tail| ==> !Escapes(tail[i])
  {
    assert tail[..|tail|] == tail;
    if |tail| >= 1 {
      assert Conclusions(tail[..1]) == 0 by { assert tail[..1][..0] == []; }
    }
    if |tail| >= 2 {
      assert tail[..2][..1] == tail[..1];
    }
    if |tail| >= 3 {
      assert tail[..3][..2] == tail[..2];
    }
    if |tail| >= 4 {
      assert tail[..4][..3] == tail[..3];
    }
  }

  lemma NoSubmits(t: seq<Event>)
    requires forall i :: 0 <= i < |t| ==> t[i].call != Submit
    ensures Submits(t) == 0
  {
    if t != [] {
      NoSubmits(t[..|t| - 1]);
    }
  }

  /** Where the events of a dispatch stand. */
  lemma Layout(s: Shape)
    requires WellShaped(s)
    ensures
      var t, m := Expand(s), s.n + if s.failed.Some? then 1 else 0;
      && |t| == m + |s.tail|
      && Passed(s.n) <= t
      && (forall i :: 0 <= i < s.n ==> t[i] == Event(PROTOCOL[i], Returns))
      && (s.failed.Some? ==> t[s.n] == Event(PROTOCOL[s.n], Fails(s.failed.value)))
      && forall i :: 0 <= i < |s.tail| ==> t[m + i] == s.tail[i]
  {
  }

  /** What the tail of an allowed dispatch can hold. */
  lemma TailKinds(s: Shape, f: Facts, result: Result, k: nat)
    requires Allowed(s, f, result) && k < |s.tail|
    ensures s.tail[k].call != Submit && s.tail[k].call != Sign && s.tail[k].call != PrepareAttempt
    ensures s.tail[k].call.Void? ==>
      && s.n < SUBMITTED && (s.n >= ATTESTED ==> s.failed == Some(Revoked))
      && (s.tail[k].call.prepared <==> s.n >= PREPARED)
    ensures s.tail[k].call == Defer ==> DefersHere(s, f)
  {
    if s.failed.None? && s.n == SUBMITTED {
      TailConclusions(s.tail, f, result);
      NoVoidAfterSubmit(s.tail, f, result, k);
    }
  }

  lemma NoVoidAfterSubmit(tail: seq<Event>, f: Facts, result: Result, k: nat)
    requires SubmitTail(tail, f, result) && k < |tail|
    ensures tail[k].call in {CheckTransport, ParseResponse, RecordResponse, MarkUnknown, ListIncidents}
  {
  }

  /** Which protocol call an event at place `i` can be. */
  lemma ProtocolPlace(i: nat)
    requires i < |PROTOCOL|
    ensures PROTOCOL[i] == Submit <==> i == GUARDED
    ensures PROTOCOL[i] == PrepareAttempt <==> i == RENEWED
    ensures PROTOCOL[i] == Sign <==> i == 8
    ensures !PROTOCOL[i].Void? && PROTOCOL[i] != Defer
  {
  }

  lemma FailureCounts(s: Shape)
    requires WellShaped(s)
    ensures Submits(Failure(s)) <= (if s.n == GUARDED then 1 else 0) && Conclusions(Failure(s)) == 0
  {
    if s.failed.Some? {
      ProtocolPlace(s.n);
      assert Failure(s)[..0] == [];
    }
  }

  /** One event of an allowed dispatch is a protocol call at its place or a call
      of the tail. */
  lemma EventKinds(s: Shape, f: Facts, result: Result, k: nat)
    requires Allowed(s, f, result) && k < |Expand(s)|
    ensures
      var call := Expand(s)[k].call;
      && (call == Submit ==> k == GUARDED <= s.n)
      && (call == Sign ==> k == 8 <= s.n)
      && (Expand(s)[k] == Event(PrepareAttempt, Returns) ==> s.n >= PREPARED)
      && (call.Void? ==> s.n < SUBMITTED && (s.n >= ATTESTED ==> s.failed == Some(Revoked))
                         && (call.prepared <==> s.n >= PREPARED))
      && (call == Defer ==> DefersHere(s, f))
  {
    var m := s.n + if s.failed.Some? then 1 else 0;
    Layout(s);
    if k < m {
      ProtocolPlace(k);
    } else {
      TailKinds(s, f, result, k - m);
    }
  }

  lemma PreparedSucceeds(s: Shape)
    requires WellShaped(s) && s.n >= PREPARED
    ensures Succeeded(Expand(s), PrepareAttempt)
  {
    Layout(s);
    assert Expand(s)[RENEWED] == Event(PrepareAttempt, Returns);
  }

  lemma RevokedAtSubmit(s: Shape)
    requires WellShaped(s) && s.n == GUARDED && s.failed == Some(Revoked)
    ensures |Expand(s)| > GUARDED && Expand(s)[GUARDED] == Event(Submit, Fails(Revoked))
  {
    Layout(s);
  }

  /** At most one submission is ever attempted, and every one is preceded in the
      same dispatch by the whole protocol, in order and successful. */
  lemma SubmitsOnceAfterProtocol(s: Shape, f: Facts, result: Result)
    requires Allowed(s, f, result)
    ensures Submits(Expand(s)) <= 1
    ensures Attempted(Expand(s), Submit) ==>
      s.n >= GUARDED && Passed(GUARDED) <= Expand(s) && Expand(s)[GUARDED].call == Submit
  {
    var t := Expand(s);
    TailCalls(s, f, result);
    hide Allowed;
    CountSubmits(s);
    if Attempted(t, Submit) {
      SubmitPlace(s, f, result);
    }
  }

  lemma CountSubmits(s: Shape)
    requires WellShaped(s) && forall i :: 0 <= i < |s.tail| ==> s.tail[i].call != Submit
    ensures Submits(Expand(s)) <= 1
  {
    PassedSubmits(s.n);
    NoSubmits(s.tail);
    SubmitsJoin(Passed(s.n) + Failure(s), s.tail);
    SubmitsJoin(Passed(s.n), Failure(s));
    FailureCounts(s);
  }

  lemma SubmitPlace(s: Shape, f: Facts, result: Result)
    requires Allowed(s, f, result) && Attempted(Expand(s), Submit)
    ensures s.n >= GUARDED && Passed(GUARDED) <= Expand(s) && Expand(s)[GUARDED].call == Submit
  {
    var t := Expand(s);
    var k :| 0 <= k < |t| && t[k].call == Submit;
    EventKinds(s, f, result, k);
    Layout(s);
    hide Allowed, Expand;
    assert forall i :: 0 <= i < GUARDED ==> t[i] == Passed(GUARDED)[i];
  }

  /** A claim is given back only when nothing was submitted, or when the runtime
      revoked the submission; whether an attempt had been persisted is recorded. */
  lemma VoidsOnlyUnsent(s: Shape, f: Facts, result: Result, k: nat)
    requires Allowed(s, f, result) && k < |Expand(s)| && Expand(s)[k].call.Void?
    ensures Attempted(Expand(s), Submit) ==>
      |Expand(s)| > GUARDED && Expand(s)[GUARDED] == Event(Submit, Fails(Revoked))
    ensures Expand(s)[k].call.prepared <==> Succeeded(Expand(s), PrepareAttempt)
  {
    var t := Expand(s);
    EventKinds(s, f, result, k);
    forall i | 0 <= i < |t|
      ensures (t[i].call == Submit ==> s.n >= GUARDED) && (t[i] == Event(PrepareAttempt, Returns) ==> s.n >= PREPARED)
    {
      EventKinds(s, f, result, i);
    }
    hide Allowed, Expand;
    if s.n >= PREPARED {
      PreparedSucceeds(s);
    }
    if s.n == GUARDED {
      RevokedAtSubmit(s);
    }
  }

  /** A deferral never follows a signature: signing was not even attempted.  It is
      attempted exactly when the preflight reported a transient route problem and
      the plan is still in force. */
  lemma DefersBeforeSigning(s: Shape, f: Facts, result: Result)
    requires Allowed(s, f, result)
    ensures Attempted(Expand(s), Defer) ==> !Attempted(Expand(s), Sign)
    ensures Attempted(Expand(s), Defer) <==>
      LOADED <= s.n < REGISTERED && s.failed == Some(AdmissionDenied(true)) && InForce(f)
  {
    var t := Expand(s);
    forall i | 0 <= i < |t| ensures (t[i].call == Sign ==> 8 <= s.n) && (t[i].call == Defer ==> DefersHere(s, f)) {
      EventKinds(s, f, result, i);
    }
    if DefersHere(s, f) {
      Layout(s);
      assert t[s.n + 1] == s.tail[0];
    }
    hide Allowed, Expand;
  }

  predicate DefersHere(s: Shape, f: Facts) {
    LOADED <= s.n < REGISTERED && s.failed == Some(AdmissionDenied(true)) && InForce(f)
  }

  /** A submission is concluded at most once.  A dispatch that reports it as sent
      concluded it exactly once; one that submitted and concluded nothing raised.
      A submission that returned is concluded exactly when no failure escapes. */
  lemma ConcludesOnce(s: Shape, f: Facts, result: Result)
    requires Allowed(s, f, result)
    ensures Conclusions(Expand(s)) <= 1
    ensures Conclusions(Expand(s)) == 1 ==> Succeeded(Expand(s), Submit)
    ensures result == SentUnknown || result == SentResponse ==> Conclusions(Expand(s)) == 1
    ensures Succeeded(Expand(s), Submit) && Conclusions(Expand(s)) == 0 ==> result.Raised?
    ensures Succeeded(Expand(s), Submit) ==>
      (Conclusions(Expand(s)) == 1 <==> forall i :: 0 <= i < |Expand(s)| ==> !Escapes(Expand(s)[i]))
  {
    var t := Expand(s);
    Layout(s);
    TailCalls(s, f, result);
    if s.failed.None? && s.n == SUBMITTED {
      TailConclusions(s.tail, f, result);
    }
    SubmittedMeans(s, f, result);
    if s.n == SUBMITTED {
      EscapesInTail(s);
    }
    hide Allowed, Escapes;
    PassedSubmits(s.n);
    ConclusionsJoin(Passed(s.n) + Failure(s), s.tail);
    ConclusionsJoin(Passed(s.n), Failure(s));
    FailureCounts(s);
  }

  lemma EscapesInTail(s: Shape)
    requires WellShaped(s)
    ensures (forall i :: 0 <= i < |Expand(s)| ==> !Escapes(Expand(s)[i])) <==> (forall i :: 0 <= i < |s.tail| ==> !Escapes(s.tail[i]))
  {
    var t, m := Expand(s), s.n + if s.failed.Some? then 1 else 0;
    Layout(s);
    forall i | 0 <= i < m ensures !Escapes(t[i]) {
      NoEscape(i);
    }
    hide Expand, Escapes;
    forall i | 0 <= i < |s.tail| ensures t[m + i] == s.tail[i] {
    }
    forall i | m <= i < |t| ensures t[i] == s.tail[i - m] {
      assert t[m + (i - m)] == s.tail[i - m];
    }
  }

  lemma NoEscape(i: nat)
    requires i < |PROTOCOL|
    ensures PROTOCOL[i] !in {CheckTransport, MarkUnknown, ParseResponse, RecordResponse}
  {
  }

  lemma SubmittedMeans(s: Shape, f: Facts, result: Result)
    requires Allowed(s, f, result)
    ensures Succeeded(Expand(s), Submit) <==> s.n == SUBMITTED
  {
    var t, m := Expand(s), s.n + if s.failed.Some? then 1 else 0;
    Layout(s);
    if s.n == SUBMITTED {
      assert t[GUARDED] == Event(Submit, Returns);
    }
    forall i | 0 <= i < |t| ensures t[i] == Event(Submit, Returns) ==> s.n == SUBMITTED {
      if i < m {
        ProtocolPlace(i);
      } else {
        TailKinds(s, f, result, i - m);
      }
    }
  }
}
