/** The ready-marker consumer: each tick classifies the final markers in order and
    admits at most one handoff.

    Handoff ids are whole numbers in the order of the ids; the directory scan and
    the admission store answer as oracles. */
module ReadyConsumer {

  /** The hard cap on directory entries and on the cache of expired ids. */
  const MAX_READY_ENTRIES: nat := 1024

  /** What the store says about a handoff it has not admitted yet. */
  datatype Standing = Admissible | Expired | NotYetActive | Rejected

  datatype Status = Admitted(id: nat) | NoWork | Raised

  datatype TickResult = TickResult(status: Status, finalCount: nat, already: nat, expired: nat, inactive: nat)

  /** How one final marker is classified. */
  datatype Class = AlreadyAdmitted | ExpiredMarker | Inactive | Candidate | Broken

  type Standings = nat -> Standing

  predicate Ascending(ids: seq<nat>) {
    forall i, j :: 0 <= i < j < |ids| ==> ids[i] < ids[j]
  }

  function Classify(id: nat, admitted: set<nat>, cache: set<nat>, standing: Standings): Class {
    if id in cache then ExpiredMarker
    else if id in admitted then AlreadyAdmitted
    else
      match standing(id)
      case Admissible => Candidate
      case Expired => ExpiredMarker
      case NotYetActive => Inactive
      case Rejected => Broken
  }

  function CountClass(ids: seq<nat>, admitted: set<nat>, cache: set<nat>, standing: Standings, c: Class): (n: nat)
    ensures n <= |ids|
  {
    if ids == [] then 0
    else
      CountClass(ids[..|ids| - 1], admitted, cache, standing, c)
      + if Classify(ids[|ids| - 1], admitted, cache, standing) == c then 1 else 0
  }

  lemma {:induction false} CountZero(ids: seq<nat>, admitted: set<nat>, cache: set<nat>, standing: Standings, c: Class)
    ensures CountClass(ids, admitted, cache, standing, c) == 0 <==>
      forall i :: 0 <= i < |ids| ==> Classify(ids[i], admitted, cache, standing) != c
  {
    if ids != [] {
      CountZero(ids[..|ids| - 1], admitted, cache, standing, c);
    }
  }

  /** The markers of a list that the store calls expired. */
  function ExpiredIn(ids: seq<nat>, admitted: set<nat>, standing: Standings): (s: set<nat>)
    ensures forall x :: x in s <==> x in ids && x !in admitted && standing(x) == Expired
  {
    set x | x in ids && x !in admitted && standing(x) == Expired
  }

  /** Caching what has just been found expired does not change a class. */
  lemma CacheKeepsClass(ids: seq<nat>, id: nat, admitted: set<nat>, cache: set<nat>, standing: Standings)
    ensures Classify(id, admitted, cache + ExpiredIn(ids, admitted, standing), standing) ==
      Classify(id, admitted, cache, standing)
  {
  }

  lemma {:induction false} CacheKeepsCount(ids: seq<nat>, seen: seq<nat>, admitted: set<nat>, cache: set<nat>,
                                           standing: Standings, c: Class)
    ensures CountClass(ids, admitted, cache + ExpiredIn(seen, admitted, standing), standing, c) ==
      CountClass(ids, admitted, cache, standing, c)
  {
    if ids != [] {
      CacheKeepsCount(ids[..|ids| - 1], seen, admitted, cache, standing, c);
      CacheKeepsClass(seen, ids[|ids| - 1], admitted, cache, standing);
    }
  }

  /** The smallest marker that could be admitted. */
  predicate SmallestCandidate(ids: seq<nat>, x: nat, admitted: set<nat>, cache: set<nat>, standing: Standings) {
    && x in ids && Classify(x, admitted, cache, standing) == Candidate
    && forall y :: y in ids && y < x ==> Classify(y, admitted, cache, standing) != Candidate
  }

  class TestnetChatReadyConsumer {
    /** The admission store: the handoffs that own a command. */
    var admitted: set<nat>
    var expiredCache: set<nat>
    /** Every admission this consumer made, in order. */
    ghost var admissions: seq<nat>

    constructor (admitted: set<nat>)
      ensures Valid() && this.admitted == admitted && expiredCache == {} && admissions == []
    {
      this.admitted, expiredCache, admissions := admitted, {}, [];
    }

    /** No handoff was admitted twice, and the cache is within its cap. */
    ghost predicate Valid()
      reads this
    {
      && (forall i :: 0 <= i < |admissions| ==> admissions[i] in admitted)
      && (forall i, j :: 0 <= i < j < |admissions| ==> admissions[i] != admissions[j])
      && |expiredCache| <= MAX_READY_ENTRIES
    }

    /** One tick over the final markers of one directory scan.  `bound` says whether
        the stored admission of an id matches the marker. */
    method ConsumeOnce(ids: seq<nat>, standing: Standings, bound: nat -> bool) returns (r: TickResult)
      requires Valid() && Ascending(ids)
      modifies this`admitted, this`expiredCache, this`admissions
      ensures Valid() && r.finalCount == |ids|
      ensures old(admissions) <= admissions && |admissions| <= |old(admissions)| + 1
      ensures r.status.NoWork? ==>
        && admitted == old(admitted) && admissions == old(admissions)
        && expiredCache == old(expiredCache) + ExpiredIn(ids, old(admitted), standing)
        && CountClass(ids, old(admitted), old(expiredCache), standing, Candidate) == 0
        && CountClass(ids, old(admitted), old(expiredCache), standing, Broken) == 0
        && r.already == CountClass(ids, old(admitted), old(expiredCache), standing, AlreadyAdmitted)
        && r.expired == CountClass(ids, old(admitted), old(expiredCache), standing, ExpiredMarker)
        && r.inactive == CountClass(ids, old(admitted), old(expiredCache), standing, Inactive)
        && r.already + r.expired + r.inactive == |ids|
      ensures old(expiredCache) <= expiredCache <= old(expiredCache) + ExpiredIn(ids, old(admitted), standing)
      ensures r.status.Admitted? ==>
        && admitted == old(admitted) + {r.status.id} && admissions == old(admissions) + [r.status.id]
        && SmallestCandidate(ids, r.status.id, old(admitted), old(expiredCache), standing) && bound(r.status.id)
        && r.already + r.expired + r.inactive < |ids| && ids[r.already + r.expired + r.inactive] == r.status.id
      ensures r.status.Raised? ==>
        || (admitted == old(admitted) && admissions == old(admissions))
        || exists x ::
             && admitted == old(admitted) + {x} && admissions == old(admissions) + [x]
             && SmallestCandidate(ids, x, old(admitted), old(expiredCache), standing) && !bound(x)
      ensures r.status.Raised? <==> Raises(ids, old(admitted), old(expiredCache), standing, bound)
      ensures Accepting(ids, standing, bound) && |old(expiredCache) + ExpiredIn(ids, old(admitted), standing)| <= MAX_READY_ENTRIES ==>
        !r.status.Raised?
    {
      hide Walked, Ascending, CountClass, ExpiredIn, Classify, Accepting, Stops, Raises, SmallestCandidate;
      ghost var admitted0, cache0 := admitted, expiredCache;
      var already, expired, inactive := 0, 0, 0;
      WalkStarts(ids, admitted0, cache0, standing);
      for k := 0 to |ids|
        invariant Valid() && admitted == admitted0 && admissions == old(admissions)
        invariant Walked(ids, k, admitted0, cache0, standing, expiredCache, already, expired, inactive)
        invariant forall j :: 0 <= j < k ==> !Stops(ids, j, admitted0, cache0, standing, bound)
      {
        var id := ids[k];
        StopsHere(ids, k, admitted0, cache0, standing, bound, expiredCache, already, expired, inactive);
        WalkOne(ids, k, admitted0, cache0, standing, expiredCache, already, expired, inactive);
        if id in expiredCache {
          expired := expired + 1;
          continue;
        }
        if id in admitted {
          if !bound(id) {
            NotAccepting(ids, k, standing, bound);
            return TickResult(Raised, |ids|, already, expired, inactive);
          }
          already := already + 1;
          continue;
        }
        match standing(id) {
          case Admissible =>
            admitted := admitted + {id};
            admissions := admissions + [id];
            WalkAdmits(ids, k, admitted0, cache0, standing, expiredCache, already, expired, inactive);
            if !bound(id) {
              NotAccepting(ids, k, standing, bound);
              return TickResult(Raised, |ids|, already, expired, inactive);
            }
            AdmittedNotRaised(ids, k, admitted0, cache0, standing, bound);
            return TickResult(Admitted(id), |ids|, already, expired, inactive);
          case Expired =>
            if |expiredCache| >= MAX_READY_ENTRIES {
              WalkFull(ids, k, admitted0, cache0, standing, expiredCache, already, expired, inactive);
              return TickResult(Raised, |ids|, already, expired, inactive);
            }
            expiredCache := expiredCache + {id};
            expired := expired + 1;
          case NotYetActive =>
            inactive := inactive + 1;
          case Rejected =>
            NotAccepting(ids, k, standing, bound);
            return TickResult(Raised, |ids|, already, expired, inactive);
        }
      }
      WalkEnds(ids, admitted0, cache0, standing, expiredCache, already, expired, inactive);
      NothingStops(ids, admitted0, cache0, standing, bound);
      return TickResult(NoWork, |ids|, already, expired, inactive);
    }

    /** Ticks over an unchanging directory until one finds nothing: with a store
        that accepts, every admissible marker is admitted, one a tick, so within as
        many ticks as there are markers. */
    method Settle(ids: seq<nat>, standing: Standings, bound: nat -> bool) returns (ticks: nat)
      requires Valid() && Ascending(ids) && Accepting(ids, standing, bound)
      requires |expiredCache + ExpiredIn(ids, admitted, standing)| <= MAX_READY_ENTRIES
      modifies this`admitted, this`expiredCache, this`admissions
      ensures Valid() && old(admissions) <= admissions && |admissions| == |old(admissions)| + ticks
      ensures ticks == CountClass(ids, old(admitted), old(expiredCache), standing, Candidate) <= |ids|
      ensures forall x :: x in ids && x !in old(expiredCache) && standing(x) == Admissible ==> x in admitted
    {
      ghost var admitted0, cache0 := admitted, expiredCache;
      ticks := 0;
      var r := ConsumeOnce(ids, standing, bound);
      if r.status.Admitted? {
        CandidatesLeft(ids, ids, r.status.id, admitted0, cache0, expiredCache, standing);
      } else {
        CacheKeepsCount(ids, ids, admitted0, cache0, standing, Candidate);
      }
      while r.status.Admitted?
        invariant Valid() && old(admissions) <= admissions
        invariant !r.status.Raised?
        invariant SameExpired(admitted0, cache0, admitted, expiredCache, standing, ids)
        invariant |admissions| == |old(admissions)| + ticks + One(r.status.Admitted?)
        invariant ticks + One(r.status.Admitted?) + CountClass(ids, admitted, expiredCache, standing, Candidate) ==
          CountClass(ids, admitted0, cache0, standing, Candidate)
        invariant r.status.NoWork? ==> CountClass(ids, admitted, expiredCache, standing, Candidate) == 0
        decreases CountClass(ids, admitted, expiredCache, standing, Candidate) + One(r.status.Admitted?)
      {
        ticks := ticks + 1;
        ghost var admitted1, cache1 := admitted, expiredCache;
        StillFits(admitted0, cache0, admitted, expiredCache, standing, ids);
        r := ConsumeOnce(ids, standing, bound);
        if r.status.Admitted? {
          CandidatesLeft(ids, ids, r.status.id, admitted1, cache1, expiredCache, standing);
        } else {
          CacheKeepsCount(ids, ids, admitted1, cache1, standing, Candidate);
        }
      }
      CountZero(ids, admitted, expiredCache, standing, Candidate);
    }
  }

  lemma StillFits(admitted0: set<nat>, cache0: set<nat>, admitted: set<nat>, cache: set<nat>,
                  standing: Standings, ids: seq<nat>)
    requires SameExpired(admitted0, cache0, admitted, cache, standing, ids)
    requires |cache0 + ExpiredIn(ids, admitted0, standing)| <= MAX_READY_ENTRIES
    ensures |cache + ExpiredIn(ids, admitted, standing)| <= MAX_READY_ENTRIES
  {
    Smaller(cache + ExpiredIn(ids, admitted, standing), cache0 + ExpiredIn(ids, admitted0, standing));
  }

  /** An admission and what the tick cached take nothing but the admitted id off the
      list of candidates. */
  lemma CandidateLeft(all: seq<nat>, x: nat, id: nat, admitted: set<nat>, cache: set<nat>, later: set<nat>, standing: Standings)
    requires cache <= later <= cache + ExpiredIn(all, admitted, standing)
    ensures Classify(x, admitted + {id}, later, standing) == Candidate <==>
      Classify(x, admitted, cache, standing) == Candidate && x != id
  {
  }

  lemma {:induction false} CandidatesLeft(all: seq<nat>, ids: seq<nat>, id: nat, admitted: set<nat>, cache: set<nat>,
                                          later: set<nat>, standing: Standings)
    requires Ascending(ids) && cache <= later <= cache + ExpiredIn(all, admitted, standing)
    requires Classify(id, admitted, cache, standing) == Candidate
    ensures CountClass(ids, admitted + {id}, later, standing, Candidate) + One(id in ids) ==
      CountClass(ids, admitted, cache, standing, Candidate)
  {
    if ids != [] {
      var init, last := ids[..|ids| - 1], ids[|ids| - 1];
      assert ids == init + [last];
      assert last !in init;
      CandidateLeft(all, last, id, admitted, cache, later, standing);
      CandidatesLeft(all, init, id, admitted, cache, later, standing);
      hide Classify, ExpiredIn, Ascending;
    }
  }

  /** Nothing expired was admitted meanwhile, and the cache holds only ids that
      were cached before or have expired. */
  predicate SameExpired(admitted0: set<nat>, cache0: set<nat>, admitted: set<nat>, cache: set<nat>,
                        standing: Standings, ids: seq<nat>)
  {
    && admitted0 <= admitted && cache0 <= cache <= cache0 + ExpiredIn(ids, admitted0, standing)
    && forall x :: x in admitted && x !in admitted0 ==> standing(x) == Admissible
  }

  /** The first `k` markers have been classified, and none of them stopped. */
  predicate Walked(ids: seq<nat>, k: nat, admitted: set<nat>, cache0: set<nat>, standing: Standings,
                   cache: set<nat>, already: nat, expired: nat, inactive: nat)
  {
    && k <= |ids|
    && cache == cache0 + ExpiredIn(ids[..k], admitted, standing)
    && Counted(ids[..k], admitted, cache0, standing, already, expired, inactive)
    && forall i :: 0 <= i < k ==> Stored(Classify(ids[i], admitted, cache0, standing))
  }

  predicate Counted(seen: seq<nat>, admitted: set<nat>, cache0: set<nat>, standing: Standings,
                    already: nat, expired: nat, inactive: nat)
  {
    && already == CountClass(seen, admitted, cache0, standing, AlreadyAdmitted)
    && expired == CountClass(seen, admitted, cache0, standing, ExpiredMarker)
    && inactive == CountClass(seen, admitted, cache0, standing, Inactive)
    && already + expired + inactive == |seen|
  }

  lemma WalkStarts(ids: seq<nat>, admitted: set<nat>, cache: set<nat>, standing: Standings)
    ensures Walked(ids, 0, admitted, cache, standing, cache, 0, 0, 0)
  {
    assert ids[..0] == [];
    assert ExpiredIn([], admitted, standing) == {};
  }

  function One(b: bool): nat {
    if b then 1 else 0
  }

  lemma CountedGrows(seen: seq<nat>, id: nat, admitted: set<nat>, cache0: set<nat>, standing: Standings,
                     already: nat, expired: nat, inactive: nat)
    requires Counted(seen, admitted, cache0, standing, already, expired, inactive)
    requires Stored(Classify(id, admitted, cache0, standing))
    ensures
      var c := Classify(id, admitted, cache0, standing);
      Counted(seen + [id], admitted, cache0, standing,
              already + One(c == AlreadyAdmitted), expired + One(c == ExpiredMarker), inactive + One(c == Inactive))
  {
    CountGrows(seen, id, admitted, cache0, standing, AlreadyAdmitted);
    CountGrows(seen, id, admitted, cache0, standing, ExpiredMarker);
    CountGrows(seen, id, admitted, cache0, standing, Inactive);
    hide CountClass, Classify;
  }

  /** Passing over a marker counts it in its own class. */
  lemma WalkExtends(ids: seq<nat>, k: nat, admitted: set<nat>, cache0: set<nat>, standing: Standings,
                    cache: set<nat>, already: nat, expired: nat, inactive: nat)
    requires Ascending(ids) && k < |ids|
    requires Walked(ids, k, admitted, cache0, standing, cache, already, expired, inactive)
    requires Stored(Classify(ids[k], admitted, cache0, standing))
    ensures
      var id, c := ids[k], Classify(ids[k], admitted, cache0, standing);
      Walked(ids, k + 1, admitted, cache0, standing,
             cache + if id !in admitted && standing(id) == Expired then {id} else {},
             already + One(c == AlreadyAdmitted), expired + One(c == ExpiredMarker), inactive + One(c == Inactive))
  {
    var id, before := ids[k], ids[..k];
    assert ids[..k + 1] == before + [id];
    assert id !in before;
    ExpiredGrows(before, id, admitted, standing);
    CountedGrows(before, id, admitted, cache0, standing, already, expired, inactive);
    hide ExpiredIn, Ascending, Counted, Classify, Stored, One;
    var newly := if id !in admitted && standing(id) == Expired then {id} else {};
    UnionMoves(cache0, ExpiredIn(before, admitted, standing), newly);
  }

  lemma UnionMoves(a: set<nat>, b: set<nat>, c: set<nat>)
    ensures a + (b + c) == (a + b) + c
  {
  }

  /** The class seen by the loop, through the grown cache, is the original one. */
  lemma WalkClass(ids: seq<nat>, k: nat, admitted: set<nat>, cache0: set<nat>, standing: Standings,
                  cache: set<nat>, already: nat, expired: nat, inactive: nat)
    requires Ascending(ids) && k < |ids|
    requires Walked(ids, k, admitted, cache0, standing, cache, already, expired, inactive)
    ensures ids[k] in cache <==> ids[k] in cache0
  {
    assert ids[k] !in ids[..k];
  }

  /** Every way to pass over the next marker. */
  lemma WalkOne(ids: seq<nat>, k: nat, admitted: set<nat>, cache0: set<nat>, standing: Standings,
                cache: set<nat>, already: nat, expired: nat, inactive: nat)
    requires Ascending(ids) && k < |ids|
    requires Walked(ids, k, admitted, cache0, standing, cache, already, expired, inactive)
    ensures
      var id := ids[k];
      && (id in cache ==> Walked(ids, k + 1, admitted, cache0, standing, cache, already, expired + 1, inactive))
      && (id !in cache && id in admitted ==>
            Walked(ids, k + 1, admitted, cache0, standing, cache, already + 1, expired, inactive))
      && (id !in cache && id !in admitted && standing(id) == Expired ==>
            Walked(ids, k + 1, admitted, cache0, standing, cache + {id}, already, expired + 1, inactive))
      && (id !in cache && id !in admitted && standing(id) == NotYetActive ==>
            Walked(ids, k + 1, admitted, cache0, standing, cache, already, expired, inactive + 1))
  {
    WalkClass(ids, k, admitted, cache0, standing, cache, already, expired, inactive);
    var id := ids[k];
    if Stored(Classify(id, admitted, cache0, standing)) {
      WalkExtends(ids, k, admitted, cache0, standing, cache, already, expired, inactive);
    }
    hide Walked, Ascending;
    assert cache + {} == cache;
    assert id in cache ==> cache + {id} == cache;
  }

  lemma ExpiredGrows(ids: seq<nat>, id: nat, admitted: set<nat>, standing: Standings)
    requires id !in ids
    ensures ExpiredIn(ids + [id], admitted, standing) ==
      ExpiredIn(ids, admitted, standing) + if id !in admitted && standing(id) == Expired then {id} else {}
  {
  }

  lemma CountGrows(ids: seq<nat>, id: nat, admitted: set<nat>, cache: set<nat>, standing: Standings, c: Class)
    ensures CountClass(ids + [id], admitted, cache, standing, c) ==
      CountClass(ids, admitted, cache, standing, c) + if Classify(id, admitted, cache, standing) == c then 1 else 0
  {
    assert (ids + [id])[..|ids|] == ids;
  }

  /** The marker that is admitted is the smallest one that could be. */
  lemma WalkAdmits(ids: seq<nat>, k: nat, admitted: set<nat>, cache0: set<nat>, standing: Standings,
                   cache: set<nat>, already: nat, expired: nat, inactive: nat)
    requires Ascending(ids) && k < |ids|
    requires Walked(ids, k, admitted, cache0, standing, cache, already, expired, inactive)
    requires ids[k] !in cache && ids[k] !in admitted && standing(ids[k]) == Admissible
    ensures Classify(ids[k], admitted, cache0, standing) == Candidate && already + expired + inactive == k
    ensures cache0 <= cache <= cache0 + ExpiredIn(ids, admitted, standing)
    ensures SmallestCandidate(ids, ids[k], admitted, cache0, standing)
  {
    CacheWithin(ids, k, admitted, cache0, standing);
    WalkClass(ids, k, admitted, cache0, standing, cache, already, expired, inactive);
    hide ExpiredIn, CountClass;
    forall x | x in ids && x < ids[k] ensures Classify(x, admitted, cache0, standing) != Candidate {
      var i :| 0 <= i < |ids| && ids[i] == x;
      assert i < k;
    }
  }

  lemma WalkFull(ids: seq<nat>, k: nat, admitted: set<nat>, cache0: set<nat>, standing: Standings,
                 cache: set<nat>, already: nat, expired: nat, inactive: nat)
    requires k < |ids| && Walked(ids, k, admitted, cache0, standing, cache, already, expired, inactive)
    requires ids[k] !in cache && ids[k] !in admitted && standing(ids[k]) == Expired && |cache| >= MAX_READY_ENTRIES
    ensures |cache0 + ExpiredIn(ids, admitted, standing)| > MAX_READY_ENTRIES
  {
    FullCache(ids, k, admitted, cache0, standing);
  }

  lemma WalkEnds(ids: seq<nat>, admitted: set<nat>, cache0: set<nat>, standing: Standings,
                 cache: set<nat>, already: nat, expired: nat, inactive: nat)
    requires Walked(ids, |ids|, admitted, cache0, standing, cache, already, expired, inactive)
    ensures cache == cache0 + ExpiredIn(ids, admitted, standing)
    ensures already == CountClass(ids, admitted, cache0, standing, AlreadyAdmitted)
    ensures expired == CountClass(ids, admitted, cache0, standing, ExpiredMarker)
    ensures inactive == CountClass(ids, admitted, cache0, standing, Inactive)
    ensures already + expired + inactive == |ids|
    ensures CountClass(ids, admitted, cache0, standing, Candidate) == 0
    ensures CountClass(ids, admitted, cache0, standing, Broken) == 0
  {
    assert ids[..|ids|] == ids;
    CountZero(ids, admitted, cache0, standing, Candidate);
    CountZero(ids, admitted, cache0, standing, Broken);
  }

  /** Marker `k` cannot be passed over: its binding differs, the store rejects it,
      or it is newly expired while the cache, with everything expired before it, is
      full. */
  predicate Stops(ids: seq<nat>, k: nat, admitted: set<nat>, cache: set<nat>, standing: Standings, bound: nat -> bool)
    requires k < |ids|
  {
    var id := ids[k];
    && id !in cache
    && if id in admitted then !bound(id)
       else
         match standing(id)
         case Admissible => !bound(id)
         case Expired => |cache + ExpiredIn(ids[..k], admitted, standing)| >= MAX_READY_ENTRIES
         case NotYetActive => false
         case Rejected => true
  }

  /** A tick raises exactly when such a marker comes no later than the smallest
      candidate. */
  ghost predicate Raises(ids: seq<nat>, admitted: set<nat>, cache: set<nat>, standing: Standings, bound: nat -> bool) {
    exists k :: 0 <= k < |ids| && Stops(ids, k, admitted, cache, standing, bound)
      && forall j :: 0 <= j < k ==> Classify(ids[j], admitted, cache, standing) != Candidate
  }

  lemma StopsHere(ids: seq<nat>, k: nat, admitted: set<nat>, cache0: set<nat>, standing: Standings, bound: nat -> bool,
                  cache: set<nat>, already: nat, expired: nat, inactive: nat)
    requires Ascending(ids) && k < |ids|
    requires Walked(ids, k, admitted, cache0, standing, cache, already, expired, inactive)
    ensures
      Stops(ids, k, admitted, cache0, standing, bound) <==>
        && ids[k] !in cache
        && if ids[k] in admitted then !bound(ids[k])
           else
             || (standing(ids[k]) == Admissible && !bound(ids[k])) || standing(ids[k]) == Rejected
             || (standing(ids[k]) == Expired && |cache| >= MAX_READY_ENTRIES)
    ensures Stops(ids, k, admitted, cache0, standing, bound) ==> Raises(ids, admitted, cache0, standing, bound)
    ensures cache0 <= cache <= cache0 + ExpiredIn(ids, admitted, standing)
  {
    CacheWithin(ids, k, admitted, cache0, standing);
    WalkClass(ids, k, admitted, cache0, standing, cache, already, expired, inactive);
    hide CountClass, ExpiredIn, Ascending;
  }

  lemma NothingStops(ids: seq<nat>, admitted: set<nat>, cache: set<nat>, standing: Standings, bound: nat -> bool)
    requires forall j :: 0 <= j < |ids| ==> !Stops(ids, j, admitted, cache, standing, bound)
    ensures !Raises(ids, admitted, cache, standing, bound)
  {
  }

  lemma AdmittedNotRaised(ids: seq<nat>, k: nat, admitted: set<nat>, cache: set<nat>, standing: Standings, bound: nat -> bool)
    requires k < |ids| && Classify(ids[k], admitted, cache, standing) == Candidate
    requires forall j :: 0 <= j <= k ==> !Stops(ids, j, admitted, cache, standing, bound)
    ensures !Raises(ids, admitted, cache, standing, bound)
  {
  }

  /** In a directory that the store accepts a tick raises exactly when a newly
      expired marker precedes the smallest candidate and, with the expired markers
      before it, finds the cache full. */
  lemma AcceptingRaisesExactly(ids: seq<nat>, admitted: set<nat>, cache: set<nat>, standing: Standings, bound: nat -> bool)
    requires Accepting(ids, standing, bound)
    ensures Raises(ids, admitted, cache, standing, bound) <==>
      exists k :: 0 <= k < |ids| && Overflows(ids, k, admitted, cache, standing)
        && forall j :: 0 <= j < k ==> Classify(ids[j], admitted, cache, standing) != Candidate
  {
    hide Classify, ExpiredIn;
    forall k | 0 <= k < |ids|
      ensures Stops(ids, k, admitted, cache, standing, bound) <==> Overflows(ids, k, admitted, cache, standing)
    {
    }
  }

  predicate Overflows(ids: seq<nat>, k: nat, admitted: set<nat>, cache: set<nat>, standing: Standings)
    requires k < |ids|
  {
    && ids[k] !in cache && ids[k] !in admitted && standing(ids[k]) == Expired
    && |cache + ExpiredIn(ids[..k], admitted, standing)| >= MAX_READY_ENTRIES
  }

  function Below(n: nat): (s: set<nat>)
    ensures forall x: nat :: x in s <==> x < n
    ensures |s| == n
  {
    if n == 0 then {} else Below(n - 1) + {n - 1}
  }

  /** A full cache and one more expired marker: the tick raises in an accepting
      directory. */
  lemma FullCacheRaises()
    ensures Accepting([MAX_READY_ENTRIES], _ => Expired, _ => true)
    ensures Raises([MAX_READY_ENTRIES], {}, Below(MAX_READY_ENTRIES), _ => Expired, _ => true)
  {
    var cache := Below(MAX_READY_ENTRIES);
    assert cache + ExpiredIn([], {}, _ => Expired) == cache;
    assert [MAX_READY_ENTRIES][..0] == [];
    assert Stops([MAX_READY_ENTRIES], 0, {}, cache, _ => Expired, _ => true);
  }

  lemma NotAccepting(ids: seq<nat>, k: nat, standing: Standings, bound: nat -> bool)
    requires k < |ids| && (!bound(ids[k]) || standing(ids[k]) == Rejected)
    ensures !Accepting(ids, standing, bound)
  {
  }

  /** A class the loop passes over. */
  predicate Stored(c: Class) {
    c == AlreadyAdmitted || c == ExpiredMarker || c == Inactive
  }

  /** The store rejects nothing in the directory and every binding matches. */
  predicate Accepting(ids: seq<nat>, standing: Standings, bound: nat -> bool) {
    forall i :: 0 <= i < |ids| ==> standing(ids[i]) != Rejected && bound(ids[i])
  }

  lemma CacheWithin(ids: seq<nat>, k: nat, admitted: set<nat>, cache: set<nat>, standing: Standings)
    requires k <= |ids|
    ensures cache + ExpiredIn(ids[..k], admitted, standing) <= cache + ExpiredIn(ids, admitted, standing)
  {
  }

  lemma Smaller(a: set<nat>, b: set<nat>)
    requires a <= b
    ensures |a| <= |b|
  {
    if a != {} {
      var x :| x in a;
      Smaller(a - {x}, b - {x});
    }
  }

  /** A new expired marker meets a full cache only if the whole directory does not
      fit into it. */
  lemma FullCache(ids: seq<nat>, k: nat, admitted: set<nat>, cache: set<nat>, standing: Standings)
    requires k < |ids| && ids[k] !in admitted && standing(ids[k]) == Expired
    requires ids[k] !in cache + ExpiredIn(ids[..k], admitted, standing)
    requires |cache + ExpiredIn(ids[..k], admitted, standing)| >= MAX_READY_ENTRIES
    ensures |cache + ExpiredIn(ids, admitted, standing)| > MAX_READY_ENTRIES
  {
    var before := cache + ExpiredIn(ids[..k], admitted, standing);
    CacheWithin(ids, k, admitted, cache, standing);
    Smaller(before + {ids[k]}, cache + ExpiredIn(ids, admitted, standing));
  }
}
