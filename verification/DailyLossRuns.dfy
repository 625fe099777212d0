/** Whole runs of record calls on the daily-loss ledger: what each call decides,
    and exactly when the order of arrival does not matter. */
module DailyLossRuns {
  import opened Coverage
  import opened DailyLoss

  /** The ledger after a run of record calls, each an event with the clock
      reading at which it arrived. */
  function Run(events: seq<EventRow>, calls: seq<EventRow>): seq<EventRow> {
    if calls == [] then events
    else Append(Run(events, calls[..|calls| - 1]), calls[|calls| - 1]).events
  }

  predicate Stored(events: seq<EventRow>, m: Material) {
    exists e :: e in events && e.material == m
  }

  predicate Free(events: seq<EventRow>, m: Material) {
    forall e :: e in events ==> !Clashes(e.material, m)
  }

  /** What one record call does: it is a replay exactly when its material is
      stored, it is stored exactly when nothing stored clashes with it, and any
      other call is a conflict; replays and conflicts change nothing. */
  lemma {:induction false} AppendDecides(events: seq<EventRow>, e: EventRow)
    requires Unique(events)
    ensures
      var r := Append(events, e);
      && Unique(r.events)
      && (r.outcome == Ok(true) <==> Free(events, e.material))
      && (r.outcome == Ok(false) <==> Stored(events, e.material))
      && (r.outcome.StateConflict? <==> !Free(events, e.material) && !Stored(events, e.material))
      && r.events == if Free(events, e.material) then events + [e] else events
  {
    NoMatches(events, e.material);
    if Matches(events, e.material) == [] {
      AppendKeepsUnique(events, e);
    } else {
      assert Matches(events, e.material)[0] in Matches(events, e.material);
      if Stored(events, e.material) {
        StoredIsOnlyMatch(events, e.material);
      }
    }
  }

  lemma {:induction false} NoMatches(events: seq<EventRow>, m: Material)
    ensures Free(events, m) <==> Matches(events, m) == []
  {
    if events != [] {
      var init, last := events[..|events| - 1], events[|events| - 1];
      assert events == init + [last];
      NoMatches(init, m);
    }
  }

  lemma {:induction false} StoredIsOnlyMatch(events: seq<EventRow>, m: Material)
    requires Unique(events) && Stored(events, m)
    ensures |Matches(events, m)| == 1 && Matches(events, m)[0].material == m
  {
    var init, last := events[..|events| - 1], events[|events| - 1];
    assert events == init + [last];
    if last.material == m {
      assert Free(init, m) by {
        assert forall k :: 0 <= k < |init| ==> !Clashes(events[k].material, last.material);
      }
      NoMatches(init, m);
    } else {
      var e :| e in events && e.material == m;
      var k :| 0 <= k < |init| && init[k] == e;
      assert !Clashes(events[k].material, last.material);
      StoredIsOnlyMatch(init, m);
    }
  }

  lemma {:induction false} RunKeepsUnique(events: seq<EventRow>, calls: seq<EventRow>)
    requires Unique(events)
    ensures Unique(Run(events, calls))
    ensures events <= Run(events, calls)
    ensures forall e :: e in Run(events, calls) ==> e in events || e in calls
  {
    if calls != [] {
      var init, last := calls[..|calls| - 1], calls[|calls| - 1];
      assert calls == init + [last];
      RunKeepsUnique(events, init);
      AppendDecides(Run(events, init), last);
    }
  }

  /** No run of record calls lowers what is used, for a watermark that does not
      move back, and every stored row is still one that validation accepts. */
  lemma UsedNeverDecreases(events: seq<EventRow>, calls: seq<EventRow>, from: Instant, through: Instant, later: Instant)
    requires Unique(events) && through <= later
    requires forall e :: e in events || e in calls ==> ValidEvent(e)
    ensures forall e :: e in Run(events, calls) ==> ValidEvent(e)
    ensures 0.0 <= Used(events, from, through) <= Used(Run(events, calls), from, later)
  {
    RunKeepsUnique(events, calls);
    UsedGrows(events, Run(events, calls), from, through, later);
  }

  /** Among the calls the ledger could still accept, any two that share an id or
      a source reference carry the same material. */
  predicate Compatible(events: seq<EventRow>, calls: seq<EventRow>) {
    forall a, b ::
      a in calls && b in calls && Free(events, a.material) && Free(events, b.material)
      && Clashes(a.material, b.material) ==>
        a.material == b.material
  }

  /** Compatible calls leave exactly the old rows and every acceptable call. */
  lemma {:induction false} RunStores(events: seq<EventRow>, calls: seq<EventRow>, m: Material)
    requires Unique(events) && Compatible(events, calls)
    ensures Stored(Run(events, calls), m) <==>
      Stored(events, m) || (Stored(calls, m) && Free(events, m))
  {
    if calls != [] {
      var init, last := calls[..|calls| - 1], calls[|calls| - 1];
      assert calls == init + [last];
      RunKeepsUnique(events, init);
      RunStores(events, init, m);
      StepStores(events, init, last, m);
    }
  }

  lemma StepStores(events: seq<EventRow>, init: seq<EventRow>, last: EventRow, m: Material)
    requires Unique(events) && Compatible(events, init + [last])
    ensures
      var before := Run(events, init);
      Stored(Append(before, last).events, m) <==>
        Stored(before, m) || (last.material == m && Free(events, m))
  {
    var before := Run(events, init);
    RunKeepsUnique(events, init);
    AppendDecides(before, last);
    if Free(before, last.material) {
      StoredAfter(before, last, m);
      assert Free(events, last.material);
    } else if last.material == m && Free(events, m) {
      var e :| e in before && Clashes(e.material, m);
      RunAcceptsOnlyFree(events, init, e);
      assert e in init + [last] && last in init + [last];
    }
  }

  lemma StoredAfter(events: seq<EventRow>, e: EventRow, m: Material)
    ensures Stored(events + [e], m) <==> Stored(events, m) || e.material == m
  {
    assert e in events + [e];
    if Stored(events, m) {
      var x :| x in events && x.material == m;
      assert x in events + [e];
    }
  }

  lemma {:induction false} RunAcceptsOnlyFree(events: seq<EventRow>, calls: seq<EventRow>, e: EventRow)
    requires Unique(events)
    requires e in Run(events, calls) && e !in events
    ensures e in calls && Free(events, e.material)
  {
    var init, last := calls[..|calls| - 1], calls[|calls| - 1];
    assert calls == init + [last];
    var before := Run(events, init);
    RunKeepsUnique(events, init);
    AppendDecides(before, last);
    hide Append, Matches, Unique, Clashes;
    if e in before {
      RunAcceptsOnlyFree(events, init, e);
    } else {
      assert e == last && Free(before, e.material);
      assert forall x :: x in events ==> x in before;
    }
  }

  predicate SameStored(a: seq<EventRow>, b: seq<EventRow>) {
    && (forall e :: e in a ==> Stored(b, e.material))
    && (forall e :: e in b ==> Stored(a, e.material))
  }

  /** Every arrival order of the same calls ends with the same stored events. */
  ghost predicate OrderIndependent(events: seq<EventRow>, calls: seq<EventRow>) {
    forall p, q: seq<EventRow> ::
      multiset(p) == multiset(calls) && multiset(q) == multiset(calls) ==>
        SameStored(Run(events, p), Run(events, q))
  }

  /** The exact condition: arrival order does not matter if and only if the
      acceptable calls are pairwise compatible. */
  lemma OrderDoesNotMatterExactly(events: seq<EventRow>, calls: seq<EventRow>)
    requires Unique(events)
    ensures OrderIndependent(events, calls) <==> Compatible(events, calls)
  {
    if Compatible(events, calls) {
      forall p, q: seq<EventRow> | multiset(p) == multiset(calls) && multiset(q) == multiset(calls)
        ensures SameStored(Run(events, p), Run(events, q))
      {
        SameStoredWhenCompatible(events, calls, p, q);
        SameStoredWhenCompatible(events, calls, q, p);
      }
    } else {
      var a, b :| a in calls && b in calls && Free(events, a.material) && Free(events, b.material)
        && Clashes(a.material, b.material) && a.material != b.material;
      FirstWins(events, calls, a, b);
    }
  }

  lemma SameStoredWhenCompatible(events: seq<EventRow>, calls: seq<EventRow>, p: seq<EventRow>, q: seq<EventRow>)
    requires Unique(events) && Compatible(events, calls)
    requires multiset(p) == multiset(calls) && multiset(q) == multiset(calls)
    ensures forall e :: e in Run(events, p) ==> Stored(Run(events, q), e.material)
  {
    SameMembers(p, calls);
    SameMembers(q, calls);
    forall e | e in Run(events, p) ensures Stored(Run(events, q), e.material) {
      RunStores(events, p, e.material);
      RunStores(events, q, e.material);
      assert Stored(Run(events, p), e.material);
      if Stored(p, e.material) {
        var x :| x in p && x.material == e.material;
        assert x in q;
      }
    }
  }

  lemma SameMembers(p: seq<EventRow>, q: seq<EventRow>)
    requires multiset(p) == multiset(q)
    ensures forall e :: e in p <==> e in q
  {
    forall e ensures e in p <==> e in q {
      assert e in p <==> e in multiset(p);
      assert e in q <==> e in multiset(q);
    }
  }

  /** Of two acceptable calls that conflict, the one that arrives first wins, so
      two orders of the calls end with different ledgers. */
  lemma FirstWins(events: seq<EventRow>, calls: seq<EventRow>, a: EventRow, b: EventRow)
    requires Unique(events) && a in calls && b in calls
    requires Free(events, a.material) && Free(events, b.material)
    requires Clashes(a.material, b.material) && a.material != b.material
    ensures !OrderIndependent(events, calls)
  {
    var p, q := MovedFirst(calls, a), MovedFirst(calls, b);
    FirstIsStored(events, p);
    FirstIsStored(events, q);
    RunKeepsUnique(events, q);
    if Stored(Run(events, q), a.material) {
      ClashingNotBothStored(Run(events, q), a.material, b.material);
    }
    assert !SameStored(Run(events, p), Run(events, q));
  }

  function MovedFirst(calls: seq<EventRow>, a: EventRow): (p: seq<EventRow>)
    requires a in calls
    ensures multiset(p) == multiset(calls)
    ensures p != [] && p[0] == a
  {
    if calls[0] == a then calls
    else
      var rest := MovedFirst(calls[1..], a);
      assert calls == [calls[0]] + calls[1..];
      assert rest == [a] + rest[1..];
      [a, calls[0]] + rest[1..]
  }

  lemma {:induction false} FirstIsStored(events: seq<EventRow>, calls: seq<EventRow>)
    requires Unique(events) && calls != [] && Free(events, calls[0].material)
    ensures calls[0] in Run(events, calls)
    ensures Stored(Run(events, calls), calls[0].material)
  {
    var init := calls[..|calls| - 1];
    RunKeepsUnique(events, init);
    AppendDecides(Run(events, init), calls[|calls| - 1]);
    if init == [] {
      assert Run(events, calls) == events + [calls[0]];
    } else {
      FirstIsStored(events, init);
    }
  }

  lemma ClashMeansSame(events: seq<EventRow>, i: int, j: int)
    requires Unique(events) && 0 <= i < |events| && 0 <= j < |events|
    requires Clashes(events[i].material, events[j].material)
    ensures i == j
  {
  }

  lemma ClashingNotBothStored(events: seq<EventRow>, a: Material, b: Material)
    requires Unique(events) && Stored(events, a) && Stored(events, b) && Clashes(a, b)
    ensures a == b
  {
    var x :| x in events && x.material == a;
    var y :| y in events && y.material == b;
    var i :| 0 <= i < |events| && events[i] == x;
    var j :| 0 <= j < |events| && events[j] == y;
    ClashMeansSame(events, i, j);
  }

  // ----- the budget does not depend on arrival order -----

  function Without(events: seq<EventRow>, k: int): seq<EventRow>
    requires 0 <= k < |events|
  {
    events[..k] + events[k + 1..]
  }

  lemma {:induction false} UsedWithout(events: seq<EventRow>, k: int, from: Instant, through: Instant)
    requires 0 <= k < |events|
    ensures Used(events, from, through) ==
      Used(Without(events, k), from, through) + DebitIn(events[k], from, through)
    decreases |events|
  {
    var init := events[..|events| - 1];
    if k == |events| - 1 {
      assert Without(events, k) == init;
    } else {
      var rest := Without(events, k);
      assert rest[..|rest| - 1] == Without(init, k);
      UsedWithout(init, k, from, through);
    }
  }

  lemma HasMember(events: seq<EventRow>)
    ensures events == [] || exists e :: e in events
  {
    if events != [] {
      assert events[0] in events;
    }
  }

  /** What is used depends on which events are stored, not on how they came. */
  lemma {:induction false} UsedBySet(a: seq<EventRow>, b: seq<EventRow>, from: Instant, through: Instant)
    requires Unique(a) && Unique(b) && SameStored(a, b)
    ensures Used(a, from, through) == Used(b, from, through)
    decreases |a|
  {
    if a == [] {
      HasMember(b);
    } else {
      var last := a[|a| - 1];
      assert last in a;
      var x :| x in b && x.material == last.material;
      var k :| 0 <= k < |b| && b[k] == x;
      UsedWithout(b, k, from, through);
      DropMatching(a, b, k);
      UsedBySet(a[..|a| - 1], Without(b, k), from, through);
    }
  }

  lemma DropMatching(a: seq<EventRow>, b: seq<EventRow>, k: int)
    requires Unique(a) && Unique(b) && SameStored(a, b)
    requires a != [] && 0 <= k < |b| && b[k].material == a[|a| - 1].material
    ensures Unique(a[..|a| - 1]) && Unique(Without(b, k)) && SameStored(a[..|a| - 1], Without(b, k))
  {
    assert Without(a, |a| - 1) == a[..|a| - 1];
    WithoutStores(a, |a| - 1);
    WithoutStores(b, k);
    StillStored(a, b, |a| - 1, k);
    StillStored(b, a, k, |a| - 1);
  }

  /** Removing one row removes exactly its material. */
  lemma WithoutStores(events: seq<EventRow>, k: int)
    requires Unique(events) && 0 <= k < |events|
    ensures Unique(Without(events, k))
    ensures forall e :: e in Without(events, k) ==> e in events && e.material != events[k].material
    ensures forall e :: e in events && e.material != events[k].material ==> e in Without(events, k)
  {
    var rest := Without(events, k);
    forall i, j | 0 <= i < j < |rest| ensures !Clashes(rest[i].material, rest[j].material) {
      var i', j' := if i < k then i else i + 1, if j < k then j else j + 1;
      assert rest[i] == events[i'] && rest[j] == events[j'];
    }
    forall e | e in rest ensures e in events && e.material != events[k].material {
      var i :| 0 <= i < |rest| && rest[i] == e;
      var i' := if i < k then i else i + 1;
      assert events[i'] == e;
      if e.material == events[k].material {
        ClashMeansSame(events, i', k);
      }
    }
    forall e | e in events && e.material != events[k].material ensures e in rest {
      var i :| 0 <= i < |events| && events[i] == e;
      assert rest[if i < k then i else i - 1] == e;
    }
  }

  lemma StillStored(a: seq<EventRow>, b: seq<EventRow>, j: int, k: int)
    requires Unique(a) && Unique(b) && 0 <= j < |a| && 0 <= k < |b| && b[k].material == a[j].material
    requires forall e :: e in a ==> Stored(b, e.material)
    ensures forall e :: e in Without(a, j) ==> Stored(Without(b, k), e.material)
  {
    WithoutStores(a, j);
    WithoutStores(b, k);
    hide Unique, Clashes, Without;
    forall e | e in Without(a, j) ensures Stored(Without(b, k), e.material) {
      var y :| y in b && y.material == e.material;
      assert y in Without(b, k);
    }
  }

  /** The budget after compatible calls is the same for every arrival order. */
  lemma UsedIgnoresOrder(events: seq<EventRow>, p: seq<EventRow>, q: seq<EventRow>, from: Instant, through: Instant)
    requires Unique(events) && multiset(p) == multiset(q) && Compatible(events, p)
    ensures Used(Run(events, p), from, through) == Used(Run(events, q), from, through)
  {
    SameStoredWhenCompatible(events, p, p, q);
    SameStoredWhenCompatible(events, p, q, p);
    RunKeepsUnique(events, p);
    RunKeepsUnique(events, q);
    UsedBySet(Run(events, p), Run(events, q), from, through);
  }

  /** Conflicting ids make the budget depend on order: whichever of these two
      fees arrives first is the one that is charged. */
  lemma ConflictMakesOrderMatter()
    ensures
      var a := EventRow(Material("id", Fills, Fee, "a", 0.0, 1.0, 1.0), 0.0);
      var b := EventRow(Material("id", Fills, Fee, "b", 0.0, 2.0, 2.0), 0.0);
      Used(Run([], [a, b]), 0.0, 0.0) != Used(Run([], [b, a]), 0.0, 0.0)
  {
    var a := EventRow(Material("id", Fills, Fee, "a", 0.0, 1.0, 1.0), 0.0);
    var b := EventRow(Material("id", Fills, Fee, "b", 0.0, 2.0, 2.0), 0.0);
    OneKept(a, b);
    OneKept(b, a);
  }

  lemma OneKept(a: EventRow, b: EventRow)
    requires Clashes(a.material, b.material) && a.material != b.material
    ensures Run([], [a, b]) == [a]
    ensures forall t: Instant, u: Instant :: Used([a], t, u) == DebitIn(a, t, u)
  {
    assert [a, b][..1] == [a] && [a][..0] == [];
    AppendDecides([], a);
    AppendDecides([a], b);
    assert [a][0] in [a];
    assert Run([], [a]) == [] + [a] == [a];
    assert !Free([a], b.material);
  }
}
