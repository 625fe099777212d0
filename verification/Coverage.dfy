/** The coverage sweep: do the stored closed query intervals leave no gap?

    Instants are real numbers.  The sweep calls two intervals contiguous only
    when they share an instant, which is exact over dense time; for instants
    that are whole ticks it is stricter (see TickGap). */
module Coverage {
  import opened Options

  type Instant = real

  /** One stored interval and the clock reading when it was written. */
  datatype CoverageRow = CoverageRow(from: Instant, through: Instant, observedAt: Instant)

  datatype Status = Status(coveredFrom: Option<Instant>, coveredThrough: Option<Instant>, complete: bool)

  datatype StatusResult = Swept(status: Status) | StorageError

  predicate ValidRow(r: CoverageRow) {
    r.from <= r.through <= r.observedAt
  }

  // ----- what coverage means -----

  ghost predicate Covered(rows: seq<CoverageRow>, t: Instant) {
    exists i :: 0 <= i < |rows| && rows[i].from <= t <= rows[i].through
  }

  ghost predicate GapFree(rows: seq<CoverageRow>, from: Instant, through: Instant) {
    forall t: Instant :: from <= t <= through ==> Covered(rows, t)
  }

  /** [from, last] is covered and no later instant extends the covered prefix. */
  ghost predicate MaximalPrefix(rows: seq<CoverageRow>, from: Instant, last: Instant) {
    && from <= last
    && GapFree(rows, from, last)
    && forall u: Instant :: last < u ==> !GapFree(rows, from, u)
  }

  // ----- the stored rows in order -----

  predicate Before(a: CoverageRow, b: CoverageRow) {
    a.from < b.from || (a.from == b.from && a.through <= b.through)
  }

  predicate Sorted(rows: seq<CoverageRow>) {
    forall i, j :: 0 <= i < j < |rows| ==> Before(rows[i], rows[j])
  }

  function Insert(r: CoverageRow, rows: seq<CoverageRow>): (s: seq<CoverageRow>)
    requires Sorted(rows)
    ensures forall x :: x in s <==> x == r || x in rows
    ensures Sorted(s)
  {
    if rows == [] then [r]
    else if Before(r, rows[0]) then [r] + rows
    else
      var tail := Insert(r, rows[1..]);
      assert forall x :: x in tail ==> Before(rows[0], x);
      [rows[0]] + tail
  }

  function Sort(rows: seq<CoverageRow>): (s: seq<CoverageRow>)
    ensures Sorted(s)
    ensures forall x :: x in s <==> x in rows
  {
    if rows == [] then [] else Insert(rows[0], Sort(rows[1..]))
  }

  lemma CoveredByMember(rows: seq<CoverageRow>, r: CoverageRow, t: Instant)
    requires r in rows && r.from <= t <= r.through
    ensures Covered(rows, t)
  {
  }

  /** When every interval ends by `last` or starts at `barrier` or later, the
      covered prefix stops at `last`. */
  lemma PrefixStops(rows: seq<CoverageRow>, from: Instant, last: Instant, barrier: Instant)
    requires from <= last < barrier
    requires GapFree(rows, from, last)
    requires forall r :: r in rows ==> r.through <= last || r.from >= barrier
    ensures MaximalPrefix(rows, from, last)
  {
    forall u: Instant | last < u ensures !GapFree(rows, from, u) {
      var t := (last + if u < barrier then u else barrier) / 2.0;
      assert !Covered(rows, t);
    }
  }

  predicate Touches(r: CoverageRow, from: Instant, through: Instant) {
    r.through >= from && r.from <= through
  }

  // ----- the sweep -----

  /** Sweeps the rows in order.  `complete` holds exactly when every instant of
      [from, through] lies in a stored interval, whatever the order of the rows;
      otherwise, when coverage starts in time, `coveredThrough` is the end of the
      maximal covered prefix. */
  method CoverageStatus(rows: seq<CoverageRow>, from: Instant, through: Instant) returns (r: StatusResult)
    requires from <= through
    ensures r.StorageError? <==> exists i :: 0 <= i < |rows| && !ValidRow(rows[i])
    ensures r.Swept? ==> (r.status.complete <==> GapFree(rows, from, through))
    ensures r.Swept? ==> (r.status.coveredFrom.Some? <==> r.status.coveredThrough.Some?)
    ensures r.Swept? ==>
      (r.status.coveredFrom.Some? && r.status.coveredFrom.value <= from <==> Covered(rows, from))
    ensures r.Swept? && r.status.complete ==>
      r.status.coveredFrom.Some? && r.status.coveredThrough.value >= through
    ensures r.Swept? && Covered(rows, from) ==>
      from <= r.status.coveredThrough.value && GapFree(rows, from, r.status.coveredThrough.value)
    ensures r.Swept? && r.status.coveredThrough.Some? ==>
      exists i :: 0 <= i < |rows| && rows[i].through == r.status.coveredThrough.value
    ensures r.Swept? && !r.status.complete && Covered(rows, from) ==>
      r.status.coveredThrough.value < through && MaximalPrefix(rows, from, r.status.coveredThrough.value)
  {
    for i := 0 to |rows|
      invariant forall j :: 0 <= j < i ==> ValidRow(rows[j])
    {
      if rows[i].through < rows[i].from || rows[i].through > rows[i].observedAt {
        return StorageError;
      }
    }
    var ordered := Sort(rows);
    ghost var barrier := through;
    var coveredFrom: Option<Instant>, coveredThrough: Option<Instant>, complete := None, None, false;
    var i := 0;
    while i < |ordered|
      invariant 0 <= i <= |ordered|
      invariant !complete
      invariant coveredFrom.Some? <==> coveredThrough.Some?
      invariant coveredFrom.None? ==> forall j :: 0 <= j < i ==> !Touches(ordered[j], from, through)
      invariant coveredFrom.Some? ==> coveredFrom.value <= from <= coveredThrough.value < through
      invariant coveredFrom.Some? ==> GapFree(rows, from, coveredThrough.value)
      invariant coveredFrom.Some? ==>
        exists j :: 0 <= j < |rows| && rows[j].through == coveredThrough.value
      invariant coveredFrom.Some? ==>
        forall j :: 0 <= j < i && ordered[j].from <= through ==> ordered[j].through <= coveredThrough.value
    {
      var start, end := ordered[i].from, ordered[i].through;
      assert ordered[i] in rows;
      if end < from || start > through {
        i := i + 1;
        continue;
      }
      if coveredFrom.None? {
        coveredFrom, coveredThrough := Some(start), Some(end);
        if start > from {
          break;
        }
      } else if start <= coveredThrough.value {
        if end > coveredThrough.value {
          coveredThrough := Some(end);
        }
      } else {
        barrier := start;
        break;
      }
      if coveredFrom.value <= from && coveredThrough.value >= through {
        complete := true;
        break;
      }
      i := i + 1;
    }
    if coveredFrom.Some? && coveredFrom.value <= from && !complete {
      PrefixStops(rows, from, coveredThrough.value, barrier);
    } else if !complete {
      assert forall j :: 0 <= j < |ordered| ==> !(ordered[j].from <= from <= ordered[j].through);
      assert forall r :: r in rows ==> !(r.from <= from <= r.through);
      assert !Covered(rows, from);
    }
    return Swept(Status(coveredFrom, coveredThrough, complete));
  }

  // ----- whole clock ticks -----

  predicate OnTick(t: Instant) {
    t == t.Floor as real
  }

  predicate TickRows(rows: seq<CoverageRow>) {
    forall i :: 0 <= i < |rows| ==> OnTick(rows[i].from) && OnTick(rows[i].through)
  }

  ghost predicate TickCovered(rows: seq<CoverageRow>, n: int) {
    Covered(rows, n as real)
  }

  /** Some single interval contains both `n` and the next tick. */
  ghost predicate Bridged(rows: seq<CoverageRow>, n: int) {
    exists i :: 0 <= i < |rows| && rows[i].from <= n as real && n as real + 1.0 <= rows[i].through
  }

  /** For intervals that end on whole ticks the sweep accepts exactly the lists
      in which every two neighbouring ticks lie in one interval: intervals that
      merely abut, one ending a tick before the next begins, count as a gap. */
  lemma TickExact(rows: seq<CoverageRow>, from: int, through: int)
    requires TickRows(rows) && from <= through
    ensures GapFree(rows, from as real, through as real) <==>
      && Covered(rows, from as real)
      && forall n: int :: from <= n < through ==> Bridged(rows, n)
  {
    if GapFree(rows, from as real, through as real) {
      forall n: int | from <= n < through ensures Bridged(rows, n) {
        assert Covered(rows, n as real + 0.5);
        var i :| 0 <= i < |rows| && rows[i].from <= n as real + 0.5 <= rows[i].through;
        assert rows[i].from.Floor <= n && n + 1 <= rows[i].through.Floor;
      }
    }
    if Covered(rows, from as real) && forall n: int :: from <= n < through ==> Bridged(rows, n) {
      forall t: Instant | from as real <= t <= through as real ensures Covered(rows, t) {
        var n := if t.Floor == through then through - 1 else t.Floor;
        if from < through {
          assert Bridged(rows, n);
        }
      }
    }
  }

  /** Every tick from 0 to 10 is stored, yet the list is not gap-free. */
  lemma TickGap()
    ensures
      var rows := [CoverageRow(0.0, 5.0, 10.0), CoverageRow(6.0, 10.0, 10.0)];
      && (forall n: int :: 0 <= n <= 10 ==> TickCovered(rows, n))
      && !GapFree(rows, 0.0, 10.0)
  {
    var rows := [CoverageRow(0.0, 5.0, 10.0), CoverageRow(6.0, 10.0, 10.0)];
    forall n: int | 0 <= n <= 10 ensures TickCovered(rows, n) {
      CoveredByMember(rows, if n <= 5 then rows[0] else rows[1], n as real);
    }
    assert !Covered(rows, 5.5);
  }
}
