/** The append-only daily-loss ledger: idempotent replay, conflict rejection,
    the UTC-day budget and the newest common complete watermark. */
module DailyLoss {
  import opened Options
  import opened Coverage

  datatype Source = Fills | Funding

  datatype Kind = RealizedPnl | Fee | NetFunding

  /** The hashed material of one event; two records have the same hash exactly
      when their material is equal. */
  datatype Material = Material(
    eventId: string, source: Source, kind: Kind, sourceRef: string,
    occurredAt: Instant, amount: real, debit: real)

  datatype EventRow = EventRow(material: Material, observedAt: Instant)

  datatype CoverageRecord = CoverageRecord(
    coverageId: string, source: Source, cursor: string, row: CoverageRow)

  datatype Result<+T> =
    | Ok(value: T)
    | ValidationError
    | StateConflict
    | IncompleteCoverage(missing: seq<Source>)
    | StaleWatermark
    | CorruptStore

  datatype DailyLossSnapshot = DailyLossSnapshot(
    asOf: Instant, limit: real, used: real, remaining: real,
    realized: real, fees: real, funding: real, eventCount: nat,
    complete: bool, missing: seq<Source>)

  // ----- UTC days -----

  const DAY := 86400.0

  function DayNumber(t: Instant): int {
    (t / DAY).Floor
  }

  function DayStart(t: Instant): Instant {
    DayNumber(t) as real * DAY
  }

  lemma DayStartBounds(t: Instant)
    ensures DayStart(t) <= t < DayStart(t) + DAY
  {
    var x := t / DAY;
    assert x * DAY == t;
    assert x.Floor as real <= x < x.Floor as real + 1.0;
  }

  lemma SameDay(t: Instant, u: Instant)
    requires DayStart(u) <= t <= u
    ensures DayNumber(t) == DayNumber(u) && DayStart(t) == DayStart(u)
  {
    DayStartBounds(u);
    var d := DayNumber(u);
    var x := t / DAY;
    assert x * DAY == t;
    assert d as real <= x < d as real + 1.0;
  }

  // ----- what a stored event must satisfy -----

  function ExpectedSource(kind: Kind): Source {
    if kind.NetFunding? then Funding else Fills
  }

  function ExpectedDebit(kind: Kind, amount: real): real {
    if kind.Fee? then amount else if amount < 0.0 then -amount else 0.0
  }

  predicate ValidEvent(e: EventRow) {
    var m := e.material;
    && m.source == ExpectedSource(m.kind)
    && m.occurredAt <= e.observedAt
    && m.debit >= 0.0
    && m.debit == ExpectedDebit(m.kind, m.amount)
  }

  // ----- appending with idempotent replay -----

  predicate Clashes(a: Material, b: Material) {
    || a.eventId == b.eventId
    || (a.source == b.source && a.kind == b.kind && a.sourceRef == b.sourceRef)
  }

  function Matches(events: seq<EventRow>, m: Material): (found: seq<EventRow>)
    ensures forall e :: e in found <==> e in events && Clashes(e.material, m)
  {
    if events == [] then []
    else
      var rest := Matches(events[..|events| - 1], m);
      var last := events[|events| - 1];
      assert events == events[..|events| - 1] + [last];
      if Clashes(last.material, m) then rest + [last] else rest
  }

  datatype Appended = Appended(events: seq<EventRow>, outcome: Result<bool>)

  function Append(events: seq<EventRow>, e: EventRow): Appended {
    var existing := Matches(events, e.material);
    if existing == [] then Appended(events + [e], Ok(true))
    else if |existing| == 1 && existing[0].material == e.material then Appended(events, Ok(false))
    else Appended(events, StateConflict)
  }

  /** No two stored events share an id or a source reference. */
  predicate Unique(events: seq<EventRow>) {
    forall i, j :: 0 <= i < j < |events| ==> !Clashes(events[i].material, events[j].material)
  }

  // ----- the budget -----

  predicate InWindow(e: EventRow, from: Instant, through: Instant) {
    from <= e.material.occurredAt <= through
  }

  function DebitIn(e: EventRow, from: Instant, through: Instant): real {
    if InWindow(e, from, through) then e.material.debit else 0.0
  }

  /** Everything charged to the budget in [from, through]. */
  function Used(events: seq<EventRow>, from: Instant, through: Instant): real {
    if events == [] then 0.0
    else Used(events[..|events| - 1], from, through) + DebitIn(events[|events| - 1], from, through)
  }

  function ChargedBy(e: EventRow, kind: Kind, from: Instant, through: Instant): real {
    if e.material.kind == kind then DebitIn(e, from, through) else 0.0
  }

  /** The part of the budget charged by events of one kind. */
  function Charged(events: seq<EventRow>, kind: Kind, from: Instant, through: Instant): real {
    if events == [] then 0.0
    else
      Charged(events[..|events| - 1], kind, from, through)
      + ChargedBy(events[|events| - 1], kind, from, through)
  }

  lemma {:induction false} ChargesAddUp(events: seq<EventRow>, from: Instant, through: Instant)
    ensures Used(events, from, through) ==
      Charged(events, RealizedPnl, from, through)
      + Charged(events, Fee, from, through)
      + Charged(events, NetFunding, from, through)
  {
    if events != [] {
      ChargesAddUp(events[..|events| - 1], from, through);
    }
  }

  /** Recording more events and moving the watermark forward never lowers what
      is used. */
  lemma {:induction false} UsedGrows(before: seq<EventRow>, after: seq<EventRow>,
                                     from: Instant, through: Instant, later: Instant)
    requires before <= after && through <= later
    requires forall e :: e in after ==> e.material.debit >= 0.0
    ensures Used(before, from, through) <= Used(after, from, later)
    ensures Used(before, from, through) >= 0.0
    decreases |after|
  {
    if |before| < |after| {
      UsedGrows(before, after[..|after| - 1], from, through, later);
    } else if before != [] {
      assert before == after;
      UsedGrows(before[..|before| - 1], after[..|after| - 1], from, through, later);
    }
  }

  /** How many events fall in the window. */
  function CountIn(events: seq<EventRow>, from: Instant, through: Instant): nat {
    if events == [] then 0
    else
      CountIn(events[..|events| - 1], from, through)
      + if InWindow(events[|events| - 1], from, through) then 1 else 0
  }

  function Remaining(limit: real, used: real): real {
    if limit - used > 0.0 then limit - used else 0.0
  }

  function RowsOf(records: seq<CoverageRecord>, source: Source): (rows: seq<CoverageRow>)
    ensures forall r :: r in rows ==> exists c :: c in records && c.source == source && c.row == r
    ensures forall c :: c in records && c.source == source ==> c.row in rows
  {
    if records == [] then []
    else
      var rest := RowsOf(records[..|records| - 1], source);
      var last := records[|records| - 1];
      assert records == records[..|records| - 1] + [last];
      if last.source == source then rest + [last.row] else rest
  }

  predicate SameRecord(a: CoverageRecord, b: CoverageRecord) {
    a.(row := a.row.(observedAt := 0.0)) == b.(row := b.row.(observedAt := 0.0))
  }

  predicate CoverageClash(a: CoverageRecord, b: CoverageRecord) {
    a.coverageId == b.coverageId || (a.source == b.source && a.cursor == b.cursor)
  }

  predicate UniqueCoverage(records: seq<CoverageRecord>) {
    forall i, j :: 0 <= i < j < |records| ==> !CoverageClash(records[i], records[j])
  }

  // ----- coverage of both streams -----

  ghost predicate BothGapFree(coverage: seq<CoverageRecord>, from: Instant, through: Instant) {
    GapFree(RowsOf(coverage, Fills), from, through) && GapFree(RowsOf(coverage, Funding), from, through)
  }

  ghost function MissingAt(coverage: seq<CoverageRecord>, from: Instant, through: Instant): (missing: seq<Source>)
    ensures missing == [] <==> BothGapFree(coverage, from, through)
  {
    (if GapFree(RowsOf(coverage, Fills), from, through) then [] else [Fills])
    + (if GapFree(RowsOf(coverage, Funding), from, through) then [] else [Funding])
  }

  ghost predicate ReachesMidnight(coverage: seq<CoverageRecord>, now: Instant) {
    && Covered(RowsOf(coverage, Fills), DayStart(now))
    && Covered(RowsOf(coverage, Funding), DayStart(now))
  }

  /** The greatest instant of the day, not after `now`, up to which both streams
      are gap-free from UTC midnight. */
  ghost predicate CommonWatermark(coverage: seq<CoverageRecord>, now: Instant, w: Instant) {
    && DayStart(now) <= w <= now
    && BothGapFree(coverage, DayStart(now), w)
    && forall u: Instant :: w < u <= now ==> !BothGapFree(coverage, DayStart(now), u)
  }

  lemma WatermarkUnique(coverage: seq<CoverageRecord>, now: Instant, v: Instant, w: Instant)
    requires CommonWatermark(coverage, now, v) && CommonWatermark(coverage, now, w)
    ensures v == w
  {
  }

  ghost predicate Reaches(rows: seq<CoverageRow>, from: Instant, now: Instant, last: Instant) {
    (last == now && GapFree(rows, from, now)) || (last < now && MaximalPrefix(rows, from, last))
  }

  /** The earlier of the two streams' covered prefixes is the common watermark. */
  lemma CommonIsWatermark(coverage: seq<CoverageRecord>, now: Instant, a: Instant, b: Instant)
    requires Reaches(RowsOf(coverage, Fills), DayStart(now), now, a)
    requires Reaches(RowsOf(coverage, Funding), DayStart(now), now, b)
    ensures
      var common := if a <= b then a else b;
      && CommonWatermark(coverage, now, common)
      && forall w :: CommonWatermark(coverage, now, w) ==> w == common
  {
    DayStartBounds(now);
    var common := if a <= b then a else b;
    assert CommonWatermark(coverage, now, common);
    forall w | CommonWatermark(coverage, now, w) ensures w == common {
      WatermarkUnique(coverage, now, w, common);
    }
  }

  // ----- the ledger -----

  class DailyLossLedger {
    const limit: real
    var events: seq<EventRow>
    var coverage: seq<CoverageRecord>

    ghost predicate Valid()
      reads this
    {
      && limit > 0.0
      && (forall e :: e in events ==> ValidEvent(e))
      && Unique(events)
      && (forall c :: c in coverage ==> ValidRow(c.row))
      && UniqueCoverage(coverage)
    }

    /** Every row was written at or before the clock reading `now`. */
    ghost predicate WrittenBy(now: Instant)
      reads this
    {
      && (forall e :: e in events ==> e.observedAt <= now)
      && (forall c :: c in coverage ==> c.row.observedAt <= now)
    }

    constructor (limit: real)
      requires limit > 0.0
      ensures Valid() && this.limit == limit && events == [] && coverage == []
    {
      this.limit := limit;
      events := [];
      coverage := [];
    }

    /** Appends one event, accepts an exact replay without a change, and rejects
        everything else that shares an id or a source reference. */
    method AppendEvent(m: Material, now: Instant) returns (r: Result<bool>)
      requires Valid()
      requires m.source == ExpectedSource(m.kind) && m.debit == ExpectedDebit(m.kind, m.amount)
      modifies this`events
      ensures Valid() && (old(WrittenBy(now)) ==> WrittenBy(now))
      ensures r.ValidationError? <==> m.occurredAt > now || m.debit < 0.0
      ensures r.ValidationError? ==> events == old(events)
      ensures !r.ValidationError? ==>
        Appended(events, r) == Append(old(events), EventRow(m, now))
    {
      if m.occurredAt > now || m.debit < 0.0 {
        return ValidationError;
      }
      var row := EventRow(m, now);
      var existing := Matches(events, m);
      if existing != [] {
        if |existing| == 1 && existing[0].material == m {
          return Ok(false);
        }
        return StateConflict;
      }
      AppendKeepsUnique(events, row);
      events := events + [row];
      return Ok(true);
    }

    method RecordRealizedPnl(eventId: string, sourceRef: string, occurredAt: Instant, pnl: real, now: Instant)
      returns (r: Result<bool>)
      requires Valid()
      modifies this`events
      ensures Valid() && (old(WrittenBy(now)) ==> WrittenBy(now))
      ensures r.ValidationError? <==> occurredAt > now
      ensures r.ValidationError? ==> events == old(events)
      ensures !r.ValidationError? ==>
        var charged := if pnl < 0.0 then -pnl else 0.0;
        var m := Material(eventId, Fills, RealizedPnl, sourceRef, occurredAt, pnl, charged);
        Appended(events, r) == Append(old(events), EventRow(m, now))
    {
      var debit := if pnl < 0.0 then -pnl else 0.0;
      r := AppendEvent(Material(eventId, Fills, RealizedPnl, sourceRef, occurredAt, pnl, debit), now);
    }

    method RecordFee(eventId: string, sourceRef: string, occurredAt: Instant, fee: real, now: Instant)
      returns (r: Result<bool>)
      requires Valid()
      modifies this`events
      ensures Valid() && (old(WrittenBy(now)) ==> WrittenBy(now))
      ensures r.ValidationError? <==> fee < 0.0 || occurredAt > now
      ensures r.ValidationError? ==> events == old(events)
      ensures !r.ValidationError? ==>
        var m := Material(eventId, Fills, Fee, sourceRef, occurredAt, fee, fee);
        Appended(events, r) == Append(old(events), EventRow(m, now))
    {
      if fee < 0.0 {
        return ValidationError;
      }
      r := AppendEvent(Material(eventId, Fills, Fee, sourceRef, occurredAt, fee, fee), now);
    }

    method RecordFunding(eventId: string, sourceRef: string, occurredAt: Instant, net: real, now: Instant)
      returns (r: Result<bool>)
      requires Valid()
      modifies this`events
      ensures Valid() && (old(WrittenBy(now)) ==> WrittenBy(now))
      ensures r.ValidationError? <==> occurredAt > now
      ensures r.ValidationError? ==> events == old(events)
      ensures !r.ValidationError? ==>
        var charged := if net < 0.0 then -net else 0.0;
        var m := Material(eventId, Funding, NetFunding, sourceRef, occurredAt, net, charged);
        Appended(events, r) == Append(old(events), EventRow(m, now))
    {
      var debit := if net < 0.0 then -net else 0.0;
      r := AppendEvent(Material(eventId, Funding, NetFunding, sourceRef, occurredAt, net, debit), now);
    }

    method RecordCoverage(coverageId: string, source: Source, from: Instant, through: Instant,
                          cursor: string, now: Instant) returns (r: Result<bool>)
      requires Valid()
      modifies this`coverage
      ensures Valid() && (old(WrittenBy(now)) ==> WrittenBy(now))
      ensures r.ValidationError? <==> through < from || through > now
      ensures
        var c := CoverageRecord(coverageId, source, cursor, CoverageRow(from, through, now));
        coverage == if r == Ok(true) then old(coverage) + [c] else old(coverage)
      ensures !r.ValidationError? ==>
        var c := CoverageRecord(coverageId, source, cursor, CoverageRow(from, through, now));
        && (r == Ok(true) <==> forall x :: x in old(coverage) ==> !CoverageClash(x, c))
        && (r == Ok(false) <==> exists x :: x in old(coverage) && SameRecord(x, c))
        && (r == Ok(true) || r == Ok(false) || r.StateConflict?)
    {
      if through < from || through > now {
        return ValidationError;
      }
      var c := CoverageRecord(coverageId, source, cursor, CoverageRow(from, through, now));
      var existing := CoverageMatches(coverage, c);
      if existing != [] {
        assert existing[0] in coverage;
        if |existing| == 1 && SameRecord(existing[0], c) {
          return Ok(false);
        }
        ReplayIsOnlyMatch(coverage, c);
        return StateConflict;
      }
      CoverageKeepsUnique(coverage, c);
      coverage := coverage + [c];
      return Ok(true);
    }

    /** One stream's sweep over the rows stored for it. */
    method SourceStatus(source: Source, from: Instant, through: Instant) returns (s: Status)
      requires Valid() && from <= through
      ensures s.complete <==> GapFree(RowsOf(coverage, source), from, through)
      ensures s.coveredFrom.Some? <==> s.coveredThrough.Some?
      ensures s.coveredFrom.Some? && s.coveredFrom.value <= from <==> Covered(RowsOf(coverage, source), from)
      ensures s.complete ==> s.coveredFrom.Some? && s.coveredThrough.value >= through
      ensures Covered(RowsOf(coverage, source), from) ==>
        from <= s.coveredThrough.value && GapFree(RowsOf(coverage, source), from, s.coveredThrough.value)
      ensures s.coveredThrough.Some? ==>
        exists c :: c in coverage && c.row.through == s.coveredThrough.value
      ensures !s.complete && Covered(RowsOf(coverage, source), from) ==>
        && s.coveredThrough.value < through
        && MaximalPrefix(RowsOf(coverage, source), from, s.coveredThrough.value)
    {
      var rows := RowsOf(coverage, source);
      forall i | 0 <= i < |rows| ensures ValidRow(rows[i]) {
        assert rows[i] in rows;
      }
      var swept := CoverageStatus(rows, from, through);
      s := swept.status;
      if s.coveredThrough.Some? {
        var i :| 0 <= i < |rows| && rows[i].through == s.coveredThrough.value;
        assert rows[i] in rows;
      }
    }

    /** What each kind of event was charged in the window, and how many there are. */
    method Totals(start: Instant, at: Instant) returns (realized: real, fees: real, funding: real, count: nat)
      requires Valid()
      ensures realized == Charged(events, RealizedPnl, start, at)
      ensures fees == Charged(events, Fee, start, at)
      ensures funding == Charged(events, NetFunding, start, at)
      ensures realized + fees + funding == Used(events, start, at) >= 0.0
      ensures count == CountIn(events, start, at)
    {
      realized, fees, funding, count := 0.0, 0.0, 0.0, 0;
      for i := 0 to |events|
        invariant realized == Charged(events[..i], RealizedPnl, start, at)
        invariant count == CountIn(events[..i], start, at)
        invariant fees == Charged(events[..i], Fee, start, at)
        invariant funding == Charged(events[..i], NetFunding, start, at)
      {
        assert events[..i + 1][..i] == events[..i];
        if InWindow(events[i], start, at) {
          count := count + 1;
          match events[i].material.kind
          case RealizedPnl => realized := realized + events[i].material.debit;
          case Fee => fees := fees + events[i].material.debit;
          case NetFunding => funding := funding + events[i].material.debit;
        }
      }
      assert events[..|events|] == events;
      ChargesAddUp(events, start, at);
      UsedGrows([], events, start, at, at);
    }

    /** The budget at `asOf` (or at the clock): what was charged since UTC
        midnight, what is left, and which streams have a gap. */
    method Snapshot(now: Instant, asOf: Option<Instant>, requireComplete: bool) returns (r: Result<DailyLossSnapshot>)
      requires Valid()
      ensures
        var at := if asOf.Some? then asOf.value else now;
        var gapless := MissingAt(coverage, DayStart(at), at) == [];
        && (r.ValidationError? <==> at > now || DayNumber(at) != DayNumber(now))
        && (r.IncompleteCoverage? <==> !r.ValidationError? && requireComplete && !gapless)
        && (r.IncompleteCoverage? ==> r.missing == MissingAt(coverage, DayStart(at), at))
        && (r.Ok? || r.ValidationError? || r.IncompleteCoverage?)
      ensures r.Ok? ==>
        var at := if asOf.Some? then asOf.value else now;
        && r.value.asOf == at
        && r.value.limit == limit
        && r.value.used == Used(events, DayStart(at), at)
        && r.value.realized == Charged(events, RealizedPnl, DayStart(at), at)
        && r.value.fees == Charged(events, Fee, DayStart(at), at)
        && r.value.funding == Charged(events, NetFunding, DayStart(at), at)
        && r.value.eventCount == CountIn(events, DayStart(at), at)
        && r.value.remaining == Remaining(limit, r.value.used)
        && 0.0 <= r.value.remaining <= limit
        && r.value.complete == (r.value.missing == [])
        && r.value.missing == MissingAt(coverage, DayStart(at), at)
    {
      var at := if asOf.Some? then asOf.value else now;
      if at > now {
        return ValidationError;
      }
      if DayNumber(at) != DayNumber(now) {
        return ValidationError;
      }
      var start := DayStart(at);
      DayStartBounds(at);
      var fills := SourceStatus(Fills, start, at);
      var funded := SourceStatus(Funding, start, at);
      var realized, fees, funding, count := Totals(start, at);
      var used := realized + fees + funding;
      var remaining := if limit - used > 0.0 then limit - used else 0.0;
      var missing := (if fills.complete then [] else [Fills]) + (if funded.complete then [] else [Funding]);
      if requireComplete && missing != [] {
        return IncompleteCoverage(missing);
      }
      return Ok(DailyLossSnapshot(at, limit, used, remaining, realized, fees, funding, count, missing == [], missing));
    }

    function Late(fills: bool, funding: bool): (missing: seq<Source>)
      ensures Fills in missing <==> fills
      ensures Funding in missing <==> funding
      ensures missing == [] <==> !fills && !funding
    {
      (if fills then [Fills] else []) + (if funding then [Funding] else [])
    }

    /** The earlier end of the two streams' covered prefixes, if both reach midnight
        and it is recent enough. */
    method NewestWatermark(now: Instant, maximumAge: nat) returns (r: Result<Instant>)
      requires Valid()
      ensures r.Ok? || r.IncompleteCoverage? || r.StaleWatermark?
      ensures r.IncompleteCoverage? <==> !ReachesMidnight(coverage, now)
      ensures r.IncompleteCoverage? ==> forall x :: x in r.missing <==> !Covered(RowsOf(coverage, x), DayStart(now))
      ensures r.Ok? ==>
        && DayNumber(r.value) == DayNumber(now) && DayStart(r.value) == DayStart(now)
        && BothGapFree(coverage, DayStart(now), r.value)
      ensures WrittenBy(now) ==>
        && (r.StaleWatermark? <==> exists w :: CommonWatermark(coverage, now, w) && now - w > maximumAge as real)
        && (r.Ok? ==> CommonWatermark(coverage, now, r.value) && now - r.value <= maximumAge as real)
    {
      var start := DayStart(now);
      DayStartBounds(now);
      var fills := SourceStatus(Fills, start, now);
      var funded := SourceStatus(Funding, start, now);
      var lateFills := fills.coveredFrom.None? || fills.coveredFrom.value > start;
      var lateFunding := funded.coveredFrom.None? || funded.coveredFrom.value > start;
      var missing := Late(lateFills, lateFunding);
      if missing != [] {
        forall x: Source ensures x in missing <==> !Covered(RowsOf(coverage, x), start) {
          match x
          case Fills =>
          case Funding =>
        }
        return IncompleteCoverage(missing);
      }
      var a, b := fills.coveredThrough.value, funded.coveredThrough.value;
      var common := if a <= b then a else b;
      hide Unique, ValidEvent, UniqueCoverage;
      if WrittenBy(now) {
        CommonIsWatermark(coverage, now, a, b);
        SameDay(common, now);
      }
      if DayNumber(common) != DayNumber(now) || now - common > maximumAge as real {
        return StaleWatermark;
      }
      return Ok(common);
    }

    /** The newest watermark both streams reach without a gap from UTC midnight.
        `now` and `later` are the two clock readings of one call, in any order.
        Missing coverage is reported exactly when a stream does not reach midnight.
        In a ledger whose rows were written by the first reading, staleness is
        reported exactly when the common watermark is too old, and a current
        watermark is refused exactly when the second reading falls on another day
        or before the watermark. */
    method LatestCompleteSnapshot(now: Instant, later: Instant, maximumAge: int) returns (r: Result<DailyLossSnapshot>)
      requires Valid()
      ensures r.Ok? || r.ValidationError? || r.IncompleteCoverage? || r.StaleWatermark?
      ensures !(0 <= maximumAge <= 300) ==> r.ValidationError?
      ensures 0 <= maximumAge <= 300 ==> (r.IncompleteCoverage? <==> !ReachesMidnight(coverage, now))
      ensures r.IncompleteCoverage? ==> forall x :: x in r.missing <==> !Covered(RowsOf(coverage, x), DayStart(now))
      ensures r.Ok? ==>
        && r.value.complete && BothGapFree(coverage, DayStart(r.value.asOf), r.value.asOf)
        && r.value.asOf <= later && DayNumber(r.value.asOf) == DayNumber(now) == DayNumber(later)
        && r.value.used == Used(events, DayStart(now), r.value.asOf)
        && r.value.remaining == Remaining(limit, r.value.used)
      ensures WrittenBy(now) && 0 <= maximumAge <= 300 ==>
        && (r.StaleWatermark? <==>
          exists w :: CommonWatermark(coverage, now, w) && now - w > maximumAge as real)
        && (r.ValidationError? <==>
          exists w :: CommonWatermark(coverage, now, w) && now - w <= maximumAge as real
            && (later < w || DayNumber(later) != DayNumber(now)))
        && (r.Ok? ==> CommonWatermark(coverage, now, r.value.asOf))
    {
      if !(0 <= maximumAge <= 300) {
        return ValidationError;
      }
      var newest := NewestWatermark(now, maximumAge);
      match newest {
        case Ok(common) =>
          r := Snapshot(later, Some(common), true);
          OnlyWatermark(now, common);
        case IncompleteCoverage(missing) => r := IncompleteCoverage(missing);
        case _ => r := StaleWatermark;
      }
    }

    lemma OnlyWatermark(now: Instant, w: Instant)
      ensures CommonWatermark(coverage, now, w) ==> forall v :: CommonWatermark(coverage, now, v) ==> v == w
    {
      if CommonWatermark(coverage, now, w) {
        forall v | CommonWatermark(coverage, now, v) ensures v == w {
          WatermarkUnique(coverage, now, v, w);
        }
      }
    }
  }

  /** A ledger in which both streams cover [0, through], written at the end of it. */
  method CoveredLedger(through: Instant) returns (ledger: DailyLossLedger)
    requires 0.0 <= through
    ensures fresh(ledger) && ledger.Valid() && ledger.WrittenBy(through)
    ensures forall source :: GapFree(RowsOf(ledger.coverage, source), 0.0, through)
  {
    ledger := new DailyLossLedger(1.0);
    var fills := ledger.RecordCoverage("fills", Fills, 0.0, through, "a", through);
    var funding := ledger.RecordCoverage("funding", Funding, 0.0, through, "b", through);
    var row := CoverageRow(0.0, through, through);
    var stored := ledger.coverage;
    assert stored == [CoverageRecord("fills", Fills, "a", row), CoverageRecord("funding", Funding, "b", row)];
    assert stored[0] in stored && stored[1] in stored;
    forall source: Source ensures GapFree(RowsOf(stored, source), 0.0, through) {
      assert row in RowsOf(stored, source);
      forall t: Instant | 0.0 <= t <= through ensures Covered(RowsOf(stored, source), t) {
        CoveredByMember(RowsOf(stored, source), row, t);
      }
    }
  }

  lemma DayOf(t: Instant, day: int)
    requires day as real * DAY <= t < (day + 1) as real * DAY
    ensures DayNumber(t) == day
  {
    DayStartBounds(t);
  }

  /** Complete coverage up to the last second of the day is refused when the second
      reading of the clock falls on the next day. */
  method MidnightRefuses() returns (r: Result<DailyLossSnapshot>)
    ensures r.ValidationError?
  {
    DayOf(86399.0, 0);
    DayOf(86401.0, 1);
    var ledger := CoveredLedger(86399.0);
    assert CommonWatermark(ledger.coverage, 86399.0, 86399.0);
    r := ledger.LatestCompleteSnapshot(86399.0, 86401.0, 5);
  }

  /** Complete coverage up to the first reading is refused when the second reading
      of the clock, on the same day, is earlier. */
  method BackwardClockRefuses() returns (r: Result<DailyLossSnapshot>)
    ensures r.ValidationError?
  {
    DayOf(100.0, 0);
    var ledger := CoveredLedger(100.0);
    assert CommonWatermark(ledger.coverage, 100.0, 100.0);
    r := ledger.LatestCompleteSnapshot(100.0, 99.0, 5);
  }

  function CoverageMatches(records: seq<CoverageRecord>, c: CoverageRecord): (found: seq<CoverageRecord>)
    ensures forall x :: x in found <==> x in records && CoverageClash(x, c)
  {
    if records == [] then []
    else
      var rest := CoverageMatches(records[..|records| - 1], c);
      var last := records[|records| - 1];
      assert records == records[..|records| - 1] + [last];
      if CoverageClash(last, c) then rest + [last] else rest
  }

  /** Two stored records cannot both clash with a record that one of them
      repeats, so a replay is recognised exactly when it is stored. */
  lemma ReplayIsOnlyMatch(records: seq<CoverageRecord>, c: CoverageRecord)
    requires UniqueCoverage(records)
    ensures (exists x :: x in records && SameRecord(x, c)) ==>
      |CoverageMatches(records, c)| == 1 && SameRecord(CoverageMatches(records, c)[0], c)
  {
    if records != [] {
      var init, last := records[..|records| - 1], records[|records| - 1];
      assert records == init + [last];
      ReplayIsOnlyMatch(init, c);
      if SameRecord(last, c) {
        assert forall x :: x in init ==> !CoverageClash(x, last);
        var found := CoverageMatches(init, c);
        assert forall i :: 0 <= i < |found| ==> found[i] in found;
        assert found == [];
      } else if exists x :: x in init && SameRecord(x, c) {
        var k :| 0 <= k < |init| && SameRecord(init[k], c);
        assert !CoverageClash(records[k], last);
      }
    }
  }

  lemma CoverageKeepsUnique(records: seq<CoverageRecord>, c: CoverageRecord)
    requires UniqueCoverage(records) && CoverageMatches(records, c) == []
    ensures UniqueCoverage(records + [c])
  {
    forall i | 0 <= i < |records| ensures !CoverageClash(records[i], c) {
      assert records[i] in records;
      assert records[i] !in CoverageMatches(records, c);
    }
  }

  lemma AppendKeepsUnique(events: seq<EventRow>, e: EventRow)
    requires Unique(events) && Matches(events, e.material) == []
    ensures Unique(events + [e])
  {
    forall i | 0 <= i < |events| ensures !Clashes(events[i].material, e.material) {
      assert events[i] in events;
      assert events[i] !in Matches(events, e.material);
    }
  }
}
