/** The read-only scan that turns durable records into prioritised work items. */
module WorkScanner {
  import opened Options
  import opened Ordering
  import RecoveryStore

  datatype CommandState = CommandQueued | CommandClaimed | CommandUnknown | CommandReconciling | CommandTerminal

  datatype CommandRow = CommandRow(id: string, state: CommandState, updatedAt: int)

  datatype OutboxRow = OutboxRow(
    id: string, state: CommandState, leaseExpires: Option<int>, attempt: Option<string>, updatedAt: int)

  datatype RecoveryRow = RecoveryRow(id: string, state: RecoveryStore.State, priority: int, updatedAt: int)

  datatype RecoveryBox = RecoveryBox(
    id: string, state: RecoveryStore.State, leaseExpires: Option<int>, attempt: Option<string>, updatedAt: int)

  datatype PositionRow = PositionRow(instrument: string, quantity: real, observedAt: int)

  datatype ProtectionState = Flat | Protected | UnderProtected | OverProtected | Failed

  datatype ProtectionRow = ProtectionRow(command: string, state: ProtectionState, observedAt: int)

  datatype Tables = Tables(
    commands: seq<CommandRow>, outboxes: seq<OutboxRow>,
    recoveries: seq<RecoveryRow>, recoveryBoxes: seq<RecoveryBox>,
    positions: seq<PositionRow>, protections: seq<ProtectionRow>, incidents: seq<RecoveryStore.Incident>)

  datatype Kind =
    | RecoveryDispatch | RecoveryReconcile | RecoveryInFlight | ProtectionGap | OpenIncident
    | CommandReconcile | CommandDispatch | CommandInFlight | OpenPosition

  datatype Item = Item(kind: Kind, fingerprint: string, priority: int, updatedAt: int)

  datatype Work = Work(items: seq<Item>, commandCount: nat, recoveryCount: nat,
                       positionCount: nat, gapCount: nat, incidentCount: nat)

  datatype ScanResult = Scanned(work: Work) | StorageError

  function KindText(k: Kind): string {
    match k
    case RecoveryDispatch => "recovery_dispatch"
    case RecoveryReconcile => "recovery_reconcile"
    case RecoveryInFlight => "recovery_in_flight"
    case ProtectionGap => "protection_gap"
    case OpenIncident => "open_incident"
    case CommandReconcile => "command_reconcile"
    case CommandDispatch => "command_dispatch"
    case CommandInFlight => "command_in_flight"
    case OpenPosition => "open_position"
  }

  // ----- when the tables can be trusted -----

  function CommandIds(rows: seq<CommandRow>): (ids: seq<string>)
    ensures |ids| == |rows| && forall i :: 0 <= i < |rows| ==> ids[i] == rows[i].id
  {
    seq(|rows|, i requires 0 <= i < |rows| => rows[i].id)
  }

  function OutboxIds(rows: seq<OutboxRow>): (ids: seq<string>)
    ensures |ids| == |rows| && forall i :: 0 <= i < |rows| ==> ids[i] == rows[i].id
  {
    seq(|rows|, i requires 0 <= i < |rows| => rows[i].id)
  }

  function RecoveryIds(rows: seq<RecoveryRow>): (ids: seq<string>)
    ensures |ids| == |rows| && forall i :: 0 <= i < |rows| ==> ids[i] == rows[i].id
  {
    seq(|rows|, i requires 0 <= i < |rows| => rows[i].id)
  }

  function RecoveryBoxIds(rows: seq<RecoveryBox>): (ids: seq<string>)
    ensures |ids| == |rows| && forall i :: 0 <= i < |rows| ==> ids[i] == rows[i].id
  {
    seq(|rows|, i requires 0 <= i < |rows| => rows[i].id)
  }

  predicate Distinct(ids: seq<string>) {
    && (forall i :: 0 <= i < |ids| ==> ids[i] != "")
    && (forall i, j :: 0 <= i < j < |ids| ==> ids[i] != ids[j])
  }

  predicate SameMembers(a: seq<string>, b: seq<string>) {
    && (forall i :: 0 <= i < |a| ==> a[i] in b)
    && (forall i :: 0 <= i < |b| ==> b[i] in a)
  }

  function FindOutbox(rows: seq<OutboxRow>, id: string): (k: Option<nat>)
    ensures k.Some? ==> k.value < |rows| && rows[k.value].id == id
    ensures k.None? <==> forall i :: 0 <= i < |rows| ==> rows[i].id != id
  {
    if rows == [] then None
    else if rows[|rows| - 1].id == id then Some(|rows| - 1)
    else FindOutbox(rows[..|rows| - 1], id)
  }

  function FindBox(rows: seq<RecoveryBox>, id: string): (k: Option<nat>)
    ensures k.Some? ==> k.value < |rows| && rows[k.value].id == id
    ensures k.None? <==> forall i :: 0 <= i < |rows| ==> rows[i].id != id
  {
    if rows == [] then None
    else if rows[|rows| - 1].id == id then Some(|rows| - 1)
    else FindBox(rows[..|rows| - 1], id)
  }

  /** A command and its outbox agree, and a claim has a lease. */
  predicate CommandReadable(c: CommandRow, boxes: seq<OutboxRow>) {
    var k := FindOutbox(boxes, c.id);
    && k.Some?
    && boxes[k.value].state == c.state
    && (c.state == CommandClaimed ==> boxes[k.value].leaseExpires.Some?)
  }

  predicate RecoveryReadable(r: RecoveryRow, boxes: seq<RecoveryBox>) {
    var k := FindBox(boxes, r.id);
    && k.Some?
    && boxes[k.value].state == r.state
    && (r.state == RecoveryStore.Claimed || r.state == RecoveryStore.Signing ==> boxes[k.value].leaseExpires.Some?)
    && (r.state != RecoveryStore.Terminal ==> 0 <= r.priority <= 2)
  }

  predicate Identified(t: Tables) {
    && Distinct(CommandIds(t.commands)) && Distinct(OutboxIds(t.outboxes))
    && Distinct(RecoveryIds(t.recoveries)) && Distinct(RecoveryBoxIds(t.recoveryBoxes))
    && Distinct(seq(|t.positions|, i requires 0 <= i < |t.positions| => t.positions[i].instrument))
    && Distinct(seq(|t.protections|, i requires 0 <= i < |t.protections| => t.protections[i].command))
    && Distinct(seq(|t.incidents|, i requires 0 <= i < |t.incidents| => t.incidents[i].id))
    && SameMembers(CommandIds(t.commands), OutboxIds(t.outboxes))
    && SameMembers(RecoveryIds(t.recoveries), RecoveryBoxIds(t.recoveryBoxes))
  }

  predicate Readable(t: Tables) {
    && Identified(t)
    && (forall i :: 0 <= i < |t.commands| ==> CommandReadable(t.commands[i], t.outboxes))
    && (forall i :: 0 <= i < |t.recoveries| ==> RecoveryReadable(t.recoveries[i], t.recoveryBoxes))
  }

  // ----- what one record means -----

  function Later(a: int, b: int): int {
    if a >= b then a else b
  }

  function CommandWork(c: CommandRow, box: OutboxRow, observed: int): Option<(Kind, int)> {
    match c.state
    case CommandTerminal => None
    case CommandQueued => Some((CommandDispatch, 40))
    case CommandClaimed =>
      if box.leaseExpires.Some? && box.leaseExpires.value <= observed then
        if box.attempt.None? then Some((CommandDispatch, 35)) else Some((CommandReconcile, 10))
      else Some((CommandInFlight, 30))
    case _ => Some((CommandReconcile, 20))
  }

  function RecoveryWork(r: RecoveryRow, box: RecoveryBox, observed: int): Option<Kind> {
    match r.state
    case Terminal => None
    case Queued => Some(RecoveryDispatch)
    case Claimed => ClaimedWork(box, observed)
    case Signing => ClaimedWork(box, observed)
    case _ => Some(RecoveryReconcile)
  }

  function ClaimedWork(box: RecoveryBox, observed: int): Option<Kind> {
    if box.leaseExpires.Some? && box.leaseExpires.value <= observed then
      if box.attempt.None? then Some(RecoveryDispatch) else Some(RecoveryReconcile)
    else Some(RecoveryInFlight)
  }

  function SeverityPriority(s: RecoveryStore.Severity): int {
    match s
    case Critical => 0
    case High => 5
    case Warning => 10
  }

  // ----- the order of items -----

  predicate KeyLess(a: Item, b: Item) {
    || a.priority < b.priority
    || (a.priority == b.priority
        && (LexLess(KindText(a.kind), KindText(b.kind))
            || (KindText(a.kind) == KindText(b.kind) && LexLess(a.fingerprint, b.fingerprint))))
  }

  predicate InOrder(items: seq<Item>) {
    forall i, j :: 0 <= i < j < |items| ==> !KeyLess(items[j], items[i])
  }

  lemma TextNotBefore(a: string, b: string, c: string)
    requires !LexLess(b, a) && !LexLess(c, b)
    ensures !LexLess(c, a)
    ensures a == c ==> a == b
  {
    LexTotal(a, b);
    LexTotal(b, c);
    LexTotal(a, c);
    if a != b && b != c {
      LexChains(a, b, c);
    }
  }

  lemma NotBefore(a: Item, b: Item, c: Item)
    requires !KeyLess(b, a) && !KeyLess(c, b)
    ensures !KeyLess(c, a)
  {
    hide KindText;
    if a.priority == b.priority == c.priority {
      TextNotBefore(KindText(a.kind), KindText(b.kind), KindText(c.kind));
      if KindText(a.kind) == KindText(c.kind) {
        TextNotBefore(a.fingerprint, b.fingerprint, c.fingerprint);
      }
    }
  }

  function InsertItem(x: Item, items: seq<Item>): (r: seq<Item>)
    requires InOrder(items)
    ensures |r| == |items| + 1 && forall y :: y in r <==> y == x || y in items
    ensures InOrder(r)
  {
    if items == [] then [x]
    else if !KeyLess(items[0], x) then
      InsertFirst(x, items);
      [x] + items
    else
      var tail := InsertItem(x, items[1..]);
      InsertLater(x, items, tail);
      [items[0]] + tail
  }

  lemma InsertFirst(x: Item, items: seq<Item>)
    requires InOrder(items) && items != [] && !KeyLess(items[0], x)
    ensures InOrder([x] + items)
  {
    hide KeyLess;
    forall j | 0 <= j < |items| ensures !KeyLess(items[j], x) {
      if j > 0 {
        NotBefore(x, items[0], items[j]);
      }
    }
  }

  lemma InsertLater(x: Item, items: seq<Item>, tail: seq<Item>)
    requires InOrder(items) && items != [] && KeyLess(items[0], x) && InOrder(tail)
    requires forall y :: y in tail <==> y == x || y in items[1..]
    ensures InOrder([items[0]] + tail)
  {
    KeyAsymmetric(items[0], x);
    hide KeyLess;
    forall j | 0 <= j < |tail| ensures !KeyLess(tail[j], items[0]) {
      assert tail[j] in tail;
      if tail[j] != x {
        var k :| 0 <= k < |items[1..]| && items[1..][k] == tail[j];
        assert items[k + 1] == tail[j];
      }
    }
  }

  lemma KeyAsymmetric(a: Item, b: Item)
    requires KeyLess(a, b)
    ensures !KeyLess(b, a)
  {
    LexTotal(KindText(a.kind), KindText(b.kind));
    LexTotal(a.fingerprint, b.fingerprint);
  }

  function SortItems(items: seq<Item>): (r: seq<Item>)
    ensures InOrder(r) && |r| == |items| && forall y :: y in r <==> y in items
  {
    if items == [] then []
    else
      assert items == items[..|items| - 1] + [items[|items| - 1]];
      InsertItem(items[|items| - 1], SortItems(items[..|items| - 1]))
  }

  lemma {:induction false} InsertKeeps(x: Item, items: seq<Item>)
    requires InOrder(items)
    ensures multiset(InsertItem(x, items)) == multiset(items) + multiset{x}
  {
    hide KeyLess;
    if items != [] && KeyLess(items[0], x) {
      InsertKeeps(x, items[1..]);
      assert items == [items[0]] + items[1..];
    }
  }

  lemma {:induction false} SortKeeps(items: seq<Item>)
    ensures multiset(SortItems(items)) == multiset(items)
  {
    hide InsertItem;
    if items != [] {
      var init, last := items[..|items| - 1], items[|items| - 1];
      SortKeeps(init);
      InsertKeeps(last, SortItems(init));
      assert items == init + [last];
    }
  }

  // ----- the items of each table -----

  type Fingerprint = (Kind, string) -> string

  function CommandItem(c: CommandRow, boxes: seq<OutboxRow>, observed: int, mark: Fingerprint): seq<Item> {
    var k := FindOutbox(boxes, c.id);
    if k.None? then []
    else
      match CommandWork(c, boxes[k.value], observed)
      case None => []
      case Some(w) => [Item(w.0, mark(w.0, c.id), w.1, Later(c.updatedAt, boxes[k.value].updatedAt))]
  }

  function CommandItems(rows: seq<CommandRow>, boxes: seq<OutboxRow>, observed: int, mark: Fingerprint): seq<Item> {
    if rows == [] then []
    else CommandItems(rows[..|rows| - 1], boxes, observed, mark) + CommandItem(rows[|rows| - 1], boxes, observed, mark)
  }

  function RecoveryItem(r: RecoveryRow, boxes: seq<RecoveryBox>, observed: int, mark: Fingerprint): seq<Item> {
    var k := FindBox(boxes, r.id);
    if k.None? then []
    else
      match RecoveryWork(r, boxes[k.value], observed)
      case None => []
      case Some(kind) => [Item(kind, mark(kind, r.id), r.priority, Later(r.updatedAt, boxes[k.value].updatedAt))]
  }

  function RecoveryItems(rows: seq<RecoveryRow>, boxes: seq<RecoveryBox>, observed: int, mark: Fingerprint): seq<Item> {
    if rows == [] then []
    else RecoveryItems(rows[..|rows| - 1], boxes, observed, mark) + RecoveryItem(rows[|rows| - 1], boxes, observed, mark)
  }

  function PositionItems(rows: seq<PositionRow>, mark: Fingerprint): seq<Item> {
    if rows == [] then []
    else
      var rest := PositionItems(rows[..|rows| - 1], mark);
      var p := rows[|rows| - 1];
      if p.quantity == 0.0 then rest
      else rest + [Item(OpenPosition, mark(OpenPosition, p.instrument), 15, p.observedAt)]
  }

  predicate Gap(p: ProtectionRow) {
    p.state != Flat && p.state != Protected
  }

  function GapItems(rows: seq<ProtectionRow>, mark: Fingerprint): seq<Item> {
    if rows == [] then []
    else
      var rest := GapItems(rows[..|rows| - 1], mark);
      var p := rows[|rows| - 1];
      if Gap(p) then rest + [Item(ProtectionGap, mark(ProtectionGap, p.command), 0, p.observedAt)] else rest
  }

  function IncidentItems(rows: seq<RecoveryStore.Incident>, mark: Fingerprint): seq<Item> {
    if rows == [] then []
    else
      var rest := IncidentItems(rows[..|rows| - 1], mark);
      var i := rows[|rows| - 1];
      if i.state == RecoveryStore.Open then
        rest + [Item(OpenIncident, mark(OpenIncident, i.id), SeverityPriority(i.severity), i.updatedAt)]
      else rest
  }

  function AllItems(t: Tables, observed: int, mark: Fingerprint): seq<Item> {
    CommandItems(t.commands, t.outboxes, observed, mark)
    + RecoveryItems(t.recoveries, t.recoveryBoxes, observed, mark)
    + PositionItems(t.positions, mark)
    + GapItems(t.protections, mark)
    + IncidentItems(t.incidents, mark)
  }

  method Unique(ids: seq<string>) returns (ok: bool)
    ensures ok <==> Distinct(ids)
  {
    var seen: set<string> := {};
    for i := 0 to |ids|
      invariant forall x :: x in seen <==> exists j :: 0 <= j < i && ids[j] == x
      invariant forall j :: 0 <= j < i ==> ids[j] != ""
      invariant forall j, k :: 0 <= j < k < i ==> ids[j] != ids[k]
    {
      if ids[i] == "" || ids[i] in seen {
        return false;
      }
      seen := seen + {ids[i]};
    }
    return true;
  }

  method Agree(a: seq<string>, b: seq<string>) returns (same: bool)
    ensures same <==> SameMembers(a, b)
  {
    same := (forall i :: 0 <= i < |a| ==> a[i] in b) && (forall i :: 0 <= i < |b| ==> b[i] in a);
  }

  method Identify(t: Tables) returns (ok: bool)
    ensures ok <==> Identified(t)
  {
    hide Distinct, SameMembers;
    var a := Unique(CommandIds(t.commands));
    var b := Unique(OutboxIds(t.outboxes));
    var c := Unique(RecoveryIds(t.recoveries));
    var d := Unique(RecoveryBoxIds(t.recoveryBoxes));
    var e := Unique(seq(|t.positions|, i requires 0 <= i < |t.positions| => t.positions[i].instrument));
    var f := Unique(seq(|t.protections|, i requires 0 <= i < |t.protections| => t.protections[i].command));
    var g := Unique(seq(|t.incidents|, i requires 0 <= i < |t.incidents| => t.incidents[i].id));
    var h := Agree(CommandIds(t.commands), OutboxIds(t.outboxes));
    var k := Agree(RecoveryIds(t.recoveries), RecoveryBoxIds(t.recoveryBoxes));
    ok := a && b && c && d && e && f && g && h && k;
  }

  method ScanCommand(c: CommandRow, boxes: seq<OutboxRow>, observed: int, mark: Fingerprint)
    returns (r: Option<seq<Item>>)
    ensures r.Some? <==> CommandReadable(c, boxes)
    ensures r.Some? ==> r.value == CommandItem(c, boxes, observed, mark)
  {
    var k := FindOutbox(boxes, c.id);
    if k.None? || boxes[k.value].state != c.state {
      return None;
    }
    var box := boxes[k.value];
    if c.state == CommandClaimed && box.leaseExpires.None? {
      return None;
    }
    var w := CommandWork(c, box, observed);
    if w.None? {
      return Some([]);
    }
    return Some([Item(w.value.0, mark(w.value.0, c.id), w.value.1, Later(c.updatedAt, box.updatedAt))]);
  }

  method ScanCommands(t: Tables, observed: int, mark: Fingerprint) returns (r: Option<seq<Item>>)
    ensures r.Some? <==> forall i :: 0 <= i < |t.commands| ==> CommandReadable(t.commands[i], t.outboxes)
    ensures r.Some? ==> r.value == CommandItems(t.commands, t.outboxes, observed, mark)
  {
    hide CommandReadable, CommandItem;
    var items: seq<Item> := [];
    for i := 0 to |t.commands|
      invariant forall j :: 0 <= j < i ==> CommandReadable(t.commands[j], t.outboxes)
      invariant items == CommandItems(t.commands[..i], t.outboxes, observed, mark)
    {
      assert t.commands[..i + 1][..i] == t.commands[..i];
      var found := ScanCommand(t.commands[i], t.outboxes, observed, mark);
      if found.None? {
        return None;
      }
      items := items + found.value;
    }
    assert t.commands[..|t.commands|] == t.commands;
    return Some(items);
  }

  method ScanRecovery(r: RecoveryRow, boxes: seq<RecoveryBox>, observed: int, mark: Fingerprint)
    returns (found: Option<seq<Item>>)
    ensures found.Some? <==> RecoveryReadable(r, boxes)
    ensures found.Some? ==> found.value == RecoveryItem(r, boxes, observed, mark)
  {
    var k := FindBox(boxes, r.id);
    if k.None? || boxes[k.value].state != r.state {
      return None;
    }
    var box := boxes[k.value];
    if (r.state == RecoveryStore.Claimed || r.state == RecoveryStore.Signing) && box.leaseExpires.None? {
      return None;
    }
    var kind := RecoveryWork(r, box, observed);
    if kind.None? {
      return Some([]);
    }
    if !(0 <= r.priority <= 2) {
      return None;
    }
    return Some([Item(kind.value, mark(kind.value, r.id), r.priority, Later(r.updatedAt, box.updatedAt))]);
  }

  method ScanRecoveries(t: Tables, observed: int, mark: Fingerprint) returns (r: Option<seq<Item>>)
    ensures r.Some? <==> forall i :: 0 <= i < |t.recoveries| ==> RecoveryReadable(t.recoveries[i], t.recoveryBoxes)
    ensures r.Some? ==> r.value == RecoveryItems(t.recoveries, t.recoveryBoxes, observed, mark)
  {
    hide RecoveryReadable, RecoveryItem;
    var items: seq<Item> := [];
    for i := 0 to |t.recoveries|
      invariant forall j :: 0 <= j < i ==> RecoveryReadable(t.recoveries[j], t.recoveryBoxes)
      invariant items == RecoveryItems(t.recoveries[..i], t.recoveryBoxes, observed, mark)
    {
      assert t.recoveries[..i + 1][..i] == t.recoveries[..i];
      var found := ScanRecovery(t.recoveries[i], t.recoveryBoxes, observed, mark);
      if found.None? {
        return None;
      }
      items := items + found.value;
    }
    assert t.recoveries[..|t.recoveries|] == t.recoveries;
    return Some(items);
  }

  method ScanPositions(rows: seq<PositionRow>, mark: Fingerprint) returns (items: seq<Item>)
    ensures items == PositionItems(rows, mark)
  {
    items := [];
    for i := 0 to |rows|
      invariant items == PositionItems(rows[..i], mark)
    {
      assert rows[..i + 1][..i] == rows[..i];
      if rows[i].quantity != 0.0 {
        items := items + [Item(OpenPosition, mark(OpenPosition, rows[i].instrument), 15, rows[i].observedAt)];
      }
    }
    assert rows[..|rows|] == rows;
  }

  method ScanGaps(rows: seq<ProtectionRow>, mark: Fingerprint) returns (items: seq<Item>)
    ensures items == GapItems(rows, mark)
  {
    items := [];
    for i := 0 to |rows|
      invariant items == GapItems(rows[..i], mark)
    {
      assert rows[..i + 1][..i] == rows[..i];
      if Gap(rows[i]) {
        items := items + [Item(ProtectionGap, mark(ProtectionGap, rows[i].command), 0, rows[i].observedAt)];
      }
    }
    assert rows[..|rows|] == rows;
  }

  method ScanIncidents(rows: seq<RecoveryStore.Incident>, mark: Fingerprint) returns (items: seq<Item>)
    ensures items == IncidentItems(rows, mark)
  {
    items := [];
    for i := 0 to |rows|
      invariant items == IncidentItems(rows[..i], mark)
    {
      assert rows[..i + 1][..i] == rows[..i];
      var x := rows[i];
      if x.state == RecoveryStore.Open {
        items := items + [Item(OpenIncident, mark(OpenIncident, x.id), SeverityPriority(x.severity), x.updatedAt)];
      }
    }
    assert rows[..|rows|] == rows;
  }

  /** Fails exactly when the tables contradict each other; otherwise lists every
      item of every record once, in priority order. */
  method Scan(t: Tables, observed: int, mark: Fingerprint) returns (r: ScanResult)
    ensures r.Scanned? <==> Readable(t)
    ensures r.Scanned? ==>
      && r.work.items == SortItems(AllItems(t, observed, mark))
      && r.work.commandCount == |CommandItems(t.commands, t.outboxes, observed, mark)|
      && r.work.recoveryCount == |RecoveryItems(t.recoveries, t.recoveryBoxes, observed, mark)|
      && r.work.positionCount == |PositionItems(t.positions, mark)|
      && r.work.gapCount == |GapItems(t.protections, mark)|
      && r.work.incidentCount == |IncidentItems(t.incidents, mark)|
  {
    var ok := Identify(t);
    if !ok {
      return StorageError;
    }
    hide Identified, CommandReadable, RecoveryReadable;
    var commands := ScanCommands(t, observed, mark);
    if commands.None? {
      return StorageError;
    }
    var recoveries := ScanRecoveries(t, observed, mark);
    if recoveries.None? {
      return StorageError;
    }
    var positions := ScanPositions(t.positions, mark);
    var gaps := ScanGaps(t.protections, mark);
    var incidents := ScanIncidents(t.incidents, mark);
    var items := SortItems(commands.value + recoveries.value + positions + gaps + incidents);
    return Scanned(Work(items, |commands.value|, |recoveries.value|, |positions|, |gaps|, |incidents|));
  }

  // ----- what the items say about the tables -----

  function Kinds(items: seq<Item>): (k: set<Kind>)
    ensures forall x :: x in k <==> exists i :: 0 <= i < |items| && items[i].kind == x
  {
    if items == [] then {} else Kinds(items[..|items| - 1]) + {items[|items| - 1].kind}
  }

  predicate Has(items: seq<Item>, kind: Kind) {
    exists i :: 0 <= i < |items| && items[i].kind == kind
  }

  predicate CommandHas(c: CommandRow, boxes: seq<OutboxRow>, observed: int, kind: Kind) {
    var k := FindOutbox(boxes, c.id);
    k.Some? && CommandWork(c, boxes[k.value], observed).Some? && CommandWork(c, boxes[k.value], observed).value.0 == kind
  }

  predicate RecoveryHas(r: RecoveryRow, boxes: seq<RecoveryBox>, observed: int, kind: Kind) {
    var k := FindBox(boxes, r.id);
    k.Some? && RecoveryWork(r, boxes[k.value], observed) == Some(kind)
  }

  lemma HasAppended(items: seq<Item>, x: Item, kind: Kind)
    ensures Has(items + [x], kind) <==> Has(items, kind) || x.kind == kind
  {
    assert (items + [x])[|items|] == x;
    if Has(items, kind) {
      var i :| 0 <= i < |items| && items[i].kind == kind;
      assert (items + [x])[i].kind == kind;
    }
  }

  lemma NothingHas(kind: Kind)
    ensures !Has([], kind)
  {
  }

  lemma CommandHasItem(c: CommandRow, boxes: seq<OutboxRow>, observed: int, mark: Fingerprint, kind: Kind)
    ensures Has(CommandItem(c, boxes, observed, mark), kind) <==> CommandHas(c, boxes, observed, kind)
  {
    if CommandHas(c, boxes, observed, kind) {
      assert CommandItem(c, boxes, observed, mark)[0].kind == kind;
    }
  }

  lemma {:induction false} CommandsHave(rows: seq<CommandRow>, boxes: seq<OutboxRow>, observed: int, mark: Fingerprint, kind: Kind)
    ensures Has(CommandItems(rows, boxes, observed, mark), kind) <==>
      exists i :: 0 <= i < |rows| && CommandHas(rows[i], boxes, observed, kind)
  {
    hide CommandHas, Has, CommandItem;
    if rows == [] {
      assert !Has([], kind) by {
        NothingHas(kind);
      }
    } else {
      var init, c := rows[..|rows| - 1], rows[|rows| - 1];
      CommandsHave(init, boxes, observed, mark, kind);
      CommandHasItem(c, boxes, observed, mark, kind);
      HasJoined(CommandItems(init, boxes, observed, mark), CommandItem(c, boxes, observed, mark), kind);
      hide CommandItems;
      if i :| 0 <= i < |init| && CommandHas(init[i], boxes, observed, kind) {
        assert CommandHas(rows[i], boxes, observed, kind);
      }
      if i :| 0 <= i < |rows| && CommandHas(rows[i], boxes, observed, kind) {
        assert i < |init| ==> CommandHas(init[i], boxes, observed, kind);
      }
    }
  }

  lemma RecoveryHasItem(r: RecoveryRow, boxes: seq<RecoveryBox>, observed: int, mark: Fingerprint, kind: Kind)
    ensures Has(RecoveryItem(r, boxes, observed, mark), kind) <==> RecoveryHas(r, boxes, observed, kind)
  {
    if RecoveryHas(r, boxes, observed, kind) {
      assert RecoveryItem(r, boxes, observed, mark)[0].kind == kind;
    }
  }

  lemma {:induction false} RecoveriesHave(rows: seq<RecoveryRow>, boxes: seq<RecoveryBox>, observed: int, mark: Fingerprint, kind: Kind)
    ensures Has(RecoveryItems(rows, boxes, observed, mark), kind) <==>
      exists i :: 0 <= i < |rows| && RecoveryHas(rows[i], boxes, observed, kind)
  {
    hide RecoveryHas, Has, RecoveryItem;
    if rows == [] {
      assert !Has([], kind) by {
        NothingHas(kind);
      }
    } else {
      var init, c := rows[..|rows| - 1], rows[|rows| - 1];
      RecoveriesHave(init, boxes, observed, mark, kind);
      RecoveryHasItem(c, boxes, observed, mark, kind);
      HasJoined(RecoveryItems(init, boxes, observed, mark), RecoveryItem(c, boxes, observed, mark), kind);
      hide RecoveryItems;
      if i :| 0 <= i < |init| && RecoveryHas(init[i], boxes, observed, kind) {
        assert RecoveryHas(rows[i], boxes, observed, kind);
      }
      if i :| 0 <= i < |rows| && RecoveryHas(rows[i], boxes, observed, kind) {
        assert i < |init| ==> RecoveryHas(init[i], boxes, observed, kind);
      }
    }
  }

  lemma {:induction false} PositionsHave(rows: seq<PositionRow>, mark: Fingerprint, kind: Kind)
    ensures Has(PositionItems(rows, mark), kind) <==>
      kind == OpenPosition && exists i :: 0 <= i < |rows| && rows[i].quantity != 0.0
  {
    if rows != [] {
      var init, p := rows[..|rows| - 1], rows[|rows| - 1];
      PositionsHave(init, mark, kind);
      HasAppended(PositionItems(init, mark), Item(OpenPosition, mark(OpenPosition, p.instrument), 15, p.observedAt), kind);
      hide Has, PositionItems;
      assert (exists i :: 0 <= i < |rows| && rows[i].quantity != 0.0) <==>
        (exists i :: 0 <= i < |init| && init[i].quantity != 0.0) || p.quantity != 0.0;
    }
  }

  lemma {:induction false} GapsHave(rows: seq<ProtectionRow>, mark: Fingerprint, kind: Kind)
    ensures Has(GapItems(rows, mark), kind) <==>
      kind == ProtectionGap && exists i :: 0 <= i < |rows| && Gap(rows[i])
  {
    if rows != [] {
      var init, p := rows[..|rows| - 1], rows[|rows| - 1];
      GapsHave(init, mark, kind);
      HasAppended(GapItems(init, mark), Item(ProtectionGap, mark(ProtectionGap, p.command), 0, p.observedAt), kind);
      hide Has, GapItems, Gap;
      assert (exists i :: 0 <= i < |rows| && Gap(rows[i])) <==>
        (exists i :: 0 <= i < |init| && Gap(init[i])) || Gap(p);
    }
  }

  lemma {:induction false} IncidentsHave(rows: seq<RecoveryStore.Incident>, mark: Fingerprint, kind: Kind)
    ensures Has(IncidentItems(rows, mark), kind) <==>
      kind == OpenIncident && exists i :: 0 <= i < |rows| && rows[i].state == RecoveryStore.Open
  {
    if rows != [] {
      var init, x := rows[..|rows| - 1], rows[|rows| - 1];
      IncidentsHave(init, mark, kind);
      HasAppended(IncidentItems(init, mark),
                  Item(OpenIncident, mark(OpenIncident, x.id), SeverityPriority(x.severity), x.updatedAt), kind);
      hide Has, IncidentItems;
      assert (exists i :: 0 <= i < |rows| && rows[i].state == RecoveryStore.Open) <==>
        (exists i :: 0 <= i < |init| && init[i].state == RecoveryStore.Open) || x.state == RecoveryStore.Open;
    }
  }

  /** Some record of the tables is in a state that gives this kind of work. */
  predicate Evidence(t: Tables, observed: int, kind: Kind) {
    || (exists i :: 0 <= i < |t.commands| && CommandHas(t.commands[i], t.outboxes, observed, kind))
    || (exists i :: 0 <= i < |t.recoveries| && RecoveryHas(t.recoveries[i], t.recoveryBoxes, observed, kind))
    || (kind == OpenPosition && exists i :: 0 <= i < |t.positions| && t.positions[i].quantity != 0.0)
    || (kind == ProtectionGap && exists i :: 0 <= i < |t.protections| && Gap(t.protections[i]))
    || (kind == OpenIncident && exists i :: 0 <= i < |t.incidents| && t.incidents[i].state == RecoveryStore.Open)
  }

  lemma HasJoined(a: seq<Item>, b: seq<Item>, kind: Kind)
    ensures Has(a + b, kind) <==> Has(a, kind) || Has(b, kind)
  {
    if Has(a, kind) {
      var i :| 0 <= i < |a| && a[i].kind == kind;
      assert (a + b)[i].kind == kind;
    }
    if Has(b, kind) {
      var i :| 0 <= i < |b| && b[i].kind == kind;
      assert (a + b)[|a| + i].kind == kind;
    }
  }

  /** A scan shows a kind of work exactly when some record gives it. */
  lemma KindsExactly(t: Tables, observed: int, mark: Fingerprint, kind: Kind)
    ensures kind in Kinds(SortItems(AllItems(t, observed, mark))) <==> Evidence(t, observed, kind)
  {
    CommandsHave(t.commands, t.outboxes, observed, mark, kind);
    RecoveriesHave(t.recoveries, t.recoveryBoxes, observed, mark, kind);
    PositionsHave(t.positions, mark, kind);
    GapsHave(t.protections, mark, kind);
    IncidentsHave(t.incidents, mark, kind);
    hide CommandItems, RecoveryItems, PositionItems, GapItems, IncidentItems, CommandHas, RecoveryHas, Gap;
    var a, b := CommandItems(t.commands, t.outboxes, observed, mark), RecoveryItems(t.recoveries, t.recoveryBoxes, observed, mark);
    var c, d, e := PositionItems(t.positions, mark), GapItems(t.protections, mark), IncidentItems(t.incidents, mark);
    HasJoined(a, b, kind);
    HasJoined(a + b, c, kind);
    HasJoined(a + b + c, d, kind);
    HasJoined(a + b + c + d, e, kind);
    SortedHas(AllItems(t, observed, mark), kind);
  }

  lemma SortedHas(items: seq<Item>, kind: Kind)
    ensures kind in Kinds(SortItems(items)) <==> Has(items, kind)
  {
    var sorted := SortItems(items);
    if Has(items, kind) {
      var i :| 0 <= i < |items| && items[i].kind == kind;
      assert items[i] in sorted;
    }
    if kind in Kinds(sorted) {
      var i :| 0 <= i < |sorted| && sorted[i].kind == kind;
      assert sorted[i] in items;
    }
  }

  // ----- work that a shutdown must drain -----

  predicate Draining(kind: Kind) {
    kind != CommandDispatch
  }

  function RemainingSafetyWork(items: seq<Item>): (n: nat)
    ensures n == 0 <==> forall i :: 0 <= i < |items| ==> !Draining(items[i].kind)
  {
    if items == [] then 0
    else RemainingSafetyWork(items[..|items| - 1]) + if Draining(items[|items| - 1].kind) then 1 else 0
  }

  /** Ended, or provably never sent. */
  predicate CommandIdle(c: CommandRow, boxes: seq<OutboxRow>, observed: int) {
    || c.state == CommandTerminal
    || c.state == CommandQueued
    || (c.state == CommandClaimed
        && var k := FindOutbox(boxes, c.id);
           k.Some? && boxes[k.value].leaseExpires.Some? && boxes[k.value].leaseExpires.value <= observed
           && boxes[k.value].attempt.None?)
  }

  predicate Drained(t: Tables, observed: int) {
    && (forall i :: 0 <= i < |t.recoveries| ==> t.recoveries[i].state == RecoveryStore.Terminal)
    && (forall i :: 0 <= i < |t.commands| ==> CommandIdle(t.commands[i], t.outboxes, observed))
    && (forall i :: 0 <= i < |t.positions| ==> t.positions[i].quantity == 0.0)
    && (forall i :: 0 <= i < |t.protections| ==> !Gap(t.protections[i]))
    && (forall i :: 0 <= i < |t.incidents| ==> t.incidents[i].state != RecoveryStore.Open)
  }

  lemma CommandIdleExactly(c: CommandRow, boxes: seq<OutboxRow>, observed: int)
    requires CommandReadable(c, boxes)
    ensures CommandIdle(c, boxes, observed) <==> forall kind :: Draining(kind) ==> !CommandHas(c, boxes, observed, kind)
  {
    var box := boxes[FindOutbox(boxes, c.id).value];
    var w := CommandWork(c, box, observed);
    if w.Some? && Draining(w.value.0) {
      assert CommandHas(c, boxes, observed, w.value.0);
    }
  }

  lemma RecoveryIdleExactly(r: RecoveryRow, boxes: seq<RecoveryBox>, observed: int)
    requires RecoveryReadable(r, boxes)
    ensures r.state == RecoveryStore.Terminal <==> forall kind :: Draining(kind) ==> !RecoveryHas(r, boxes, observed, kind)
  {
    var box := boxes[FindBox(boxes, r.id).value];
    var w := RecoveryWork(r, box, observed);
    if w.Some? {
      assert RecoveryHas(r, boxes, observed, w.value) && Draining(w.value);
    }
  }

  /** Nothing is left to drain exactly when every recovery has ended, every entry
      command has ended or was never sent, the account is flat with no gap in
      protection, and no incident is open. */
  lemma DrainedExactly(t: Tables, observed: int, mark: Fingerprint)
    requires Readable(t)
    ensures RemainingSafetyWork(SortItems(AllItems(t, observed, mark))) == 0 <==> Drained(t, observed)
  {
    var items := SortItems(AllItems(t, observed, mark));
    assert RemainingSafetyWork(items) == 0 <==> forall kind :: Draining(kind) ==> kind !in Kinds(items);
    forall kind ensures kind in Kinds(items) <==> Evidence(t, observed, kind) {
      KindsExactly(t, observed, mark, kind);
    }
    EvidenceFree(t, observed);
  }

  lemma EvidenceFree(t: Tables, observed: int)
    requires Readable(t)
    ensures (forall kind :: Draining(kind) ==> !Evidence(t, observed, kind)) <==> Drained(t, observed)
  {
    forall i | 0 <= i < |t.commands|
      ensures CommandIdle(t.commands[i], t.outboxes, observed) <==>
        forall kind :: Draining(kind) ==> !CommandHas(t.commands[i], t.outboxes, observed, kind)
    {
      CommandIdleExactly(t.commands[i], t.outboxes, observed);
    }
    forall i | 0 <= i < |t.recoveries|
      ensures t.recoveries[i].state == RecoveryStore.Terminal <==>
        forall kind :: Draining(kind) ==> !RecoveryHas(t.recoveries[i], t.recoveryBoxes, observed, kind)
    {
      RecoveryIdleExactly(t.recoveries[i], t.recoveryBoxes, observed);
    }
    hide CommandHas, RecoveryHas, CommandIdle, Gap, Readable;
    if Drained(t, observed) {
      forall kind | Draining(kind) ensures !Evidence(t, observed, kind) {
      }
    }
    if forall kind :: Draining(kind) ==> !Evidence(t, observed, kind) {
      assert !Evidence(t, observed, OpenPosition) && !Evidence(t, observed, ProtectionGap) && !Evidence(t, observed, OpenIncident);
      assert forall kind, i :: Draining(kind) && 0 <= i < |t.commands| ==> !CommandHas(t.commands[i], t.outboxes, observed, kind);
      assert forall kind, i :: Draining(kind) && 0 <= i < |t.recoveries| ==>
        !RecoveryHas(t.recoveries[i], t.recoveryBoxes, observed, kind);
    }
  }
}
