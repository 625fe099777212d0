/** The deterministic single-position backtest: next-bar fills, frozen brackets,
    a twelve-bar time exit and censoring of positions the data does not resolve.

    Decimal contexts are exact rational arithmetic here. */
module Backtest {
  import opened Options
  import opened Strategy

  const BASIS_POINTS := 10000.0
  const STOP_MULTIPLE := 1.5
  const TARGET_MULTIPLE := 3.0
  const MAX_HOLDING := 12

  datatype RawCosts = RawCosts(fee: real, slippage: real, holding: real)

  predicate BoundedCosts(c: RawCosts) {
    0.0 <= c.fee <= 1000.0 && 0.0 <= c.slippage <= 1000.0 && 0.0 <= c.holding <= 1000.0
  }

  type CostModel = c: RawCosts | BoundedCosts(c) witness RawCosts(0.0, 0.0, 0.0)

  datatype ExitReason = GapStop | Stop | StopFirst | Target | Time

  datatype Exit = Exit(price: real, reason: ExitReason)

  datatype Trade = Trade(
    direction: Direction, signalIndex: nat, entryIndex: nat, exitIndex: nat,
    signalTime: int, entryTime: int, exitTime: int,
    entryPrice: real, stopPrice: real, targetPrice: real, exitPrice: real,
    barsHeld: nat, reason: ExitReason,
    grossPnl: real, totalCost: real, netPnl: real, netR: real)

  // ----- fills -----

  function BpsAmount(price: real, bps: real): real {
    price * bps / BASIS_POINTS
  }

  function AdverseFill(reference: real, direction: Direction, entering: bool, slippage: real): real {
    var slip := BpsAmount(reference, slippage);
    var isBuy := (direction == Buy) == entering;
    if isBuy then reference + slip else reference - slip
  }

  function ExitReference(c: Candle, direction: Direction, stop: real, target: real, timeExit: bool): Option<Exit> {
    if direction == Buy && c.open <= stop then Some(Exit(c.open, GapStop))
    else if direction == Buy && c.open >= target then Some(Exit(target, Target))
    else if direction != Buy && c.open >= stop then Some(Exit(c.open, GapStop))
    else if direction != Buy && c.open <= target then Some(Exit(target, Target))
    else
      var stopTouched := if direction == Buy then c.low <= stop else c.high >= stop;
      var targetTouched := if direction == Buy then c.high >= target else c.low <= target;
      if stopTouched && targetTouched then Some(Exit(stop, StopFirst))
      else if stopTouched then Some(Exit(stop, Stop))
      else if targetTouched then Some(Exit(target, Target))
      else if timeExit then Some(Exit(c.close, Time))
      else None
  }

  /** The bar's range reaches one of the two bracket legs. */
  predicate Touched(c: Candle, direction: Direction, stop: real, target: real) {
    if direction == Buy then c.low <= stop || c.high >= target
    else c.high >= stop || c.low <= target
  }

  // ----- one trade -----

  datatype Found = Found(index: nat, exit: Exit)

  /** The first bar from `j` on that ends a position entered at bar `entry`. */
  function FirstExit(cs: seq<Candle>, direction: Direction, stop: real, target: real, entry: nat, j: nat)
    : (r: Option<Found>)
    requires entry <= j
    ensures r.Some? ==> j <= r.value.index < |cs|
    decreases entry + MAX_HOLDING - j
  {
    if j >= |cs| || j >= entry + MAX_HOLDING then None
    else
      match ExitReference(cs[j], direction, stop, target, j == entry + MAX_HOLDING - 1)
      case Some(x) => Some(Found(j, x))
      case None => FirstExit(cs, direction, stop, target, entry, j + 1)
  }

  function EntryPrice(cs: seq<Candle>, s: Signal, costs: CostModel): real
    requires s.barIndex + 1 < |cs|
  {
    AdverseFill(cs[s.barIndex + 1].open, s.direction, true, costs.slippage)
  }

  function StopPrice(entry: real, s: Signal): real {
    var distance := s.features.atr * STOP_MULTIPLE;
    if s.direction == Buy then entry - distance else entry + distance
  }

  function TargetPrice(entry: real, s: Signal): real {
    var distance := s.features.atr * TARGET_MULTIPLE;
    if s.direction == Buy then entry + distance else entry - distance
  }

  predicate ValidBracket(entry: real, s: Signal) {
    if s.direction == Buy then StopPrice(entry, s) > 0.0 else TargetPrice(entry, s) > 0.0
  }

  function TotalCost(entry: real, exit: real, held: nat, costs: CostModel): real {
    BpsAmount(entry, costs.fee) + BpsAmount(exit, costs.fee) + BpsAmount(entry, costs.holding) * held as real
  }

  function Closed(cs: seq<Candle>, s: Signal, costs: CostModel, found: Found): Trade
    requires s.barIndex + 1 <= found.index < |cs|
    requires s.features.atr > 0.0
  {
    var entryIndex := s.barIndex + 1;
    var entry := EntryPrice(cs, s, costs);
    var exit := AdverseFill(found.exit.price, s.direction, false, costs.slippage);
    var held := found.index - entryIndex + 1;
    var gross := if s.direction == Buy then exit - entry else entry - exit;
    var cost := TotalCost(entry, exit, held, costs);
    Trade(
      s.direction, s.barIndex, entryIndex, found.index,
      s.signalTime, cs[entryIndex].openTime, cs[found.index].closeTime,
      entry, StopPrice(entry, s), TargetPrice(entry, s), exit, held, found.exit.reason,
      gross, cost, gross - cost, (gross - cost) / (s.features.atr * STOP_MULTIPLE))
  }

  predicate Expired(cs: seq<Candle>, s: Signal)
    requires s.barIndex + 1 < |cs|
  {
    s.observedAt > s.expiresAt || cs[s.barIndex + 1].openTime > s.expiresAt
  }

  /** The trade a signal leads to, if the data resolves it. */
  function Simulate(cs: seq<Candle>, s: Signal, costs: CostModel): Option<Trade>
    requires s.features.atr > 0.0
  {
    if s.barIndex + 1 >= |cs| || Expired(cs, s) then None
    else
      var entry := EntryPrice(cs, s, costs);
      if !ValidBracket(entry, s) then None
      else
        match FirstExit(cs, s.direction, StopPrice(entry, s), TargetPrice(entry, s), s.barIndex + 1, s.barIndex + 1)
        case None => None
        case Some(found) =>
          if AdverseFill(found.exit.price, s.direction, false, costs.slippage) <= 0.0 then None
          else
            Some(Closed(cs, s, costs, found))
  }

  method SimulateTrade(cs: seq<Candle>, s: Signal, costs: CostModel) returns (trade: Option<Trade>)
    requires s.direction != Nothing && s.features.atr > 0.0
    ensures trade == Simulate(cs, s, costs)
  {
    hide Closed, AdverseFill, ExitReference;
    var entryIndex := s.barIndex + 1;
    if entryIndex >= |cs| {
      return None;
    }
    if s.observedAt > s.expiresAt {
      return None;
    }
    if cs[entryIndex].openTime > s.expiresAt {
      return None;
    }
    var entryPrice := AdverseFill(cs[entryIndex].open, s.direction, true, costs.slippage);
    var stopDistance, targetDistance := s.features.atr * STOP_MULTIPLE, s.features.atr * TARGET_MULTIPLE;
    var stopPrice, targetPrice;
    if s.direction == Buy {
      stopPrice, targetPrice := entryPrice - stopDistance, entryPrice + targetDistance;
      if stopPrice <= 0.0 {
        return None;
      }
    } else {
      stopPrice, targetPrice := entryPrice + stopDistance, entryPrice - targetDistance;
      if targetPrice <= 0.0 {
        return None;
      }
    }
    var finalIndex := if |cs| - 1 <= entryIndex + MAX_HOLDING - 1 then |cs| - 1 else entryIndex + MAX_HOLDING - 1;
    ghost var first := FirstExit(cs, s.direction, stopPrice, targetPrice, entryIndex, entryIndex);
    for exitIndex := entryIndex to finalIndex + 1
      invariant first == FirstExit(cs, s.direction, stopPrice, targetPrice, entryIndex, exitIndex)
    {
      var holdingComplete := exitIndex == entryIndex + MAX_HOLDING - 1;
      var reference := ExitReference(cs[exitIndex], s.direction, stopPrice, targetPrice, holdingComplete);
      if reference.Some? {
        var exitPrice := AdverseFill(reference.value.price, s.direction, false, costs.slippage);
        if exitPrice <= 0.0 {
          return None;
        }
        return Some(Closed(cs, s, costs, Found(exitIndex, reference.value)));
      }
    }
    return None;
  }

  // ----- the exit is the first bar that triggers -----

  /** A bar ends a position exactly when it touches a leg or holding is complete. */
  lemma ExitExactly(c: Candle, direction: Direction, stop: real, target: real, timeExit: bool)
    ensures ExitReference(c, direction, stop, target, timeExit).Some? <==>
      Touched(c, direction, stop, target) || timeExit
  {
    assert c.low <= c.open <= c.high;
  }

  lemma {:induction false} FirstExitFound(cs: seq<Candle>, direction: Direction, stop: real, target: real,
                                          entry: nat, j: nat)
    requires entry <= j
    ensures
      var r := FirstExit(cs, direction, stop, target, entry, j);
      && (r.Some? ==>
        && j <= r.value.index < |cs|
        && r.value.index < entry + MAX_HOLDING
        && ExitReference(cs[r.value.index], direction, stop, target, r.value.index == entry + MAX_HOLDING - 1)
          == Some(r.value.exit)
        && forall k :: j <= k < r.value.index ==> !Touched(cs[k], direction, stop, target))
      && (r.None? ==>
        forall k :: j <= k < |cs| && k < entry + MAX_HOLDING ==>
          !Touched(cs[k], direction, stop, target) && k != entry + MAX_HOLDING - 1)
    decreases entry + MAX_HOLDING - j
  {
    if j < |cs| && j < entry + MAX_HOLDING {
      ExitExactly(cs[j], direction, stop, target, j == entry + MAX_HOLDING - 1);
      hide ExitReference, Touched;
      if ExitReference(cs[j], direction, stop, target, j == entry + MAX_HOLDING - 1).None? {
        FirstExitFound(cs, direction, stop, target, entry, j + 1);
        assert FirstExit(cs, direction, stop, target, entry, j) == FirstExit(cs, direction, stop, target, entry, j + 1);
        assert !Touched(cs[j], direction, stop, target) && j != entry + MAX_HOLDING - 1;
      }
    }
  }

  /** The reference price is never better than the bar offered; outside a gap it
      lies between the two legs, and a gap never fills better than the stop. */
  lemma ReferenceBounds(c: Candle, direction: Direction, stop: real, target: real, timeExit: bool)
    requires ExitReference(c, direction, stop, target, timeExit).Some?
    requires if direction == Buy then stop < target else target < stop
    ensures
      var x := ExitReference(c, direction, stop, target, timeExit).value;
      if direction == Buy then
        && x.price <= c.high && x.price <= target
        && (if x.reason == GapStop then x.price == c.open && x.price <= stop else x.price >= stop)
      else
        && x.price >= c.low && x.price >= target
        && (if x.reason == GapStop then x.price == c.open && x.price >= stop else x.price <= stop)
  {
    assert c.low <= c.open <= c.high && c.low <= c.close <= c.high;
  }

  // ----- what a trade can gain and lose -----

  lemma SlipIsAdverse(reference: real, direction: Direction, entering: bool, slippage: real)
    requires reference >= 0.0 && 0.0 <= slippage
    ensures (direction == Buy) == entering ==> AdverseFill(reference, direction, entering, slippage) >= reference
    ensures (direction == Buy) != entering ==> AdverseFill(reference, direction, entering, slippage) <= reference
  {
    ProductNonNegative(reference, slippage);
  }

  lemma CostNonNegative(entry: real, exit: real, held: nat, costs: CostModel)
    requires entry >= 0.0 && exit >= 0.0
    ensures TotalCost(entry, exit, held, costs) >= 0.0
  {
    ProductNonNegative(entry, costs.fee);
    ProductNonNegative(exit, costs.fee);
    ProductNonNegative(entry, costs.holding);
    ProductNonNegative(BpsAmount(entry, costs.holding), held as real);
  }

  lemma RatioBound(x: real, atr: real)
    requires atr > 0.0 && x <= atr * TARGET_MULTIPLE
    ensures x / (atr * STOP_MULTIPLE) <= 2.0
  {
    var d := atr * STOP_MULTIPLE;
    var q := x / d;
    assert q * d == x;
    if q > 2.0 {
      ProductPositive(q - 2.0, d);
    }
  }

  lemma ProductPositive(x: real, y: real)
    requires x > 0.0 && y > 0.0
    ensures x * y > 0.0
  {
  }

  /** What a position gains per unit between two prices. */
  function Gain(direction: Direction, from: real, to: real): real {
    if direction == Buy then to - from else from - to
  }

  /** `x` is the exit reference of the trade: the exit bar offers it, never better
      than its range nor than the target, and only a gap through the stop loses
      more than the stop distance.  The fill is worse by the slippage. */
  ghost predicate SoundExit(cs: seq<Candle>, s: Signal, costs: CostModel, t: Trade, x: Exit)
    requires t.exitIndex < |cs|
  {
    var bar := cs[t.exitIndex];
    && ExitReference(bar, t.direction, t.stopPrice, t.targetPrice, t.barsHeld == MAX_HOLDING) == Some(x)
    && x.reason == t.reason
    && x.price > 0.0
    && t.exitPrice == AdverseFill(x.price, t.direction, false, costs.slippage)
    && (if t.direction == Buy then x.price <= bar.high else x.price >= bar.low)
    && Gain(t.direction, t.entryPrice, x.price) <= s.features.atr * TARGET_MULTIPLE
    && (if x.reason == GapStop then
          x.price == bar.open && Gain(t.direction, t.entryPrice, x.price) <= -s.features.atr * STOP_MULTIPLE
        else Gain(t.direction, t.entryPrice, x.price) >= -s.features.atr * STOP_MULTIPLE)
    && t.grossPnl == Gain(t.direction, t.entryPrice, x.price) - BpsAmount(x.price, costs.slippage)
  }

  /** The prices of a trade: an adverse fill at the open after the signal, and a
      bracket around it that the stop and the target multiple of the range fix. */
  ghost predicate SoundPrices(cs: seq<Candle>, s: Signal, costs: CostModel, t: Trade)
    requires t.entryIndex < |cs|
  {
    && t.entryPrice == AdverseFill(cs[t.entryIndex].open, t.direction, true, costs.slippage)
    && Gain(t.direction, cs[t.entryIndex].open, t.entryPrice) == BpsAmount(cs[t.entryIndex].open, costs.slippage) >= 0.0
    && Gain(t.direction, t.entryPrice, t.stopPrice) == -s.features.atr * STOP_MULTIPLE
    && Gain(t.direction, t.entryPrice, t.targetPrice) == s.features.atr * TARGET_MULTIPLE
    && t.stopPrice > 0.0 && t.targetPrice > 0.0
  }

  /** What is paid and what remains. */
  ghost predicate SoundResult(s: Signal, costs: CostModel, t: Trade)
    requires s.features.atr > 0.0
  {
    && t.grossPnl == Gain(t.direction, t.entryPrice, t.exitPrice)
    && t.totalCost ==
         BpsAmount(t.entryPrice, costs.fee) + BpsAmount(t.exitPrice, costs.fee)
         + BpsAmount(t.entryPrice, costs.holding) * t.barsHeld as real
    && t.totalCost >= 0.0
    && t.netPnl == t.grossPnl - t.totalCost
    && t.netR == t.netPnl / (s.features.atr * STOP_MULTIPLE) <= 2.0
    && t.netPnl <= t.grossPnl <= s.features.atr * TARGET_MULTIPLE
  }

  /** What every simulated trade satisfies. */
  ghost predicate SoundTrade(cs: seq<Candle>, s: Signal, costs: CostModel, t: Trade) {
    && s.features.atr > 0.0
    && t.signalIndex == s.barIndex && t.direction == s.direction && t.signalTime == s.signalTime
    && t.entryIndex == s.barIndex + 1
    && t.entryIndex <= t.exitIndex < |cs|
    && t.entryTime == cs[t.entryIndex].openTime && t.exitTime == cs[t.exitIndex].closeTime
    && t.barsHeld == t.exitIndex - t.entryIndex + 1 <= MAX_HOLDING
    && (forall k :: t.entryIndex <= k < t.exitIndex ==> !Touched(cs[k], t.direction, t.stopPrice, t.targetPrice))
    && (Touched(cs[t.exitIndex], t.direction, t.stopPrice, t.targetPrice) || t.barsHeld == MAX_HOLDING)
    && (t.reason == Time ==> t.barsHeld == MAX_HOLDING)
    && SoundPrices(cs, s, costs, t)
    && SoundResult(s, costs, t)
    && exists x :: SoundExit(cs, s, costs, t, x)
  }

  lemma SimulateIsSound(cs: seq<Candle>, s: Signal, costs: CostModel)
    requires s.direction != Nothing && s.features.atr > 0.0
    requires Simulate(cs, s, costs).Some?
    ensures SoundTrade(cs, s, costs, Simulate(cs, s, costs).value)
  {
    var entryIndex := s.barIndex + 1;
    var entry := EntryPrice(cs, s, costs);
    var stop, target := StopPrice(entry, s), TargetPrice(entry, s);
    FirstExitFound(cs, s.direction, stop, target, entryIndex, entryIndex);
    var found := FirstExit(cs, s.direction, stop, target, entryIndex, entryIndex).value;
    var timeExit := found.index == entryIndex + MAX_HOLDING - 1;
    ExitExactly(cs[found.index], s.direction, stop, target, timeExit);
    TimeOnlyAtEnd(cs[found.index], s.direction, stop, target, timeExit);
    BracketAround(entry, s);
    ReferenceBounds(cs[found.index], s.direction, stop, target, timeExit);
    PositiveReference(cs[found.index], s.direction, stop, target, timeExit);
    ClosedIsSound(cs, s, costs, found);
    hide ExitReference, FirstExit, Touched, SoundPrices, SoundResult, SoundExit, AdverseFill, BpsAmount, TotalCost;
    var t := Closed(cs, s, costs, found);
    assert SoundExit(cs, s, costs, t, found.exit);
  }

  lemma BracketAround(entry: real, s: Signal)
    requires s.direction != Nothing && s.features.atr > 0.0
    ensures Gain(s.direction, entry, StopPrice(entry, s)) == -s.features.atr * STOP_MULTIPLE < 0.0
    ensures Gain(s.direction, entry, TargetPrice(entry, s)) == s.features.atr * TARGET_MULTIPLE > 0.0
    ensures entry > 0.0 && ValidBracket(entry, s) ==> StopPrice(entry, s) > 0.0 && TargetPrice(entry, s) > 0.0
  {
  }

  lemma EntryIsSound(cs: seq<Candle>, s: Signal, costs: CostModel, found: Found)
    requires s.barIndex + 1 <= found.index < |cs|
    requires s.direction != Nothing && s.features.atr > 0.0 && ValidBracket(EntryPrice(cs, s, costs), s)
    ensures SoundPrices(cs, s, costs, Closed(cs, s, costs, found))
  {
    var open := cs[s.barIndex + 1].open;
    ProductNonNegative(open, costs.slippage);
    FillStaysPositive(open, s.direction, true, costs);
    BracketAround(EntryPrice(cs, s, costs), s);
    hide BpsAmount, TotalCost;
  }

  lemma ResultIsSound(cs: seq<Candle>, s: Signal, costs: CostModel, found: Found)
    requires s.barIndex + 1 <= found.index < |cs|
    requires s.direction != Nothing && s.features.atr > 0.0
    requires EntryPrice(cs, s, costs) > 0.0 && AdverseFill(found.exit.price, s.direction, false, costs.slippage) > 0.0
    requires
      var t := Closed(cs, s, costs, found);
      t.netPnl <= t.grossPnl <= s.features.atr * TARGET_MULTIPLE && t.netR <= 2.0
    ensures SoundResult(s, costs, Closed(cs, s, costs, found))
  {
    var t := Closed(cs, s, costs, found);
    CostNonNegative(t.entryPrice, t.exitPrice, t.barsHeld, costs);
    hide AdverseFill, BpsAmount, EntryPrice, StopPrice, TargetPrice;
  }

  lemma ExitIsSound(cs: seq<Candle>, s: Signal, costs: CostModel, found: Found)
    requires s.barIndex + 1 <= found.index < |cs|
    requires s.direction != Nothing && s.features.atr > 0.0
    requires
      var t, x := Closed(cs, s, costs, found), found.exit;
      && ExitReference(cs[found.index], s.direction, t.stopPrice, t.targetPrice, t.barsHeld == MAX_HOLDING) == Some(x)
      && t.stopPrice > 0.0 && t.targetPrice > 0.0
    ensures SoundExit(cs, s, costs, Closed(cs, s, costs, found), found.exit)
  {
    var t := Closed(cs, s, costs, found);
    var timeExit := t.barsHeld == MAX_HOLDING;
    BracketAround(t.entryPrice, s);
    ReferenceBounds(cs[found.index], s.direction, t.stopPrice, t.targetPrice, timeExit);
    PositiveReference(cs[found.index], s.direction, t.stopPrice, t.targetPrice, timeExit);
    hide ExitReference, BpsAmount, EntryPrice, TotalCost;
  }

  /** A position that closes at the reference of its exit bar is sound. */
  lemma ClosedIsSound(cs: seq<Candle>, s: Signal, costs: CostModel, found: Found)
    requires s.barIndex + 1 <= found.index < |cs|
    requires s.direction != Nothing && s.features.atr > 0.0 && ValidBracket(EntryPrice(cs, s, costs), s)
    requires
      var t, x := Closed(cs, s, costs, found), found.exit;
      ExitReference(cs[found.index], s.direction, t.stopPrice, t.targetPrice, t.barsHeld == MAX_HOLDING) == Some(x)
    ensures
      var t := Closed(cs, s, costs, found);
      SoundPrices(cs, s, costs, t) && SoundResult(s, costs, t) && SoundExit(cs, s, costs, t, found.exit)
  {
    var t := Closed(cs, s, costs, found);
    EntryIsSound(cs, s, costs, found);
    FillStaysPositive(cs[s.barIndex + 1].open, s.direction, true, costs);
    ReferenceBounds(cs[found.index], s.direction, t.stopPrice, t.targetPrice, t.barsHeld == MAX_HOLDING);
    PositiveReference(cs[found.index], s.direction, t.stopPrice, t.targetPrice, t.barsHeld == MAX_HOLDING);
    FillStaysPositive(found.exit.price, s.direction, false, costs);
    hide ExitReference, BpsAmount, AdverseFill, TotalCost, StopPrice, TargetPrice;
    GainIsBounded(cs, s, costs, found);
    ResultIsSound(cs, s, costs, found);
    ExitIsSound(cs, s, costs, found);
  }

  lemma TimeOnlyAtEnd(c: Candle, direction: Direction, stop: real, target: real, timeExit: bool)
    ensures
      var r := ExitReference(c, direction, stop, target, timeExit);
      r.Some? && r.value.reason == Time ==> timeExit
  {
  }

  lemma GainIsBounded(cs: seq<Candle>, s: Signal, costs: CostModel, found: Found)
    requires s.barIndex + 1 <= found.index < |cs|
    requires s.direction != Nothing && s.features.atr > 0.0
    requires
      var entry := EntryPrice(cs, s, costs);
      && ValidBracket(entry, s)
      && found.exit.price > 0.0
      && if s.direction == Buy then found.exit.price <= TargetPrice(entry, s)
         else found.exit.price >= TargetPrice(entry, s)
    requires AdverseFill(found.exit.price, s.direction, false, costs.slippage) > 0.0
    ensures
      var t := Closed(cs, s, costs, found);
      && t.netPnl <= t.grossPnl <= s.features.atr * TARGET_MULTIPLE
      && t.netR <= 2.0
  {
    var entry := EntryPrice(cs, s, costs);
    var exit := AdverseFill(found.exit.price, s.direction, false, costs.slippage);
    var t := Closed(cs, s, costs, found);
    SlipIsAdverse(found.exit.price, s.direction, false, costs.slippage);
    CostNonNegative(entry, exit, t.barsHeld, costs);
    hide AdverseFill, BpsAmount, TotalCost, EntryPrice;
    RatioBound(t.netPnl, s.features.atr);
  }

  // ----- when a signal leaves no trade -----

  /** Bounded slippage never turns a positive reference into a non-positive fill. */
  lemma FillStaysPositive(reference: real, direction: Direction, entering: bool, costs: CostModel)
    requires reference > 0.0
    ensures AdverseFill(reference, direction, entering, costs.slippage) > 0.0
  {
    var slip := BpsAmount(reference, costs.slippage);
    ProductNonNegative(reference, costs.slippage);
    ProductNonNegative(reference, 1000.0 - costs.slippage);
    assert slip <= reference * 1000.0 / BASIS_POINTS;
  }

  /** Some bar of the twelve-bar window ends the position inside the data. */
  ghost predicate Resolves(cs: seq<Candle>, direction: Direction, stop: real, target: real, entry: nat) {
    exists k :: entry <= k < |cs| && k < entry + MAX_HOLDING && Ends(cs, direction, stop, target, entry, k)
  }

  predicate Ends(cs: seq<Candle>, direction: Direction, stop: real, target: real, entry: nat, k: nat)
    requires k < |cs|
  {
    Touched(cs[k], direction, stop, target) || k == entry + MAX_HOLDING - 1
  }

  lemma ResolvesExactly(cs: seq<Candle>, direction: Direction, stop: real, target: real, entry: nat)
    ensures FirstExit(cs, direction, stop, target, entry, entry).Some? <==> Resolves(cs, direction, stop, target, entry)
  {
    FirstExitFound(cs, direction, stop, target, entry, entry);
    var r := FirstExit(cs, direction, stop, target, entry, entry);
    if r.Some? {
      ExitExactly(cs[r.value.index], direction, stop, target, r.value.index == entry + MAX_HOLDING - 1);
      hide ExitReference, FirstExit, Touched;
      assert Ends(cs, direction, stop, target, entry, r.value.index);
    }
  }

  /** A signal leaves no trade exactly when it has no next bar, has expired, has a
      bracket leg at or below zero, or is not resolved inside the data: the fill
      price check never decides. */
  lemma NoTradeExactly(cs: seq<Candle>, s: Signal, costs: CostModel)
    requires s.direction != Nothing && s.features.atr > 0.0
    ensures Simulate(cs, s, costs).None? <==>
      || s.barIndex + 1 >= |cs|
      || Expired(cs, s)
      || (var entry := EntryPrice(cs, s, costs);
          || !ValidBracket(entry, s)
          || !Resolves(cs, s.direction, StopPrice(entry, s), TargetPrice(entry, s), s.barIndex + 1))
  {
    if s.barIndex + 1 < |cs| && !Expired(cs, s) && ValidBracket(EntryPrice(cs, s, costs), s) {
      var entryIndex, entry := s.barIndex + 1, EntryPrice(cs, s, costs);
      var stop, target := StopPrice(entry, s), TargetPrice(entry, s);
      ResolvesExactly(cs, s.direction, stop, target, entryIndex);
      var found := FirstExit(cs, s.direction, stop, target, entryIndex, entryIndex);
      if found.Some? {
        FirstExitFound(cs, s.direction, stop, target, entryIndex, entryIndex);
        var k := found.value.index;
        PositiveReference(cs[k], s.direction, stop, target, k == entryIndex + MAX_HOLDING - 1);
        FillStaysPositive(found.value.exit.price, s.direction, false, costs);
      }
    }
  }

  lemma PositiveReference(c: Candle, direction: Direction, stop: real, target: real, timeExit: bool)
    requires stop > 0.0 && target > 0.0
    ensures
      var r := ExitReference(c, direction, stop, target, timeExit);
      r.Some? ==> r.value.price > 0.0
  {
  }

  // ----- a simulated trade does not look ahead -----

  lemma {:induction false} FirstExitPrefix(a: seq<Candle>, b: seq<Candle>, direction: Direction,
                                           stop: real, target: real, entry: nat, j: nat)
    requires a <= b && entry <= j
    ensures
      var whole := FirstExit(b, direction, stop, target, entry, j);
      FirstExit(a, direction, stop, target, entry, j) ==
        if whole.Some? && whole.value.index < |a| then whole else None
    decreases entry + MAX_HOLDING - j
  {
    hide ExitReference;
    if j < |a| && j < entry + MAX_HOLDING {
      if ExitReference(b[j], direction, stop, target, j == entry + MAX_HOLDING - 1).None? {
        FirstExitPrefix(a, b, direction, stop, target, entry, j + 1);
      }
    }
  }

  /** On a prefix of the candles a signal leads to the same trade if that trade
      ends inside the prefix, and to none otherwise. */
  lemma SimulatePrefix(a: seq<Candle>, b: seq<Candle>, s: Signal, costs: CostModel)
    requires a <= b && s.features.atr > 0.0 && s.barIndex + 1 < |a|
    ensures
      var whole := Simulate(b, s, costs);
      Simulate(a, s, costs) == if whole.Some? && whole.value.exitIndex < |a| then whole else None
  {
    hide ExitReference, AdverseFill, FirstExit, TotalCost;
    assert a[s.barIndex + 1] == b[s.barIndex + 1];
    var entry := EntryPrice(b, s, costs);
    FirstExitPrefix(a, b, s.direction, StopPrice(entry, s), TargetPrice(entry, s), s.barIndex + 1, s.barIndex + 1);
  }
}
