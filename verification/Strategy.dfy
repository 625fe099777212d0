/** The registered trend-breakout rule: EMA(50)/EMA(200) trend, Donchian(20)
    breakout transitions and Wilder ATR(14) over contiguous four-hour candles.

    Prices are exact reals and instants are whole microseconds since the epoch. */
module Strategy {
  import opened Options

  const FOUR_HOURS := 4 * 60 * 60 * 1_000_000
  const EMA_FAST := 50
  const EMA_SLOW := 200
  const DONCHIAN := 20
  const ATR_PERIOD := 14
  const WARMUP := 1000
  const SIGNAL_EXPIRY := 900 * 1_000_000

  datatype RawCandle = RawCandle(
    instrument: string, openTime: int, closeTime: int, receivedAt: int,
    open: real, high: real, low: real, close: real, complete: bool)

  predicate WellFormed(c: RawCandle) {
    && c.instrument != ""
    && c.closeTime - c.openTime == FOUR_HOURS
    && c.openTime % FOUR_HOURS == 0
    && c.receivedAt >= c.closeTime
    && c.open > 0.0 && c.high > 0.0 && c.low > 0.0 && c.close > 0.0
    && c.high >= c.open && c.high >= c.close
    && c.low <= c.open && c.low <= c.close
  }

  type Candle = c: RawCandle | WellFormed(c)
    witness RawCandle("x", 0, FOUR_HOURS, FOUR_HOURS, 1.0, 1.0, 1.0, 1.0, true)

  predicate Follows(previous: Candle, next: Candle) {
    next.openTime == previous.closeTime && next.receivedAt >= previous.receivedAt
  }

  predicate ValidSeries(cs: seq<Candle>) {
    && cs != []
    && (forall i :: 0 <= i < |cs| ==> cs[i].complete && cs[i].instrument == cs[0].instrument)
    && (forall i :: 0 < i < |cs| ==> Follows(cs[i - 1], cs[i]))
  }

  // ----- indicators -----

  function Sum(xs: seq<real>): real {
    if xs == [] then 0.0 else Sum(xs[..|xs| - 1]) + xs[|xs| - 1]
  }

  function Mean(xs: seq<real>): real
    requires xs != []
  {
    Sum(xs) / |xs| as real
  }

  function EmaStep(x: real, previous: real, period: nat): real {
    var alpha := 2.0 / (period + 1) as real;
    x * alpha + previous * (1.0 - alpha)
  }

  function WilderStep(x: real, previous: real, period: nat): real
    requires period > 0
  {
    (previous * (period - 1) as real + x) / period as real
  }

  /** The exponential average at index `i`: the mean of the first `period`
      values, then one step of the recursion for every later value. */
  function EmaAt(values: seq<real>, period: nat, i: nat): real
    requires 0 < period <= i + 1 <= |values|
  {
    if i == period - 1 then Mean(values[..period])
    else EmaStep(values[i], EmaAt(values, period, i - 1), period)
  }

  function Abs(x: real): real {
    if x < 0.0 then -x else x
  }

  function Max(x: real, y: real): real {
    if x >= y then x else y
  }

  function Min(x: real, y: real): real {
    if x <= y then x else y
  }

  function TrueRange(cs: seq<Candle>, i: nat): real
    requires i < |cs|
  {
    var range := cs[i].high - cs[i].low;
    if i == 0 then range
    else Max(range, Max(Abs(cs[i].high - cs[i - 1].close), Abs(cs[i].low - cs[i - 1].close)))
  }

  function TrueRanges(cs: seq<Candle>): (t: seq<real>)
    ensures |t| == |cs| && forall i :: 0 <= i < |cs| ==> t[i] == TrueRange(cs, i)
  {
    seq(|cs|, i requires 0 <= i < |cs| => TrueRange(cs, i))
  }

  /** Wilder's average of the true ranges at index `i`. */
  function WilderAt(ranges: seq<real>, period: nat, i: nat): real
    requires 0 < period <= i + 1 <= |ranges|
  {
    if i == period - 1 then Mean(ranges[..period])
    else WilderStep(ranges[i], WilderAt(ranges, period, i - 1), period)
  }

  function Highest(cs: seq<Candle>): (h: real)
    requires cs != []
    ensures forall i :: 0 <= i < |cs| ==> cs[i].high <= h
    ensures exists i :: 0 <= i < |cs| && cs[i].high == h
  {
    if |cs| == 1 then cs[0].high
    else
      var rest := Highest(cs[1..]);
      assert forall i :: 0 < i < |cs| ==> cs[i] == cs[1..][i - 1];
      Max(cs[0].high, rest)
  }

  function Lowest(cs: seq<Candle>): (l: real)
    requires cs != []
    ensures forall i :: 0 <= i < |cs| ==> l <= cs[i].low
    ensures exists i :: 0 <= i < |cs| && cs[i].low == l
  {
    if |cs| == 1 then cs[0].low
    else
      var rest := Lowest(cs[1..]);
      assert forall i :: 0 < i < |cs| ==> cs[i] == cs[1..][i - 1];
      Min(cs[0].low, rest)
  }

  function Closes(cs: seq<Candle>): (c: seq<real>)
    ensures |c| == |cs| && forall i :: 0 <= i < |cs| ==> c[i] == cs[i].close
  {
    seq(|cs|, i requires 0 <= i < |cs| => cs[i].close)
  }

  datatype Features = Features(
    barIndex: nat, emaFast: real, emaSlow: real, atr: real,
    donchianHigh: real, donchianLow: real,
    previousDonchianHigh: real, previousDonchianLow: real)

  function FeaturesAt(cs: seq<Candle>, i: nat): Features
    requires EMA_SLOW - 1 <= i < |cs|
  {
    var current := cs[i - DONCHIAN..i];
    var previous := cs[i - DONCHIAN - 1..i - 1];
    Features(
      i, EmaAt(Closes(cs), EMA_FAST, i), EmaAt(Closes(cs), EMA_SLOW, i),
      WilderAt(TrueRanges(cs), ATR_PERIOD, i),
      Highest(current), Lowest(current), Highest(previous), Lowest(previous))
  }

  // ----- signals -----

  datatype Direction = Buy | Sell | Nothing

  datatype Signal = Signal(
    barIndex: nat, signalTime: int, observedAt: int, expiresAt: int,
    direction: Direction, close: real, features: Features)

  function Classify(current: Candle, previousClose: real, f: Features, previousFast: real): Direction {
    var longTransition := current.close > f.donchianHigh && previousClose <= f.previousDonchianHigh;
    var shortTransition := current.close < f.donchianLow && previousClose >= f.previousDonchianLow;
    var longTrend := f.emaFast > f.emaSlow && f.emaFast > previousFast;
    var shortTrend := f.emaFast < f.emaSlow && f.emaFast < previousFast;
    if longTransition && longTrend then Buy
    else if shortTransition && shortTrend then Sell
    else Nothing
  }

  /** The classification of candle `i`. */
  function SignalAt(cs: seq<Candle>, i: nat): Signal
    requires WARMUP <= i < |cs|
  {
    var f := FeaturesAt(cs, i);
    Signal(
      i, cs[i].closeTime, cs[i].receivedAt, cs[i].closeTime + SIGNAL_EXPIRY,
      Classify(cs[i], cs[i - 1].close, f, FeaturesAt(cs, i - 1).emaFast), cs[i].close, f)
  }

  /** One signal for every candle from the end of the warm-up on. */
  function Signals(cs: seq<Candle>): seq<Signal> {
    if |cs| <= WARMUP then []
    else seq(|cs| - WARMUP, k requires 0 <= k < |cs| - WARMUP => SignalAt(cs, WARMUP + k))
  }

  // ----- the scanner -----

  method Ema(values: seq<real>, period: nat) returns (result: seq<Option<real>>)
    requires period > 0
    ensures |result| == |values|
    ensures forall i :: 0 <= i < |values| ==>
      result[i] == if i + 1 < period then None else Some(EmaAt(values, period, i))
  {
    result := seq(|values|, _ => None);
    if |values| < period {
      return;
    }
    var current := Average(values[..period]);
    result := result[period - 1 := Some(current)];
    for index := period to |values|
      invariant |result| == |values|
      invariant current == EmaAt(values, period, index - 1)
      invariant forall i :: 0 <= i < index ==>
        result[i] == if i + 1 < period then None else Some(EmaAt(values, period, i))
    {
      current := EmaStep(values[index], current, period);
      result := result[index := Some(current)];
    }
  }

  method Average(xs: seq<real>) returns (mean: real)
    requires xs != []
    ensures mean == Mean(xs)
  {
    var total := 0.0;
    for i := 0 to |xs|
      invariant total == Sum(xs[..i])
    {
      assert xs[..i + 1][..i] == xs[..i];
      total := total + xs[i];
    }
    assert xs[..|xs|] == xs;
    mean := total / |xs| as real;
  }

  method RangeSeries(cs: seq<Candle>) returns (ranges: seq<real>)
    ensures ranges == TrueRanges(cs)
  {
    hide TrueRange, WellFormed;
    ranges := [];
    for index := 0 to |cs|
      invariant |ranges| == index
      invariant forall i :: 0 <= i < index ==> ranges[i] == TrueRange(cs, i)
    {
      ranges := ranges + [TrueRange(cs, index)];
    }
  }

  method Wilder(ranges: seq<real>, period: nat) returns (result: seq<Option<real>>)
    requires period > 0
    ensures |result| == |ranges|
    ensures forall i :: 0 <= i < |ranges| ==>
      result[i] == if i + 1 < period then None else Some(WilderAt(ranges, period, i))
  {
    result := seq(|ranges|, _ => None);
    if |ranges| < period {
      return;
    }
    var current := Average(ranges[..period]);
    result := result[period - 1 := Some(current)];
    for index := period to |ranges|
      invariant |result| == |ranges|
      invariant current == WilderAt(ranges, period, index - 1)
      invariant forall i :: 0 <= i < index ==>
        result[i] == if i + 1 < period then None else Some(WilderAt(ranges, period, i))
    {
      hide WilderStep;
      current := WilderStep(ranges[index], current, period);
      result := result[index := Some(current)];
    }
  }

  method ValidateSeries(cs: seq<Candle>) returns (ok: bool)
    ensures ok <==> ValidSeries(cs)
  {
    if cs == [] {
      return false;
    }
    for i := 0 to |cs|
      invariant forall j :: 0 <= j < i ==> cs[j].complete && cs[j].instrument == cs[0].instrument
      invariant forall j :: 0 < j < i ==> Follows(cs[j - 1], cs[j])
    {
      if !cs[i].complete || cs[i].instrument != cs[0].instrument {
        return false;
      }
      if i > 0 && (cs[i].openTime != cs[i - 1].closeTime || cs[i].receivedAt < cs[i - 1].receivedAt) {
        return false;
      }
    }
    return true;
  }

  /** Features exist exactly from the first index at which the slow average does. */
  method FeatureSeries(cs: seq<Candle>) returns (features: seq<Option<Features>>)
    ensures |features| == |cs|
    ensures forall i :: 0 <= i < |cs| ==>
      features[i] == if i < EMA_SLOW - 1 then None else Some(FeaturesAt(cs, i))
  {
    var closes := Closes(cs);
    var fast := Ema(closes, EMA_FAST);
    var slow := Ema(closes, EMA_SLOW);
    var ranges := RangeSeries(cs);
    var atr := Wilder(ranges, ATR_PERIOD);
    features := seq(|cs|, _ => None);
    var index := DONCHIAN + 1;
    while index < |cs|
      invariant DONCHIAN + 1 <= index
      invariant |features| == |cs|
      invariant forall i :: 0 <= i < |cs| ==>
        features[i] == if i < EMA_SLOW - 1 || i >= index then None else Some(FeaturesAt(cs, i))
    {
      if fast[index].Some? && slow[index].Some? && atr[index].Some? {
        var current := cs[index - DONCHIAN..index];
        var previous := cs[index - DONCHIAN - 1..index - 1];
        features := features[index := Some(Features(
          index, fast[index].value, slow[index].value, atr[index].value,
          Highest(current), Lowest(current), Highest(previous), Lowest(previous)))];
      }
      index := index + 1;
    }
  }

  /** The scan rejects exactly the invalid series and otherwise classifies every
      candle from the end of the warm-up on. */
  method ScanSignals(cs: seq<Candle>) returns (signals: Option<seq<Signal>>)
    ensures signals.Some? <==> ValidSeries(cs)
    ensures signals.Some? ==> signals.value == Signals(cs)
  {
    hide FeaturesAt, Classify, ValidSeries, WellFormed;
    var ok := ValidateSeries(cs);
    if !ok {
      return None;
    }
    var features := FeatureSeries(cs);
    if |cs| <= WARMUP {
      return Some([]);
    }
    var found: seq<Signal> := [];
    for index := WARMUP to |cs|
      invariant |found| == index - WARMUP
      invariant forall k :: 0 <= k < |found| ==> found[k] == SignalAt(cs, WARMUP + k)
    {
      var f := features[index].value;
      var direction := Classify(cs[index], cs[index - 1].close, f, features[index - 1].value.emaFast);
      found := found + [Signal(
        index, cs[index].closeTime, cs[index].receivedAt, cs[index].closeTime + SIGNAL_EXPIRY,
        direction, cs[index].close, f)];
    }
    return Some(found);
  }

  // ----- no signal looks ahead -----

  lemma {:induction false} EmaPrefix(a: seq<real>, b: seq<real>, period: nat, i: nat)
    requires a <= b && 0 < period <= i + 1 <= |a|
    ensures EmaAt(a, period, i) == EmaAt(b, period, i)
  {
    if i == period - 1 {
      assert a[..period] == b[..period];
    } else {
      EmaPrefix(a, b, period, i - 1);
    }
  }

  lemma {:induction false} WilderPrefix(a: seq<real>, b: seq<real>, period: nat, i: nat)
    requires a <= b && 0 < period <= i + 1 <= |a|
    ensures WilderAt(a, period, i) == WilderAt(b, period, i)
  {
    if i == period - 1 {
      assert a[..period] == b[..period];
    } else {
      WilderPrefix(a, b, period, i - 1);
    }
  }

  lemma FeaturesPrefix(a: seq<Candle>, b: seq<Candle>, i: nat)
    requires a <= b && EMA_SLOW - 1 <= i < |a|
    ensures FeaturesAt(a, i) == FeaturesAt(b, i)
  {
    assert Closes(a) <= Closes(b);
    assert forall k :: 0 <= k < |a| ==> TrueRange(a, k) == TrueRange(b, k);
    hide TrueRange, EmaStep, WilderStep, EmaAt, WilderAt, Highest, Lowest;
    assert TrueRanges(a) <= TrueRanges(b);
    EmaPrefix(Closes(a), Closes(b), EMA_FAST, i);
    EmaPrefix(Closes(a), Closes(b), EMA_SLOW, i);
    WilderPrefix(TrueRanges(a), TrueRanges(b), ATR_PERIOD, i);
    assert a[i - DONCHIAN..i] == b[i - DONCHIAN..i];
    assert a[i - DONCHIAN - 1..i - 1] == b[i - DONCHIAN - 1..i - 1];
  }

  /** A candle's signal depends on that candle and earlier ones only. */
  lemma SignalsLookBack(a: seq<Candle>, b: seq<Candle>)
    requires a <= b
    ensures Signals(a) <= Signals(b)
    ensures forall i :: WARMUP <= i < |a| ==> SignalAt(a, i) == SignalAt(b, i)
  {
    hide FeaturesAt, Classify;
    forall i | WARMUP <= i < |a| ensures SignalAt(a, i) == SignalAt(b, i) {
      FeaturesPrefix(a, b, i);
      FeaturesPrefix(a, b, i - 1);
    }
  }

  // ----- what a directional signal implies -----

  lemma {:induction false} SumNonNegative(xs: seq<real>)
    requires forall i :: 0 <= i < |xs| ==> xs[i] >= 0.0
    ensures Sum(xs) >= 0.0
  {
    if xs != [] {
      SumNonNegative(xs[..|xs| - 1]);
    }
  }

  lemma WilderStepGrows(x: real, previous: real, period: nat)
    requires period > 0 && x >= 0.0 && previous >= 0.0
    ensures WilderStep(x, previous, period) >= 0.0
    ensures WilderStep(x, previous, period) * period as real >= x
  {
    ProductNonNegative(previous, (period - 1) as real);
  }

  lemma {:induction false} WilderNonNegative(ranges: seq<real>, period: nat, i: nat)
    requires 0 < period <= i + 1 <= |ranges|
    requires forall k :: 0 <= k < |ranges| ==> ranges[k] >= 0.0
    ensures WilderAt(ranges, period, i) >= 0.0
    ensures period <= i ==> WilderAt(ranges, period, i) * period as real >= ranges[i]
  {
    if i == period - 1 {
      SumNonNegative(ranges[..period]);
    } else {
      WilderNonNegative(ranges, period, i - 1);
      WilderStepGrows(ranges[i], WilderAt(ranges, period, i - 1), period);
    }
  }

  /** A directional close lies outside the whole previous candle. */
  lemma BreakoutCloses(cs: seq<Candle>, i: nat)
    requires WARMUP <= i < |cs| && SignalAt(cs, i).direction != Nothing
    ensures cs[i].close > cs[i - 1].high || cs[i].close < cs[i - 1].low
  {
    hide EmaAt, WilderAt;
    var window := cs[i - DONCHIAN..i];
    assert window[DONCHIAN - 1] == cs[i - 1];
    assert cs[i].close > Highest(window) || cs[i].close < Lowest(window);
  }

  lemma OutsideMoves(cs: seq<Candle>, i: nat)
    requires 0 < i < |cs|
    requires cs[i].close > cs[i - 1].high || cs[i].close < cs[i - 1].low
    ensures TrueRange(cs, i) > 0.0
  {
    assert cs[i].high >= cs[i].close >= cs[i].low;
    assert cs[i - 1].high >= cs[i - 1].close >= cs[i - 1].low;
  }

  lemma RangesNonNegative(cs: seq<Candle>)
    ensures forall k :: 0 <= k < |cs| ==> TrueRange(cs, k) >= 0.0
  {
    forall k | 0 <= k < |cs| ensures TrueRange(cs, k) >= 0.0 {
      assert cs[k].high >= cs[k].close >= cs[k].low;
    }
  }

  /** A breakout moves the close past the whole previous candle, so the average
      true range at a directional signal is positive and can divide. */
  lemma DirectionalHasRange(cs: seq<Candle>, i: nat)
    requires WARMUP <= i < |cs| && SignalAt(cs, i).direction != Nothing
    ensures SignalAt(cs, i).features.atr > 0.0
  {
    hide EmaAt, WilderAt, Classify, Highest, Lowest, TrueRange;
    BreakoutCloses(cs, i);
    OutsideMoves(cs, i);
    RangesNonNegative(cs);
    WilderNonNegative(TrueRanges(cs), ATR_PERIOD, i);
  }

  /** A signal marks a transition: two neighbouring candles never carry the same
      direction. */
  lemma NeverTwiceInARow(cs: seq<Candle>, i: nat)
    requires WARMUP <= i && i + 1 < |cs|
    requires SignalAt(cs, i).direction != Nothing
    ensures SignalAt(cs, i + 1).direction != SignalAt(cs, i).direction
  {
    assert cs[i + 1 - DONCHIAN - 1..i + 1 - 1] == cs[i - DONCHIAN..i];
  }

  // ----- the average stays inside the prices it averages -----

  lemma {:induction false} SumBounds(xs: seq<real>, lo: real, hi: real)
    requires forall i :: 0 <= i < |xs| ==> lo <= xs[i] <= hi
    ensures lo * |xs| as real <= Sum(xs) <= hi * |xs| as real
  {
    if xs != [] {
      SumBounds(xs[..|xs| - 1], lo, hi);
    }
  }

  lemma ProductNonNegative(x: real, y: real)
    requires x >= 0.0 && y >= 0.0
    ensures x * y >= 0.0
  {
  }

  lemma BlendBounds(x: real, y: real, alpha: real, lo: real, hi: real)
    requires 0.0 <= alpha <= 1.0 && lo <= x <= hi && lo <= y <= hi
    ensures lo <= x * alpha + y * (1.0 - alpha) <= hi
  {
    ProductNonNegative(x - lo, alpha);
    ProductNonNegative(y - lo, 1.0 - alpha);
    ProductNonNegative(hi - x, alpha);
    ProductNonNegative(hi - y, 1.0 - alpha);
    assert x * alpha + y * (1.0 - alpha) - lo == (x - lo) * alpha + (y - lo) * (1.0 - alpha);
    assert hi - (x * alpha + y * (1.0 - alpha)) == (hi - x) * alpha + (hi - y) * (1.0 - alpha);
  }

  /** Every average lies between the lowest and the highest value seen so far. */
  lemma {:induction false} EmaBounds(values: seq<real>, period: nat, i: nat, lo: real, hi: real)
    requires 0 < period <= i + 1 <= |values|
    requires forall k :: 0 <= k <= i ==> lo <= values[k] <= hi
    ensures lo <= EmaAt(values, period, i) <= hi
  {
    if i == period - 1 {
      SumBounds(values[..period], lo, hi);
      DivideBounds(Sum(values[..period]), period, lo, hi);
    } else {
      EmaBounds(values, period, i - 1, lo, hi);
      var alpha := 2.0 / (period + 1) as real;
      BlendBounds(values[i], EmaAt(values, period, i - 1), alpha, lo, hi);
    }
  }

  lemma DivideBounds(total: real, n: nat, lo: real, hi: real)
    requires n > 0 && lo * n as real <= total <= hi * n as real
    ensures lo <= total / n as real <= hi
  {
    assert lo == lo * n as real / n as real;
    assert hi == hi * n as real / n as real;
  }
}
