/** The whole backtest run over a candle series: signal accounting, disjoint
    holding intervals and no look-ahead. */
module BacktestRuns {
  import opened Options
  import opened Strategy
  import opened Backtest

  /** The loop's result: `next` is the index at which it stopped. */
  datatype Run = Run(trades: seq<Trade>, ignored: nat, expired: nat, unresolved: nat, next: nat)

  predicate Directional(cs: seq<Candle>, i: nat)
    requires WARMUP <= i < |cs|
  {
    SignalAt(cs, i).direction != Nothing
  }

  /** Directional bars in [lo, hi). */
  function Directionals(cs: seq<Candle>, lo: nat, hi: nat): (n: nat)
    requires WARMUP <= lo && hi <= |cs|
    decreases hi - lo
  {
    if lo >= hi then 0 else (if Directional(cs, lo) then 1 else 0) + Directionals(cs, lo + 1, hi)
  }

  lemma {:induction false} DirectionalsSplit(cs: seq<Candle>, lo: nat, mid: nat, hi: nat)
    requires WARMUP <= lo <= mid <= hi <= |cs|
    ensures Directionals(cs, lo, hi) == Directionals(cs, lo, mid) + Directionals(cs, mid, hi)
    decreases mid - lo
  {
    hide SignalAt;
    if lo < mid {
      DirectionalsSplit(cs, lo + 1, mid, hi);
    }
  }

  /** A directional bar has a positive range, so its result can be expressed in
      multiples of the risk, and its trade is sound. */
  lemma TradeFacts(cs: seq<Candle>, costs: CostModel, i: nat)
    requires WARMUP <= i < |cs| && Directional(cs, i)
    ensures SignalAt(cs, i).features.atr > 0.0 && SignalAt(cs, i).barIndex == i
    ensures
      var s := SignalAt(cs, i);
      Simulate(cs, s, costs).Some? ==> SoundTrade(cs, s, costs, Simulate(cs, s, costs).value)
  {
    DirectionalHasRange(cs, i);
    hide FeaturesAt, Classify, Simulate, SoundTrade;
    var s := SignalAt(cs, i);
    if Simulate(cs, s, costs).Some? {
      SimulateIsSound(cs, s, costs);
    }
  }

  function TradeAt(cs: seq<Candle>, costs: CostModel, i: nat): (t: Option<Trade>)
    requires WARMUP <= i < |cs| && Directional(cs, i)
    ensures t.Some? ==> SoundTrade(cs, SignalAt(cs, i), costs, t.value) && t.value.signalIndex == i
  {
    hide SignalAt, Simulate;
    TradeFacts(cs, costs, i);
    Simulate(cs, SignalAt(cs, i), costs)
  }

  predicate ExpiredAt(cs: seq<Candle>, i: nat)
    requires WARMUP <= i && i + 1 < |cs|
  {
    Expired(cs, SignalAt(cs, i))
  }

  /** What the loop adds from bar `index` to the end. */
  function RunFrom(cs: seq<Candle>, costs: CostModel, index: nat): Run
    requires WARMUP <= index
    decreases |cs| - index
  {
    hide SignalAt, Directional, TradeAt, ExpiredAt;
    if index >= |cs| - 1 then Run([], 0, 0, 0, index)
    else if !Directional(cs, index) then RunFrom(cs, costs, index + 1)
    else if ExpiredAt(cs, index) then
      var rest := RunFrom(cs, costs, index + 1);
      rest.(expired := rest.expired + 1)
    else
      match TradeAt(cs, costs, index)
      case None => Run([], 0, 0, 1, index)
      case Some(t) =>
        var rest := RunFrom(cs, costs, t.exitIndex);
        Run([t] + rest.trades, Directionals(cs, index + 1, t.exitIndex) + rest.ignored,
            rest.expired, rest.unresolved, rest.next)
  }

  /** The accumulators of the loop followed by what is still to come. */
  function Joined(done: Run, rest: Run): Run {
    Run(done.trades + rest.trades, done.ignored + rest.ignored, done.expired + rest.expired,
        done.unresolved + rest.unresolved, rest.next)
  }

  method CountDirectional(cs: seq<Candle>, signals: seq<Signal>, lo: nat, hi: nat) returns (n: nat)
    requires WARMUP <= lo && hi <= |cs| && signals == Signals(cs)
    ensures n == Directionals(cs, lo, hi)
  {
    hide SignalAt;
    n := 0;
    var skipped := lo;
    while skipped < hi
      invariant lo <= skipped && (lo <= hi ==> skipped <= hi)
      invariant n + Directionals(cs, skipped, hi) == Directionals(cs, lo, hi)
    {
      if signals[skipped - WARMUP].direction != Nothing {
        n := n + 1;
      }
      skipped := skipped + 1;
    }
  }

  // One step of the loop, for each of its outcomes.

  lemma SkipStep(cs: seq<Candle>, costs: CostModel, index: nat, done: Run)
    requires WARMUP <= index < |cs| - 1 && (!Directional(cs, index) || ExpiredAt(cs, index))
    ensures
      var missed := if Directional(cs, index) then 1 else 0;
      Joined(done, RunFrom(cs, costs, index)) ==
        Joined(done.(expired := done.expired + missed), RunFrom(cs, costs, index + 1))
  {
    hide Directional, ExpiredAt, TradeAt;
  }

  lemma RunAtTrade(cs: seq<Candle>, costs: CostModel, index: nat)
    requires WARMUP <= index < |cs| - 1 && Directional(cs, index) && !ExpiredAt(cs, index)
    ensures
      var t := TradeAt(cs, costs, index);
      RunFrom(cs, costs, index) ==
        if t.None? then Run([], 0, 0, 1, index)
        else
          var rest := RunFrom(cs, costs, t.value.exitIndex);
          Run([t.value] + rest.trades, Directionals(cs, index + 1, t.value.exitIndex) + rest.ignored,
              rest.expired, rest.unresolved, rest.next)
  {
    hide Directional, ExpiredAt, SoundTrade, SignalAt, Simulate, Directionals;
  }

  lemma JoinTrade(done: Run, t: Trade, skipped: nat, rest: Run)
    ensures
      Joined(done, Run([t] + rest.trades, skipped + rest.ignored, rest.expired, rest.unresolved, rest.next)) ==
        Joined(Run(done.trades + [t], done.ignored + skipped, done.expired, done.unresolved, t.exitIndex), rest)
  {
    assert done.trades + ([t] + rest.trades) == (done.trades + [t]) + rest.trades;
  }

  lemma JoinUnresolved(done: Run, index: nat)
    ensures Joined(done, Run([], 0, 0, 1, index)) ==
      Run(done.trades, done.ignored, done.expired, done.unresolved + 1, index)
  {
    assert done.trades + [] == done.trades;
  }

  lemma EndStep(cs: seq<Candle>, costs: CostModel, index: nat, done: Run)
    requires WARMUP <= index && index >= |cs| - 1 && done.next == index
    ensures Joined(done, RunFrom(cs, costs, index)) == done
  {
    assert done.trades + [] == done.trades;
  }

  /** The backtest: rejects exactly the invalid series and otherwise runs the
      single-position loop from the end of the warm-up. */
  method RunBacktest(cs: seq<Candle>, costs: CostModel) returns (r: Option<Run>)
    ensures r.Some? <==> ValidSeries(cs)
    ensures r.Some? ==> r.value == RunFrom(cs, costs, WARMUP)
  {
    hide SignalAt, Simulate, SoundTrade, ValidSeries, Expired, ExpiredAt, RunFrom, Joined, Directionals;
    var scanned := ScanSignals(cs);
    if scanned.None? {
      return None;
    }
    var signals := scanned.value;
    var trades: seq<Trade>, ignored: nat, expired: nat, unresolved: nat := [], 0, 0, 0;
    var index := WARMUP;
    NothingDone(RunFrom(cs, costs, WARMUP), WARMUP);
    while index < |cs| - 1
      invariant WARMUP <= index
      invariant unresolved == 0
      invariant RunFrom(cs, costs, WARMUP) ==
        Joined(Run(trades, ignored, expired, unresolved, index), RunFrom(cs, costs, index))
    {
      var signal := signals[index - WARMUP];
      ghost var done := Run(trades, ignored, expired, unresolved, index);
      if signal.direction == Nothing {
        SkipStep(cs, costs, index, done);
        index := index + 1;
        NextIgnored(done, index, RunFrom(cs, costs, index));
        continue;
      }
      ExpiredMeans(cs, index);
      if signal.observedAt > signal.expiresAt || cs[index + 1].openTime > signal.expiresAt {
        SkipStep(cs, costs, index, done);
        expired := expired + 1;
        index := index + 1;
        NextIgnored(done.(expired := expired), index, RunFrom(cs, costs, index));
        continue;
      }
      TradeFacts(cs, costs, index);
      RunAtTrade(cs, costs, index);
      var trade := SimulateTrade(cs, signal, costs);
      if trade.None? {
        JoinUnresolved(done, index);
        unresolved := unresolved + 1;
        return Some(Run(trades, ignored, expired, unresolved, index));
      }
      TradeEnds(cs, costs, index);
      var skipped := CountDirectional(cs, signals, index + 1, trade.value.exitIndex);
      trades := trades + [trade.value];
      ignored := ignored + skipped;
      index := trade.value.exitIndex;
      JoinTrade(done, trade.value, skipped, RunFrom(cs, costs, index));
    }
    EndStep(cs, costs, index, Run(trades, ignored, expired, unresolved, index));
    return Some(Run(trades, ignored, expired, unresolved, index));
  }

  lemma NothingDone(rest: Run, index: nat)
    ensures Joined(Run([], 0, 0, 0, index), rest) == rest
  {
    assert [] + rest.trades == rest.trades;
  }

  lemma NextIgnored(done: Run, index: nat, rest: Run)
    ensures Joined(done, rest) == Joined(done.(next := index), rest)
  {
  }

  lemma SignalOfBar(cs: seq<Candle>, i: nat)
    requires WARMUP <= i < |cs|
    ensures SignalAt(cs, i).barIndex == i
  {
    hide FeaturesAt, Classify;
  }

  lemma ExpiredMeans(cs: seq<Candle>, i: nat)
    requires WARMUP <= i && i + 1 < |cs|
    ensures ExpiredAt(cs, i) <==>
      SignalAt(cs, i).observedAt > SignalAt(cs, i).expiresAt || cs[i + 1].openTime > SignalAt(cs, i).expiresAt
  {
    hide SignalAt;
    SignalOfBar(cs, i);
  }

  lemma TradeEnds(cs: seq<Candle>, costs: CostModel, i: nat)
    requires WARMUP <= i < |cs| && Directional(cs, i)
    ensures
      var t := TradeAt(cs, costs, i);
      t.Some? ==> t.value.signalIndex == i && t.value.entryIndex == i + 1 <= t.value.exitIndex < |cs|
  {
    hide SignalAt;
  }

  // ----- signal conservation -----

  /** Every directional bar the loop reached is accounted for once: it became a
      trade, was ignored while a position was open, had expired, or is the bar
      whose position the data does not resolve. */
  lemma {:induction false} SignalsConserved(cs: seq<Candle>, costs: CostModel, index: nat)
    requires WARMUP <= index < |cs|
    ensures
      var r := RunFrom(cs, costs, index);
      && r.unresolved <= 1
      && index <= r.next
      && (if r.unresolved == 0 then r.next == |cs| - 1 else r.next < |cs| - 1)
      && |r.trades| + r.ignored + r.expired + r.unresolved ==
        Directionals(cs, index, r.next + r.unresolved)
    decreases |cs| - index
  {
    hide SignalAt, Directional, ExpiredAt, SoundTrade, TradeAt;
    var r := RunFrom(cs, costs, index);
    if index < |cs| - 1 {
      if !Directional(cs, index) || ExpiredAt(cs, index) {
        SignalsConserved(cs, costs, index + 1);
      } else {
        TradeEnds(cs, costs, index);
        var t := TradeAt(cs, costs, index);
        if t.Some? {
          SignalsConserved(cs, costs, t.value.exitIndex);
          DirectionalsSplit(cs, index, index + 1, r.next + r.unresolved);
          DirectionalsSplit(cs, index + 1, t.value.exitIndex, r.next + r.unresolved);
        }
        OneDirectional(cs, index);
      }
    }
  }

  lemma OneDirectional(cs: seq<Candle>, i: nat)
    requires WARMUP <= i < |cs|
    ensures Directionals(cs, i, i + 1) == if Directional(cs, i) then 1 else 0
  {
    hide SignalAt;
    assert Directionals(cs, i + 1, i + 1) == 0;
  }

  // ----- one position at a time -----

  /** Holding intervals are pairwise disjoint and increasing. */
  predicate Disjoint(trades: seq<Trade>) {
    && (forall i :: 0 <= i < |trades| ==> trades[i].signalIndex < trades[i].entryIndex <= trades[i].exitIndex)
    && (forall i, j :: 0 <= i < j < |trades| ==>
          trades[i].exitIndex <= trades[j].signalIndex && trades[i].exitIndex < trades[j].entryIndex)
  }

  ghost predicate FromSignal(cs: seq<Candle>, costs: CostModel, t: Trade) {
    && WARMUP <= t.signalIndex && t.signalIndex + 1 < |cs|
    && Directional(cs, t.signalIndex)
    && !ExpiredAt(cs, t.signalIndex)
    && SoundTrade(cs, SignalAt(cs, t.signalIndex), costs, t)
  }

  lemma RunAtSkip(cs: seq<Candle>, costs: CostModel, index: nat)
    requires WARMUP <= index < |cs| - 1 && (!Directional(cs, index) || ExpiredAt(cs, index))
    ensures RunFrom(cs, costs, index).trades == RunFrom(cs, costs, index + 1).trades
  {
    hide Directional, ExpiredAt, SoundTrade, SignalAt, Simulate, TradeAt;
  }

  lemma {:induction false} TradesInOrder(cs: seq<Candle>, costs: CostModel, index: nat)
    requires WARMUP <= index
    ensures
      var trades := RunFrom(cs, costs, index).trades;
      Disjoint(trades) && forall i :: 0 <= i < |trades| ==> trades[i].signalIndex >= index
    decreases |cs| - index
  {
    hide SignalAt, Directional, ExpiredAt, TradeAt, SoundTrade, Directionals;
    if index < |cs| - 1 {
      if !Directional(cs, index) || ExpiredAt(cs, index) {
        TradesInOrder(cs, costs, index + 1);
      } else {
        TradeEnds(cs, costs, index);
        var t := TradeAt(cs, costs, index);
        if t.Some? {
          TradesInOrder(cs, costs, t.value.exitIndex);
          DisjointGrows(t.value, RunFrom(cs, costs, t.value.exitIndex).trades);
        }
      }
    }
  }

  lemma DisjointGrows(t: Trade, rest: seq<Trade>)
    requires t.signalIndex < t.entryIndex <= t.exitIndex && Disjoint(rest)
    requires forall i :: 0 <= i < |rest| ==> rest[i].signalIndex >= t.exitIndex
    ensures Disjoint([t] + rest)
  {
  }

  lemma {:induction false} TradesFromSignals(cs: seq<Candle>, costs: CostModel, index: nat)
    requires WARMUP <= index
    ensures
      var trades := RunFrom(cs, costs, index).trades;
      forall i :: 0 <= i < |trades| ==> FromSignal(cs, costs, trades[i])
    decreases |cs| - index
  {
    hide SignalAt, Directional, ExpiredAt, TradeAt, FromSignal, Directionals;
    if index < |cs| - 1 {
      if !Directional(cs, index) || ExpiredAt(cs, index) {
        TradesFromSignals(cs, costs, index + 1);
        RunAtSkip(cs, costs, index);
        hide RunFrom;
      } else {
        TradeEnds(cs, costs, index);
        RunAtTrade(cs, costs, index);
        var t := TradeAt(cs, costs, index);
        if t.Some? {
          LiveTrade(cs, costs, index);
          TradesFromSignals(cs, costs, t.value.exitIndex);
        }
        hide RunFrom, SoundTrade;
      }
    }
  }

  /** Every trade of a run comes from a live directional signal, is sound, and
      starts after the previous one has ended. */
  lemma TradesAreSound(cs: seq<Candle>, costs: CostModel, index: nat)
    requires WARMUP <= index
    ensures
      var r := RunFrom(cs, costs, index);
      && Disjoint(r.trades)
      && (forall i :: 0 <= i < |r.trades| ==> r.trades[i].signalIndex >= index)
      && (forall i :: 0 <= i < |r.trades| ==> FromSignal(cs, costs, r.trades[i]))
  {
    TradesInOrder(cs, costs, index);
    TradesFromSignals(cs, costs, index);
    hide RunFrom, FromSignal, Disjoint;
  }

  lemma LiveTrade(cs: seq<Candle>, costs: CostModel, i: nat)
    requires WARMUP <= i && i + 1 < |cs| && Directional(cs, i) && !ExpiredAt(cs, i)
    requires TradeAt(cs, costs, i).Some?
    ensures FromSignal(cs, costs, TradeAt(cs, costs, i).value)
  {
    hide SignalAt, ExpiredAt, Directional;
  }

  // ----- no look-ahead -----

  function ClosedBefore(trades: seq<Trade>, n: nat): (kept: seq<Trade>)
    ensures forall t :: t in kept <==> t in trades && t.exitIndex < n
  {
    if trades == [] then []
    else if trades[0].exitIndex < n then [trades[0]] + ClosedBefore(trades[1..], n)
    else ClosedBefore(trades[1..], n)
  }

  lemma {:induction false} NoneClosed(trades: seq<Trade>, n: nat)
    requires forall i :: 0 <= i < |trades| ==> trades[i].exitIndex >= n
    ensures ClosedBefore(trades, n) == []
  {
    if trades != [] {
      NoneClosed(trades[1..], n);
    }
  }

  lemma LaterExits(cs: seq<Candle>, costs: CostModel, index: nat, n: nat)
    requires WARMUP <= index && n <= index + 1
    ensures ClosedBefore(RunFrom(cs, costs, index).trades, n) == []
  {
    TradesInOrder(cs, costs, index);
    var trades := RunFrom(cs, costs, index).trades;
    hide RunFrom, Directional, SignalAt, TradeAt;
    assert forall i :: 0 <= i < |trades| ==> trades[i].exitIndex >= n;
    NoneClosed(trades, n);
  }

  lemma SignalPrefix(a: seq<Candle>, b: seq<Candle>, i: nat)
    requires a <= b && WARMUP <= i && i + 1 < |a|
    ensures SignalAt(a, i) == SignalAt(b, i) && SignalAt(a, i).barIndex == i
    ensures Directional(a, i) == Directional(b, i)
  {
    SignalsLookBack(a, b);
    SignalOfBar(a, i);
    hide SignalAt;
  }

  lemma ExpiryPrefix(a: seq<Candle>, b: seq<Candle>, i: nat)
    requires a <= b && WARMUP <= i && i + 1 < |a|
    ensures ExpiredAt(a, i) == ExpiredAt(b, i)
  {
    SignalPrefix(a, b, i);
    ExpiredMeans(a, i);
    ExpiredMeans(b, i);
    hide SignalAt, ExpiredAt;
    assert a[i + 1] == b[i + 1];
  }

  lemma TradePrefix(a: seq<Candle>, b: seq<Candle>, costs: CostModel, i: nat)
    requires a <= b && WARMUP <= i && i + 1 < |a| && Directional(a, i) && Directional(b, i)
    ensures
      var whole := TradeAt(b, costs, i);
      TradeAt(a, costs, i) == if whole.Some? && whole.value.exitIndex < |a| then whole else None
  {
    SignalPrefix(a, b, i);
    TradeFacts(a, costs, i);
    hide SignalAt, Simulate, SoundTrade;
    SimulatePrefix(a, b, SignalAt(a, i), costs);
  }

  /** No look-ahead: cutting the series keeps exactly the trades that had already
      ended, for every cut.  The signals need no assumption. */
  lemma {:induction false} NoLookAhead(a: seq<Candle>, b: seq<Candle>, costs: CostModel, index: nat)
    requires a <= b && WARMUP <= index
    ensures RunFrom(a, costs, index).trades == ClosedBefore(RunFrom(b, costs, index).trades, |a|)
    decreases |a| - index
  {
    hide SignalAt, Directional, ExpiredAt, TradeAt, SoundTrade;
    if index >= |a| - 1 {
      LaterExits(b, costs, index, |a|);
    } else {
      SignalPrefix(a, b, index);
      ExpiryPrefix(a, b, index);
      if Directional(b, index) {
        TradePrefix(a, b, costs, index);
      }
      if !Directional(b, index) || ExpiredAt(b, index) {
        NoLookAhead(a, b, costs, index + 1);
      } else {
        var t := TradeAt(b, costs, index);
        if t.Some? {
          TradeEnds(b, costs, index);
          var rest := RunFrom(b, costs, t.value.exitIndex).trades;
          assert ([t.value] + rest)[1..] == rest;
          if t.value.exitIndex < |a| {
            NoLookAhead(a, b, costs, t.value.exitIndex);
          } else {
            LaterExits(b, costs, t.value.exitIndex, |a|);
          }
        }
      }
    }
  }

  /** The trades of a prefix are a prefix of the trades of the whole series. */
  lemma PrefixTrades(a: seq<Candle>, b: seq<Candle>, costs: CostModel)
    requires a <= b
    ensures RunFrom(a, costs, WARMUP).trades <= RunFrom(b, costs, WARMUP).trades
  {
    NoLookAhead(a, b, costs, WARMUP);
    TradesInOrder(b, costs, WARMUP);
    hide RunFrom;
    ClosedIsPrefix(RunFrom(b, costs, WARMUP).trades, |a|);
  }

  lemma {:induction false} ClosedIsPrefix(trades: seq<Trade>, n: nat)
    requires forall i, j :: 0 <= i < j < |trades| ==> trades[i].exitIndex < trades[j].exitIndex
    ensures ClosedBefore(trades, n) <= trades
  {
    if trades != [] {
      if trades[0].exitIndex < n {
        ClosedIsPrefix(trades[1..], n);
        assert trades == [trades[0]] + trades[1..];
      } else {
        NoneClosed(trades, n);
      }
    }
  }
}
