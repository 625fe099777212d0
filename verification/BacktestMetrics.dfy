/** Performance metrics, chronological folds and the block bootstrap over the
    ordered trade results. */
module BacktestMetrics {
  import opened Options
  import opened Strategy
  import opened Backtest
  import opened BacktestRuns

  datatype Metrics = Metrics(
    tradeCount: nat, total: real, expectancy: real, grossProfit: real, grossLoss: real,
    profitFactor: Option<real>, maxDrawdown: real, bestContribution: Option<real>,
    lowerBound: Option<real>, blockLength: nat, samples: nat)

  function Returns(trades: seq<Trade>): (r: seq<real>)
    ensures |r| == |trades| && forall i :: 0 <= i < |trades| ==> r[i] == trades[i].netR
  {
    seq(|trades|, i requires 0 <= i < |trades| => trades[i].netR)
  }

  // ----- profit, loss and drawdown -----

  function Gains(xs: seq<real>): real {
    if xs == [] then 0.0 else Gains(xs[..|xs| - 1]) + Max(xs[|xs| - 1], 0.0)
  }

  function Losses(xs: seq<real>): real {
    if xs == [] then 0.0 else Losses(xs[..|xs| - 1]) + Max(-xs[|xs| - 1], 0.0)
  }

  /** Net result is what was won less what was lost. */
  lemma {:induction false} NetIsGainsLessLosses(xs: seq<real>)
    ensures Sum(xs) == Gains(xs) - Losses(xs)
    ensures Gains(xs) >= 0.0 && Losses(xs) >= 0.0
  {
    if xs != [] {
      NetIsGainsLessLosses(xs[..|xs| - 1]);
    }
  }

  /** The highest equity seen, starting from zero. */
  function Peak(xs: seq<real>): real {
    if xs == [] then 0.0 else Max(Peak(xs[..|xs| - 1]), Sum(xs))
  }

  function Drawdown(xs: seq<real>): real {
    if xs == [] then 0.0 else Max(Drawdown(xs[..|xs| - 1]), Peak(xs) - Sum(xs))
  }

  function EquityAt(xs: seq<real>, k: nat): real
    requires k <= |xs|
  {
    Sum(xs[..k])
  }

  lemma EquityOfPrefix(xs: seq<real>, m: nat, k: nat)
    requires k <= m <= |xs|
    ensures EquityAt(xs[..m], k) == EquityAt(xs, k)
  {
    assert xs[..m][..k] == xs[..k];
  }

  lemma {:induction false} PeakIsHighest(xs: seq<real>)
    ensures forall k :: 0 <= k <= |xs| ==> EquityAt(xs, k) <= Peak(xs)
    ensures exists k :: 0 <= k <= |xs| && EquityAt(xs, k) == Peak(xs)
  {
    if xs == [] {
      assert EquityAt(xs, 0) == Peak(xs);
    } else {
      var init := xs[..|xs| - 1];
      PeakIsHighest(init);
      assert xs[..|xs|] == xs;
      forall k | 0 <= k <= |init| ensures EquityAt(init, k) == EquityAt(xs, k) {
        EquityOfPrefix(xs, |init|, k);
      }
      var w :| 0 <= w <= |init| && EquityAt(init, w) == Peak(init);
      assert EquityAt(xs, if Sum(xs) > Peak(init) then |xs| else w) == Peak(xs);
    }
  }

  ghost predicate FallsBy(xs: seq<real>, depth: real) {
    exists i, j :: 0 <= i <= j <= |xs| && EquityAt(xs, i) - EquityAt(xs, j) == depth
  }

  /** The drawdown is the largest fall of equity from any moment to a later one. */
  lemma {:induction false} DrawdownIsWorstFall(xs: seq<real>)
    ensures forall i, j :: 0 <= i <= j <= |xs| ==> EquityAt(xs, i) - EquityAt(xs, j) <= Drawdown(xs)
    ensures FallsBy(xs, Drawdown(xs))
  {
    if xs == [] {
      assert EquityAt(xs, 0) - EquityAt(xs, 0) == 0.0;
    } else {
      var init := xs[..|xs| - 1];
      DrawdownIsWorstFall(init);
      PeakIsHighest(xs);
      assert xs[..|xs|] == xs;
      forall k | 0 <= k <= |init| ensures EquityAt(init, k) == EquityAt(xs, k) {
        EquityOfPrefix(xs, |init|, k);
      }
      var i, j :| 0 <= i <= j <= |init| && EquityAt(init, i) - EquityAt(init, j) == Drawdown(init);
      var p :| 0 <= p <= |xs| && EquityAt(xs, p) == Peak(xs);
      assert EquityAt(xs, i) - EquityAt(xs, j) == Drawdown(init);
      assert EquityAt(xs, p) - EquityAt(xs, |xs|) == Peak(xs) - Sum(xs);
    }
  }

  /** A drawdown never exceeds the total of the losing trades. */
  lemma {:induction false} DrawdownWithinLosses(xs: seq<real>)
    ensures 0.0 <= Drawdown(xs) <= Losses(xs)
    ensures 0.0 <= Peak(xs) - Sum(xs) <= Losses(xs)
  {
    if xs != [] {
      NetIsGainsLessLosses(xs);
      DrawdownWithinLosses(xs[..|xs| - 1]);
    }
  }

  // ----- the bootstrap -----

  function ISqrt(n: nat): (r: nat)
    ensures r * r <= n < (r + 1) * (r + 1)
  {
    if n == 0 then 0
    else
      var r := ISqrt(n - 1);
      if (r + 1) * (r + 1) <= n then r + 1 else r
  }

  function BlockLength(n: nat): (l: nat)
    ensures n > 0 ==> 1 <= l <= n
  {
    if ISqrt(n) > 1 then (SquareBelow(ISqrt(n), n); ISqrt(n)) else if n > 0 then 1 else 0
  }

  lemma SquareBelow(r: nat, n: nat)
    requires r * r <= n
    ensures r <= n
  {
    assert r <= r * r;
  }

  lemma BlockOf(block: nat, offset: nat, l: nat)
    requires offset < l
    ensures (block * l + offset) / l == block && (block * l + offset) % l == offset
  {
    var k := block * l + offset;
    var q, r := k / l, k % l;
    assert k == q * l + r;
    if q < block {
      MulOrder(q + 1, block, l);
    } else if block < q {
      MulOrder(block + 1, q, l);
    }
  }

  lemma MulOrder(a: nat, b: nat, l: nat)
    requires a <= b
    ensures a * l <= b * l
  {
  }

  lemma BlocksCover(n: nat, l: nat)
    requires l > 0
    ensures (n + l - 1) / l * l >= n
  {
    var m := n + l - 1;
    assert m == m / l * l + m % l;
  }

  /** The digest of (replicate, block) as a number; the hash itself is opaque. */
  type Draws = (nat, nat) -> nat

  function Position(n: nat, l: nat, draw: Draws, replicate: nat, k: nat): (p: nat)
    requires n > 0 && l > 0
    ensures p < n
  {
    (draw(replicate, k / l) % n + k % l) % n
  }

  /** Circular blocks of length `l`, cut after exactly as many values as there
      are results. */
  function Resampled(results: seq<real>, l: nat, draw: Draws, replicate: nat): (r: seq<real>)
    requires results != [] && l > 0
    ensures |r| == |results|
    ensures forall k :: 0 <= k < |r| ==> r[k] == results[Position(|results|, l, draw, replicate, k)]
  {
    seq(|results|, k requires 0 <= k < |results| => results[Position(|results|, l, draw, replicate, k)])
  }

  method Resample(results: seq<real>, l: nat, draw: Draws, replicate: nat) returns (resample: seq<real>)
    requires results != [] && l > 0
    ensures resample == Resampled(results, l, draw, replicate)
  {
    hide Position;
    var count := |results|;
    var blockCount := (count + l - 1) / l;
    BlocksCover(count, l);
    resample := [];
    var block := 0;
    while block < blockCount
      invariant 0 <= block <= blockCount
      invariant |resample| == block * l < count
      invariant forall k :: 0 <= k < |resample| ==> resample[k] == results[Position(count, l, draw, replicate, k)]
    {
      var start := draw(replicate, block) % count;
      var offset := 0;
      while offset < l
        invariant 0 <= offset <= l
        invariant |resample| == block * l + offset < count
        invariant forall k :: 0 <= k < |resample| ==> resample[k] == results[Position(count, l, draw, replicate, k)]
      {
        BlockOf(block, offset, l);
        PositionIs(count, l, draw, replicate, block, offset);
        resample := resample + [results[(start + offset) % count]];
        offset := offset + 1;
        if |resample| == count {
          break;
        }
      }
      if |resample| == count {
        break;
      }
      block := block + 1;
    }
  }

  lemma PositionIs(n: nat, l: nat, draw: Draws, replicate: nat, block: nat, offset: nat)
    requires n > 0 && offset < l
    ensures Position(n, l, draw, replicate, block * l + offset) == (draw(replicate, block) % n + offset) % n
  {
    BlockOf(block, offset, l);
  }

  predicate Ascending(xs: seq<real>) {
    forall i, j :: 0 <= i < j < |xs| ==> xs[i] <= xs[j]
  }

  function InsertSorted(x: real, xs: seq<real>): (r: seq<real>)
    requires Ascending(xs)
    ensures Ascending(r) && |r| == |xs| + 1
    ensures forall y :: y in r <==> y == x || y in xs
  {
    if xs == [] || x <= xs[0] then [x] + xs
    else
      var tail := InsertSorted(x, xs[1..]);
      assert forall y :: y in tail ==> xs[0] <= y;
      assert forall k :: 0 <= k < |tail| ==> tail[k] in tail;
      [xs[0]] + tail
  }

  function SortReals(xs: seq<real>): (r: seq<real>)
    ensures Ascending(r) && |r| == |xs|
    ensures forall y :: y in r <==> y in xs
  {
    if xs == [] then []
    else
      assert xs == xs[..|xs| - 1] + [xs[|xs| - 1]];
      InsertSorted(xs[|xs| - 1], SortReals(xs[..|xs| - 1]))
  }

  lemma {:induction false} InsertPermutes(x: real, xs: seq<real>)
    requires Ascending(xs)
    ensures multiset(InsertSorted(x, xs)) == multiset(xs) + multiset{x}
  {
    if xs != [] && x > xs[0] {
      InsertPermutes(x, xs[1..]);
      assert xs == [xs[0]] + xs[1..];
    }
  }

  /** Sorting keeps every value as often as it occurs. */
  lemma {:induction false} SortPermutes(xs: seq<real>)
    ensures multiset(SortReals(xs)) == multiset(xs)
  {
    if xs != [] {
      var init, last := xs[..|xs| - 1], xs[|xs| - 1];
      SortPermutes(init);
      InsertPermutes(last, SortReals(init));
      assert xs == init + [last];
    }
  }

  /** The means of all resamples, in replicate order. */
  function ResampleMeans(results: seq<real>, l: nat, draw: Draws, samples: nat): (m: seq<real>)
    requires results != [] && l > 0
    ensures |m| == samples
  {
    seq(samples, replicate requires 0 <= replicate < samples => Mean(Resampled(results, l, draw, replicate)))
  }

  datatype Bound = NoReturns | TooFewSamples | Bound(lower: real, blockLength: nat)

  /** The lower bound is the fifth-percentile entry of the sorted resample means. */
  method BootstrapLowerBound(results: seq<real>, draw: Draws, samples: nat) returns (r: Bound)
    ensures r.NoReturns? <==> results == []
    ensures r.TooFewSamples? <==> results != [] && samples < 100
    ensures r.Bound? ==>
      && r.blockLength == BlockLength(|results|)
      && r.lower == SortReals(ResampleMeans(results, r.blockLength, draw, samples))[(samples - 1) * 5 / 100]
  {
    if results == [] {
      return NoReturns;
    }
    if samples < 100 {
      return TooFewSamples;
    }
    var l := BlockLength(|results|);
    var means: seq<real> := [];
    for replicate := 0 to samples
      invariant |means| == replicate
      invariant forall i :: 0 <= i < replicate ==> means[i] == Mean(Resampled(results, l, draw, i))
    {
      hide Mean;
      var resample := Resample(results, l, draw, replicate);
      var mean := Average(resample);
      means := means + [mean];
    }
    assert means == ResampleMeans(results, l, draw, samples);
    return Bound(SortReals(means)[(samples - 1) * 5 / 100], l);
  }

  /** The bound is a mean of observed results, so it never leaves their range. */
  lemma BoundWithinReturns(results: seq<real>, draw: Draws, samples: nat, i: nat, lo: real, hi: real)
    requires results != [] && i < samples
    requires forall k :: 0 <= k < |results| ==> lo <= results[k] <= hi
    ensures lo <= SortReals(ResampleMeans(results, BlockLength(|results|), draw, samples))[i] <= hi
  {
    var l := BlockLength(|results|);
    var means := ResampleMeans(results, l, draw, samples);
    hide Position, Mean, BlockLength;
    forall r | 0 <= r < samples ensures lo <= means[r] <= hi {
      MeanWithin(Resampled(results, l, draw, r), lo, hi);
    }
    var x := SortReals(means)[i];
    assert x in SortReals(means);
  }

  lemma MeanWithin(xs: seq<real>, lo: real, hi: real)
    requires xs != [] && forall k :: 0 <= k < |xs| ==> lo <= xs[k] <= hi
    ensures lo <= Mean(xs) <= hi
  {
    SumBounds(xs, lo, hi);
    DivideBounds(Sum(xs), |xs|, lo, hi);
  }

  // ----- the metrics of one list of trades -----

  function Largest(xs: seq<real>): (m: real)
    requires xs != []
    ensures m in xs && forall i :: 0 <= i < |xs| ==> xs[i] <= m
  {
    if |xs| == 1 then xs[0]
    else
      var rest := Largest(xs[..|xs| - 1]);
      assert xs == xs[..|xs| - 1] + [xs[|xs| - 1]];
      Max(rest, xs[|xs| - 1])
  }

  predicate Summarises(m: Metrics, results: seq<real>) {
    && m.tradeCount == |results|
    && m.total == Sum(results)
    && m.expectancy == (if results == [] then 0.0 else Mean(results))
    && m.grossProfit == Gains(results)
    && m.grossLoss == Losses(results)
    && m.profitFactor == (if Losses(results) > 0.0 then Some(Gains(results) / Losses(results)) else None)
    && m.maxDrawdown == Drawdown(results)
    && m.bestContribution ==
      (if Sum(results) > 0.0 && results != [] then Some(Largest(results) / Sum(results)) else None)
  }

  /** The metrics of one list of trades; fewer than 100 resamples is an error as
      soon as there is something to resample. */
  method CalculateMetrics(trades: seq<Trade>, draw: Draws, samples: nat) returns (r: Option<Metrics>)
    ensures r.None? <==> trades != [] && 0 < samples < 100
    ensures r.Some? ==> Summarises(r.value, Returns(trades)) && r.value.blockLength == BlockLength(|trades|)
    ensures r.Some? && samples > 0 && trades != [] ==>
      && r.value.lowerBound == Some(
        SortReals(ResampleMeans(Returns(trades), BlockLength(|trades|), draw, samples))[(samples - 1) * 5 / 100])
      && r.value.samples == samples
    ensures r.Some? && (samples == 0 || trades == []) ==> r.value.lowerBound == None && r.value.samples == 0
  {
    var results := Returns(trades);
    var total, profit, loss := 0.0, 0.0, 0.0;
    var equity, peak, worst := 0.0, 0.0, 0.0;
    for i := 0 to |results|
      invariant total == equity == Sum(results[..i])
      invariant profit == Gains(results[..i]) && loss == Losses(results[..i])
      invariant peak == Peak(results[..i]) && worst == Drawdown(results[..i])
    {
      assert results[..i + 1][..i] == results[..i];
      var value := results[i];
      total := total + value;
      if value > 0.0 {
        profit := profit + value;
      }
      if value < 0.0 {
        loss := loss - value;
      }
      equity := equity + value;
      peak := Max(peak, equity);
      worst := Max(worst, peak - equity);
    }
    assert results[..|results|] == results;
    var expectancy := if results == [] then 0.0 else total / |results| as real;
    var factor := if loss > 0.0 then Some(profit / loss) else None;
    var best := None;
    if total > 0.0 && results != [] {
      best := Some(Largest(results) / total);
    }
    var lower := None;
    if samples > 0 {
      var bound := BootstrapLowerBound(results, draw, samples);
      match bound
      case TooFewSamples => return None;
      case NoReturns =>
      case Bound(value, _) => lower := Some(value);
    }
    return Some(Metrics(|results|, total, expectancy, profit, loss, factor, worst, best, lower,
                        BlockLength(|results|), if results == [] then 0 else samples));
  }

  // ----- chronological folds -----

  function InFold(trades: seq<Trade>, lo: int, hi: int): seq<Trade> {
    if trades == [] then []
    else
      var rest := InFold(trades[..|trades| - 1], lo, hi);
      var last := trades[|trades| - 1];
      if lo <= last.signalIndex < hi then rest + [last] else rest
  }

  datatype Fold = Fold(index: nat, start: nat, end: nat, metrics: Metrics)

  /** Four contiguous folds of nearly equal width cover [warmup, totalBars - 1). */
  predicate Tile(folds: seq<Fold>, warmup: nat, totalBars: nat) {
    && |folds| == 4
    && folds[0].start == warmup
    && folds[3].end == totalBars - 1
    && (forall i :: 0 < i < 4 ==> folds[i].start == folds[i - 1].end)
    && (forall i :: 0 <= i < 4 ==> folds[i].start < folds[i].end && folds[i].index == i)
    && (forall i, j :: 0 <= i < j < 4 ==>
          var a, b := folds[i].end - folds[i].start, folds[j].end - folds[j].start;
          b <= a <= b + 1)
  }

  method FoldMembers(trades: seq<Trade>, lo: nat, hi: nat) returns (members: seq<Trade>)
    ensures members == InFold(trades, lo, hi)
  {
    members := [];
    for k := 0 to |trades|
      invariant members == InFold(trades[..k], lo, hi)
    {
      assert trades[..k + 1][..k] == trades[..k];
      if lo <= trades[k].signalIndex < hi {
        members := members + [trades[k]];
      }
    }
    assert trades[..|trades|] == trades;
  }

  ghost predicate FoldSummary(trades: seq<Trade>, f: Fold) {
    Summarises(f.metrics, Returns(InFold(trades, f.start, f.end)))
  }

  function FoldWidth(i: nat, baseWidth: nat, remainder: nat): nat {
    baseWidth + if i < remainder then 1 else 0
  }

  function WidthBefore(i: nat, baseWidth: nat, remainder: nat): nat {
    if i == 0 then 0 else WidthBefore(i - 1, baseWidth, remainder) + FoldWidth(i - 1, baseWidth, remainder)
  }

  lemma WidthsAddUp(eligible: nat)
    ensures WidthBefore(4, eligible / 4, eligible % 4) == eligible
  {
    var w, r := eligible / 4, eligible % 4;
    assert WidthBefore(1, w, r) == FoldWidth(0, w, r);
    assert WidthBefore(2, w, r) == FoldWidth(0, w, r) + FoldWidth(1, w, r);
    assert WidthBefore(3, w, r) == FoldWidth(0, w, r) + FoldWidth(1, w, r) + FoldWidth(2, w, r);
  }

  /** The folds built so far tile [warmup, cursor). */
  predicate TiledTo(folds: seq<Fold>, warmup: nat, cursor: nat, baseWidth: nat, remainder: nat) {
    && cursor == warmup + WidthBefore(|folds|, baseWidth, remainder)
    && cursor == (if folds == [] then warmup else folds[|folds| - 1].end)
    && (folds != [] ==> folds[0].start == warmup)
    && (forall j :: 0 < j < |folds| ==> folds[j].start == folds[j - 1].end)
    && (forall j :: 0 <= j < |folds| ==>
          folds[j].index == j && folds[j].end == folds[j].start + FoldWidth(j, baseWidth, remainder))
  }

  lemma TileGrows(folds: seq<Fold>, warmup: nat, cursor: nat, baseWidth: nat, remainder: nat, f: Fold)
    requires TiledTo(folds, warmup, cursor, baseWidth, remainder)
    requires f.index == |folds| && f.start == cursor && f.end == cursor + FoldWidth(|folds|, baseWidth, remainder)
    ensures TiledTo(folds + [f], warmup, f.end, baseWidth, remainder)
  {
  }

  lemma TileComplete(folds: seq<Fold>, warmup: nat, cursor: nat, totalBars: nat)
    requires totalBars >= warmup + 5
    requires
      var eligible := totalBars - 1 - warmup;
      |folds| == 4 && TiledTo(folds, warmup, cursor, eligible / 4, eligible % 4)
    ensures Tile(folds, warmup, totalBars)
  {
    WidthsAddUp(totalBars - 1 - warmup);
    hide WidthBefore;
  }

  method ChronologicalFolds(trades: seq<Trade>, totalBars: nat, warmup: nat, draw: Draws)
    returns (folds: Option<seq<Fold>>)
    ensures folds.Some? <==> totalBars >= warmup + 5
    ensures folds.Some? ==> Tile(folds.value, warmup, totalBars)
    ensures folds.Some? ==> forall i :: 0 <= i < 4 ==> FoldSummary(trades, folds.value[i])
  {
    if totalBars <= warmup + 1 {
      return None;
    }
    var eligible := totalBars - 1 - warmup;
    if eligible < 4 {
      return None;
    }
    var baseWidth, remainder := eligible / 4, eligible % 4;
    var found: seq<Fold> := [];
    var cursor: nat := warmup;
    for i := 0 to 4
      invariant |found| == i
      invariant TiledTo(found, warmup, cursor, baseWidth, remainder)
      invariant forall j :: 0 <= j < i ==> FoldSummary(trades, found[j])
    {
      var width := baseWidth + if i < remainder then 1 else 0;
      var end := cursor + width;
      var members := FoldMembers(trades, cursor, end);
      var metrics := CalculateMetrics(members, draw, 0);
      var f := Fold(i, cursor, end, metrics.value);
      assert FoldSummary(trades, f);
      hide Summarises, InFold, TiledTo, FoldSummary, Tile, WidthBefore, Returns;
      TileGrows(found, warmup, cursor, baseWidth, remainder, f);
      found := found + [f];
      cursor := end;
    }
    hide Summarises, InFold, TiledTo, FoldSummary, Tile, WidthBefore, Returns;
    TileComplete(found, warmup, cursor, totalBars);
    return Some(found);
  }

  predicate InOrder(trades: seq<Trade>) {
    forall i, j :: 0 <= i < j < |trades| ==> trades[i].signalIndex < trades[j].signalIndex
  }

  lemma {:induction false} AdjacentFolds(trades: seq<Trade>, lo: int, mid: int, hi: int)
    requires InOrder(trades) && lo <= mid <= hi
    ensures InFold(trades, lo, mid) + InFold(trades, mid, hi) == InFold(trades, lo, hi)
  {
    if trades != [] {
      var init, last := trades[..|trades| - 1], trades[|trades| - 1];
      AdjacentFolds(init, lo, mid, hi);
      if lo <= last.signalIndex < mid {
        EmptyFold(init, mid, hi);
      }
    }
  }

  lemma {:induction false} EmptyFold(trades: seq<Trade>, lo: int, hi: int)
    requires forall i :: 0 <= i < |trades| ==> trades[i].signalIndex < lo
    ensures InFold(trades, lo, hi) == []
  {
    if trades != [] {
      EmptyFold(trades[..|trades| - 1], lo, hi);
    }
  }

  lemma {:induction false} WholeFold(trades: seq<Trade>, lo: int, hi: int)
    requires forall i :: 0 <= i < |trades| ==> lo <= trades[i].signalIndex < hi
    ensures InFold(trades, lo, hi) == trades
  {
    if trades != [] {
      WholeFold(trades[..|trades| - 1], lo, hi);
    }
  }

  /** The folds of a backtest run, put back together in order, are its trades:
      no trade is lost, counted twice or moved. */
  lemma FoldsPartitionRun(cs: seq<Candle>, costs: CostModel, folds: seq<Fold>)
    requires Tile(folds, WARMUP, |cs|)
    ensures
      var trades := RunFrom(cs, costs, WARMUP).trades;
      InFold(trades, folds[0].start, folds[0].end)
      + InFold(trades, folds[1].start, folds[1].end)
      + InFold(trades, folds[2].start, folds[2].end)
      + InFold(trades, folds[3].start, folds[3].end) == trades
  {
    var trades := RunFrom(cs, costs, WARMUP).trades;
    TradesAreSound(cs, costs, WARMUP);
    hide RunFrom, SoundTrade, Directional, ExpiredAt;
    assert forall i :: 0 <= i < |trades| ==> FromSignal(cs, costs, trades[i]);
    assert InOrder(trades);
    AdjacentFolds(trades, folds[0].start, folds[1].start, folds[2].start);
    AdjacentFolds(trades, folds[0].start, folds[2].start, folds[3].start);
    AdjacentFolds(trades, folds[0].start, folds[3].start, folds[3].end);
    WholeFold(trades, folds[0].start, folds[3].end);
  }
}
