/** Technical indicators over OHLCV bars (`calc_sma_impl`, `calc_ema_impl`,
    `calc_rsi_impl`, `calc_vwap_impl` in wasm/src/lib.rs). Each reference
    definition is written with direct window sums or recurrences over bar
    indices; each method follows the running variables of the source and is
    proved equal to its reference definition. */
module Indicators {
  import opened ChartTypes
  import opened Arith

  // ---------------------------------------------------------------------
  // Sums and windows
  // ---------------------------------------------------------------------

  /** Sum of closes over data[lo..hi], accumulated left to right. */
  function CloseSum(data: seq<PricePoint>, lo: nat, hi: nat): real
    requires lo <= hi <= |data|
    decreases hi
  {
    if lo == hi then 0.0 else CloseSum(data, lo, hi - 1) + data[hi - 1].close
  }

  /** All closes of data[lo..hi] lie in [low, high]. */
  predicate ClosesWithin(data: seq<PricePoint>, lo: nat, hi: nat, low: real, high: real)
    requires lo <= hi <= |data|
  {
    forall j :: lo <= j < hi ==> low <= data[j].close <= high
  }

  /** Peeling the first close off a window. */
  lemma {:induction false} CloseSumFirst(data: seq<PricePoint>, lo: nat, hi: nat)
    requires lo < hi <= |data|
    ensures CloseSum(data, lo, hi) == data[lo].close + CloseSum(data, lo + 1, hi)
    decreases hi
  {
    if lo + 1 < hi {
      CloseSumFirst(data, lo, hi - 1);
    }
  }

  /** The sliding update of the SMA window: moving the window one bar to the
      right adds the new close and drops the oldest one. */
  lemma WindowSlide(data: seq<PricePoint>, lo: nat, hi: nat)
    requires lo < hi < |data|
    ensures CloseSum(data, lo + 1, hi + 1) == CloseSum(data, lo, hi) + (data[hi].close - data[lo].close)
  {
    CloseSumFirst(data, lo, hi + 1);
  }

  /** A window of n closes within [low, high] sums to within [n*low, n*high]. */
  lemma {:induction false} CloseSumWithin(data: seq<PricePoint>, lo: nat, hi: nat, low: real, high: real)
    requires lo <= hi <= |data| && ClosesWithin(data, lo, hi, low, high)
    ensures (hi - lo) as real * low <= CloseSum(data, lo, hi) <= (hi - lo) as real * high
    decreases hi
  {
    if lo < hi {
      CloseSumWithin(data, lo, hi - 1, low, high);
      assert CloseSum(data, lo, hi) == CloseSum(data, lo, hi - 1) + data[hi - 1].close;
      assert low <= data[hi - 1].close <= high;
      ScaleStep(lo, hi, low);
      ScaleStep(lo, hi, high);
    }
  }

  lemma ScaleStep(lo: nat, hi: nat, x: real)
    requires lo < hi
    ensures (hi - lo) as real * x == (hi - 1 - lo) as real * x + x
  {}

  /** The mean of a non-empty window of closes within [low, high] is within [low, high]. */
  lemma MeanWithin(data: seq<PricePoint>, lo: nat, hi: nat, low: real, high: real)
    requires lo < hi <= |data| && ClosesWithin(data, lo, hi, low, high)
    ensures low <= CloseSum(data, lo, hi) / (hi - lo) as real <= high
  {
    CloseSumWithin(data, lo, hi, low, high);
    var n := (hi - lo) as real;
    assert CloseSum(data, lo, hi) / n * n == CloseSum(data, lo, hi);
  }

  // ---------------------------------------------------------------------
  // SMA
  // ---------------------------------------------------------------------

  /** The guard shared by SMA and EMA: a positive period no longer than the series. */
  predicate WindowFits(len: nat, period: nat) {
    0 < period <= len
  }

  /** Simple moving average: point k is stamped with the last bar of window
      k..k+period and holds the mean close of that window. */
  function Sma(data: seq<PricePoint>, period: nat): (r: seq<IndicatorPoint>)
    ensures |r| == if WindowFits(|data|, period) then |data| - period + 1 else 0
  {
    if !WindowFits(|data|, period) then []
    else
      seq(|data| - period + 1, k requires 0 <= k < |data| - period + 1 =>
        IndicatorPoint(data[period - 1 + k].ts, CloseSum(data, k, k + period) / period as real))
  }

  /** SMA is empty exactly when period == 0 or period > len. */
  lemma SmaEmptyIff(data: seq<PricePoint>, period: nat)
    ensures |Sma(data, period)| == 0 <==> (period == 0 || period > |data|)
  {}

  /** With period 1 the SMA reproduces every close at its own timestamp. */
  lemma SmaPeriodOne(data: seq<PricePoint>)
    ensures var r := Sma(data, 1);
            |r| == |data| && forall k :: 0 <= k < |r| ==> r[k].ts == data[k].ts && r[k].value == data[k].close
  {
    var r := Sma(data, 1);
    forall k | 0 <= k < |r| ensures r[k].value == data[k].close {
      assert CloseSum(data, k, k + 1) == data[k].close;
    }
  }

  /** Every SMA value of closes confined to [low, high] is within [low, high]. */
  lemma SmaWithin(data: seq<PricePoint>, period: nat, low: real, high: real)
    requires ClosesWithin(data, 0, |data|, low, high)
    ensures forall k :: 0 <= k < |Sma(data, period)| ==> low <= Sma(data, period)[k].value <= high
  {
    forall k | 0 <= k < |Sma(data, period)| ensures low <= Sma(data, period)[k].value <= high {
      SmaPointWithin(data, period, k, low, high);
    }
  }

  lemma SmaPointWithin(data: seq<PricePoint>, period: nat, k: nat, low: real, high: real)
    requires ClosesWithin(data, 0, |data|, low, high) && k < |Sma(data, period)|
    ensures low <= Sma(data, period)[k].value <= high
  {
    SmaPoint(data, period, k);
    assert ClosesWithin(data, k, k + period, low, high);
    MeanWithin(data, k, k + period, low, high);
  }

  lemma SmaPoint(data: seq<PricePoint>, period: nat, k: nat)
    requires k < |Sma(data, period)|
    ensures 0 < period && k + period <= |data|
    ensures Sma(data, period)[k].value == CloseSum(data, k, k + period) / period as real
  {}

  /** `calc_sma_impl`: an initial window sum, then the sliding update. */
  method CalcSma(data: seq<PricePoint>, period: nat) returns (result: seq<IndicatorPoint>)
    ensures result == Sma(data, period)
  {
    if period == 0 || period > |data| {
      return [];
    }
    var windowSum := 0.0;
    for j := 0 to period
      invariant windowSum == CloseSum(data, 0, j)
    {
      windowSum := windowSum + data[j].close;
    }
    result := [IndicatorPoint(data[period - 1].ts, windowSum / period as real)];
    for i := period to |data|
      invariant windowSum == CloseSum(data, i - period, i)
      invariant result == Sma(data, period)[..i - period + 1]
    {
      WindowSlide(data, i - period, i);
      windowSum := windowSum + (data[i].close - data[i - period].close);
      result := result + [IndicatorPoint(data[i].ts, windowSum / period as real)];
    }
  }

  // ---------------------------------------------------------------------
  // EMA
  // ---------------------------------------------------------------------

  /** The EMA multiplier 2/(period+1); it lies in (0, 1]. */
  function EmaK(period: nat): (k: real)
    requires period > 0
    ensures 0.0 < k <= 1.0
  {
    2.0 / (period + 1) as real
  }

  /** The EMA at bar i (i >= period-1): seeded with the mean of the first
      `period` closes, then close*k + previous*(1-k). */
  function EmaValue(data: seq<PricePoint>, period: nat, i: nat): real
    requires 0 < period && period - 1 <= i < |data|
    decreases i
  {
    if i == period - 1 then CloseSum(data, 0, period) / period as real
    else data[i].close * EmaK(period) + EmaValue(data, period, i - 1) * (1.0 - EmaK(period))
  }

  /** Exponential moving average, point k stamped with bar period-1+k. */
  function Ema(data: seq<PricePoint>, period: nat): (r: seq<IndicatorPoint>)
    ensures |r| == if WindowFits(|data|, period) then |data| - period + 1 else 0
  {
    if !WindowFits(|data|, period) then []
    else
      seq(|data| - period + 1, k requires 0 <= k < |data| - period + 1 =>
        IndicatorPoint(data[period - 1 + k].ts, EmaValue(data, period, period - 1 + k)))
  }

  /** EMA has the guard and output length of SMA, and its first point is the
      first SMA point. */
  lemma EmaStartsAtSma(data: seq<PricePoint>, period: nat)
    ensures |Ema(data, period)| == |Sma(data, period)|
    ensures |Ema(data, period)| > 0 ==> Ema(data, period)[0] == Sma(data, period)[0]
  {
    if WindowFits(|data|, period) {
      assert Ema(data, period)[0].value == EmaValue(data, period, period - 1);
      assert Sma(data, period)[0].value == CloseSum(data, 0, period) / period as real;
    }
  }

  /** Each later EMA point applies the multiplier 2/(period+1) to its bar's close
      and to the previous EMA point, and is stamped with its bar. */
  lemma EmaRecurrence(data: seq<PricePoint>, period: nat, k: nat)
    requires 0 < k < |Ema(data, period)|
    ensures Ema(data, period)[k].ts == data[period - 1 + k].ts
    ensures Ema(data, period)[k].value ==
            data[period - 1 + k].close * EmaK(period) + Ema(data, period)[k - 1].value * (1.0 - EmaK(period))
  {
    var i := period - 1 + k;
    var r := Ema(data, period);
    assert r[k] == IndicatorPoint(data[i].ts, EmaValue(data, period, i));
    assert r[k - 1] == IndicatorPoint(data[i - 1].ts, EmaValue(data, period, i - 1));
    EmaValueStep(data, period, i);
  }

  lemma EmaValueStep(data: seq<PricePoint>, period: nat, i: nat)
    requires 0 < period && period - 1 < i < |data|
    ensures EmaValue(data, period, i) == data[i].close * EmaK(period) + EmaValue(data, period, i - 1) * (1.0 - EmaK(period))
  {}

  /** The EMA never leaves the range of the closes it smooths. */
  lemma {:induction false} EmaValueWithin(data: seq<PricePoint>, period: nat, i: nat, low: real, high: real)
    requires 0 < period && period - 1 <= i < |data|
    requires ClosesWithin(data, 0, |data|, low, high)
    ensures low <= EmaValue(data, period, i) <= high
    decreases i
  {
    if i == period - 1 {
      MeanWithin(data, 0, period, low, high);
    } else {
      EmaValueWithin(data, period, i - 1, low, high);
      Blend(data[i].close, EmaValue(data, period, i - 1), EmaK(period), low, high);
    }
  }

  /** A convex combination of two values in [low, high] stays in [low, high]. */
  lemma Blend(x: real, y: real, k: real, low: real, high: real)
    requires low <= x <= high && low <= y <= high && 0.0 <= k <= 1.0
    ensures low <= x * k + y * (1.0 - k) <= high
  {
    MulNonNegative(x - low, k);
    MulNonNegative(y - low, 1.0 - k);
    MulNonNegative(high - x, k);
    MulNonNegative(high - y, 1.0 - k);
    assert x * k + y * (1.0 - k) - low == (x - low) * k + (y - low) * (1.0 - k);
    assert high - (x * k + y * (1.0 - k)) == (high - x) * k + (high - y) * (1.0 - k);
  }

  /** Every EMA point of closes confined to [low, high] is within [low, high]. */
  lemma EmaWithin(data: seq<PricePoint>, period: nat, low: real, high: real)
    requires ClosesWithin(data, 0, |data|, low, high)
    ensures forall k :: 0 <= k < |Ema(data, period)| ==> low <= Ema(data, period)[k].value <= high
  {
    forall k | 0 <= k < |Ema(data, period)| ensures low <= Ema(data, period)[k].value <= high {
      EmaValueWithin(data, period, period - 1 + k, low, high);
    }
  }

  /** `calc_ema_impl`: the SMA seed, then the running `prev_ema`. */
  method CalcEma(data: seq<PricePoint>, period: nat) returns (result: seq<IndicatorPoint>)
    ensures result == Ema(data, period)
  {
    if period == 0 || period > |data| {
      return [];
    }
    var k := 2.0 / (period + 1) as real;
    var sum := 0.0;
    for j := 0 to period
      invariant sum == CloseSum(data, 0, j)
    {
      sum := sum + data[j].close;
    }
    var sma := sum / period as real;
    result := [IndicatorPoint(data[period - 1].ts, sma)];
    var prevEma := sma;
    for i := period to |data|
      invariant prevEma == EmaValue(data, period, i - 1)
      invariant result == Ema(data, period)[..i - period + 1]
    {
      var ema := data[i].close * k + prevEma * (1.0 - k);
      result := result + [IndicatorPoint(data[i].ts, ema)];
      prevEma := ema;
    }
  }

  // ---------------------------------------------------------------------
  // RSI
  // ---------------------------------------------------------------------

  /** Close-to-close change into bar i. */
  function Change(data: seq<PricePoint>, i: nat): real
    requires 1 <= i < |data|
  {
    data[i].close - data[i - 1].close
  }

  /** The gain part of a change: the change when positive, else 0. */
  function Gain(change: real): (g: real)
    ensures g >= 0.0
  {
    if change > 0.0 then change else 0.0
  }

  /** The loss part of a change: 0 when positive, else its magnitude; an
      unchanged close falls on this side with magnitude 0. */
  function Loss(change: real): (l: real)
    ensures l >= 0.0
  {
    if change > 0.0 then 0.0 else Abs(change)
  }

  /** Sum of gains over the changes into bars 1..=n. */
  function GainSum(data: seq<PricePoint>, n: nat): real
    requires n < |data|
  {
    if n == 0 then 0.0 else GainSum(data, n - 1) + Gain(Change(data, n))
  }

  /** Sum of losses over the changes into bars 1..=n. */
  function LossSum(data: seq<PricePoint>, n: nat): real
    requires n < |data|
  {
    if n == 0 then 0.0 else LossSum(data, n - 1) + Loss(Change(data, n))
  }

  /** Wilder's smoothing step (avg*(period-1) + x)/period; it keeps a
      non-negative average non-negative, turns a positive input into a
      positive average and keeps a zero average at zero on zero input. */
  function Wilder(avg: real, x: real, period: nat): (r: real)
    requires period > 0
    ensures avg >= 0.0 && x >= 0.0 ==> r >= 0.0
    ensures avg >= 0.0 && x > 0.0 ==> r > 0.0
    ensures avg == 0.0 && x == 0.0 ==> r == 0.0
  {
    (avg * (period as real - 1.0) + x) / period as real
  }

  /** Wilder-smoothed average gain at bar i (i >= period). */
  function AvgGain(data: seq<PricePoint>, period: nat, i: nat): real
    requires 0 < period <= i < |data|
    decreases i
  {
    if i == period then GainSum(data, period) / period as real
    else Wilder(AvgGain(data, period, i - 1), Gain(Change(data, i)), period)
  }

  /** Wilder-smoothed average loss at bar i (i >= period). */
  function AvgLoss(data: seq<PricePoint>, period: nat, i: nat): real
    requires 0 < period <= i < |data|
    decreases i
  {
    if i == period then LossSum(data, period) / period as real
    else Wilder(AvgLoss(data, period, i - 1), Loss(Change(data, i)), period)
  }

  /** RSI from the two averages: a zero average loss gives 100 (tested
      first), then a zero average gain gives 0, else 100 - 100/(1 + g/l).
      For non-negative averages the value is in [0, 100], strictly inside
      when both are positive. */
  function RsiValue(avgGain: real, avgLoss: real): (v: real)
    requires avgGain >= 0.0 && avgLoss >= 0.0
    ensures 0.0 <= v <= 100.0
    ensures avgGain > 0.0 && avgLoss > 0.0 ==> 0.0 < v < 100.0
  {
    if avgLoss == 0.0 then 100.0
    else if avgGain == 0.0 then 0.0
    else
      var rs := avgGain / avgLoss;
      RsiBounds(avgGain, avgLoss);
      100.0 - 100.0 / (1.0 + rs)
  }

  lemma RsiBounds(g: real, l: real)
    requires l > 0.0 && g > 0.0
    ensures g / l > 0.0
    ensures 0.0 < 100.0 / (1.0 + g / l) < 100.0
  {
    var rs := g / l;
    assert rs * l == g;
    assert 100.0 / (1.0 + rs) * (1.0 + rs) == 100.0;
  }

  /** The RSI at bar i (i >= period), from the smoothed averages there; the
      averages are never negative, so it is always in [0, 100]. */
  function RsiAt(data: seq<PricePoint>, period: nat, i: nat): (v: real)
    requires 0 < period <= i < |data|
    ensures 0.0 <= v <= 100.0
  {
    AvgsNonNegative(data, period, i);
    RsiValue(AvgGain(data, period, i), AvgLoss(data, period, i))
  }

  /** The guard of `calc_rsi_impl`: a positive period and at least period+1 bars. */
  predicate RsiFits(len: nat, period: nat) {
    0 < period && period + 1 <= len
  }

  /** Relative Strength Index; point k is stamped with bar period+k. */
  function Rsi(data: seq<PricePoint>, period: nat): (r: seq<IndicatorPoint>)
    ensures |r| == if RsiFits(|data|, period) then |data| - period else 0
  {
    if !RsiFits(|data|, period) then []
    else
      seq(|data| - period, k requires 0 <= k < |data| - period =>
        IndicatorPoint(data[period + k].ts, RsiAt(data, period, period + k)))
  }

  /** RSI is empty exactly when period == 0 or len < period+1; otherwise its
      first point is stamped with bar `period`. */
  lemma RsiShape(data: seq<PricePoint>, period: nat)
    ensures |Rsi(data, period)| == 0 <==> (period == 0 || |data| < period + 1)
    ensures |Rsi(data, period)| > 0 ==> Rsi(data, period)[0].ts == data[period].ts
  {}

  lemma {:induction false} AvgsNonNegative(data: seq<PricePoint>, period: nat, i: nat)
    requires 0 < period <= i < |data|
    ensures AvgGain(data, period, i) >= 0.0 && AvgLoss(data, period, i) >= 0.0
    decreases i
  {
    if i == period {
      SumsNonNegative(data, period);
    } else {
      AvgsNonNegative(data, period, i - 1);
    }
  }

  lemma {:induction false} SumsNonNegative(data: seq<PricePoint>, n: nat)
    requires n < |data|
    ensures GainSum(data, n) >= 0.0 && LossSum(data, n) >= 0.0
  {
    if n > 0 {
      SumsNonNegative(data, n - 1);
    }
  }

  /** Every RSI value lies in [0, 100]. */
  lemma RsiInRange(data: seq<PricePoint>, period: nat)
    ensures forall k :: 0 <= k < |Rsi(data, period)| ==> 0.0 <= Rsi(data, period)[k].value <= 100.0
  {
    forall k | 0 <= k < |Rsi(data, period)| ensures 0.0 <= Rsi(data, period)[k].value <= 100.0 {
      assert Rsi(data, period)[k].value == RsiAt(data, period, period + k);
    }
  }

  /** Every close is strictly above the previous one. */
  predicate StrictlyRising(data: seq<PricePoint>) {
    forall i :: 1 <= i < |data| ==> data[i - 1].close < data[i].close
  }

  /** Every close is strictly below the previous one. */
  predicate StrictlyFalling(data: seq<PricePoint>) {
    forall i :: 1 <= i < |data| ==> data[i].close < data[i - 1].close
  }

  lemma {:induction false} RisingNoLoss(data: seq<PricePoint>, period: nat, i: nat)
    requires StrictlyRising(data) && 0 < period <= i < |data|
    ensures AvgLoss(data, period, i) == 0.0
    decreases i
  {
    if i == period {
      RisingNoLossSum(data, period);
    } else {
      RisingNoLoss(data, period, i - 1);
      assert Change(data, i) > 0.0;
    }
  }

  lemma {:induction false} RisingNoLossSum(data: seq<PricePoint>, n: nat)
    requires StrictlyRising(data) && n < |data|
    ensures LossSum(data, n) == 0.0
  {
    if n > 0 {
      RisingNoLossSum(data, n - 1);
      assert Change(data, n) > 0.0;
    }
  }

  /** Strictly rising closes give RSI 100 at every point. */
  lemma RsiAllGains(data: seq<PricePoint>, period: nat)
    requires StrictlyRising(data)
    ensures forall k :: 0 <= k < |Rsi(data, period)| ==> Rsi(data, period)[k].value == 100.0
  {
    forall k | 0 <= k < |Rsi(data, period)| ensures Rsi(data, period)[k].value == 100.0 {
      RisingPoint(data, period, k);
    }
  }

  lemma RisingPoint(data: seq<PricePoint>, period: nat, k: nat)
    requires StrictlyRising(data) && k < |Rsi(data, period)|
    ensures Rsi(data, period)[k].value == 100.0
  {
    RsiPoint(data, period, k);
    RisingAt(data, period, period + k);
  }

  lemma RisingAt(data: seq<PricePoint>, period: nat, i: nat)
    requires StrictlyRising(data) && 0 < period <= i < |data|
    ensures RsiAt(data, period, i) == 100.0
  {
    RisingNoLoss(data, period, i);
    RsiAtNoLoss(data, period, i);
  }

  lemma RsiPoint(data: seq<PricePoint>, period: nat, k: nat)
    requires k < |Rsi(data, period)|
    ensures 0 < period && period + k < |data|
    ensures Rsi(data, period)[k].value == RsiAt(data, period, period + k)
  {}

  lemma RsiAtNoLoss(data: seq<PricePoint>, period: nat, i: nat)
    requires 0 < period <= i < |data| && AvgLoss(data, period, i) == 0.0
    ensures RsiAt(data, period, i) == 100.0
  {}

  lemma RsiAtNoGain(data: seq<PricePoint>, period: nat, i: nat)
    requires 0 < period <= i < |data| && AvgGain(data, period, i) == 0.0 && AvgLoss(data, period, i) > 0.0
    ensures RsiAt(data, period, i) == 0.0
  {}

  lemma {:induction false} FallingSums(data: seq<PricePoint>, n: nat)
    requires StrictlyFalling(data) && n < |data|
    ensures GainSum(data, n) == 0.0
    ensures n > 0 ==> LossSum(data, n) > 0.0
    ensures LossSum(data, n) >= 0.0
  {
    if n > 0 {
      FallingSums(data, n - 1);
      assert Change(data, n) < 0.0;
    }
  }

  lemma {:induction false} FallingAvgs(data: seq<PricePoint>, period: nat, i: nat)
    requires StrictlyFalling(data) && 0 < period <= i < |data|
    ensures AvgGain(data, period, i) == 0.0 && AvgLoss(data, period, i) > 0.0
    decreases i
  {
    if i == period {
      FallingSums(data, period);
    } else {
      FallingAvgs(data, period, i - 1);
      var change := Change(data, i);
      assert change < 0.0;
      assert Gain(change) == 0.0 && Loss(change) > 0.0;
      assert AvgGain(data, period, i) == Wilder(AvgGain(data, period, i - 1), Gain(change), period);
      assert AvgLoss(data, period, i) == Wilder(AvgLoss(data, period, i - 1), Loss(change), period);
    }
  }

  lemma FallingAvgsAt(data: seq<PricePoint>, period: nat, i: nat)
    requires StrictlyFalling(data) && 0 < period <= i < |data|
    ensures RsiAt(data, period, i) == 0.0
  {
    FallingAvgs(data, period, i);
    RsiAtNoGain(data, period, i);
  }

  /** Strictly falling closes give RSI 0 at every point. */
  lemma RsiAllLosses(data: seq<PricePoint>, period: nat)
    requires StrictlyFalling(data)
    ensures forall k :: 0 <= k < |Rsi(data, period)| ==> Rsi(data, period)[k].value == 0.0
  {
    forall k | 0 <= k < |Rsi(data, period)| ensures Rsi(data, period)[k].value == 0.0 {
      FallingPoint(data, period, k);
    }
  }

  lemma FallingPoint(data: seq<PricePoint>, period: nat, k: nat)
    requires StrictlyFalling(data) && k < |Rsi(data, period)|
    ensures Rsi(data, period)[k].value == 0.0
  {
    RsiPoint(data, period, k);
    FallingAvgsAt(data, period, period + k);
  }

  /** `calc_rsi_impl`: the initial sums over the first `period` changes,
      then Wilder's smoothing with the running `avg_gain`/`avg_loss`. */
  method CalcRsi(data: seq<PricePoint>, period: nat) returns (result: seq<IndicatorPoint>)
    ensures result == Rsi(data, period)
  {
    if period == 0 || |data| < period + 1 {
      return [];
    }
    var avgGain, avgLoss := InitialAverages(data, period);
    var rsi := RsiOf(data, period, period, avgGain, avgLoss);
    result := [IndicatorPoint(data[period].ts, rsi)];
    for i := period + 1 to |data|
      invariant avgGain == AvgGain(data, period, i - 1)
      invariant avgLoss == AvgLoss(data, period, i - 1)
      invariant result == Rsi(data, period)[..i - period]
    {
      avgGain, avgLoss := WilderStep(data, period, i, avgGain, avgLoss);
      rsi := RsiOf(data, period, i, avgGain, avgLoss);
      RsiPrefixStep(data, period, i);
      result := result + [IndicatorPoint(data[i].ts, rsi)];
    }
  }

  /** Extending a prefix of the RSI series by the point at bar i. */
  lemma RsiPrefixStep(data: seq<PricePoint>, period: nat, i: nat)
    requires 0 < period < i < |data|
    ensures Rsi(data, period)[..i + 1 - period]
         == Rsi(data, period)[..i - period] + [IndicatorPoint(data[i].ts, RsiAt(data, period, i))]
  {
    var r := Rsi(data, period);
    assert r[i - period] == IndicatorPoint(data[i].ts, RsiAt(data, period, i));
    assert r[..i + 1 - period] == r[..i - period] + [r[i - period]];
  }

  /** The first loop of `calc_rsi_impl`: gains and losses over the changes
      into bars 1..=period, each divided by period. */
  method InitialAverages(data: seq<PricePoint>, period: nat) returns (avgGain: real, avgLoss: real)
    requires 0 < period < |data|
    ensures avgGain == AvgGain(data, period, period) && avgLoss == AvgLoss(data, period, period)
  {
    avgGain := 0.0;
    avgLoss := 0.0;
    for i := 1 to period + 1
      invariant avgGain == GainSum(data, i - 1)
      invariant avgLoss == LossSum(data, i - 1)
    {
      var change := data[i].close - data[i - 1].close;
      if change > 0.0 {
        avgGain := avgGain + change;
      } else {
        avgLoss := avgLoss + Abs(change);
      }
    }
    avgGain := avgGain / period as real;
    avgLoss := avgLoss / period as real;
  }

  /** One step of Wilder's smoothing at bar i. */
  method WilderStep(data: seq<PricePoint>, period: nat, i: nat, prevGain: real, prevLoss: real)
    returns (avgGain: real, avgLoss: real)
    requires 0 < period < i < |data|
    requires prevGain == AvgGain(data, period, i - 1) && prevLoss == AvgLoss(data, period, i - 1)
    ensures avgGain == AvgGain(data, period, i) && avgLoss == AvgLoss(data, period, i)
  {
    var change := data[i].close - data[i - 1].close;
    var gain, loss;
    if change > 0.0 {
      gain, loss := change, 0.0;
    } else {
      gain, loss := 0.0, Abs(change);
    }
    assert gain == Gain(Change(data, i)) && loss == Loss(Change(data, i));
    avgGain := Wilder(prevGain, gain, period);
    avgLoss := Wilder(prevLoss, loss, period);
  }

  /** The RSI branch of the source, in its order. */
  method RsiOf(data: seq<PricePoint>, period: nat, i: nat, avgGain: real, avgLoss: real) returns (rsi: real)
    requires 0 < period <= i < |data|
    requires avgGain == AvgGain(data, period, i) && avgLoss == AvgLoss(data, period, i)
    ensures rsi == RsiAt(data, period, i)
  {
    AvgsNonNegative(data, period, i);
    if avgLoss == 0.0 {
      rsi := 100.0;
    } else if avgGain == 0.0 {
      rsi := 0.0;
    } else {
      var rs := avgGain / avgLoss;
      RsiBounds(avgGain, avgLoss);
      rsi := 100.0 - (100.0 / (1.0 + rs));
    }
  }

  // ---------------------------------------------------------------------
  // VWAP
  // ---------------------------------------------------------------------

  /** Typical price (high + low + close) / 3. */
  function Typical(p: PricePoint): real {
    (p.high + p.low + p.close) / 3.0
  }

  /** Cumulative typical-price-times-volume over bars 0..n. */
  function CumTpVol(data: seq<PricePoint>, n: nat): real
    requires n <= |data|
  {
    if n == 0 then 0.0 else CumTpVol(data, n - 1) + Typical(data[n - 1]) * data[n - 1].volume
  }

  /** Cumulative volume over bars 0..n. */
  function CumVol(data: seq<PricePoint>, n: nat): real
    requires n <= |data|
  {
    if n == 0 then 0.0 else CumVol(data, n - 1) + data[n - 1].volume
  }

  /** VWAP at bar i over bars 0..=i; 0.0 while the cumulative volume is zero. */
  function VwapValue(data: seq<PricePoint>, i: nat): real
    requires i < |data|
  {
    var v := CumVol(data, i + 1);
    if v == 0.0 then 0.0 else CumTpVol(data, i + 1) / v
  }

  /** Cumulative VWAP, one point per bar, stamped with that bar. */
  function Vwap(data: seq<PricePoint>): (r: seq<IndicatorPoint>)
    ensures |r| == |data|
    ensures forall i :: 0 <= i < |r| ==> r[i].ts == data[i].ts
  {
    seq(|data|, i requires 0 <= i < |data| => IndicatorPoint(data[i].ts, VwapValue(data, i)))
  }

  /** A first bar with non-zero volume has VWAP equal to its typical price;
      in particular so does a single bar. */
  lemma VwapFirstBar(data: seq<PricePoint>)
    requires |data| > 0 && data[0].volume != 0.0
    ensures Vwap(data)[0].value == Typical(data[0])
  {
    assert CumVol(data, 1) == data[0].volume;
    assert CumTpVol(data, 1) == Typical(data[0]) * data[0].volume;
  }

  lemma {:induction false} CumPrefix(data: seq<PricePoint>, n: nat, m: nat)
    requires m <= n <= |data|
    ensures CumVol(data[..n], m) == CumVol(data, m)
    ensures CumTpVol(data[..n], m) == CumTpVol(data, m)
  {
    if m > 0 {
      CumPrefix(data, n, m - 1);
    }
  }

  /** Each VWAP value depends only on the bars so far: the VWAP of a prefix
      of the bars is the prefix of the VWAP. */
  lemma VwapPrefix(data: seq<PricePoint>, n: nat)
    requires n <= |data|
    ensures Vwap(data[..n]) == Vwap(data)[..n]
  {
    forall i | 0 <= i < n ensures Vwap(data[..n])[i] == Vwap(data)[i] {
      CumPrefix(data, n, i + 1);
    }
  }

  /** Bars that agree on prices and volume, whatever their timestamps, have
      the same running sums. */
  lemma {:induction false} CumSameBars(a: seq<PricePoint>, b: seq<PricePoint>, n: nat)
    requires n <= |a| == |b|
    requires forall j :: 0 <= j < |a| ==>
               a[j].high == b[j].high && a[j].low == b[j].low && a[j].close == b[j].close && a[j].volume == b[j].volume
    ensures CumVol(a, n) == CumVol(b, n) && CumTpVol(a, n) == CumTpVol(b, n)
  {
    if n > 0 {
      CumSameBars(a, b, n - 1);
      assert Typical(a[n - 1]) == Typical(b[n - 1]);
    }
  }

  /** The VWAP never resets on time gaps: the timestamps of the bars do not
      enter any VWAP value, so two series with the same prices and volumes
      have the same VWAP values bar by bar. */
  lemma VwapIgnoresTimestamps(a: seq<PricePoint>, b: seq<PricePoint>)
    requires |a| == |b|
    requires forall j :: 0 <= j < |a| ==>
               a[j].high == b[j].high && a[j].low == b[j].low && a[j].close == b[j].close && a[j].volume == b[j].volume
    ensures forall i :: 0 <= i < |a| ==> Vwap(a)[i].value == Vwap(b)[i].value
  {
    forall i | 0 <= i < |a| ensures Vwap(a)[i].value == Vwap(b)[i].value {
      CumSameBars(a, b, i + 1);
    }
  }

  /** While no volume has traded, the VWAP is 0.0. */
  lemma {:induction false} VwapZeroBeforeVolume(data: seq<PricePoint>, i: nat)
    requires i < |data| && forall j :: 0 <= j <= i ==> data[j].volume == 0.0
    ensures Vwap(data)[i].value == 0.0
  {
    NoVolume(data, i + 1);
  }

  lemma {:induction false} NoVolume(data: seq<PricePoint>, n: nat)
    requires n <= |data| && forall j :: 0 <= j < n ==> data[j].volume == 0.0
    ensures CumVol(data, n) == 0.0
  {
    if n > 0 {
      NoVolume(data, n - 1);
    }
  }

  lemma {:induction false} CumWithin(data: seq<PricePoint>, n: nat, low: real, high: real)
    requires n <= |data|
    requires forall j :: 0 <= j < n ==> data[j].volume >= 0.0 && low <= Typical(data[j]) <= high
    ensures CumVol(data, n) >= 0.0
    ensures low * CumVol(data, n) <= CumTpVol(data, n) <= high * CumVol(data, n)
  {
    if n > 0 {
      CumWithin(data, n - 1, low, high);
      var p := data[n - 1];
      ScaledStep(low, high, Typical(p), p.volume, CumVol(data, n - 1), CumTpVol(data, n - 1));
    }
  }

  /** One more bar keeps the running sums within the scaled bounds. */
  lemma ScaledStep(low: real, high: real, t: real, v: real, vol: real, tpVol: real)
    requires v >= 0.0 && low <= t <= high && low * vol <= tpVol <= high * vol
    ensures low * (vol + v) <= tpVol + t * v <= high * (vol + v)
  {
    assert low * v <= t * v <= high * v;
  }

  /** With non-negative volumes and some volume traded, the VWAP lies within
      the range of the typical prices so far. */
  lemma VwapWithin(data: seq<PricePoint>, i: nat, low: real, high: real)
    requires i < |data|
    requires forall j :: 0 <= j <= i ==> data[j].volume >= 0.0 && low <= Typical(data[j]) <= high
    requires CumVol(data, i + 1) != 0.0
    ensures low <= Vwap(data)[i].value <= high
  {
    CumWithin(data, i + 1, low, high);
    QuotientWithin(CumTpVol(data, i + 1), CumVol(data, i + 1), low, high);
  }

  lemma QuotientWithin(x: real, v: real, low: real, high: real)
    requires v > 0.0 && low * v <= x <= high * v
    ensures low <= x / v <= high
  {
    var q := x / v;
    assert q * v == x;
  }

  /** `calc_vwap_impl`: running `cum_tp_vol` and `cum_vol`. */
  method CalcVwap(data: seq<PricePoint>) returns (result: seq<IndicatorPoint>)
    ensures result == Vwap(data)
  {
    if |data| == 0 {
      return [];
    }
    result := [];
    var cumTpVol := 0.0;
    var cumVol := 0.0;
    for i := 0 to |data|
      invariant cumTpVol == CumTpVol(data, i)
      invariant cumVol == CumVol(data, i)
      invariant result == Vwap(data)[..i]
    {
      var p := data[i];
      var typicalPrice := (p.high + p.low + p.close) / 3.0;
      cumTpVol := cumTpVol + typicalPrice * p.volume;
      cumVol := cumVol + p.volume;
      var vwap := if cumVol == 0.0 then 0.0 else cumTpVol / cumVol;
      result := result + [IndicatorPoint(p.ts, vwap)];
    }
  }
}
