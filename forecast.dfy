/**
  * Earthquake trend forecasting: the data-sufficiency gate, the simple moving average and the
  * flat-line fallback forecast, the sliding windows fed to the network, the denormalise-and-clamp
  * step, and the forecast rows stored in the trends table.
  */
module Forecast {
  import opened Text
  import opened Trends
  import opened Wrappers

  /** Fewest distinct weeks of earthquake data before forecasting runs. */
  const MinWeeks: nat := 4

  /** `check_sufficient_data`: enough distinct weeks of data. */
  predicate Sufficient(distinctWeeks: nat, minWeeks: nat) {
    !(distinctWeeks < minWeeks)
  }

  function Sum(s: seq<real>): real {
    if s == [] then 0.0 else Sum(s[..|s| - 1]) + s[|s| - 1]
  }

  function Mean(s: seq<real>): real
    requires |s| > 0
  {
    Sum(s) / |s| as real
  }

  /** A difference of prefix sums is the sum of the slice between them. */
  lemma {:induction false} PrefixSumDifference(s: seq<real>, i: nat, j: nat)
    requires i <= j <= |s|
    ensures Sum(s[..j]) - Sum(s[..i]) == Sum(s[i..j])
    decreases j - i
  {
    if i == j {
      assert s[i..j] == [];
    } else {
      PrefixSumDifference(s, i, j - 1);
      assert s[..j][..j - 1] == s[..j - 1];
      assert s[i..j][..j - 1 - i] == s[i..j - 1];
    }
  }

  lemma {:induction false} SumConstant(s: seq<real>, c: real)
    requires forall k :: 0 <= k < |s| ==> s[k] == c
    ensures Sum(s) == |s| as real * c
  {
    if s != [] {
      SumConstant(s[..|s| - 1], c);
    }
  }

  /** The mean of the window starting at `i`, as a difference of running sums. */
  function WindowMean(data: seq<real>, window: nat, i: nat): real
    requires 0 < window && i + window <= |data|
  {
    (Sum(data[..i + window]) - Sum(data[..i])) / window as real
  }

  lemma WindowMeanIsMean(data: seq<real>, window: nat, i: nat)
    requires 0 < window && i + window <= |data|
    ensures WindowMean(data, window, i) == Mean(data[i..i + window])
  {
    PrefixSumDifference(data, i, i + window);
    assert |data[i..i + window]| == window;
  }

  /**
    * `simple_moving_average`: the input itself when shorter than the window, else one value per
    * full window, computed as a difference of running sums.
    */
  function MovingAverage(data: seq<real>, window: nat): (r: seq<real>)
    requires window > 0
    ensures |data| < window ==> r == data
    ensures |data| >= window ==> |r| == |data| - window + 1
    ensures |data| >= window ==> forall i :: 0 <= i < |r| ==> r[i] == Mean(data[i..i + window])
  {
    if |data| < window then data
    else
      var r := seq(|data| - window + 1, i requires 0 <= i < |data| - window + 1 => WindowMean(data, window, i));
      forall i | 0 <= i < |r| ensures r[i] == Mean(data[i..i + window]) {
        WindowMeanIsMean(data, window, i);
      }
      r
  }

  /** A constant history has a constant moving average. */
  lemma ConstantMovingAverage(data: seq<real>, window: nat, c: real)
    requires window > 0
    requires forall k :: 0 <= k < |data| ==> data[k] == c
    ensures forall i :: 0 <= i < |MovingAverage(data, window)| ==> MovingAverage(data, window)[i] == c
  {
    var r := MovingAverage(data, window);
    if |data| >= window {
      forall i | 0 <= i < |r| ensures r[i] == c {
        var w := data[i..i + window];
        assert |w| == window;
        SumConstant(w, c);
        assert r[i] == Sum(w) / window as real;
        MeanOfConstant(Sum(w), window as real, c);
      }
    }
  }

  lemma MeanOfConstant(sum: real, n: real, c: real)
    requires n > 0.0 && sum == n * c
    ensures sum / n == c
  {
  }

  /** The value the fallback repeats: the last 3-point moving average, or the last point. */
  function FallbackValue(data: seq<real>): (v: real)
    requires |data| > 0
    ensures |data| >= 3 ==> v == Mean(data[|data| - 3..])
    ensures |data| < 3 ==> v == data[|data| - 1]
  {
    var ma := MovingAverage(data, 3);
    assert |data| >= 3 ==> data[|data| - 3..|data|] == data[|data| - 3..];
    // The `data[-1]` alternative is dead: the average of a non-empty series is never empty.
    if |ma| > 0 then ma[|ma| - 1] else assert false; 0.0
  }

  /** The flat-line forecast: `steps` copies of the fallback value. */
  function Fallback(data: seq<real>, steps: nat): (r: seq<real>)
    requires |data| > 0
    ensures |r| == steps
    ensures forall i :: 0 <= i < steps ==> r[i] == FallbackValue(data)
  {
    seq(steps, _ => FallbackValue(data))
  }

  /** A flat history forecasts itself. */
  lemma FallbackOfConstant(data: seq<real>, steps: nat, c: real)
    requires |data| > 0 && forall k :: 0 <= k < |data| ==> data[k] == c
    ensures Fallback(data, steps) == seq(steps, _ => c)
  {
    ConstantMovingAverage(data, 3, c);
  }

  lemma FallbackExample()
    ensures Fallback([10.0, 10.0, 10.0, 10.0], 3) == [10.0, 10.0, 10.0]
  {
    FallbackOfConstant([10.0, 10.0, 10.0, 10.0], 3, 10.0);
  }

  /** A zero standard deviation is replaced by 1. */
  function EffectiveStd(std: real): (s: real)
    requires std >= 0.0
    ensures s > 0.0
    ensures std > 0.0 ==> s == std
  {
    if std > 0.0 then std else 1.0
  }

  /** Each point as its distance from the mean in units of the deviation. */
  function Normalize(data: seq<real>, mean: real, std: real): (r: seq<real>)
    requires std > 0.0
    ensures |r| == |data|
    ensures forall i :: 0 <= i < |r| ==> r[i] * std == data[i] - mean
  {
    seq(|data|, i requires 0 <= i < |data| => (data[i] - mean) / std)
  }

  /** Network outputs back on the data's scale, clamped at 0. */
  function Denormalize(preds: seq<real>, mean: real, std: real): (r: seq<real>)
    ensures |r| == |preds|
    ensures forall i :: 0 <= i < |r| ==> r[i] >= 0.0
    ensures forall i :: 0 <= i < |r| ==> r[i] >= preds[i] * std + mean
    ensures forall i :: 0 <= i < |r| ==> r[i] == preds[i] * std + mean || r[i] == 0.0
  {
    seq(|preds|, i requires 0 <= i < |preds| =>
      var v := preds[i] * std + mean;
      if v >= 0.0 then v else 0.0)
  }

  /** Denormalising normalised non-negative data gives the data back. */
  lemma DenormalizeNormalize(data: seq<real>, mean: real, std: real)
    requires std > 0.0
    requires forall k :: 0 <= k < |data| ==> data[k] >= 0.0
    ensures Denormalize(Normalize(data, mean, std), mean, std) == data
  {
    var n := Normalize(data, mean, std);
    var r := Denormalize(n, mean, std);
    forall i | 0 <= i < |data| ensures r[i] == data[i] {
      assert n[i] * std == data[i] - mean;
    }
  }

  /** How many past points each window holds: `min(4, len - 1)`. */
  function SequenceLength(n: nat): nat {
    if 4 <= n - 1 then 4 else if n >= 1 then n - 1 else 0
  }

  /** The sliding windows: window i is `norm[i..i+len)` with target `norm[i+len]`. */
  method BuildWindows(norm: seq<real>, len: nat) returns (xs: seq<seq<real>>, ys: seq<real>)
    ensures |xs| == |ys| == (if |norm| > len then |norm| - len else 0)
    ensures forall i :: 0 <= i < |xs| ==> xs[i] == norm[i..i + len] && ys[i] == norm[i + len]
  {
    xs, ys := [], [];
    var count := if |norm| > len then |norm| - len else 0;
    var i := 0;
    while i < count
      invariant 0 <= i <= count
      invariant |xs| == |ys| == i
      invariant forall k :: 0 <= k < i ==> xs[k] == norm[k..k + len] && ys[k] == norm[k + len]
    {
      xs := xs + [norm[i..i + len]];
      ys := ys + [norm[i + len]];
      i := i + 1;
    }
  }

  /** Where a forecast came from: "Low (Simple MA)", "Low (Insufficient Data)", "Med (ML-based)". */
  datatype Source = SimpleMa | InsufficientData | MlBased

  /**
    * `predict_with_ml`. Without the network, or with fewer than 8 points, the flat fallback;
    * otherwise the network's normalised outputs `net` (one per step; training and inference are
    * not modelled) are denormalised and clamped. `std` is the data's standard deviation.
    */
  method PredictWithMl(data: seq<real>, steps: nat, hasNetwork: bool, std: real, net: seq<real>)
    returns (preds: seq<real>, source: Source)
    requires |data| > 0 && std >= 0.0 && |net| == steps
    ensures |preds| == steps
    ensures source != InsufficientData
    ensures source == SimpleMa <==> !hasNetwork || |data| < 8
    ensures source == SimpleMa ==> preds == Fallback(data, steps)
    ensures source == MlBased ==> preds == Denormalize(net, Mean(data), EffectiveStd(std))
    ensures source == MlBased ==> forall i :: 0 <= i < steps ==> preds[i] >= 0.0
    ensures preds == Predictions(data, steps, hasNetwork, std, net)
  {
    if !hasNetwork || |data| < 8 {
      return Fallback(data, steps), SimpleMa;
    }
    var mean := Mean(data);
    var sd := EffectiveStd(std);
    var norm := Normalize(data, mean, sd);
    var len := SequenceLength(|data|);
    var xs, ys := BuildWindows(norm, len);
    if |xs| < 4 {
      // The "Insufficient Data" fallback: never reached, since 8 or more points give at least 4 windows.
      assert false;
    }
    preds := Denormalize(net, mean, sd);
    source := MlBased;
  }

  /** What `predict_with_ml` returns, as a value: the fallback, or the denormalised network outputs. */
  function Predictions(data: seq<real>, steps: nat, hasNetwork: bool, std: real, net: seq<real>): seq<real>
    requires |data| > 0 && std >= 0.0
  {
    if !hasNetwork || |data| < 8 then Fallback(data, steps)
    else Denormalize(net, Mean(data), EffectiveStd(std))
  }

  lemma {:induction false} SumNonNegative(s: seq<real>)
    requires forall k :: 0 <= k < |s| ==> s[k] >= 0.0
    ensures Sum(s) >= 0.0
  {
    if s != [] {
      SumNonNegative(s[..|s| - 1]);
    }
  }

  /** Non-negative weekly counts never forecast a negative count, by either route. */
  lemma PredictionsNonNegative(data: seq<real>, steps: nat, hasNetwork: bool, std: real, net: seq<real>)
    requires |data| > 0 && std >= 0.0 && |net| == steps
    requires forall k :: 0 <= k < |data| ==> data[k] >= 0.0
    ensures var p := Predictions(data, steps, hasNetwork, std, net);
      |p| == steps && forall i :: 0 <= i < steps ==> p[i] >= 0.0
  {
    if |data| >= 3 {
      var last := data[|data| - 3..];
      SumNonNegative(last);
      assert Mean(last) >= 0.0;
    }
  }

  /** With at least 8 points the windows hold 4 points and there are at least 4 of them. */
  lemma EnoughWindows(n: nat)
    requires n >= 8
    ensures SequenceLength(n) == 4 && n - SequenceLength(n) >= 4
  {
  }

  // ---------------------------------------------------------------------------
  // Stored forecast rows

  /** Weekday of a day number, Monday = 0 as in Python's `weekday()`. */
  function Weekday(day: int): int {
    day % 7
  }

  /** The row for forecast step `n` (1-based) made on day `today`. */
  function ForecastRow(today: int, n: nat, value: real): (r: TrendRow)
    ensures Weekday(r.start) == 0
    ensures r.end == r.start + 6
    ensures r.start <= today + 7 * n <= r.end
    ensures r.period == "week" && r.comparison == None && r.value == value
    ensures r.metric == "predicted_earthquakes_week_" + DecimalString(n)
  {
    var predicted := today + 7 * n;
    TrendRow("predicted_earthquakes_week_" + DecimalString(n), "week",
             predicted - Weekday(predicted), predicted + (6 - Weekday(predicted)), value, None)
  }

  /** Forecasts for different steps are stored under different metric names, one week apart. */
  lemma ForecastRowsDistinct(today: int, m: nat, n: nat, a: real, b: real)
    requires m < n
    ensures ForecastRow(today, m, a).metric != ForecastRow(today, n, b).metric
    ensures ForecastRow(today, n, b).start - ForecastRow(today, m, a).start == 7 * (n - m)
  {
    var prefix := "predicted_earthquakes_week_";
    if ForecastRow(today, m, a).metric == ForecastRow(today, n, b).metric {
      assert (prefix + DecimalString(m))[|prefix|..] == DecimalString(m);
      assert (prefix + DecimalString(n))[|prefix|..] == DecimalString(n);
      DecimalStringInjective(m, n);
    }
  }

  /** The rows for `preds`, steps 1, 2, ... */
  function ForecastRows(today: int, preds: seq<real>): (r: seq<TrendRow>)
    ensures |r| == |preds|
    ensures forall i :: 0 <= i < |r| ==> r[i] == ForecastRow(today, i + 1, preds[i])
  {
    seq(|preds|, i requires 0 <= i < |preds| => ForecastRow(today, i + 1, preds[i]))
  }

  /**
    * `analyze_trends`: with too few weeks or no series, nothing is stored; otherwise the rows of
    * `predict_with_ml`'s forecasts, one per step, are appended after the earlier rows.
    */
  method AnalyzeTrends(ledger: TrendLedger, distinctWeeks: nat, totals: seq<real>, steps: nat,
                       hasNetwork: bool, std: real, net: seq<real>, today: int)
    requires std >= 0.0 && |net| == steps
    modifies ledger
    ensures !Sufficient(distinctWeeks, MinWeeks) || totals == [] ==> ledger.rows == old(ledger.rows)
    ensures Sufficient(distinctWeeks, MinWeeks) && totals != [] ==>
      |ledger.rows| == |old(ledger.rows)| + steps &&
      ledger.rows[..|old(ledger.rows)|] == old(ledger.rows) &&
      ledger.rows[|old(ledger.rows)|..] == ForecastRows(today, Predictions(totals, steps, hasNetwork, std, net))
  {
    if !Sufficient(distinctWeeks, MinWeeks) || totals == [] {
      return;
    }
    var preds, _ := PredictWithMl(totals, steps, hasNetwork, std, net);
    var i := 0;
    while i < steps
      invariant 0 <= i <= steps
      invariant ledger.rows == old(ledger.rows) + ForecastRows(today, preds[..i])
    {
      ledger.Insert(ForecastRow(today, i + 1, preds[i]));
      assert ForecastRows(today, preds[..i + 1]) == ForecastRows(today, preds[..i]) + [ForecastRow(today, i + 1, preds[i])];
      i := i + 1;
    }
    assert preds[..steps] == preds;
    assert ledger.rows[|old(ledger.rows)|..] == ForecastRows(today, preds);
  }
}
