/** The indicator engine of bot_saham.py: `calculate_rsi` and
    `calculate_technical`. Every column is a causal transform of the close
    (or volume) column: a first difference, a trailing rolling mean, or an
    exponentially weighted mean with `adjust=False`. Prices are `real`; a
    pandas NaN is `None`. */
module Indicators {
  import opened Wrappers

  /** One daily bar from the history provider (prices already adjusted). */
  datatype Bar = Bar(open: real, high: real, low: real, close: real, volume: real)

  /** One row of the frame `calculate_technical` returns: the original bar
      and the columns it adds. */
  datatype Row = Row(
    bar: Bar,
    rsi: Option<real>,     // RSI
    macd: Option<real>,    // MACD_12_26
    hist: Option<real>,    // MACDh_12_26_9
    sma200: Option<real>,  // SMA_200
    sma50: Option<real>,   // SMA_50
    volMa5: Option<real>   // VOL_MA5
  )

  /** Fewer rows than this and `calculate_technical` gives no frame. */
  const MinRows: nat := 50
  const RsiPeriod: nat := 14
  const FastSpan: nat := 12
  const SlowSpan: nat := 26
  const SignalSpan: nat := 9
  const LongWindow: nat := 200
  const MidWindow: nat := 50
  const VolumeWindow: nat := 5

  /** The smoothing factor pandas derives from `span`: 2 / (span + 1). */
  function SpanAlpha(span: nat): (alpha: real)
    requires span >= 1
    ensures 0.0 < alpha <= 1.0
  {
    2.0 / (span as real + 1.0)
  }

  /** Wilder-style smoothing factor used for RSI gains and losses: 1/14. */
  const RsiAlpha: real := 1.0 / 14.0

  function Closes(bars: seq<Bar>): (xs: seq<real>)
    ensures |xs| == |bars|
    ensures forall t :: 0 <= t < |bars| ==> xs[t] == bars[t].close
  {
    seq(|bars|, t requires 0 <= t < |bars| => bars[t].close)
  }

  function Volumes(bars: seq<Bar>): (xs: seq<real>)
    ensures |xs| == |bars|
    ensures forall t :: 0 <= t < |bars| ==> xs[t] == bars[t].volume
  {
    seq(|bars|, t requires 0 <= t < |bars| => bars[t].volume)
  }

  // ---------------------------------------------------------------------
  // diff and where
  // ---------------------------------------------------------------------

  /** `series.diff()`: undefined on the first row, the step from the
      previous row everywhere else. */
  function Diff(xs: seq<real>): (d: seq<Option<real>>)
    ensures |d| == |xs|
  {
    seq(|xs|, t requires 0 <= t < |xs| => if t == 0 then None else Some(xs[t] - xs[t - 1]))
  }

  /** The first difference is undefined on the first row, and on every later
      row it is the step that takes the previous close to the current one. */
  lemma DiffSteps(xs: seq<real>)
    ensures |xs| > 0 ==> Diff(xs)[0].None?
    ensures forall t :: 0 < t < |xs| ==> Diff(xs)[t].Some? && xs[t - 1] + Diff(xs)[t].value == xs[t]
  {
  }

  /** `delta.where(delta > 0, 0)`: a rise is kept, everything else becomes 0,
      including the leading NaN (its comparison is false). */
  function Gains(d: seq<Option<real>>): (g: seq<real>)
    ensures |g| == |d|
    ensures forall t :: 0 <= t < |d| ==> g[t] >= 0.0
  {
    seq(|d|, t requires 0 <= t < |d| => if d[t].Some? && d[t].value > 0.0 then d[t].value else 0.0)
  }

  /** A NaN difference gives gain 0; a rise is kept as it is; a fall or no
      move gives 0. */
  lemma GainsKeepRises(d: seq<Option<real>>, t: nat)
    requires t < |d|
    ensures d[t].None? ==> Gains(d)[t] == 0.0
    ensures d[t].Some? && d[t].value > 0.0 ==> Gains(d)[t] == d[t].value
    ensures d[t].Some? && d[t].value <= 0.0 ==> Gains(d)[t] == 0.0
  {
  }

  /** `-delta.where(delta < 0, 0)`: the size of a fall, 0 otherwise. */
  function Losses(d: seq<Option<real>>): (l: seq<real>)
    ensures |l| == |d|
    ensures forall t :: 0 <= t < |d| ==> l[t] >= 0.0
  {
    seq(|d|, t requires 0 <= t < |d| => if d[t].Some? && d[t].value < 0.0 then -d[t].value else 0.0)
  }

  /** A NaN difference gives loss 0; a fall is kept as its size; a rise or no
      move gives 0. */
  lemma LossesKeepFalls(d: seq<Option<real>>, t: nat)
    requires t < |d|
    ensures d[t].None? ==> Losses(d)[t] == 0.0
    ensures d[t].Some? && d[t].value < 0.0 ==> Losses(d)[t] == -d[t].value
    ensures d[t].Some? && d[t].value >= 0.0 ==> Losses(d)[t] == 0.0
  {
  }

  // ---------------------------------------------------------------------
  // Exponentially weighted mean, adjust=False
  // ---------------------------------------------------------------------

  /** `ewm(alpha, adjust=False).mean()` at row t: seeded with the first value,
      then e[t] = alpha * x[t] + (1 - alpha) * e[t-1]. A weighted mean of
      non-negative values is non-negative. */
  function EwmaAt(xs: seq<real>, alpha: real, t: nat): (e: real)
    requires 0.0 < alpha <= 1.0
    requires t < |xs|
    ensures (forall i :: 0 <= i <= t ==> xs[i] >= 0.0) ==> e >= 0.0
    decreases t
  {
    if t == 0 then xs[0]
    else
      var prev := EwmaAt(xs, alpha, t - 1);
      WeightedNonNeg(alpha, xs[t], prev);
      alpha * xs[t] + (1.0 - alpha) * prev
  }

  /** Both weights are non-negative, so non-negative inputs give a
      non-negative mix. */
  lemma WeightedNonNeg(alpha: real, x: real, y: real)
    requires 0.0 < alpha <= 1.0
    ensures x >= 0.0 && y >= 0.0 ==> alpha * x + (1.0 - alpha) * y >= 0.0
  {
    if x >= 0.0 && y >= 0.0 {
      ProductNonNeg(alpha, x);
      ProductNonNeg(1.0 - alpha, y);
    }
  }

  /** A mix with weights alpha and 1 - alpha stays between lo and hi. */
  lemma WeightedBetween(alpha: real, x: real, y: real, lo: real, hi: real)
    requires 0.0 < alpha <= 1.0
    requires lo <= x <= hi && lo <= y <= hi
    ensures lo <= alpha * x + (1.0 - alpha) * y <= hi
  {
    var mix := alpha * x + (1.0 - alpha) * y;
    ProductNonNeg(alpha, x - lo);
    ProductNonNeg(1.0 - alpha, y - lo);
    assert mix - lo == alpha * (x - lo) + (1.0 - alpha) * (y - lo);
    ProductNonNeg(alpha, hi - x);
    ProductNonNeg(1.0 - alpha, hi - y);
    assert hi - mix == alpha * (hi - x) + (1.0 - alpha) * (hi - y);
  }

  lemma ProductNonNeg(k: real, x: real)
    requires k >= 0.0 && x >= 0.0
    ensures k * x >= 0.0
  {
  }

  /** The whole smoothed column. */
  function Ewma(xs: seq<real>, alpha: real): (e: seq<real>)
    requires 0.0 < alpha <= 1.0
    ensures |e| == |xs|
    ensures forall t :: 0 <= t < |xs| ==> e[t] == EwmaAt(xs, alpha, t)
  {
    seq(|xs|, t requires 0 <= t < |xs| => EwmaAt(xs, alpha, t))
  }

  /** The smoothed value never leaves the range of the values seen so far. */
  lemma {:induction false} EwmaBounded(xs: seq<real>, alpha: real, t: nat, lo: real, hi: real)
    requires 0.0 < alpha <= 1.0
    requires t < |xs|
    requires forall i :: 0 <= i <= t ==> lo <= xs[i] <= hi
    ensures lo <= EwmaAt(xs, alpha, t) <= hi
    decreases t
  {
    if t > 0 {
      EwmaBounded(xs, alpha, t - 1, lo, hi);
      EwmaStepBetween(xs, alpha, t, lo, hi);
    }
  }

  /** One step of the recurrence stays within bounds that hold for the new
      value and the previous average. */
  lemma EwmaStepBetween(xs: seq<real>, alpha: real, t: nat, lo: real, hi: real)
    requires 0.0 < alpha <= 1.0
    requires 0 < t < |xs|
    requires lo <= xs[t] <= hi
    requires lo <= EwmaAt(xs, alpha, t - 1) <= hi
    ensures lo <= EwmaAt(xs, alpha, t) <= hi
  {
    WeightedBetween(alpha, xs[t], EwmaAt(xs, alpha, t - 1), lo, hi);
  }

  /** Smoothing a non-negative column with 0 < alpha < 1 gives exactly 0 at
      row t if and only if every value up to row t is 0. */
  lemma {:induction false} EwmaZeroIff(xs: seq<real>, alpha: real, t: nat)
    requires 0.0 < alpha < 1.0
    requires t < |xs|
    requires forall i :: 0 <= i < |xs| ==> xs[i] >= 0.0
    ensures EwmaAt(xs, alpha, t) == 0.0 <==> forall i :: 0 <= i <= t ==> xs[i] == 0.0
    decreases t
  {
    if t > 0 {
      EwmaZeroIff(xs, alpha, t - 1);
      var prev := EwmaAt(xs, alpha, t - 1);
      ProductNonNeg(alpha, xs[t]);
      ProductNonNeg(1.0 - alpha, prev);
      if EwmaAt(xs, alpha, t) == 0.0 {
        PositiveScaleZero(alpha, xs[t]);
        PositiveScaleZero(1.0 - alpha, prev);
      }
    }
  }

  lemma PositiveScaleZero(k: real, x: real)
    requires k > 0.0 && k * x == 0.0
    ensures x == 0.0
  {
  }

  // ---------------------------------------------------------------------
  // Rolling mean
  // ---------------------------------------------------------------------

  function Sum(xs: seq<real>): real
  {
    if xs == [] then 0.0 else Sum(xs[..|xs| - 1]) + xs[|xs| - 1]
  }

  /** A sum of n values that are all at least lo is at least n*lo. */
  lemma {:induction false} SumAtLeast(xs: seq<real>, lo: real)
    requires forall i :: 0 <= i < |xs| ==> lo <= xs[i]
    ensures |xs| as real * lo <= Sum(xs)
  {
    if xs != [] {
      SumAtLeast(xs[..|xs| - 1], lo);
    }
  }

  /** A sum of n values that are all at most hi is at most n*hi. */
  lemma {:induction false} SumAtMost(xs: seq<real>, hi: real)
    requires forall i :: 0 <= i < |xs| ==> xs[i] <= hi
    ensures Sum(xs) <= |xs| as real * hi
  {
    if xs != [] {
      SumAtMost(xs[..|xs| - 1], hi);
    }
  }

  /** `rolling(window=w).mean()`: undefined until the window is full, then the
      trailing mean of the last w values. */
  function RollingMean(xs: seq<real>, w: nat): (m: seq<Option<real>>)
    requires w >= 1
    ensures |m| == |xs|
  {
    seq(|xs|, t requires 0 <= t < |xs| =>
      if t + 1 < w then None else Some(Sum(xs[t + 1 - w..t + 1]) / (w as real)))
  }

  /** The rolling mean is undefined exactly during the warm-up rows, and once
      defined it lies between the smallest and largest value in its window. */
  lemma RollingMeanWindow(xs: seq<real>, w: nat, t: nat, lo: real, hi: real)
    requires w >= 1 && t < |xs|
    requires forall i :: t + 1 - w <= i <= t && 0 <= i ==> lo <= xs[i] <= hi
    ensures RollingMean(xs, w)[t].None? <==> t < w - 1
    ensures RollingMean(xs, w)[t].Some? ==> lo <= RollingMean(xs, w)[t].value <= hi
  {
    if t + 1 >= w {
      var win := xs[t + 1 - w..t + 1];
      assert forall i :: 0 <= i < |win| ==> win[i] == xs[t + 1 - w + i];
      SumAtLeast(win, lo);
      SumAtMost(win, hi);
      MeanBetween(Sum(win), w as real, lo, hi);
    }
  }

  lemma MeanBetween(s: real, n: real, lo: real, hi: real)
    requires n > 0.0 && n * lo <= s <= n * hi
    ensures lo <= s / n <= hi
  {
    assert s / n * n == s;
  }

  /** A rolling mean of a non-negative column is non-negative. */
  lemma RollingMeanNonNeg(xs: seq<real>, w: nat, t: nat)
    requires w >= 1 && t < |xs|
    requires forall i :: 0 <= i < |xs| ==> xs[i] >= 0.0
    ensures RollingMean(xs, w)[t].Some? ==> RollingMean(xs, w)[t].value >= 0.0
  {
    if t + 1 >= w {
      var win := xs[t + 1 - w..t + 1];
      assert forall i :: 0 <= i < |win| ==> win[i] == xs[t + 1 - w + i];
      SumAtLeast(win, 0.0);
      assert Sum(win) / (w as real) * (w as real) == Sum(win);
    }
  }

  // ---------------------------------------------------------------------
  // RSI
  // ---------------------------------------------------------------------

  /** `100 - 100 / (1 + gain / loss)` with pandas' float rules: a zero loss
      with a positive gain makes rs infinite and RSI 100; both zero make rs
      NaN. Otherwise RSI is 100 * gain / (gain + loss), hence within [0, 100]. */
  function RsiOf(gain: real, loss: real): (r: Option<real>)
    requires gain >= 0.0 && loss >= 0.0
    ensures r.None? <==> gain == 0.0 && loss == 0.0
    ensures r.Some? ==> 0.0 <= r.value <= 100.0 && r.value * (gain + loss) == 100.0 * gain
  {
    if loss == 0.0 then
      (if gain == 0.0 then None else Some(100.0))
    else
      var rs := gain / loss;
      assert (1.0 + rs) * loss == loss + gain;
      assert 100.0 / (1.0 + rs) * (loss + gain) == 100.0 * loss;
      Some(100.0 - 100.0 / (1.0 + rs))
  }

  /** The RSI column of `calculate_technical`: gains and losses smoothed with
      alpha = 1/14, adjust=False. */
  function Rsi(closes: seq<real>): (r: seq<Option<real>>)
    ensures |r| == |closes|
    ensures forall t :: 0 <= t < |r| && r[t].Some? ==> 0.0 <= r[t].value <= 100.0
  {
    var d := Diff(closes);
    var g := Ewma(Gains(d), RsiAlpha);
    var l := Ewma(Losses(d), RsiAlpha);
    seq(|closes|, t requires 0 <= t < |closes| => RsiOf(g[t], l[t]))
  }

  /** RSI is undefined at row t exactly when the close has not moved at all
      up to row t (so it is always undefined on the first row). */
  lemma RsiUndefinedIffFlat(closes: seq<real>, t: nat)
    requires t < |closes|
    ensures Rsi(closes)[t].None? <==> forall i :: 0 <= i <= t ==> closes[i] == closes[0]
  {
    var d := Diff(closes);
    var gs, ls := Gains(d), Losses(d);
    EwmaZeroIff(gs, RsiAlpha, t);
    EwmaZeroIff(ls, RsiAlpha, t);
    assert Rsi(closes)[t] == RsiOf(EwmaAt(gs, RsiAlpha, t), EwmaAt(ls, RsiAlpha, t));
    // gain and loss are both 0 on a row exactly when the close did not move
    assert forall i :: 0 < i < |closes| ==> (gs[i] == 0.0 && ls[i] == 0.0 <==> closes[i] == closes[i - 1]);
    if forall i :: 0 <= i <= t ==> closes[i] == closes[0] {
      forall i | 0 <= i <= t ensures gs[i] == 0.0 && ls[i] == 0.0 {
        if i > 0 { assert closes[i] == closes[0] == closes[i - 1]; }
      }
    } else {
      var j :| 0 <= j <= t && closes[j] != closes[0];
      FirstMove(closes, j);
    }
  }

  /** If some close up to row j differs from the first one, some row up to j
      moved from its predecessor. */
  lemma {:induction false} FirstMove(closes: seq<real>, j: nat)
    requires j < |closes| && closes[j] != closes[0]
    ensures exists i :: 0 < i <= j && closes[i] != closes[i - 1]
    decreases j
  {
    if closes[j] == closes[j - 1] {
      FirstMove(closes, j - 1);
    }
  }

  /** `calculate_rsi(series, period)`: the same RSI formula over trailing
      rolling means of the gains and losses instead of smoothed ones. It is
      undefined on the first period - 1 rows; once defined it lies in [0, 100]. */
  function RsiRolling(closes: seq<real>, period: nat): (r: seq<Option<real>>)
    requires period >= 1
    ensures |r| == |closes|
    ensures forall t :: 0 <= t < |r| && t + 1 < period ==> r[t].None?
    ensures forall t :: 0 <= t < |r| && r[t].Some? ==> 0.0 <= r[t].value <= 100.0
  {
    var d := Diff(closes);
    var gs, ls := Gains(d), Losses(d);
    var g := RollingMean(gs, period);
    var l := RollingMean(ls, period);
    seq(|closes|, t requires 0 <= t < |closes| =>
      if g[t].None? || l[t].None? then None
      else
        RollingMeanNonNeg(gs, period, t);
        RollingMeanNonNeg(ls, period, t);
        RsiOf(g[t].value, l[t].value))
  }

  // ---------------------------------------------------------------------
  // MACD
  // ---------------------------------------------------------------------

  /** MACD_12_26: the fast EMA minus the slow EMA of the close. */
  function MacdLine(closes: seq<real>): (m: seq<real>)
    ensures |m| == |closes|
  {
    var fast := Ewma(closes, SpanAlpha(FastSpan));
    var slow := Ewma(closes, SpanAlpha(SlowSpan));
    seq(|closes|, t requires 0 <= t < |closes| => fast[t] - slow[t])
  }

  /** MACDh_12_26_9: the MACD line minus its own 9-span EMA (the signal line). */
  function Histogram(closes: seq<real>): (h: seq<real>)
    ensures |h| == |closes|
  {
    var m := MacdLine(closes);
    var signal := Ewma(m, SpanAlpha(SignalSpan));
    seq(|closes|, t requires 0 <= t < |closes| => m[t] - signal[t])
  }

  /** With a flat close, both EMAs equal the close, so the MACD line and the
      histogram are 0 on every row. */
  lemma FlatMacd(closes: seq<real>, c: real)
    requires forall i :: 0 <= i < |closes| ==> closes[i] == c
    ensures forall t :: 0 <= t < |closes| ==> MacdLine(closes)[t] == 0.0 && Histogram(closes)[t] == 0.0
  {
    var m := MacdLine(closes);
    forall t | 0 <= t < |closes| ensures m[t] == 0.0 {
      EwmaBounded(closes, SpanAlpha(FastSpan), t, c, c);
      EwmaBounded(closes, SpanAlpha(SlowSpan), t, c, c);
    }
    forall t | 0 <= t < |closes| ensures Histogram(closes)[t] == 0.0 {
      EwmaBounded(m, SpanAlpha(SignalSpan), t, 0.0, 0.0);
    }
  }

  // ---------------------------------------------------------------------
  // calculate_technical
  // ---------------------------------------------------------------------

  /** `calculate_technical(df)`: no frame for fewer than 50 rows, otherwise a
      copy of the bars with RSI, MACD, histogram, SMA_200, SMA_50 and VOL_MA5
      added, row for row. MACD and the histogram are defined on every row;
      the moving averages are undefined exactly during their warm-up. */
  function CalculateTechnical(bars: seq<Bar>): (f: Option<seq<Row>>)
    ensures f.None? <==> |bars| < MinRows
    ensures f.Some? ==> |f.value| == |bars|
    ensures f.Some? ==> forall t :: 0 <= t < |bars| ==>
      && f.value[t].bar == bars[t]
      && f.value[t].macd.Some? && f.value[t].hist.Some?
      && (f.value[t].sma200.None? <==> t < LongWindow - 1)
      && (f.value[t].sma50.None? <==> t < MidWindow - 1)
      && (f.value[t].volMa5.None? <==> t < VolumeWindow - 1)
      && (f.value[t].rsi.Some? ==> 0.0 <= f.value[t].rsi.value <= 100.0)
  {
    if |bars| < MinRows then None
    else
      var closes := Closes(bars);
      var rsi := Rsi(closes);
      var macd := MacdLine(closes);
      var hist := Histogram(closes);
      var sma200 := RollingMean(closes, LongWindow);
      var sma50 := RollingMean(closes, MidWindow);
      var volMa5 := RollingMean(Volumes(bars), VolumeWindow);
      Some(seq(|bars|, t requires 0 <= t < |bars| =>
        Row(bars[t], rsi[t], Some(macd[t]), Some(hist[t]), sma200[t], sma50[t], volMa5[t])))
  }

  /** Row t of the frame holds the value of every indicator column at t. */
  lemma TechnicalRow(bars: seq<Bar>, t: nat)
    requires MinRows <= |bars| && t < |bars|
    ensures CalculateTechnical(bars).Some? && |CalculateTechnical(bars).value| == |bars|
    ensures CalculateTechnical(bars).value[t] ==
      Row(bars[t], Rsi(Closes(bars))[t], Some(MacdLine(Closes(bars))[t]), Some(Histogram(Closes(bars))[t]),
          RollingMean(Closes(bars), LongWindow)[t], RollingMean(Closes(bars), MidWindow)[t],
          RollingMean(Volumes(bars), VolumeWindow)[t])
  {
  }

  // ---------------------------------------------------------------------
  // Gains, losses and the first difference
  // ---------------------------------------------------------------------

  /** On every row after the first, the gain minus the loss is the step of
      the close, and at most one of them is non-zero. */
  lemma GainsLossesSplit(xs: seq<real>, t: nat)
    requires 0 < t < |xs|
    ensures Gains(Diff(xs))[t] - Losses(Diff(xs))[t] == xs[t] - xs[t - 1]
    ensures Gains(Diff(xs))[t] == 0.0 || Losses(Diff(xs))[t] == 0.0
  {
  }

  // ---------------------------------------------------------------------
  // RSI at its extremes
  // ---------------------------------------------------------------------

  /** Closes that never fall and have risen by row t give RSI 100 there. */
  lemma RsiRisingIs100(closes: seq<real>, t: nat)
    requires t < |closes|
    requires forall i :: 0 < i <= t ==> closes[i - 1] <= closes[i]
    requires closes[t] != closes[0]
    ensures Rsi(closes)[t] == Some(100.0)
  {
    var d := Diff(closes);
    var ls := Losses(d);
    RsiUndefinedIffFlat(closes, t);
    EwmaZeroIff(ls, RsiAlpha, t);
    assert forall i :: 0 <= i <= t ==> ls[i] == 0.0;
    assert Rsi(closes)[t] == RsiOf(EwmaAt(Gains(d), RsiAlpha, t), EwmaAt(ls, RsiAlpha, t));
  }

  /** Closes that never rise and have fallen by row t give RSI 0 there. */
  lemma RsiFallingIs0(closes: seq<real>, t: nat)
    requires t < |closes|
    requires forall i :: 0 < i <= t ==> closes[i - 1] >= closes[i]
    requires closes[t] != closes[0]
    ensures Rsi(closes)[t] == Some(0.0)
  {
    var d := Diff(closes);
    var gs := Gains(d);
    RsiUndefinedIffFlat(closes, t);
    EwmaZeroIff(gs, RsiAlpha, t);
    assert forall i :: 0 <= i <= t ==> gs[i] == 0.0;
    var l := EwmaAt(Losses(d), RsiAlpha, t);
    assert Rsi(closes)[t] == RsiOf(0.0, l);
    RsiOfNoGain(l);
  }

  /** With no average gain and some average loss, RSI is 0. */
  lemma RsiOfNoGain(loss: real)
    requires loss > 0.0
    ensures RsiOf(0.0, loss) == Some(0.0)
  {
    var r := RsiOf(0.0, loss);
    assert r.value * loss == 0.0;
  }

  // ---------------------------------------------------------------------
  // MACD range
  // ---------------------------------------------------------------------

  /** With every close so far in [lo, hi], both EMAs are too, so the MACD
      line is at most hi - lo away from 0. */
  lemma MacdBounded(closes: seq<real>, t: nat, lo: real, hi: real)
    requires t < |closes|
    requires forall i :: 0 <= i <= t ==> lo <= closes[i] <= hi
    ensures lo - hi <= MacdLine(closes)[t] <= hi - lo
  {
    EwmaBounded(closes, SpanAlpha(FastSpan), t, lo, hi);
    EwmaBounded(closes, SpanAlpha(SlowSpan), t, lo, hi);
  }

  /** The signal line smooths the MACD line, so the histogram is at most
      twice hi - lo away from 0. */
  lemma HistogramBounded(closes: seq<real>, t: nat, lo: real, hi: real)
    requires t < |closes|
    requires forall i :: 0 <= i <= t ==> lo <= closes[i] <= hi
    ensures 2.0 * (lo - hi) <= Histogram(closes)[t] <= 2.0 * (hi - lo)
  {
    var m := MacdLine(closes);
    forall i | 0 <= i <= t ensures lo - hi <= m[i] <= hi - lo {
      MacdBounded(closes, i, lo, hi);
    }
    EwmaBounded(m, SpanAlpha(SignalSpan), t, lo - hi, hi - lo);
  }

  // ---------------------------------------------------------------------
  // Causality: no column looks ahead
  // ---------------------------------------------------------------------

  /** Two columns that agree on rows 0..t. */
  predicate AgreeUpTo<T(==)>(xs: seq<T>, ys: seq<T>, t: nat)
  {
    t < |xs| && t < |ys| && forall i :: 0 <= i <= t ==> xs[i] == ys[i]
  }

  /** The smoothed value at row t depends only on rows 0..t. */
  lemma {:induction false} EwmaAgree(xs: seq<real>, ys: seq<real>, alpha: real, t: nat)
    requires 0.0 < alpha <= 1.0
    requires AgreeUpTo(xs, ys, t)
    ensures EwmaAt(xs, alpha, t) == EwmaAt(ys, alpha, t)
    decreases t
  {
    if t > 0 {
      EwmaAgree(xs, ys, alpha, t - 1);
    }
  }

  /** The rolling mean at row t depends only on rows 0..t. */
  lemma RollingMeanAgree(xs: seq<real>, ys: seq<real>, w: nat, t: nat)
    requires w >= 1
    requires AgreeUpTo(xs, ys, t)
    ensures RollingMean(xs, w)[t] == RollingMean(ys, w)[t]
  {
    if t + 1 >= w {
      assert xs[t + 1 - w..t + 1] == ys[t + 1 - w..t + 1];
    }
  }

  /** RSI at row t depends only on the closes of rows 0..t. */
  lemma RsiAgree(a: seq<real>, b: seq<real>, t: nat)
    requires AgreeUpTo(a, b, t)
    ensures Rsi(a)[t] == Rsi(b)[t]
  {
    var ga, gb := Gains(Diff(a)), Gains(Diff(b));
    var la, lb := Losses(Diff(a)), Losses(Diff(b));
    assert AgreeUpTo(ga, gb, t) && AgreeUpTo(la, lb, t);
    EwmaAgree(ga, gb, RsiAlpha, t);
    EwmaAgree(la, lb, RsiAlpha, t);
    assert Rsi(a)[t] == RsiOf(EwmaAt(ga, RsiAlpha, t), EwmaAt(la, RsiAlpha, t));
    assert Rsi(b)[t] == RsiOf(EwmaAt(gb, RsiAlpha, t), EwmaAt(lb, RsiAlpha, t));
  }

  /** The MACD line at row t depends only on the closes of rows 0..t. */
  lemma MacdAgree(a: seq<real>, b: seq<real>, t: nat)
    requires AgreeUpTo(a, b, t)
    ensures MacdLine(a)[t] == MacdLine(b)[t]
  {
    EwmaAgree(a, b, SpanAlpha(FastSpan), t);
    EwmaAgree(a, b, SpanAlpha(SlowSpan), t);
  }

  /** The histogram at row t depends only on the closes of rows 0..t. */
  lemma HistogramAgree(a: seq<real>, b: seq<real>, t: nat)
    requires AgreeUpTo(a, b, t)
    ensures Histogram(a)[t] == Histogram(b)[t]
  {
    var ma, mb := MacdLine(a), MacdLine(b);
    forall i | 0 <= i <= t ensures ma[i] == mb[i] {
      MacdAgree(a, b, i);
    }
    EwmaAgree(ma, mb, SpanAlpha(SignalSpan), t);
  }

  /** `calculate_technical` has no look-ahead: two histories that share their
      first t + 1 bars get the same row t. */
  lemma TechnicalCausal(a: seq<Bar>, b: seq<Bar>, t: nat)
    requires MinRows <= |a| && MinRows <= |b|
    requires t < |a| && t < |b| && a[..t + 1] == b[..t + 1]
    ensures CalculateTechnical(a).value[t] == CalculateTechnical(b).value[t]
  {
    assert forall i :: 0 <= i <= t ==> a[i] == a[..t + 1][i] == b[..t + 1][i] == b[i];
    var ca, cb := Closes(a), Closes(b);
    assert AgreeUpTo(ca, cb, t);
    assert AgreeUpTo(Volumes(a), Volumes(b), t);
    TechnicalRow(a, t);
    TechnicalRow(b, t);
    RsiAgree(ca, cb, t);
    MacdAgree(ca, cb, t);
    HistogramAgree(ca, cb, t);
    RollingMeanAgree(ca, cb, LongWindow, t);
    RollingMeanAgree(ca, cb, MidWindow, t);
    RollingMeanAgree(Volumes(a), Volumes(b), VolumeWindow, t);
  }
}
