/** The technical indicators that `get_stock_data` computes from the closing
    prices: two moving averages, a 14-step RSI and MACD with its signal line. */
module Indicators {
  import opened Common

  const ShortWindow: nat := 5
  const LongWindow: nat := 20
  const RsiWindow: nat := 14
  const FastSpan: nat := 12
  const SlowSpan: nat := 26
  const SignalSpan: nat := 9

  /** The values exposed under "technicals" (before rounding). `rsi` is
      `None` where pandas produces NaN. */
  datatype Technicals = Technicals(ma5: real, ma20: real, rsi: Option<real>, macd: real, macdSignal: real)

  // ---------------------------------------------------------------------
  // Moving averages

  /** `close.rolling(w).mean().iloc[-1]` when there are at least `w` closes;
      with a shorter history, the last close itself. */
  function MovingAverage(closes: seq<real>, w: nat): (r: real)
    requires |closes| > 0 && w > 0
    ensures |closes| >= w ==> r * (w as real) == Sum(closes[|closes| - w..])
    ensures |closes| < w ==> r == closes[|closes| - 1]
  {
    if |closes| >= w then Mean(Suffix(closes, w)) else Last(closes)
  }

  /** With a short history the earlier closes do not matter: any prefix that
      still leaves the window incomplete gives the same average. */
  lemma ShortHistoryIgnoresPrefix(closes: seq<real>, w: nat, p: seq<real>)
    requires |closes| > 0 && w > 0 && |p| + |closes| < w
    ensures MovingAverage(p + closes, w) == MovingAverage(closes, w)
  {
    assert Last(p + closes) == Last(closes);
  }

  /** The average never leaves the range of the closes it is taken over:
      the last `min(w, n)` closes. */
  lemma MovingAverageBounds(closes: seq<real>, w: nat, lo: real, hi: real)
    requires |closes| > 0 && w > 0
    requires forall i :: |closes| - Min(w, |closes|) <= i < |closes| ==> lo <= closes[i] <= hi
    ensures lo <= MovingAverage(closes, w) <= hi
  {
    if |closes| >= w {
      var window := Suffix(closes, w);
      assert Within(window, lo, hi) by {
        forall i | 0 <= i < |window| ensures lo <= window[i] <= hi {
          assert window[i] == closes[|closes| - w + i];
        }
      }
      MeanBounds(window, lo, hi);
    } else {
      assert lo <= closes[|closes| - 1] <= hi;
    }
  }

  /** A one-point history gives both moving averages equal to that close. */
  lemma SinglePointAverages(c: real)
    ensures MovingAverage([c], ShortWindow) == c
    ensures MovingAverage([c], LongWindow) == c
  {
  }

  // ---------------------------------------------------------------------
  // RSI

  function Gain(d: real): real
  {
    if d > 0.0 then d else 0.0
  }

  function Loss(d: real): real
  {
    if d < 0.0 then -d else 0.0
  }

  /** `delta.where(delta > 0, 0)`: the leading difference is NaN, which fails
      the condition and so is replaced by 0 like every non-positive step. */
  function Gains(closes: seq<real>): (g: seq<real>)
    ensures |g| == |closes|
    ensures forall i :: 0 <= i < |g| ==> 0.0 <= g[i]
    ensures |closes| > 0 ==> g[0] == 0.0
  {
    seq(|closes|, i requires 0 <= i < |closes| => if i == 0 then 0.0 else Gain(closes[i] - closes[i - 1]))
  }

  /** `-delta.where(delta < 0, 0)`, the magnitudes of the falling steps. */
  function Losses(closes: seq<real>): (l: seq<real>)
    ensures |l| == |closes|
    ensures forall i :: 0 <= i < |l| ==> 0.0 <= l[i]
    ensures |closes| > 0 ==> l[0] == 0.0
  {
    seq(|closes|, i requires 0 <= i < |closes| => if i == 0 then 0.0 else Loss(closes[i] - closes[i - 1]))
  }

  /** Each step after the first splits into its rising part, the gain, and
      its falling part, the loss: their difference is the step, and at most
      one of them is non-zero. */
  lemma GainsLossesSplit(closes: seq<real>)
    ensures forall i :: 0 < i < |closes| ==>
      && Gains(closes)[i] - Losses(closes)[i] == closes[i] - closes[i - 1]
      && (Gains(closes)[i] == 0.0 || Losses(closes)[i] == 0.0)
  {
    forall i | 0 < i < |closes|
      ensures Gains(closes)[i] - Losses(closes)[i] == closes[i] - closes[i - 1]
      ensures Gains(closes)[i] == 0.0 || Losses(closes)[i] == 0.0
    {
      StepAt(closes, i);
    }
  }

  /** The gain and loss at a step after the first are those of its difference. */
  lemma StepAt(closes: seq<real>, j: nat)
    requires 0 < j < |closes|
    ensures Gains(closes)[j] == Gain(closes[j] - closes[j - 1])
    ensures Losses(closes)[j] == Loss(closes[j] - closes[j - 1])
  {
  }

  /** The last value of `gain.rolling(14).mean()`. */
  function AverageGain(closes: seq<real>): (a: real)
    requires |closes| >= RsiWindow
    ensures 0.0 <= a
  {
    NonNegativeSum(Suffix(Gains(closes), RsiWindow));
    Mean(Suffix(Gains(closes), RsiWindow))
  }

  /** The last value of `loss.rolling(14).mean()`. */
  function AverageLoss(closes: seq<real>): (a: real)
    requires |closes| >= RsiWindow
    ensures 0.0 <= a
  {
    NonNegativeSum(Suffix(Losses(closes), RsiWindow));
    Mean(Suffix(Losses(closes), RsiWindow))
  }

  /** The last RSI value. `rs = gain / loss` follows IEEE division: 0/0 is NaN,
      a positive gain over a zero loss is +inf (and 100/(1+inf) is 0). The
      guard `rs != 0` replaces only a zero ratio, i.e. a zero average gain
      against a positive loss, by 50; NaN passes the guard and stays NaN. */
  function Rsi(closes: seq<real>): (r: Option<real>)
    ensures r.None? <==> |closes| < RsiWindow || (AverageGain(closes) == 0.0 && AverageLoss(closes) == 0.0)
    ensures r.Some? ==> 0.0 < r.value <= 100.0
  {
    if |closes| < RsiWindow then None
    else
      var gain, loss := AverageGain(closes), AverageLoss(closes);
      if loss == 0.0 then
        (if gain == 0.0 then None else Some(100.0))
      else
        var rs := gain / loss;
        if rs == 0.0 then Some(50.0)
        else
          RatioIndexRange(rs);
          Some(100.0 - 100.0 / (1.0 + rs))
  }

  /** For a positive ratio the textbook formula lies strictly inside (0, 100). */
  lemma RatioIndexRange(rs: real)
    requires rs > 0.0
    ensures 0.0 < 100.0 - 100.0 / (1.0 + rs) < 100.0
  {
    assert 100.0 / (1.0 + rs) * (1.0 + rs) == 100.0;
  }

  /** A zero average gain against a positive average loss gives exactly 50,
      and two positive averages give the textbook value strictly inside (0, 100). */
  lemma RsiRatioRule(closes: seq<real>)
    requires |closes| >= RsiWindow && AverageLoss(closes) > 0.0
    ensures AverageGain(closes) == 0.0 ==> Rsi(closes) == Some(50.0)
    ensures AverageGain(closes) > 0.0 ==>
      var rs := AverageGain(closes) / AverageLoss(closes);
      Rsi(closes) == Some(100.0 - 100.0 / (1.0 + rs)) && 0.0 < Rsi(closes).value < 100.0
  {
  }

  /** A positive average gain over a zero average loss: `rs` is +inf and RSI is 100. */
  lemma RsiZeroLoss(closes: seq<real>)
    requires |closes| >= RsiWindow && AverageLoss(closes) == 0.0 && AverageGain(closes) > 0.0
    ensures Rsi(closes) == Some(100.0)
  {
  }

  ghost predicate StrictlyIncreasing(s: seq<real>)
  {
    forall i :: 0 <= i < |s| - 1 ==> s[i] < s[i + 1]
  }

  ghost predicate StrictlyDecreasing(s: seq<real>)
  {
    forall i :: 0 <= i < |s| - 1 ==> s[i] > s[i + 1]
  }

  /** A window all of whose entries are 0 has mean 0. */
  lemma ZeroWindowMean(s: seq<real>)
    requires |s| > 0 && Within(s, 0.0, 0.0)
    ensures Mean(s) == 0.0
  {
    SumBounds(s, 0.0, 0.0);
    TimesIsProduct(|s|, 0.0);
  }

  /** A window of non-negative entries whose last entry is positive has a positive mean. */
  lemma PositiveWindowMean(s: seq<real>)
    requires |s| > 0 && s[|s| - 1] > 0.0
    requires forall i :: 0 <= i < |s| ==> 0.0 <= s[i]
    ensures Mean(s) > 0.0
  {
    SumAtLeastElement(s, |s| - 1);
  }

  /** The leading position and every rising step carry no loss. */
  lemma NoLossAt(closes: seq<real>, j: nat)
    requires j < |closes| && (j > 0 ==> closes[j - 1] < closes[j])
    ensures Losses(closes)[j] == 0.0
  {
  }

  /** The leading position and every falling step carry no gain. */
  lemma NoGainAt(closes: seq<real>, j: nat)
    requires j < |closes| && (j > 0 ==> closes[j - 1] > closes[j])
    ensures Gains(closes)[j] == 0.0
  {
  }

  /** A rising step is a positive gain. */
  lemma GainAt(closes: seq<real>, j: nat)
    requires 0 < j < |closes| && closes[j - 1] < closes[j]
    ensures Gains(closes)[j] > 0.0
  {
  }

  /** A falling step is a positive loss. */
  lemma LossAt(closes: seq<real>, j: nat)
    requires 0 < j < |closes| && closes[j - 1] > closes[j]
    ensures Losses(closes)[j] > 0.0
  {
  }

  /** On a strictly rising series every step in the window is a gain. */
  lemma RisingWindow(closes: seq<real>)
    requires |closes| >= RsiWindow && StrictlyIncreasing(closes)
    ensures AverageLoss(closes) == 0.0 && AverageGain(closes) > 0.0
  {
    var n := |closes|;
    var ls := Losses(closes);
    var lw := Suffix(ls, RsiWindow);
    forall i | 0 <= i < |lw| ensures 0.0 <= lw[i] <= 0.0 {
      var j := n - RsiWindow + i;
      assert lw[i] == ls[j];
      if j > 0 {
        assert closes[j - 1] < closes[j];
      }
      NoLossAt(closes, j);
    }
    ZeroWindowMean(lw);
    RisingGain(closes);
  }

  lemma RisingGain(closes: seq<real>)
    requires |closes| >= RsiWindow && StrictlyIncreasing(closes)
    ensures AverageGain(closes) > 0.0
  {
    var n := |closes|;
    var gs := Gains(closes);
    var gw := Suffix(gs, RsiWindow);
    assert closes[n - 2] < closes[n - 1];
    GainAt(closes, n - 1);
    assert gw[RsiWindow - 1] == gs[n - 1];
    PositiveWindowMean(gw);
  }

  /** On a strictly falling series every step in the window is a loss. */
  lemma FallingWindow(closes: seq<real>)
    requires |closes| >= RsiWindow && StrictlyDecreasing(closes)
    ensures AverageGain(closes) == 0.0 && AverageLoss(closes) > 0.0
  {
    var n := |closes|;
    var gs := Gains(closes);
    var gw := Suffix(gs, RsiWindow);
    forall i | 0 <= i < |gw| ensures 0.0 <= gw[i] <= 0.0 {
      var j := n - RsiWindow + i;
      assert gw[i] == gs[j];
      if j > 0 {
        assert closes[j - 1] > closes[j];
      }
      NoGainAt(closes, j);
    }
    ZeroWindowMean(gw);
    FallingLoss(closes);
  }

  lemma FallingLoss(closes: seq<real>)
    requires |closes| >= RsiWindow && StrictlyDecreasing(closes)
    ensures AverageLoss(closes) > 0.0
  {
    var n := |closes|;
    var ls := Losses(closes);
    var lw := Suffix(ls, RsiWindow);
    assert closes[n - 2] > closes[n - 1];
    LossAt(closes, n - 1);
    assert lw[RsiWindow - 1] == ls[n - 1];
    PositiveWindowMean(lw);
  }

  /** A strictly rising series of at least 14 closes has no losses and a
      positive gain, so `rs` is +inf and RSI is 100. */
  lemma RsiOfRisingSeries(closes: seq<real>)
    requires |closes| >= RsiWindow && StrictlyIncreasing(closes)
    ensures Rsi(closes) == Some(100.0)
  {
    RisingWindow(closes);
    RsiZeroLoss(closes);
  }

  /** A strictly falling series of at least 14 closes has no gains and a
      positive loss, so `rs` is 0 and RSI is 50 (not below 50). */
  lemma RsiOfFallingSeries(closes: seq<real>)
    requires |closes| >= RsiWindow && StrictlyDecreasing(closes)
    ensures Rsi(closes) == Some(50.0)
  {
    FallingWindow(closes);
    RsiRatioRule(closes);
  }

  /** On a flat series no step is a gain or a loss. */
  lemma FlatWindow(closes: seq<real>)
    requires |closes| >= RsiWindow && forall i :: 0 <= i < |closes| ==> closes[i] == closes[0]
    ensures AverageGain(closes) == 0.0 && AverageLoss(closes) == 0.0
  {
    var n := |closes|;
    var gs, ls := Gains(closes), Losses(closes);
    var gw, lw := Suffix(gs, RsiWindow), Suffix(ls, RsiWindow);
    forall i | 0 <= i < RsiWindow ensures 0.0 <= gw[i] <= 0.0 && 0.0 <= lw[i] <= 0.0 {
      var j := n - RsiWindow + i;
      assert gw[i] == gs[j] && lw[i] == ls[j];
      if j > 0 {
        assert closes[j - 1] == closes[0] == closes[j];
        assert gs[j] == Gain(closes[j] - closes[j - 1]);
        assert ls[j] == Loss(closes[j] - closes[j - 1]);
      }
    }
    ZeroWindowMean(gw);
    ZeroWindowMean(lw);
  }

  /** A flat series of at least 14 closes gives 0/0: RSI is NaN, not 50. */
  lemma RsiOfFlatSeries(closes: seq<real>)
    requires |closes| >= RsiWindow && forall i :: 0 <= i < |closes| ==> closes[i] == closes[0]
    ensures Rsi(closes) == None
  {
    FlatWindow(closes);
  }

  // ---------------------------------------------------------------------
  // MACD

  /** The decay 1 - α of `ewm(span=s)`, with α = 2 / (s + 1). */
  function Decay(span: nat): (b: real)
    requires span >= 1
    ensures 0.0 <= b < 1.0
  {
    ((span - 1) as real) / ((span + 1) as real)
  }

  /** Σ b^i · xs[n-1-i]: the numerator of the adjust=True average, newest value weighted 1. */
  function WeightedSum(xs: seq<real>, b: real): real
  {
    if |xs| == 0 then 0.0 else Last(xs) + b * WeightedSum(xs[..|xs| - 1], b)
  }

  /** Σ b^i for i < n: the normalising denominator. */
  function TotalWeight(n: nat, b: real): real
    requires 0.0 <= b
  {
    if n == 0 then 0.0 else 1.0 + b * TotalWeight(n - 1, b)
  }

  /** The newest value alone has weight 1, so a non-empty history has total weight at least 1. */
  lemma {:induction false} TotalWeightAtLeastOne(n: nat, b: real)
    requires 0.0 <= b
    ensures n > 0 ==> 1.0 <= TotalWeight(n, b)
    ensures 0.0 <= TotalWeight(n, b)
  {
    if n > 0 {
      TotalWeightAtLeastOne(n - 1, b);
      MulMonotone(b, 0.0, TotalWeight(n - 1, b));
    }
  }

  /** The adjust=True average with decay `b`: the weighted sum over the total weight. */
  function WeightedAverage(xs: seq<real>, b: real): real
    requires |xs| > 0 && 0.0 <= b
  {
    TotalWeightAtLeastOne(|xs|, b);
    WeightedSum(xs, b) / TotalWeight(|xs|, b)
  }

  /** The last value of pandas `xs.ewm(span=span).mean()` (adjust=True): every
      value of the history weighted by a power of the decay, normalised. */
  function Ewm(xs: seq<real>, span: nat): (r: real)
    requires |xs| > 0 && span >= 1
    ensures Constant(xs) ==> r == xs[0]
  {
    ConstantAverage(xs, Decay(span));
    WeightedAverage(xs, Decay(span))
  }

  ghost predicate Constant(xs: seq<real>)
  {
    forall i :: 0 <= i < |xs| ==> xs[i] == xs[0]
  }

  /** A constant series averages to its value. */
  lemma ConstantAverage(xs: seq<real>, b: real)
    requires |xs| > 0 && 0.0 <= b
    ensures Constant(xs) ==> WeightedAverage(xs, b) == xs[0]
  {
    if Constant(xs) {
      WeightedAverageBounds(xs, b, xs[0], xs[0]);
    }
  }

  /** The weighted sum of `n` copies of `x`. */
  function ConstantWeightedSum(n: nat, b: real, x: real): real
  {
    if n == 0 then 0.0 else x + b * ConstantWeightedSum(n - 1, b, x)
  }

  /** A constant series of value `x` has weighted sum `x` times the total weight. */
  lemma {:induction false} ConstantWeightedSumIsScaled(n: nat, b: real, x: real)
    requires 0.0 <= b
    ensures ConstantWeightedSum(n, b, x) == x * TotalWeight(n, b)
  {
    if n > 0 {
      ConstantWeightedSumIsScaled(n - 1, b, x);
      Distribute(x, b, TotalWeight(n - 1, b));
    }
  }

  /** Values all at least `lo` give a weighted sum at least that of the constant series `lo`. */
  lemma {:induction false} WeightedSumLower(xs: seq<real>, b: real, lo: real)
    requires 0.0 <= b && forall i :: 0 <= i < |xs| ==> lo <= xs[i]
    ensures ConstantWeightedSum(|xs|, b, lo) <= WeightedSum(xs, b)
  {
    if |xs| > 0 {
      var p := xs[..|xs| - 1];
      PrefixAtLeast(xs, p, lo);
      WeightedSumLower(p, b, lo);
      StepLower(xs[|xs| - 1], WeightedSum(p, b), ConstantWeightedSum(|xs| - 1, b, lo), b, lo);
    }
  }

  /** Values all at most `hi` give a weighted sum at most that of the constant series `hi`. */
  lemma {:induction false} WeightedSumUpper(xs: seq<real>, b: real, hi: real)
    requires 0.0 <= b && forall i :: 0 <= i < |xs| ==> xs[i] <= hi
    ensures WeightedSum(xs, b) <= ConstantWeightedSum(|xs|, b, hi)
  {
    if |xs| > 0 {
      var p := xs[..|xs| - 1];
      PrefixAtMost(xs, p, hi);
      WeightedSumUpper(p, b, hi);
      StepUpper(xs[|xs| - 1], WeightedSum(p, b), ConstantWeightedSum(|xs| - 1, b, hi), b, hi);
    }
  }

  lemma PrefixAtLeast(xs: seq<real>, p: seq<real>, lo: real)
    requires |xs| > 0 && p == xs[..|xs| - 1] && forall i :: 0 <= i < |xs| ==> lo <= xs[i]
    ensures forall i :: 0 <= i < |p| ==> lo <= p[i]
    ensures lo <= xs[|xs| - 1]
  {
  }

  lemma PrefixAtMost(xs: seq<real>, p: seq<real>, hi: real)
    requires |xs| > 0 && p == xs[..|xs| - 1] && forall i :: 0 <= i < |xs| ==> xs[i] <= hi
    ensures forall i :: 0 <= i < |p| ==> p[i] <= hi
    ensures xs[|xs| - 1] <= hi
  {
  }

  lemma StepLower(x: real, w: real, c: real, b: real, lo: real)
    requires 0.0 <= b && lo <= x && c <= w
    ensures lo + b * c <= x + b * w
  {
    MulMonotone(b, c, w);
    AddMonotone(lo, x, b * c, b * w);
  }

  lemma StepUpper(x: real, w: real, c: real, b: real, hi: real)
    requires 0.0 <= b && x <= hi && w <= c
    ensures x + b * w <= hi + b * c
  {
    MulMonotone(b, w, c);
    AddMonotone(x, hi, b * w, b * c);
  }

  /** Values in [lo, hi] give a weighted sum between lo and hi times the total weight. */
  lemma WeightedSumSandwich(xs: seq<real>, b: real, lo: real, hi: real)
    requires 0.0 <= b && Within(xs, lo, hi)
    ensures lo * TotalWeight(|xs|, b) <= WeightedSum(xs, b) <= hi * TotalWeight(|xs|, b)
  {
    WeightedSumAbove(xs, b, lo);
    WeightedSumBelow(xs, b, hi);
  }

  lemma WeightedSumAbove(xs: seq<real>, b: real, lo: real)
    requires 0.0 <= b && forall i :: 0 <= i < |xs| ==> lo <= xs[i]
    ensures lo * TotalWeight(|xs|, b) <= WeightedSum(xs, b)
  {
    WeightedSumLower(xs, b, lo);
    ConstantWeightedSumIsScaled(|xs|, b, lo);
  }

  lemma WeightedSumBelow(xs: seq<real>, b: real, hi: real)
    requires 0.0 <= b && forall i :: 0 <= i < |xs| ==> xs[i] <= hi
    ensures WeightedSum(xs, b) <= hi * TotalWeight(|xs|, b)
  {
    WeightedSumUpper(xs, b, hi);
    ConstantWeightedSumIsScaled(|xs|, b, hi);
  }

  /** The adjust=True average is a weighted average: it stays within the
      range of its inputs. */
  lemma WeightedAverageBounds(xs: seq<real>, b: real, lo: real, hi: real)
    requires |xs| > 0 && 0.0 <= b && Within(xs, lo, hi)
    ensures lo <= WeightedAverage(xs, b) <= hi
  {
    WeightedSumSandwich(xs, b, lo, hi);
    AverageOfSandwich(xs, b, lo, hi);
  }

  lemma AverageOfSandwich(xs: seq<real>, b: real, lo: real, hi: real)
    requires |xs| > 0 && 0.0 <= b
    requires lo * TotalWeight(|xs|, b) <= WeightedSum(xs, b) <= hi * TotalWeight(|xs|, b)
    ensures lo <= WeightedAverage(xs, b) <= hi
  {
    TotalWeightAtLeastOne(|xs|, b);
    DivideBounds(WeightedSum(xs, b), TotalWeight(|xs|, b), lo, hi);
  }

  /** The exponential average stays within the range of its inputs. */
  lemma EwmBounds(xs: seq<real>, span: nat, lo: real, hi: real)
    requires |xs| > 0 && span >= 1 && Within(xs, lo, hi)
    ensures lo <= Ewm(xs, span) <= hi
  {
    WeightedAverageBounds(xs, Decay(span), lo, hi);
  }

  /** On two points the adjust=True average is (x1 + b·x0) / (1 + b), which
      differs from the seeded recursion α·x1 + (1-α)·x0. */
  lemma EwmTwoPoints(x0: real, x1: real, span: nat)
    requires span >= 1
    ensures Ewm([x0, x1], span) == (x1 + Decay(span) * x0) / (1.0 + Decay(span))
  {
    var b := Decay(span);
    assert [x0, x1][..1] == [x0];
    assert [x0][..0] == [];
    assert WeightedSum([x0], b) == x0 + b * 0.0;
    assert WeightedSum([x0, x1], b) == x1 + b * x0;
    assert TotalWeight(1, b) == 1.0 + b * TotalWeight(0, b);
    assert TotalWeight(2, b) == 1.0 + b * TotalWeight(1, b);
  }

  /** `ema12 - ema26` at every point of the history. */
  function MacdLine(closes: seq<real>): (m: seq<real>)
    ensures |m| == |closes|
  {
    seq(|closes|, t requires 0 <= t < |closes| => Ewm(closes[..t + 1], FastSpan) - Ewm(closes[..t + 1], SlowSpan))
  }

  /** The last MACD value; 0 on a flat series. */
  function Macd(closes: seq<real>): (r: real)
    requires |closes| > 0
    ensures Constant(closes) ==> r == 0.0
  {
    FlatMacdLine(closes);
    Last(MacdLine(closes))
  }

  /** `macd.ewm(span=9).mean()` at the last point; 0 on a flat series. */
  function MacdSignal(closes: seq<real>): (r: real)
    requires |closes| > 0
    ensures Constant(closes) ==> r == 0.0
  {
    FlatMacdLine(closes);
    Ewm(MacdLine(closes), SignalSpan)
  }

  /** On a flat series both exponential averages equal the close, so the MACD line is all 0. */
  lemma FlatMacdLine(closes: seq<real>)
    ensures Constant(closes) ==> forall t :: 0 <= t < |closes| ==> MacdLine(closes)[t] == 0.0
  {
    if Constant(closes) {
      forall t | 0 <= t < |closes| ensures MacdLine(closes)[t] == 0.0 {
        var p := closes[..t + 1];
        assert Constant(p) by {
          forall i | 0 <= i < |p| ensures p[i] == p[0] {
            assert p[i] == closes[i] && p[0] == closes[0];
          }
        }
        assert p[0] == closes[0];
      }
    }
  }

  /** Closes within [lo, hi] keep MACD and its signal within [lo - hi, hi - lo];
      so a flat series has MACD and signal exactly 0. */
  lemma MacdBounds(closes: seq<real>, lo: real, hi: real)
    requires |closes| > 0 && Within(closes, lo, hi)
    ensures lo - hi <= Macd(closes) <= hi - lo
    ensures lo - hi <= MacdSignal(closes) <= hi - lo
  {
    var m := MacdLine(closes);
    forall t | 0 <= t < |m| ensures lo - hi <= m[t] <= hi - lo {
      var p := closes[..t + 1];
      assert Within(p, lo, hi) by {
        forall i | 0 <= i < |p| ensures lo <= p[i] <= hi {
          assert p[i] == closes[i];
        }
      }
      EwmBounds(p, FastSpan, lo, hi);
      EwmBounds(p, SlowSpan, lo, hi);
    }
    EwmBounds(m, SignalSpan, lo - hi, hi - lo);
  }

  /** All five indicators; `hist` is non-empty on this path. The MACD
      histogram (`macd - signal`) is computed by the source but not exposed. */
  function ComputeTechnicals(closes: seq<real>): (t: Technicals)
    requires |closes| > 0
    ensures |closes| < LongWindow ==> t.ma20 == Last(closes)
    ensures |closes| < ShortWindow ==> t.ma5 == t.ma20
    ensures t.rsi.Some? ==> 0.0 < t.rsi.value <= 100.0
  {
    Technicals(MovingAverage(closes, ShortWindow), MovingAverage(closes, LongWindow),
               Rsi(closes), Macd(closes), MacdSignal(closes))
  }
}
