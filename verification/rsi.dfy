/** The Wilder-smoothed relative strength index of `calculate_rsi` (Screener.py:17-37). */
module Rsi {
  import opened Series

  /** Bar-to-bar price changes: one fewer than there are prices. */
  function Changes(prices: seq<real>): (changes: seq<real>)
    requires |prices| >= 1
    ensures |changes| == |prices| - 1
  {
    seq(|prices| - 1, i requires 0 <= i < |prices| - 1 => prices[i + 1] - prices[i])
  }

  /** `max(c, 0)`: the upward part of a change. Together with `Loss` it
      splits the change: both are non-negative, at most one is non-zero, and
      their difference is the change itself. */
  function Gain(c: real): (g: real)
    ensures g >= 0.0
    ensures g == 0.0 || Loss(c) == 0.0
    ensures g - Loss(c) == c
  {
    if 0.0 > c then 0.0 else c
  }

  /** `max(-c, 0)`: the downward part of a change, as a non-negative amount. */
  function Loss(c: real): (l: real)
    ensures l >= 0.0
  {
    if 0.0 > -c then 0.0 else -c
  }

  /** The `gains` list: the upward part of each change. */
  function Gains(changes: seq<real>): (gains: seq<real>)
    ensures |gains| == |changes|
    ensures forall i :: 0 <= i < |gains| ==> gains[i] >= 0.0
  {
    seq(|changes|, i requires 0 <= i < |changes| => Gain(changes[i]))
  }

  /** The `losses` list: the downward part of each change, so that
      `gains[i] - losses[i]` gives back change i. */
  function Losses(changes: seq<real>): (losses: seq<real>)
    ensures |losses| == |changes|
    ensures forall i :: 0 <= i < |losses| ==> losses[i] >= 0.0
    ensures forall i :: 0 <= i < |losses| ==> Gains(changes)[i] - losses[i] == changes[i]
  {
    seq(|changes|, i requires 0 <= i < |changes| => Loss(changes[i]))
  }

  /** The running average gain and average loss. */
  datatype Averages = Averages(gain: real, loss: real)

  /** The seed: plain means of the first `period` gains and losses. */
  function SeedAverages(changes: seq<real>, period: nat): (a: Averages)
    requires 1 <= period <= |changes|
    ensures a.gain >= 0.0 && a.loss >= 0.0
  {
    var gains := Gains(changes)[..period];
    var losses := Losses(changes)[..period];
    MeanWithin(gains, 0.0, Max(gains));
    MeanWithin(losses, 0.0, Max(losses));
    Averages(Mean(gains), Mean(losses))
  }

  /** Wilder's update of one average with the next gain or loss:
      (avg * (period - 1) + part) / period. A non-negative average stays
      non-negative. */
  function Wilder(avg: real, part: real, period: nat): (next: real)
    requires period >= 1
    ensures avg >= 0.0 && part >= 0.0 ==> next >= 0.0
  {
    var total := avg * (period - 1) as real + part;
    assert avg >= 0.0 && part >= 0.0 ==> total >= 0.0 && total / period as real >= 0.0;
    total / period as real
  }

  /** Wilder's smoothing of both averages with one more change. */
  function Smooth(a: Averages, change: real, period: nat): (next: Averages)
    requires period >= 1
  {
    Averages(Wilder(a.gain, Gain(change), period), Wilder(a.loss, Loss(change), period))
  }

  /** The averages `calculate_rsi` holds when it reaches change index i: the seed
      for the first `period` indices, smoothed once per index after that. */
  function AveragesAt(changes: seq<real>, period: nat, i: nat): (a: Averages)
    requires 1 <= period <= |changes|
    requires i < |changes|
    ensures a.gain >= 0.0 && a.loss >= 0.0
    decreases i
  {
    if i < period then SeedAverages(changes, period)
    else
      Smooth(AveragesAt(changes, period, i - 1), changes[i], period)
  }

  /** RS = avgGain / avgLoss, with 0 standing in when avgLoss is 0. */
  function RelativeStrength(a: Averages): (rs: real)
    requires a.gain >= 0.0 && a.loss >= 0.0
    ensures rs >= 0.0
  {
    if a.loss != 0.0 then a.gain / a.loss else 0.0
  }

  /** The RSI of a pair of averages over the common denominator
      avgGain + avgLoss: 100 * avgGain / (avgGain + avgLoss) while both are
      non-zero, and 100 otherwise (the RS = 0 rule). */
  function RsiValue(a: Averages): (rsi: real)
    requires a.gain >= 0.0 && a.loss >= 0.0
  {
    if a.gain != 0.0 && a.loss != 0.0 then 100.0 * a.gain / (a.gain + a.loss) else 100.0
  }

  /** The value is `calculate_rsi`'s `100 - 100 / (1 + rs)`, with `rs == 0` read as 100. */
  lemma RsiValueFormula(a: Averages)
    requires a.gain >= 0.0 && a.loss >= 0.0
    ensures RsiValue(a) == (var rs := RelativeStrength(a);
                            if rs != 0.0 then 100.0 - 100.0 / (1.0 + rs) else 100.0)
  {
    if a.gain != 0.0 && a.loss != 0.0 {
      var rs := a.gain / a.loss;
      assert rs > 0.0;
      assert (1.0 + rs) * a.loss == a.loss + a.gain;
      assert 100.0 - 100.0 / (1.0 + rs) == 100.0 * rs / (1.0 + rs);
      assert 100.0 * rs / (1.0 + rs) == 100.0 * a.gain / (a.gain + a.loss);
    } else if a.loss != 0.0 {
      assert a.gain / a.loss == 0.0;
    }
  }

  /** The first n RSI values, appended one per change as `calculate_rsi`'s loop does. */
  function RsiUpTo(changes: seq<real>, period: nat, n: nat): (rsi: seq<real>)
    requires 1 <= period <= |changes|
    requires n <= |changes|
    ensures |rsi| == n
    decreases n
  {
    if n == 0 then []
    else RsiUpTo(changes, period, n - 1) + [RsiValue(AveragesAt(changes, period, n - 1))]
  }

  /** The RSI series: empty unless there are more prices than the period,
      otherwise one value per change. */
  function Rsi(prices: seq<real>, period: nat): (rsi: seq<real>)
    requires period >= 1
    ensures |rsi| == if |prices| <= period then 0 else |prices| - 1
  {
    if |prices| <= period then [] else RsiUpTo(Changes(prices), period, |prices| - 1)
  }

  lemma {:induction false} RsiUpToAt(changes: seq<real>, period: nat, n: nat, i: nat)
    requires 1 <= period <= |changes|
    requires i < n <= |changes|
    ensures RsiUpTo(changes, period, n)[i] == RsiValue(AveragesAt(changes, period, i))
    decreases n
  {
    if i < n - 1 {
      RsiUpToAt(changes, period, n - 1, i);
    }
  }

  /** Value i of the series is the RSI of the averages held at change i. */
  lemma RsiIndex(prices: seq<real>, period: nat)
    requires period >= 1
    ensures |prices| > period ==>
              forall i :: 0 <= i < |prices| - 1 ==>
                Rsi(prices, period)[i] == RsiValue(AveragesAt(Changes(prices), period, i))
  {
    if |prices| > period {
      forall i | 0 <= i < |prices| - 1
        ensures Rsi(prices, period)[i] == RsiValue(AveragesAt(Changes(prices), period, i))
      {
        RsiUpToAt(Changes(prices), period, |prices| - 1, i);
      }
    }
  }

  /** `calculate_rsi` as written: changes, gains, losses, the seed averages, and a
      loop that reuses the seed for the first `period` changes and smooths after. */
  method CalculateRsi(prices: seq<real>, period: nat) returns (rsi: seq<real>)
    requires period >= 1
    ensures rsi == [] <==> |prices| <= period
    ensures |prices| > period ==> |rsi| == |prices| - 1
    ensures forall i :: 0 <= i < |rsi| ==> 0.0 < rsi[i] <= 100.0
    ensures rsi == Rsi(prices, period)
  {
    if |prices| <= period {
      return [];
    }
    var changes := Changes(prices);
    var gains := Gains(changes);
    var losses := Losses(changes);
    var avgGain := Mean(gains[..period]);
    var avgLoss := Mean(losses[..period]);
    rsi := [];
    var i := 0;
    while i < |changes|
      invariant 0 <= i <= |changes|
      invariant Averages(avgGain, avgLoss) == AveragesAt(changes, period, if i == 0 then 0 else i - 1)
      invariant rsi == RsiUpTo(changes, period, i)
    {
      if i >= period {
        // Wilder's smoothing of both averages, Screener.py:32-33
        assert gains[i] == Gain(changes[i]) && losses[i] == Loss(changes[i]);
        avgGain := Wilder(avgGain, gains[i], period);
        avgLoss := Wilder(avgLoss, losses[i], period);
      }
      var current := AveragesAt(changes, period, i);
      assert Averages(avgGain, avgLoss) == current;
      var rs := if avgLoss != 0.0 then avgGain / avgLoss else 0.0;
      assert rs == RelativeStrength(current);
      var rsiVal := if rs != 0.0 then 100.0 - (100.0 / (1.0 + rs)) else 100.0;
      RsiValueFormula(current);
      rsi := rsi + [rsiVal];
      i := i + 1;
    }
    RsiRange(prices, period);
  }

  /** Every RSI value lies in (0, 100]; it is exactly 100 when either average is
      0 (the RS = 0 rule) and strictly between 0 and 100 when both are positive. */
  lemma RsiValueRange(a: Averages)
    requires a.gain >= 0.0 && a.loss >= 0.0
    ensures 0.0 < RsiValue(a) <= 100.0
    ensures RsiValue(a) == 100.0 <==> a.gain == 0.0 || a.loss == 0.0
    ensures a.gain > 0.0 && a.loss > 0.0 ==> 0.0 < RsiValue(a) < 100.0
  {
    if a.gain != 0.0 && a.loss != 0.0 {
      var total := a.gain + a.loss;
      assert 0.0 < 100.0 * a.gain < 100.0 * total;
      assert 100.0 * a.gain / total < (100.0 * total) / total;
    }
  }

  /** The whole series lies in (0, 100], with 100 exactly where an average is 0. */
  lemma RsiRange(prices: seq<real>, period: nat)
    requires period >= 1
    ensures forall i :: 0 <= i < |Rsi(prices, period)| ==> 0.0 < Rsi(prices, period)[i] <= 100.0
    ensures |prices| > period ==>
              forall i :: 0 <= i < |prices| - 1 ==>
                (Rsi(prices, period)[i] == 100.0 <==>
                   AveragesAt(Changes(prices), period, i).gain == 0.0 ||
                   AveragesAt(Changes(prices), period, i).loss == 0.0)
  {
    RsiIndex(prices, period);
    if |prices| > period {
      var changes := Changes(prices);
      forall i | 0 <= i < |prices| - 1
        ensures 0.0 < Rsi(prices, period)[i] <= 100.0
        ensures Rsi(prices, period)[i] == 100.0 <==>
                  AveragesAt(changes, period, i).gain == 0.0 ||
                  AveragesAt(changes, period, i).loss == 0.0
      {
        RsiValueRange(AveragesAt(changes, period, i));
      }
    }
  }

  /** The first `period` values all come from the seeded averages, so they agree. */
  lemma RsiSeedWindowEqual(prices: seq<real>, period: nat, i: nat, j: nat)
    requires period >= 1
    requires |prices| > period
    requires i < period && j < period
    ensures Rsi(prices, period)[i] == Rsi(prices, period)[j]
  {
    RsiIndex(prices, period);
  }

  /** When every loss is zero the average loss stays zero at every index. */
  lemma {:induction false} NoLossesKeepAverageLossZero(changes: seq<real>, period: nat, i: nat)
    requires 1 <= period <= |changes|
    requires i < |changes|
    requires forall j :: 0 <= j < |changes| ==> changes[j] >= 0.0
    ensures AveragesAt(changes, period, i).loss == 0.0
    decreases i
  {
    if i < period {
      var losses := Losses(changes)[..period];
      MeanWithin(losses, 0.0, 0.0);
    } else {
      NoLossesKeepAverageLossZero(changes, period, i - 1);
    }
  }

  /** When every gain is zero the average gain stays zero at every index. */
  lemma {:induction false} NoGainsKeepAverageGainZero(changes: seq<real>, period: nat, i: nat)
    requires 1 <= period <= |changes|
    requires i < |changes|
    requires forall j :: 0 <= j < |changes| ==> changes[j] <= 0.0
    ensures AveragesAt(changes, period, i).gain == 0.0
    decreases i
  {
    if i < period {
      var gains := Gains(changes)[..period];
      MeanWithin(gains, 0.0, 0.0);
    } else {
      NoGainsKeepAverageGainZero(changes, period, i - 1);
    }
  }

  /** A series that never falls (strictly rising or flat) reads 100 throughout. */
  lemma RsiOfNonDecreasing(prices: seq<real>, period: nat)
    requires period >= 1
    requires forall i :: 0 <= i < |prices| - 1 ==> prices[i] <= prices[i + 1]
    ensures forall i :: 0 <= i < |Rsi(prices, period)| ==> Rsi(prices, period)[i] == 100.0
  {
    RsiIndex(prices, period);
    if |prices| > period {
      var changes := Changes(prices);
      assert forall j :: 0 <= j < |changes| ==> changes[j] >= 0.0;
      forall i | 0 <= i < |changes| ensures Rsi(prices, period)[i] == 100.0 {
        NoLossesKeepAverageLossZero(changes, period, i);
        RsiValueRange(AveragesAt(changes, period, i));
      }
    }
  }

  /** A series that never rises (strictly falling or flat) also reads 100
      throughout, because the RS = 0 rule fires on a zero average gain. */
  lemma RsiOfNonIncreasing(prices: seq<real>, period: nat)
    requires period >= 1
    requires forall i :: 0 <= i < |prices| - 1 ==> prices[i] >= prices[i + 1]
    ensures forall i :: 0 <= i < |Rsi(prices, period)| ==> Rsi(prices, period)[i] == 100.0
  {
    RsiIndex(prices, period);
    if |prices| > period {
      var changes := Changes(prices);
      assert forall j :: 0 <= j < |changes| ==> changes[j] <= 0.0;
      forall i | 0 <= i < |changes| ensures Rsi(prices, period)[i] == 100.0 {
        NoGainsKeepAverageGainZero(changes, period, i);
        RsiValueRange(AveragesAt(changes, period, i));
      }
    }
  }
}
