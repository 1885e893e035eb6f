/** The exponential moving average of `calculate_ema` (Screener.py:6-15). */
module Ema {
  import opened Series

  /** The smoothing constant k = 2 / (period + 1). */
  function Smoothing(period: nat): (k: real)
    requires period >= 1
    ensures 0.0 < k <= 1.0
  {
    2.0 / (period + 1) as real
  }

  /** One EMA step, the new price weighted by k and the previous average by
      1 - k, written over the common denominator period + 1. */
  function Advance(period: nat, price: real, previous: real): (next: real)
    requires period >= 1
  {
    (2.0 * price + (period - 1) as real * previous) / (period + 1) as real
  }

  /** The step is `calculate_ema`'s `price * k + previous * (1 - k)`. */
  lemma AdvanceWeighs(period: nat, price: real, previous: real)
    requires period >= 1
    ensures Advance(period, price, previous)
              == price * Smoothing(period) + previous * (1.0 - Smoothing(period))
  {
    var d := (period + 1) as real;
    var k := Smoothing(period);
    assert k * d == 2.0;
    assert (1.0 - k) * d == (period - 1) as real;
    assert (price * k + previous * (1.0 - k)) * d == 2.0 * price + (period - 1) as real * previous;
  }

  /** The EMA at index i >= period - 1: seeded at period - 1 with the mean of
      the first `period` prices, then advanced one step per later price. */
  function EmaAt(prices: seq<real>, period: nat, i: nat): (ema: real)
    requires 1 <= period
    requires period - 1 <= i < |prices|
    decreases i
  {
    if i == period - 1 then Mean(prices[..period])
    else Advance(period, prices[i], EmaAt(prices, period, i - 1))
  }

  /** The first n entries of the EMA series, built one step at a time: the
      sentinels and the seed, then one appended value per later price. */
  function EmaUpTo(prices: seq<real>, period: nat, n: nat): (ema: seq<real>)
    requires 1 <= period <= n <= |prices|
    ensures |ema| == n
    decreases n
  {
    if n == period then seq(period - 1, _ => 0.0) + [Mean(prices[..period])]
    else
      var previous := EmaUpTo(prices, period, n - 1);
      previous + [Advance(period, prices[n - 1], previous[n - 2])]
  }

  /** The whole EMA series: empty when there are fewer prices than the period,
      otherwise aligned with `prices`, holding the sentinel 0 before the seed. */
  function Ema(prices: seq<real>, period: nat): (ema: seq<real>)
    requires period >= 1
    ensures |ema| == if |prices| < period then 0 else |prices|
  {
    if |prices| < period then [] else EmaUpTo(prices, period, |prices|)
  }

  /** Entry i of the built-up series is the sentinel before the seed and the
      per-index recurrence from the seed on. */
  lemma {:induction false} EmaUpToAt(prices: seq<real>, period: nat, n: nat, i: nat)
    requires 1 <= period <= n <= |prices|
    requires i < n
    ensures EmaUpTo(prices, period, n)[i] == if i < period - 1 then 0.0 else EmaAt(prices, period, i)
    decreases n
  {
    if n > period {
      if i < n - 1 {
        EmaUpToAt(prices, period, n - 1, i);
      } else {
        EmaUpToAt(prices, period, n - 1, n - 2);
      }
    }
  }

  /** Every entry of the series, by index. */
  lemma EmaIndex(prices: seq<real>, period: nat)
    requires period >= 1
    ensures forall i :: 0 <= i < |Ema(prices, period)| ==>
              Ema(prices, period)[i] == if i < period - 1 then 0.0 else EmaAt(prices, period, i)
  {
    forall i | 0 <= i < |Ema(prices, period)|
      ensures Ema(prices, period)[i] == if i < period - 1 then 0.0 else EmaAt(prices, period, i)
    {
      EmaUpToAt(prices, period, |prices|, i);
    }
  }

  /** True when `ema` has the shape `calculate_ema` produces for `prices`:
      sentinels, then the seed mean, then one step per later price
      (`AdvanceWeighs` shows each step is `prices[i] * k + ema[i - 1] * (1 - k)`). */
  predicate EmaShaped(prices: seq<real>, period: nat, ema: seq<real>)
    requires period >= 1
  {
    if |prices| < period then ema == []
    else
      && |ema| == |prices|
      && (forall i :: 0 <= i < period - 1 ==> ema[i] == 0.0)
      && ema[period - 1] == Mean(prices[..period])
      && (forall i :: period <= i < |prices| ==>
            ema[i] == Advance(period, prices[i], ema[i - 1]))
  }

  /** `calculate_ema` as written: a zero-filled list, the seed, then the loop. */
  method CalculateEma(prices: seq<real>, period: nat) returns (ema: seq<real>)
    requires period >= 1
    ensures ema == [] <==> |prices| < period
    ensures EmaShaped(prices, period, ema)
    ensures ema == Ema(prices, period)
  {
    if |prices| < period {
      return [];
    }
    var k := Smoothing(period);
    ghost var reference := Ema(prices, period);
    EmaIndex(prices, period);
    ema := seq(|prices|, _ => 0.0);
    ema := ema[period - 1 := Mean(prices[..period])];
    var i := period;
    while i < |prices|
      invariant period <= i <= |prices|
      invariant |ema| == |prices|
      invariant forall j :: 0 <= j < i ==> ema[j] == reference[j]
    {
      assert reference[i] == Advance(period, prices[i], reference[i - 1]);
      AdvanceWeighs(period, prices[i], ema[i - 1]);
      ema := ema[i := prices[i] * k + ema[i - 1] * (1.0 - k)];
      i := i + 1;
    }
    assert ema == reference;
    EmaShape(prices, period, ema);
  }

  /** The reference series has the EMA shape, and it is the only series that does. */
  lemma {:induction false} EmaShape(prices: seq<real>, period: nat, other: seq<real>)
    requires period >= 1
    ensures EmaShaped(prices, period, Ema(prices, period))
    ensures EmaShaped(prices, period, other) ==> other == Ema(prices, period)
  {
    EmaIndex(prices, period);
    if EmaShaped(prices, period, other) && |prices| >= period {
      var ema := Ema(prices, period);
      forall i | period - 1 <= i < |prices|
        ensures other[i] == ema[i]
      {
        EmaShapedAt(prices, period, other, i);
      }
    }
  }

  /** Unrolling the shape from the seed gives the reference value at each index. */
  lemma {:induction false} EmaShapedAt(prices: seq<real>, period: nat, ema: seq<real>, i: nat)
    requires period >= 1
    requires EmaShaped(prices, period, ema)
    requires period - 1 <= i < |prices|
    ensures ema[i] == EmaAt(prices, period, i)
    decreases i
  {
    if i > period - 1 {
      EmaShapedAt(prices, period, ema, i - 1);
    }
  }

  /** A step is a convex combination, so it stays within any bounds that hold
      both the new price and the previous average. */
  lemma AdvanceWithin(period: nat, price: real, previous: real, lo: real, hi: real)
    requires period >= 1
    requires lo <= price <= hi
    requires lo <= previous <= hi
    ensures lo <= Advance(period, price, previous) <= hi
  {
    var d := (period + 1) as real;
    var w := (period - 1) as real;
    var total := 2.0 * price + w * previous;
    assert (previous - lo) * w >= 0.0 && (hi - previous) * w >= 0.0;
    assert d * lo <= total <= d * hi;
    assert total / d >= (d * lo) / d;
    assert total / d <= (d * hi) / d;
  }

  /** Every EMA value from the seed on lies within any bounds of the prices seen so far. */
  lemma {:induction false} EmaAtWithin(prices: seq<real>, period: nat, i: nat, lo: real, hi: real)
    requires 1 <= period
    requires period - 1 <= i < |prices|
    requires Within(prices[..i + 1], lo, hi)
    ensures lo <= EmaAt(prices, period, i) <= hi
    decreases i
  {
    if i == period - 1 {
      assert Within(prices[..period], lo, hi) by {
        forall j | 0 <= j < period ensures lo <= prices[..period][j] <= hi {
          assert prices[..period][j] == prices[..i + 1][j];
        }
      }
      MeanWithin(prices[..period], lo, hi);
    } else {
      assert Within(prices[..i], lo, hi) by {
        forall j | 0 <= j < i ensures lo <= prices[..i][j] <= hi {
          assert prices[..i][j] == prices[..i + 1][j];
        }
      }
      EmaAtWithin(prices, period, i - 1, lo, hi);
      assert prices[i] == prices[..i + 1][i];
      AdvanceWithin(period, prices[i], EmaAt(prices, period, i - 1), lo, hi);
    }
  }

  /** Each EMA value from index period - 1 on lies between the minimum and the
      maximum of the prices up to and including that index. */
  lemma EmaBetweenMinAndMax(prices: seq<real>, period: nat, i: nat)
    requires period >= 1
    requires period - 1 <= i < |prices|
    ensures |Ema(prices, period)| == |prices|
    ensures Min(prices[..i + 1]) <= Ema(prices, period)[i] <= Max(prices[..i + 1])
  {
    var window := prices[..i + 1];
    EmaIndex(prices, period);
    EmaAtWithin(prices, period, i, Min(window), Max(window));
  }

  /** A constant series is a fixed point: every valid EMA value equals the constant. */
  lemma EmaOfConstant(prices: seq<real>, period: nat, v: real)
    requires period >= 1
    requires forall j :: 0 <= j < |prices| ==> prices[j] == v
    ensures forall i :: period - 1 <= i < |Ema(prices, period)| ==> Ema(prices, period)[i] == v
  {
    EmaIndex(prices, period);
    forall i | period - 1 <= i < |Ema(prices, period)|
      ensures Ema(prices, period)[i] == v
    {
      EmaAtWithin(prices, period, i, v, v);
    }
  }
}
