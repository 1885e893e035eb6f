/** The fresh bullish crossover test applied inside `handler` (Screener.py:115-116). */
module Crossover {

  /** The fast average is strictly above the slow one on its latest bar and was
      at or below it on the bar before. Each series is read from its own end,
      as Python's negative indices do. */
  predicate FreshBullishCross(fast: seq<real>, slow: seq<real>)
    requires |fast| >= 2 && |slow| >= 2
  {
    fast[|fast| - 1] > slow[|slow| - 1] && fast[|fast| - 2] <= slow[|slow| - 2]
  }

  /** Bar n of two aligned series is a fresh cross: the test applied to the
      series as they stood when bar n was the latest. */
  predicate CrossAt(fast: seq<real>, slow: seq<real>, n: nat)
    requires 1 <= n < |fast| && n < |slow|
  {
    FreshBullishCross(fast[..n + 1], slow[..n + 1])
  }

  /** A move from below to above is a cross; staying above is not. */
  lemma CrossExamples()
    ensures FreshBullishCross([1.0, 1.0, 3.0], [2.0, 2.0, 2.0])
    ensures !FreshBullishCross([3.0, 3.0, 3.0], [2.0, 2.0, 2.0])
  {
  }

  /** A fast average already strictly above on both of the last two bars gives no signal. */
  lemma NoSignalWhileAbove(fast: seq<real>, slow: seq<real>)
    requires |fast| >= 2 && |slow| >= 2
    requires fast[|fast| - 2] > slow[|slow| - 2]
    ensures !FreshBullishCross(fast, slow)
  {
  }

  /** A cross that fired on bar n is not flagged again on bar n + 1. */
  lemma NoRefire(fast: seq<real>, slow: seq<real>, n: nat)
    requires 1 <= n && n + 1 < |fast| && n + 1 < |slow|
    requires CrossAt(fast, slow, n)
    ensures !CrossAt(fast, slow, n + 1)
  {
    assert fast[..n + 1][n] == fast[n] && slow[..n + 1][n] == slow[n];
    assert fast[..n + 2][n] == fast[n] && slow[..n + 2][n] == slow[n];
  }

  /** Whenever the fast average goes from at-or-below (bar a) to strictly above
      (a later bar b), some bar in between is a fresh cross, so an upward
      transition is never missed. */
  lemma {:induction false} CrossBetween(fast: seq<real>, slow: seq<real>, a: nat, b: nat)
    requires a < b < |fast| && b < |slow|
    requires fast[a] <= slow[a]
    requires fast[b] > slow[b]
    ensures exists n :: a < n <= b && CrossAt(fast, slow, n)
    decreases b - a
  {
    assert fast[..b + 1][b] == fast[b] && slow[..b + 1][b] == slow[b];
    assert fast[..b + 1][b - 1] == fast[b - 1] && slow[..b + 1][b - 1] == slow[b - 1];
    if fast[b - 1] <= slow[b - 1] {
      assert CrossAt(fast, slow, b);
    } else {
      CrossBetween(fast, slow, a, b - 1);
    }
  }
}
