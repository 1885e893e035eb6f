# Screener: EMA/RSI crossover scanner, modelled in Dafny

`Screener.py` is a serverless handler that scans up to fifty futures symbols
of an exchange for a fresh bullish crossover. A crossover is the short
exponential moving average (EMA) rising above the long one on the latest bar.
For every symbol that crosses, the handler reports the last close, both EMA
values and the latest relative strength index (RSI).

This project models the decision logic of that handler:

- `calculate_ema`: a zero-filled series seeded with the mean of the first
  `period` prices, then smoothed with `k = 2 / (period + 1)`.
- `calculate_rsi`: Wilder-smoothed average gain and loss, with the source's
  rule that an RS of 0 reads as RSI 100.
- The fresh-crossover test.
- The scan policy:
  - reject `emaShort >= emaLong` before anything is fetched;
  - scan only the first 50 symbols;
  - skip a symbol with fewer than `max(emaLong, rsiPeriod) + 10` closes;
  - skip a symbol whose fetch or computation raises;
  - collect signals in scan order and report their count.

Prices are `seq<real>`, so arithmetic is exact. The exchange is an abstract
`PriceSource` (symbol → `Option<seq<real>>`), where `None` stands for any
exception raised while fetching. The symbol list is an input.

Modules, one per file:

| file | module | contents |
|---|---|---|
| `results.dfy` | `Results` | `Option`, `Result` |
| `series.dfy` | `Series` | left-fold `Sum` (as Python's `sum`), `Mean`, `Min`, `Max`, bounds lemmas |
| `ema.dfy` | `Ema` | reference `EmaAt`/`Ema`, the loop `CalculateEma`, shape and bound lemmas |
| `rsi.dfy` | `Rsi` | `AveragesAt`/`Rsi`, the loop `CalculateRsi`, range and monotone-series lemmas |
| `crossover.dfy` | `Crossover` | `FreshBullishCross` and its properties |
| `order.dfy` | `Order` | index maps relating a list built from parts of at most one element to those parts (`InOrder`, `NonEmptyPositions`) |
| `scanner.dfy` | `Scanner` | per-symbol `Evaluate`, the loop fold `Collect` and its instance `Signals`, the methods `Scan`/`ScanWindow`/`ScanSymbol`, skip and scan-order lemmas |

Each Python loop is modelled twice:

- as a method (`CalculateEma`, `CalculateRsi`, `ScanWindow`) that follows the
  source statement by statement;
- as a pure recursive reference definition (`Ema`, `Rsi`, `Collect`).

Each method is proved equal to its reference definition.

The scan loop is written over an arbitrary per-symbol decision (an
`Evaluator`: symbol and closes to an optional signal). Its skip, append and
ordering properties therefore hold for any decision. `Screen(cfg)` is the
decision the handler applies, `Evaluate`, and `Signals` is the fold
instantiated with it.

## Model

| member | source | states |
|---|---|---|
| Series.Sum | Screener.py:24-25 | Python's `sum` (also at Screener.py:12), a left-to-right fold; `Series.SumWithin` bounds it and `Series.MeanWithin` bounds the mean |
| Ema.Smoothing | Screener.py:9 | the smoothing constant 2/(period+1) lies in (0, 1] for every period ≥ 1 |
| Ema.Ema | Screener.py:7-10 | the EMA series is empty exactly when there are fewer prices than the period, and otherwise has one entry per price |
| Ema.CalculateEma | Screener.py:6-15 | the loop returns `[]` exactly when the data is short; its output has the EMA shape (sentinels, seed mean, recurrence) and equals the reference series |
| Ema.EmaShape | Screener.py:9-14 | the reference series has the EMA shape: 0 before index period-1, the mean of the first `period` prices at period-1, and `price*k + previous*(1-k)` after that; it is also the only series with that shape |
| Ema.Advance | Screener.py:9-14 | one EMA step, the new price weighted by 2/(period+1) and the previous average by the rest, over the common denominator period+1; `Ema.AdvanceWeighs` ties it to the source's expression |
| Ema.EmaAt | Screener.py:12-14 | the value the source's list holds at index i ≥ period-1: the mean of the first `period` prices at period-1, then one step per later price; `Ema.EmaShape` and `Ema.CalculateEma` tie it to the source's loop |
| Ema.AdvanceWeighs | Screener.py:9-14 | the EMA step, written over the common denominator period+1, equals the source's `price*k + previous*(1-k)` with k = 2/(period+1) |
| Ema.AdvanceWithin | Screener.py:14 | one EMA step is a convex combination, so it stays within any bounds holding both the price and the previous value |
| Ema.EmaBetweenMinAndMax | Screener.py:12-14 | from the seed index on, every EMA value lies between the minimum and the maximum of the prices up to that index |
| Ema.EmaOfConstant | Screener.py:12-14 | a constant series V has EMA V at every index from the seed on |
| Rsi.Changes | Screener.py:20 | there is one bar-to-bar change fewer than there are prices |
| Rsi.Gain | Screener.py:21-22 | `max(c, 0)` is non-negative, and together with the loss it splits the change: at most one of them is non-zero and gain − loss = c |
| Rsi.Loss | Screener.py:22 | `max(-c, 0)` is non-negative |
| Rsi.Gains | Screener.py:21 | the `gains` list has one non-negative entry per change |
| Rsi.Losses | Screener.py:21-22 | the `losses` list has one non-negative entry per change, and `gains[i] - losses[i]` is change i |
| Rsi.SeedAverages | Screener.py:24-25 | the seed average gain and average loss are both non-negative |
| Rsi.Wilder | Screener.py:32-33 | Wilder's update `(avg * (period - 1) + part) / period` of one average keeps a non-negative average non-negative when the new gain or loss is non-negative |
| Rsi.Smooth | Screener.py:31-33 | the smoothing step after the seed window updates the average gain with the change's gain and the average loss with its loss, both by Wilder's update |
| Rsi.AveragesAt | Screener.py:24-33 | Wilder smoothing keeps both averages non-negative at every change index |
| Rsi.RelativeStrength | Screener.py:30-34 | RS is never negative, including the avgLoss = 0 case, which yields 0 |
| Rsi.Rsi | Screener.py:18-20 | the RSI series is empty when there are at most `period` prices, and otherwise holds one value per change |
| Rsi.CalculateRsi | Screener.py:17-37 | the loop returns `[]` exactly when there are at most `period` prices; otherwise it returns one value per change, all in (0, 100], and equals the reference series |
| Rsi.RsiValue | Screener.py:30-35 | the RSI of a pair of averages, 100·gain/(gain+loss), and 100 when either average is 0; `Rsi.RsiValueFormula` shows it is the source's value, `Rsi.RsiValueRange` bounds it |
| Rsi.RsiValueFormula | Screener.py:30-35 | the RSI value, written as 100·gain/(gain+loss) with 100 when either average is 0, equals the source's `100 - 100/(1+rs)` with the rs = 0 ⇒ 100 rule |
| Rsi.RsiValueRange | Screener.py:30-35 | an RSI value lies in (0, 100]; it is exactly 100 if and only if the average gain or the average loss is 0 (the RS = 0 rule); it is strictly inside (0, 100) when both are positive |
| Rsi.RsiRange | Screener.py:28-36 | every value of the series lies in (0, 100], and value i is 100 exactly when one of the averages held at change i is 0 |
| Rsi.RsiSeedWindowEqual | Screener.py:28-30 | the first `period` RSI values are all equal, since they share the seed averages |
| Rsi.NoLossesKeepAverageLossZero | Screener.py:22-33 | when no change is negative, the average loss is 0 at every index |
| Rsi.NoGainsKeepAverageGainZero | Screener.py:21-33 | when no change is positive, the average gain is 0 at every index |
| Rsi.RsiOfNonDecreasing | Screener.py:20-35 | a series that never falls (rising or flat) reads 100 everywhere |
| Rsi.RsiOfNonIncreasing | Screener.py:20-35 | a series that never rises (falling or flat) also reads 100 everywhere, because of the RS = 0 rule |
| Crossover.FreshBullishCross | Screener.py:115-116 | the crossover test: the short EMA is strictly above the long one on the last bar and at or below it on the bar before, each series read from its own end as `[-1]` and `[-2]` do |
| Crossover.CrossExamples | Screener.py:116 | on short [1, 1, 3] against long [2, 2, 2] a cross is reported; on [3, 3, 3] against [2, 2, 2] it is not |
| Crossover.NoSignalWhileAbove | Screener.py:116 | no cross is reported while the short EMA was already strictly above the long one on the previous bar |
| Crossover.NoRefire | Screener.py:116 | a cross reported on bar n is not reported again on bar n+1 |
| Crossover.CrossBetween | Screener.py:116 | whenever the short EMA goes from at or below the long one to strictly above it, some bar in between is reported as a fresh cross |
| Scanner.RequiredBars | Screener.py:105 | the guard's bar count is the larger of the long EMA period and the RSI period, plus 10: at least each of them plus 10, and equal to one of them plus 10 |
| Scanner.DefaultsAreScannable | Screener.py:85-88 | the defaults (9, 26, 14) pass validation with positive periods and need 36 closes |
| Scanner.Evaluate | Screener.py:103-124 | a symbol yields a signal only if it passed the length guard with positive periods; the signal carries the symbol, the requested timeframe, the last close as price, a short EMA above the long one, and an RSI value |
| Scanner.GuardSuffices | Screener.py:105-122 | once the length guard passes with positive periods: both EMA series are full length and at least 2 long; their last two indices are at or past both seeds, so no 0 sentinel is compared; the RSI series is non-empty; a signal is emitted if and only if the crossover test holds, with exactly the last EMA values and an RSI value in (0, 100] |
| Scanner.NoSignalWhenAlreadyAbove | Screener.py:105-116 | a symbol whose short EMA was strictly above the long one on the previous bar yields no signal |
| Scanner.Contribution | Screener.py:103-126 | a symbol adds at most one signal: nothing when its fetch fails, otherwise the decision's signal exactly when the decision yields one |
| Scanner.Collect | Screener.py:100-126 | the loop collects at most one signal per visited symbol |
| Scanner.Signals | Screener.py:100-126 | the scan emits at most one signal per visited symbol; each signal's symbol was visited, its timeframe is the requested one, its short EMA is above its long EMA, and it has an RSI value |
| Scanner.Window | Screener.py:102 | the visited symbols are the first min(len(symbols), 50) symbols of the list |
| Scanner.ScanSymbol | Screener.py:103-126 | a failed fetch adds nothing; at most one signal is added, and it is the decision's signal for the fetched closes; the result is the symbol's contribution to the fold |
| Scanner.ScanWindow | Screener.py:100-126 | the loop fetches every symbol of the window in order and collects exactly the signals of the reference fold |
| Scanner.Scan | Screener.py:90-136 | `emaShort >= emaLong` gives the validation error with nothing fetched; otherwise only the first 50 symbols are fetched, in order, and the response holds their signals with `count` equal to the number of signals |
| Scanner.CollectAppend | Screener.py:102-126 | scanning two lists in turn collects the first list's signals followed by the second's |
| Scanner.SkippedSymbolContributesNothing | Screener.py:103-126 | a symbol whose fetch fails or that the decision skips (for the handler, a history shorter than the guard) contributes nothing, and the signals of the symbols around it are unaffected |
| Scanner.CollectInScanOrder | Screener.py:100-126 | the signal list is exactly the signals of the symbols that yield one, each once, in scan order: signal j is the signal of the j-th producing symbol, and every producing symbol is represented |
| Scanner.CollectDependsOnlyOnScanned | Screener.py:102-104 | two price sources that agree on every scanned symbol give the same signals, so with `Scanner.Scan` only the first 50 symbols' prices matter |
| Scanner.CollectProvenance | Screener.py:103-124 | every collected signal is the decision's signal for some visited symbol whose fetch succeeded |

## Left out

- HTTP and JSON plumbing: `get_binance_symbols`, `get_bybit_symbols`, `fetch_klines`, status codes, headers, `json.dumps` (Screener.py:39-78, 92-96, 128-139). This is network I/O; the symbol list is an input and prices come from the abstract `PriceSource`.
- The exchange selection, the Bybit interval map, the USDT/status symbol filters and the fetch limit of 100 bars. All of these are inside the price source or the symbol list.
- Query parsing and the defaults (Screener.py:83-88). `Scanner.DefaultConfig` records the defaults, and `Scanner.DefaultsAreScannable` checks them against the guard. A non-integer parameter raises in `int()` and is handled by the outer `except`, which is not modelled.
- The outer `except` that turns any error into a 500 response. Everything the model computes is total.
- `round(..., 4)` and `round(..., 2)` on the reported EMA and RSI values, and the timestamp. These are presentation and wall-clock time; signal values are the exact values.
- IEEE-754 floating point. Prices are exact reals, so float rounding in the `>`/`<=` comparisons, the `!= 0` tests and the divisions is not captured. In particular, a non-zero `rs` below 2^-53 makes `1 + rs` round to 1.0, so Screener.py:35 yields 0.0, where the exact value is positive.
- Negative periods. An `emaShort` or `emaLong` of -1 raises `ZeroDivisionError` at `k = 2 / (period + 1)` (Screener.py:9) for every symbol, so the scan returns no signals. A period at or below `-len(closes)` raises `IndexError` at `ema[period - 1] = …` (Screener.py:12), so that symbol is skipped by the per-symbol `except` (Screener.py:125-126); a symbol with more closes is not. Other negative periods index lists from the end and give meaningless values, which can still pass the crossover test. `Scan` requires `0 <= emaShort < emaLong` and `rsiPeriod >= 0` once validation passes. The validation-error path is modelled for every input.
- Scanner.Evaluate: a zero period raises `ZeroDivisionError`, which the per-symbol `except` swallows. The model returns `None` for it directly.
- Scanner.Evaluate: its contract gives the RSI range only through `Scanner.GuardSuffices`, which proves the value is in (0, 100].

## Notes on the code

- The `len(ema_s) < 2 or len(ema_l) < 2` skip (Screener.py:112-113) counts the 0 sentinels before the seed, not only computed values. `Scanner.GuardSuffices` shows this never matters after the length guard: the two entries compared are always at or past the seed.
- Over exact arithmetic, the RS = 0 rule (Screener.py:30-35) never yields 0: `Rsi.RsiValueRange` proves every value lies in (0, 100]. In floating point, a non-zero `rs` below 2^-53 yields 0.0 (see the IEEE-754 line under "## Left out"), so the code's range is [0, 100].
