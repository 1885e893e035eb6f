/** The decision logic of `handler` (Screener.py:81-139) without its transport:
    validation, the bounded symbol scan, the per-symbol skip rules, and the
    signals it collects. The exchange APIs become an abstract price source. */
module Scanner {
  import opened Results
  import opened Ema
  import opened Rsi
  import opened Crossover
  import opened Order

  /** Request parameters; the exchange only selects the data source and is
      folded into it. */
  datatype Config = Config(timeframe: string, emaShort: int, emaLong: int, rsiPeriod: int)

  /** The defaults the handler applies to missing query parameters. */
  const DefaultConfig := Config("1m", 9, 26, 14)

  /** At most this many symbols are scanned per request. */
  const MaxSymbols: nat := 50

  /** Bars required beyond the longest indicator period. */
  const LookbackMargin: nat := 10

  /** One qualifying symbol. Values are exact; `handler` rounds the EMAs to 4
      and the RSI to 2 decimals for presentation only. */
  datatype Signal = Signal(symbol: string, price: real, emaShort: real, emaLong: real,
                           rsi: Option<real>, timeframe: string)

  /** The only error the scan itself reports: the fast period is not below the slow one. */
  datatype ScanError = ShortNotBelowLong

  datatype ScanResult = ScanResult(signals: seq<Signal>, count: nat)

  /** Close prices per symbol; `None` stands for any exception raised while fetching. */
  type PriceSource = string -> Option<seq<real>>

  function MaxInt(a: int, b: int): (m: int)
  {
    if a >= b then a else b
  }

  /** The fewest closes a symbol needs before its indicators are computed:
      the longer of the long EMA period and the RSI period, plus the margin. */
  function RequiredBars(cfg: Config): (bars: int)
    ensures bars - LookbackMargin >= cfg.emaLong && bars - LookbackMargin >= cfg.rsiPeriod
    ensures bars - LookbackMargin == cfg.emaLong || bars - LookbackMargin == cfg.rsiPeriod
  {
    MaxInt(cfg.emaLong, cfg.rsiPeriod) + LookbackMargin
  }

  /** A validated request whose periods the model can compute with. A zero
      period is allowed: the indicator then raises and the symbol is skipped. */
  predicate Computable(cfg: Config)
  {
    0 <= cfg.emaShort < cfg.emaLong && cfg.rsiPeriod >= 0
  }

  /** The request with every parameter defaulted passes validation with
      positive periods, and needs 36 closes, fewer than the 100 bars fetched. */
  lemma DefaultsAreScannable()
    ensures Computable(DefaultConfig) && DefaultConfig.emaShort >= 1 && DefaultConfig.rsiPeriod >= 1
    ensures RequiredBars(DefaultConfig) == 36
  {
  }

  /** The body of the per-symbol `try`, given the symbol's closes. */
  function Evaluate(symbol: string, closes: seq<real>, cfg: Config): (r: Option<Signal>)
    requires Computable(cfg)
    ensures r.Some? ==> |closes| >= RequiredBars(cfg) && cfg.emaShort >= 1 && cfg.rsiPeriod >= 1
    ensures r.Some? ==>
              && r.value.symbol == symbol
              && r.value.timeframe == cfg.timeframe
              && r.value.price == closes[|closes| - 1]
              && r.value.emaShort > r.value.emaLong
              && r.value.rsi.Some?
  {
    if |closes| < RequiredBars(cfg) then None
    // a zero period divides by zero inside calculate_ema / calculate_rsi
    else if cfg.emaShort == 0 || cfg.rsiPeriod == 0 then None
    else
      var fast := Ema.Ema(closes, cfg.emaShort);
      var slow := Ema.Ema(closes, cfg.emaLong);
      var rsi := Rsi.Rsi(closes, cfg.rsiPeriod);
      if |fast| < 2 || |slow| < 2 then None
      else if FreshBullishCross(fast, slow) then
        Some(Signal(symbol, closes[|closes| - 1], fast[|fast| - 1], slow[|slow| - 1],
                    if |rsi| > 0 then Some(rsi[|rsi| - 1]) else None, cfg.timeframe))
      else None
  }

  /** A per-symbol decision: the signal a symbol's closes yield, if any. The
      loop's skip and ordering rules hold whatever the decision is. */
  type Evaluator = (string, seq<real>) -> Option<Signal>

  /** The decision `handler` applies to each symbol of a validated request. */
  function Screen(cfg: Config): Evaluator
    requires Computable(cfg)
  {
    (symbol, closes) => Evaluate(symbol, closes, cfg)
  }

  /** What one symbol adds to the signal list: nothing when its fetch fails or
      the decision skips it, otherwise its signal. */
  function Contribution(symbol: string, source: PriceSource, evaluate: Evaluator): (added: seq<Signal>)
    ensures |added| <= 1
    ensures source(symbol).None? ==> added == []
    ensures added != [] ==> source(symbol).Some? && evaluate(symbol, source(symbol).value) == Some(added[0])
    ensures source(symbol).Some? && evaluate(symbol, source(symbol).value).Some? ==> added != []
  {
    match source(symbol)
    case None => []
    case Some(closes) =>
      match evaluate(symbol, closes)
      case None => []
      case Some(signal) => [signal]
  }

  /** The scan loop as a fold: the contributions of `symbols`, appended in
      scan order. */
  function Collect(symbols: seq<string>, source: PriceSource, evaluate: Evaluator): (signals: seq<Signal>)
    ensures |signals| <= |symbols|
    decreases |symbols|
  {
    if symbols == [] then []
    else Collect(symbols[..|symbols| - 1], source, evaluate) + Contribution(symbols[|symbols| - 1], source, evaluate)
  }

  /** The signals the handler collects over `symbols`. */
  function Signals(symbols: seq<string>, source: PriceSource, cfg: Config): (signals: seq<Signal>)
    requires Computable(cfg)
    ensures |signals| <= |symbols|
    ensures forall j :: 0 <= j < |signals| ==>
              && signals[j].symbol in symbols
              && signals[j].timeframe == cfg.timeframe
              && signals[j].emaShort > signals[j].emaLong
              && signals[j].rsi.Some?
  {
    CollectProvenance(symbols, source, Screen(cfg));
    Collect(symbols, source, Screen(cfg))
  }

  /** The scanned window: the first `MaxSymbols` symbols. */
  function Window(symbols: seq<string>): (window: seq<string>)
    ensures window <= symbols
    ensures |window| == if |symbols| <= MaxSymbols then |symbols| else MaxSymbols
  {
    if |symbols| <= MaxSymbols then symbols else symbols[..MaxSymbols]
  }

  /** One pass of the loop body: fetch the symbol's closes, decide, and return
      what the symbol adds to the signal list. A failed fetch adds nothing, as
      the `except` clause skips the symbol. */
  method ScanSymbol(symbol: string, source: PriceSource, evaluate: Evaluator) returns (added: seq<Signal>)
    ensures source(symbol).None? ==> added == []
    ensures |added| <= 1
    ensures added != [] ==> source(symbol).Some? && evaluate(symbol, source(symbol).value) == Some(added[0])
    ensures added == Contribution(symbol, source, evaluate)
  {
    var closes := source(symbol);
    if closes.None? {
      return [];
    }
    var outcome := evaluate(symbol, closes.value);
    if outcome.Some? {
      added := [outcome.value];
    } else {
      added := [];
    }
  }

  /** The handler's scan. `fetched` lists the symbols whose prices were
      requested, in order. */
  method Scan(cfg: Config, symbols: seq<string>, source: PriceSource)
    returns (response: Result<ScanResult, ScanError>, fetched: seq<string>)
    requires cfg.emaShort >= cfg.emaLong || Computable(cfg)
    ensures cfg.emaShort >= cfg.emaLong ==> response == Failure(ShortNotBelowLong) && fetched == []
    ensures cfg.emaShort < cfg.emaLong ==>
              && fetched == Window(symbols)
              && response.Success?
              && response.value.signals == Signals(fetched, source, cfg)
              && response.value.count == |response.value.signals|
  {
    if cfg.emaShort >= cfg.emaLong {
      return Failure(ShortNotBelowLong), [];
    }
    var signals;
    signals, fetched := ScanWindow(Window(symbols), source, Screen(cfg));
    response := Success(ScanResult(signals, |signals|));
  }

  /** The `for` loop over the window, in order. */
  method ScanWindow(window: seq<string>, source: PriceSource, evaluate: Evaluator)
    returns (signals: seq<Signal>, fetched: seq<string>)
    ensures fetched == window
    ensures signals == Collect(window, source, evaluate)
  {
    signals := [];
    fetched := [];
    var i := 0;
    while i < |window|
      invariant 0 <= i <= |window|
      invariant fetched == window[..i]
      invariant signals == Collect(fetched, source, evaluate)
    {
      var symbol := window[i];
      CollectSnoc(fetched, symbol, source, evaluate);
      var added := ScanSymbol(symbol, source, evaluate);
      fetched := fetched + [symbol];
      signals := signals + added;
      assert fetched == window[..i + 1];
      i := i + 1;
    }
    assert window[..|window|] == window;
  }

  /** Scanning one more symbol appends that symbol's contribution. */
  lemma CollectSnoc(xs: seq<string>, x: string, source: PriceSource, evaluate: Evaluator)
    ensures Collect(xs + [x], source, evaluate) == Collect(xs, source, evaluate) + Contribution(x, source, evaluate)
  {
    assert (xs + [x])[..|xs|] == xs;
  }

  /** Once a series passes the length guard, both EMA series are full length
      with their last two entries at or past the seed (never a 0 sentinel), the
      RSI series is non-empty, the `len < 2` skip cannot fire, and the symbol
      yields a signal exactly when the crossover test holds. */
  lemma GuardSuffices(symbol: string, closes: seq<real>, cfg: Config)
    requires Computable(cfg) && cfg.emaShort >= 1 && cfg.rsiPeriod >= 1
    requires |closes| >= RequiredBars(cfg)
    ensures |Ema.Ema(closes, cfg.emaShort)| == |Ema.Ema(closes, cfg.emaLong)| == |closes| >= 2
    ensures cfg.emaShort - 1 < cfg.emaLong - 1 <= |closes| - 2
    ensures Ema.Ema(closes, cfg.emaShort)[|closes| - 1] == EmaAt(closes, cfg.emaShort, |closes| - 1)
    ensures Ema.Ema(closes, cfg.emaShort)[|closes| - 2] == EmaAt(closes, cfg.emaShort, |closes| - 2)
    ensures Ema.Ema(closes, cfg.emaLong)[|closes| - 1] == EmaAt(closes, cfg.emaLong, |closes| - 1)
    ensures Ema.Ema(closes, cfg.emaLong)[|closes| - 2] == EmaAt(closes, cfg.emaLong, |closes| - 2)
    ensures |Rsi.Rsi(closes, cfg.rsiPeriod)| == |closes| - 1 > 0
    ensures Evaluate(symbol, closes, cfg).Some? <==>
              FreshBullishCross(Ema.Ema(closes, cfg.emaShort), Ema.Ema(closes, cfg.emaLong))
    ensures Evaluate(symbol, closes, cfg).Some? ==>
              Evaluate(symbol, closes, cfg).value ==
                Signal(symbol, closes[|closes| - 1],
                       EmaAt(closes, cfg.emaShort, |closes| - 1),
                       EmaAt(closes, cfg.emaLong, |closes| - 1),
                       Some(Rsi.Rsi(closes, cfg.rsiPeriod)[|closes| - 2]),
                       cfg.timeframe)
    ensures Evaluate(symbol, closes, cfg).Some? ==>
              0.0 < Evaluate(symbol, closes, cfg).value.rsi.value <= 100.0
  {
    var n := |closes|;
    var fast := Ema.Ema(closes, cfg.emaShort);
    var slow := Ema.Ema(closes, cfg.emaLong);
    EmaIndex(closes, cfg.emaShort);
    EmaIndex(closes, cfg.emaLong);
    assert fast[n - 1] == EmaAt(closes, cfg.emaShort, n - 1);
    assert fast[n - 2] == EmaAt(closes, cfg.emaShort, n - 2);
    assert slow[n - 1] == EmaAt(closes, cfg.emaLong, n - 1);
    assert slow[n - 2] == EmaAt(closes, cfg.emaLong, n - 2);
    RsiRange(closes, cfg.rsiPeriod);
  }

  /** A symbol whose fast EMA was already strictly above the slow one on the
      previous bar yields no signal. */
  lemma NoSignalWhenAlreadyAbove(symbol: string, closes: seq<real>, cfg: Config)
    requires Computable(cfg) && cfg.emaShort >= 1
    requires |closes| >= RequiredBars(cfg)
    requires EmaAt(closes, cfg.emaShort, |closes| - 2) > EmaAt(closes, cfg.emaLong, |closes| - 2)
    ensures Evaluate(symbol, closes, cfg) == None
  {
    if cfg.rsiPeriod >= 1 {
      GuardSuffices(symbol, closes, cfg);
      NoSignalWhileAbove(Ema.Ema(closes, cfg.emaShort), Ema.Ema(closes, cfg.emaLong));
    }
  }

  /** Scanning two lists one after the other collects the signals of the first
      followed by those of the second. */
  lemma {:induction false} CollectAppend(xs: seq<string>, ys: seq<string>, source: PriceSource, evaluate: Evaluator)
    ensures Collect(xs + ys, source, evaluate) == Collect(xs, source, evaluate) + Collect(ys, source, evaluate)
    decreases |ys|
  {
    if ys == [] {
      assert xs + ys == xs;
    } else {
      var init := ys[..|ys| - 1];
      var last := ys[|ys| - 1];
      assert (xs + ys)[..|xs + ys| - 1] == xs + init;
      assert (xs + ys)[|xs + ys| - 1] == last;
      CollectAppend(xs, init, source, evaluate);
    }
  }

  /** Failure isolation: a symbol whose fetch raises, or that the decision
      skips (for `Screen`, a history shorter than `RequiredBars`), contributes
      nothing, and the scan carries on with the rest. */
  lemma SkippedSymbolContributesNothing(xs: seq<string>, x: string, ys: seq<string>,
                                        source: PriceSource, evaluate: Evaluator)
    requires source(x).None? || evaluate(x, source(x).value).None?
    ensures Collect(xs + [x] + ys, source, evaluate) == Collect(xs, source, evaluate) + Collect(ys, source, evaluate)
  {
    assert Contribution(x, source, evaluate) == [];
    CollectSnoc(xs, x, source, evaluate);
    CollectAppend(xs + [x], ys, source, evaluate);
  }

  /** Each symbol's contribution, by scan position. */
  function Contributions(symbols: seq<string>, source: PriceSource, evaluate: Evaluator): (parts: seq<seq<Signal>>)
    ensures |parts| == |symbols|
  {
    seq(|symbols|, i requires 0 <= i < |symbols| => Contribution(symbols[i], source, evaluate))
  }

  /** The signals are exactly the signals of the symbols that yield one, each
      once, in the order the symbols were scanned: signal j comes from the
      j-th symbol whose contribution is non-empty. */
  lemma {:induction false} CollectInScanOrder(symbols: seq<string>, source: PriceSource, evaluate: Evaluator)
    ensures InOrder(NonEmptyPositions(Contributions(symbols, source, evaluate)),
                    Collect(symbols, source, evaluate), Contributions(symbols, source, evaluate))
    decreases |symbols|
  {
    var parts := Contributions(symbols, source, evaluate);
    if symbols == [] {
      assert InOrder([], Collect(symbols, source, evaluate), parts);
    } else {
      var n := |symbols| - 1;
      var init := symbols[..n];
      var last := Contribution(symbols[n], source, evaluate);
      var before := Contributions(init, source, evaluate);
      assert parts == before + [last];
      assert parts[..n] == before;
      CollectInScanOrder(init, source, evaluate);
      var prev := NonEmptyPositions(before);
      if last == [] {
        StepEmpty(before, Collect(init, source, evaluate), prev);
      } else {
        assert last == [last[0]];
        StepSingle(before, Collect(init, source, evaluate), last[0], prev);
      }
    }
  }

  /** Every collected signal is the decision's signal for some scanned symbol
      whose fetch succeeded. */
  lemma CollectProvenance(symbols: seq<string>, source: PriceSource, evaluate: Evaluator)
    ensures forall j :: 0 <= j < |Collect(symbols, source, evaluate)| ==>
              exists k :: 0 <= k < |symbols| && source(symbols[k]).Some? &&
                evaluate(symbols[k], source(symbols[k]).value) == Some(Collect(symbols, source, evaluate)[j])
  {
    var out := Collect(symbols, source, evaluate);
    var parts := Contributions(symbols, source, evaluate);
    var idx := NonEmptyPositions(parts);
    CollectInScanOrder(symbols, source, evaluate);
    forall j | 0 <= j < |out|
      ensures exists k :: 0 <= k < |symbols| && source(symbols[k]).Some? &&
                evaluate(symbols[k], source(symbols[k]).value) == Some(out[j])
    {
      var k := idx[j];
      assert Contribution(symbols[k], source, evaluate) == [out[j]];
    }
  }

  /** Only the scanned symbols' prices matter: two sources that agree on every
      scanned symbol give the same signals. */
  lemma {:induction false} CollectDependsOnlyOnScanned(symbols: seq<string>, source: PriceSource,
                                                       other: PriceSource, evaluate: Evaluator)
    requires forall k :: 0 <= k < |symbols| ==> source(symbols[k]) == other(symbols[k])
    ensures Collect(symbols, source, evaluate) == Collect(symbols, other, evaluate)
    decreases |symbols|
  {
    if symbols != [] {
      var init := symbols[..|symbols| - 1];
      forall k | 0 <= k < |init|
        ensures source(init[k]) == other(init[k])
      {
        assert init[k] == symbols[k];
      }
      CollectDependsOnlyOnScanned(init, source, other, evaluate);
    }
  }
}
