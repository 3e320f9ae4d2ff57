/** A backtest: find the first tradable candle, feed the broker bar by bar, close what is left, report. */
module Runner {
  import opened Wrappers
  import opened Rounding
  import opened Metrics
  import opened Broker

  const WARMUP: nat := 210
  const QUERY_LIMIT: nat := 100000

  type Indicators = map<string, Option<real>>

  /** `compute` stands for the indicator library, any function of the window, and `sqrt` for the square root. */
  datatype Config = Config(params: Params, compute: seq<Candle> -> Indicators, sqrt: real -> real)

  // ----- Regime and signal -----

  datatype Regime = Volatile | TrendingUp | TrendingDown | Ranging

  /** A missing key and a NaN read the same. */
  function Look(ind: Indicators, key: string): Option<real> {
    if key in ind then ind[key] else None
  }

  function Detect(ind: Indicators, close: real): Regime {
    var bbb, adx, ema50 := Look(ind, "BBB_5_2.0_2.0"), Look(ind, "ADX_14"), Look(ind, "EMA_50");
    if bbb.Some? && bbb.value > 0.08 then Volatile
    else if adx.Some? && adx.value > 25.0 && ema50.Some? then
      if close > ema50.value then TrendingUp else TrendingDown
    else Ranging
  }

  function Generate(ind: Indicators, regime: Regime): Signal {
    var ema9, ema20, rsi := Look(ind, "EMA_9"), Look(ind, "EMA_20"), Look(ind, "RSI_14");
    match regime
    case Volatile => Signal(HOLD, "volatile: skip")
    case TrendingUp =>
      if ema9.Some? && ema20.Some? && ema9.value > ema20.value && rsi.Some? && 45.0 < rsi.value < 75.0
      then Signal(BUY, "trend_up: ema_cross+rsi")
      else Signal(HOLD, "trend_up: no_entry")
    case TrendingDown =>
      if ema9.Some? && ema20.Some? && ema9.value < ema20.value && rsi.Some? && 25.0 < rsi.value < 55.0
      then Signal(SELL, "trend_down: ema_cross+rsi")
      else Signal(HOLD, "trend_down: no_entry")
    case Ranging =>
      if rsi.Some? && rsi.value < 30.0 then Signal(BUY, "ranging: rsi_oversold")
      else if rsi.Some? && rsi.value > 70.0 then Signal(SELL, "ranging: rsi_overbought")
      else Signal(HOLD, "ranging: neutral")
  }

  /** Regime and signal together: no trade in a volatile market; in a strong trend only with it, and only
      when the fast average and the momentum agree; otherwise against an extreme of the momentum. */
  lemma {:induction false} SignalDirection(ind: Indicators, close: real)
    ensures var kind := Generate(ind, Detect(ind, close)).kind;
            var bbb, adx, ema50 := Look(ind, "BBB_5_2.0_2.0"), Look(ind, "ADX_14"), Look(ind, "EMA_50");
            var fast, slow, rsi := Look(ind, "EMA_9"), Look(ind, "EMA_20"), Look(ind, "RSI_14");
            var calm := rsi.Some? && bbb.GetOr(0.0) <= 0.08;
            var trending := adx.GetOr(0.0) > 25.0 && ema50.Some?;
            var crossed := fast.Some? && slow.Some?;
            && (kind.BUY? <==> calm && if trending
                                       then close > ema50.value && crossed && fast.value > slow.value && 45.0 < rsi.value < 75.0
                                       else rsi.value < 30.0)
            && (kind.SELL? <==> calm && if trending
                                        then close <= ema50.value && crossed && fast.value < slow.value && 25.0 < rsi.value < 55.0
                                        else rsi.value > 70.0)
            && (bbb.Some? && bbb.value > 0.08 ==> kind.HOLD?)
            && (trending && kind.BUY? ==> close > ema50.value)
            && (trending && kind.SELL? ==> close <= ema50.value)
  {
  }

  // ----- The run as a function of the candles -----

  /** The store returns the oldest candles up to the limit. */
  function Limited(stored: seq<Candle>): seq<Candle> {
    if |stored| <= QUERY_LIMIT then stored else stored[..QUERY_LIMIT]
  }

  function Upto(candles: seq<Candle>, until: int): seq<Candle> {
    if candles == [] then []
    else
      var n := |candles| - 1;
      var front := Upto(candles[..n], until);
      if candles[n].openTime <= until then front + [candles[n]] else front
  }

  predicate Tradable(candles: seq<Candle>, since: int, i: nat)
    requires i < |candles|
  {
    candles[i].openTime >= since && i >= WARMUP
  }

  /** The first tradable index among the first `n` candles. */
  function StartIndex(candles: seq<Candle>, since: int, n: nat): (r: Option<nat>)
    requires n <= |candles|
    ensures r.Some? ==> r.value < n && Tradable(candles, since, r.value)
    ensures forall i :: 0 <= i < (if r.Some? then r.value else n) ==> !Tradable(candles, since, i)
  {
    if n == 0 then None
    else
      var earlier := StartIndex(candles, since, n - 1);
      if earlier.Some? then earlier
      else if Tradable(candles, since, n - 1) then Some(n - 1)
      else None
  }

  /** The 210 candles that end at candle i. */
  function Window(candles: seq<Candle>, i: nat): (w: seq<Candle>)
    requires WARMUP <= i < |candles|
    ensures |w| == 210 && forall k :: 0 <= k < 210 ==> w[k] == candles[i - 209 + k]
  {
    candles[i - WARMUP + 1..i + 1]
  }

  /** What candle i contributes: nothing when there are no indicators. */
  function BarAt(cfg: Config, candles: seq<Candle>, i: nat): Option<Bar>
    requires WARMUP <= i < |candles|
  {
    var ind := cfg.compute(Window(candles, i));
    if ind == map[] then None
    else
      var close := candles[i].close;
      var withClose := ind["close" := Some(close)];
      Some(Bar(Generate(withClose, Detect(withClose, close)), candles[i]))
  }

  /** The decision rule, as conditions on the readings of one window and the close of its last candle. */
  ghost predicate Decides(ind: Indicators, close: real, s: Signal) {
    var bbb := if "BBB_5_2.0_2.0" in ind then ind["BBB_5_2.0_2.0"] else None;
    var adx := if "ADX_14" in ind then ind["ADX_14"] else None;
    var ema50 := if "EMA_50" in ind then ind["EMA_50"] else None;
    var ema9 := if "EMA_9" in ind then ind["EMA_9"] else None;
    var ema20 := if "EMA_20" in ind then ind["EMA_20"] else None;
    var rsi := if "RSI_14" in ind then ind["RSI_14"] else None;
    var volatile := bbb.Some? && bbb.value > 0.08;
    var trend := !volatile && adx.Some? && adx.value > 25.0 && ema50.Some?;
    var up, down := trend && close > ema50.value, trend && close <= ema50.value;
    var crossed := ema9.Some? && ema20.Some? && rsi.Some?;
    var buyUp := up && crossed && ema9.value > ema20.value && 45.0 < rsi.value < 75.0;
    var sellDown := down && crossed && ema9.value < ema20.value && 25.0 < rsi.value < 55.0;
    var ranging := !volatile && !trend;
    var buyLow := ranging && rsi.Some? && rsi.value < 30.0;
    var sellHigh := ranging && rsi.Some? && rsi.value > 70.0;
    && (s.kind.BUY? <==> buyUp || buyLow)
    && (s.kind.SELL? <==> sellDown || sellHigh)
    && (volatile ==> s.reason == "volatile: skip")
    && (up ==> s.reason == if buyUp then "trend_up: ema_cross+rsi" else "trend_up: no_entry")
    && (down ==> s.reason == if sellDown then "trend_down: ema_cross+rsi" else "trend_down: no_entry")
    && (buyLow ==> s.reason == "ranging: rsi_oversold")
    && (sellHigh ==> s.reason == "ranging: rsi_overbought")
    && (ranging && !buyLow && !sellHigh ==> s.reason == "ranging: neutral")
  }

  lemma {:induction false} GenerateDecides(ind: Indicators, close: real)
    ensures Decides(ind, close, Generate(ind, Detect(ind, close)))
  {
  }

  lemma {:induction false} CloseIsNotRead(ind: Indicators, close: real, s: Signal, reading: Option<real>)
    requires Decides(ind["close" := reading], close, s)
    ensures Decides(ind, close, s)
  {
    var more := ind["close" := reading];
    assert forall k :: k != "close" ==> (k in more <==> k in ind) && (k in ind ==> more[k] == ind[k]);
  }

  /** The bar is candle i, decided on the indicators of the 210 candles that end at it and on its own close. */
  ghost predicate IsBarOf(cfg: Config, candles: seq<Candle>, i: nat, bar: Bar)
    requires 210 <= i < |candles|
  {
    bar.candle == candles[i] && Decides(cfg.compute(candles[i - 209..i + 1]), candles[i].close, bar.signal)
  }

  /** A candle gives a bar exactly when the 210 candles that end at it have indicators; the bar is that candle, and
      what it says is decided on those indicators and on its own close. */
  lemma {:induction false} BarOfCandle(cfg: Config, candles: seq<Candle>, i: nat)
    requires 210 <= i < |candles|
    ensures BarAt(cfg, candles, i).Some? <==> cfg.compute(candles[i - 209..i + 1]) != map[]
    ensures BarAt(cfg, candles, i).Some? ==> IsBarOf(cfg, candles, i, BarAt(cfg, candles, i).value)
  {
    var ind, close := cfg.compute(candles[i - 209..i + 1]), candles[i].close;
    assert Window(candles, i) == candles[i - 209..i + 1];
    if ind != map[] {
      var withClose := ind["close" := Some(close)];
      GenerateDecides(withClose, close);
      CloseIsNotRead(ind, close, Generate(withClose, Detect(withClose, close)), Some(close));
    }
  }

  /** The candles whose windows have indicators. */
  function Informed(cfg: Config, candles: seq<Candle>, start: nat, n: nat): (indices: seq<nat>)
    requires 210 <= start && n <= |candles|
    ensures forall k :: 0 <= k < |indices| ==> start <= indices[k] < n
  {
    if n <= start then []
    else
      var front := Informed(cfg, candles, start, n - 1);
      if cfg.compute(candles[n - 210..n]) == map[] then front else front + [n - 1]
  }

  lemma {:induction false} InformedExactly(cfg: Config, candles: seq<Candle>, start: nat, n: nat, i: nat)
    requires 210 <= start && n <= |candles|
    ensures i in Informed(cfg, candles, start, n) <==> start <= i < n && cfg.compute(candles[i - 209..i + 1]) != map[]
    ensures var indices := Informed(cfg, candles, start, n);
            forall k, l :: 0 <= k < l < |indices| ==> indices[k] < indices[l]
  {
    if n <= start {
    } else {
      InformedExactly(cfg, candles, start, n - 1, i);
    }
  }

  ghost predicate AreBarsOf(cfg: Config, candles: seq<Candle>, indices: seq<nat>, bars: seq<Bar>) {
    && |bars| == |indices|
    && forall k :: 0 <= k < |bars| ==> 210 <= indices[k] < |candles| && IsBarOf(cfg, candles, indices[k], bars[k])
  }

  lemma {:induction false} OneMoreBar(cfg: Config, candles: seq<Candle>, indices: seq<nat>, bars: seq<Bar>, i: nat, bar: Bar)
    requires AreBarsOf(cfg, candles, indices, bars) && 210 <= i < |candles| && IsBarOf(cfg, candles, i, bar)
    ensures AreBarsOf(cfg, candles, indices + [i], bars + [bar])
  {
    forall k | 0 <= k < |bars|
      ensures IsBarOf(cfg, candles, (indices + [i])[k], (bars + [bar])[k])
    {
      assert IsBarOf(cfg, candles, indices[k], bars[k]);
    }
  }

  /** The bars of a run are those of the candles with indicators, every one of them, in order, each decided on its
      own window and close. */
  lemma {:induction false} BarsExactly(cfg: Config, candles: seq<Candle>, start: nat, n: nat)
    requires 210 <= start && n <= |candles|
    ensures AreBarsOf(cfg, candles, Informed(cfg, candles, start, n), Bars(cfg, candles, start, n))
  {
    if n <= start {
    } else {
      var bars, indices := Bars(cfg, candles, start, n - 1), Informed(cfg, candles, start, n - 1);
      BarsExactly(cfg, candles, start, n - 1);
      LastBar(cfg, candles, start, n);
      match BarAt(cfg, candles, n - 1)
      case None =>
      case Some(bar) => OneMoreBar(cfg, candles, indices, bars, n - 1, bar);
    }
  }

  lemma {:induction false} LastBar(cfg: Config, candles: seq<Candle>, start: nat, n: nat)
    requires 210 <= start < n <= |candles|
    ensures var bars, indices := Bars(cfg, candles, start, n - 1), Informed(cfg, candles, start, n - 1);
            match BarAt(cfg, candles, n - 1)
            case None => Bars(cfg, candles, start, n) == bars && Informed(cfg, candles, start, n) == indices
            case Some(bar) =>
              && Bars(cfg, candles, start, n) == bars + [bar] && Informed(cfg, candles, start, n) == indices + [n - 1]
              && IsBarOf(cfg, candles, n - 1, bar)
  {
    BarOfCandle(cfg, candles, n - 1);
    assert candles[n - 1 - 209..n - 1 + 1] == candles[n - 210..n];
  }

  /** The bars fed to the broker from index `start` up to but not including `n`. */
  function Bars(cfg: Config, candles: seq<Candle>, start: nat, n: nat): seq<Bar>
    requires WARMUP <= start && n <= |candles|
  {
    if n <= start then []
    else
      var front := Bars(cfg, candles, start, n - 1);
      match BarAt(cfg, candles, n - 1)
      case None => front
      case Some(bar) => front + [bar]
  }

  function Processed(cfg: Config, candles: seq<Candle>, since: int): seq<Bar> {
    match StartIndex(candles, since, |candles|)
    case None => []
    case Some(start) => Bars(cfg, candles, start, |candles|)
  }

  /** The book when the last bar has been processed, before anything is forced. */
  function Settled(cfg: Config, candles: seq<Candle>, since: int): Book {
    Process(cfg.params, Processed(cfg, candles, since))
  }

  function FinalBook(cfg: Config, candles: seq<Candle>, since: int): Book {
    if candles == [] then Start(cfg.params)
    else Finish(cfg.params, Settled(cfg, candles, since), candles[|candles| - 1])
  }

  function Labelled(trades: seq<Trade>, market: string, symbol: string): seq<Trade> {
    seq(|trades|, i requires 0 <= i < |trades| => trades[i].(market := market, symbol := symbol))
  }

  // ----- The run as the program does it -----

  datatype Query = Query(market: string, symbol: string, since: int, until: int)

  datatype BacktestResult = BacktestResult(query: Query, initialCapital: real, finalEquity: real,
                                           trades: seq<Trade>, curve: seq<Point>, metrics: Figures)

  /** The report of a run: everything is read off the final book; only the equity is rounded, and only when
      there was something to trade on. */
  ghost predicate Reports(cfg: Config, r: BacktestResult, q: Query, book: Book, started: bool)
    requires cfg.params.initial != 0.0
  {
    var initial := cfg.params.initial;
    && r.query == q && r.initialCapital == initial
    && r.finalEquity == (if started then RoundTo(book.capital, 6) else initial)
    && r.trades == Labelled(book.trades, q.market, q.symbol)
    && r.curve == book.curve
    && Summarises(r.metrics, r.trades, r.curve, initial, book.capital, cfg.sqrt)
  }

  datatype RunError = EmptyPeriod

  /** What candle i does to a book. */
  function Fed(cfg: Config, b: Book, candles: seq<Candle>, i: nat): Book
    requires WARMUP <= i < |candles|
  {
    match BarAt(cfg, candles, i)
    case None => b
    case Some(bar) => Step(cfg.params, b, bar)
  }

  /** The book when the candles before index n have been replayed, one after the other. */
  function BookAt(cfg: Config, candles: seq<Candle>, start: nat, n: nat): Book
    requires WARMUP <= start && n <= |candles|
  {
    if n <= start then Start(cfg.params) else Fed(cfg, BookAt(cfg, candles, start, n - 1), candles, n - 1)
  }

  /** Replaying the candles is processing the bars they make. */
  lemma {:induction false} BookOfBars(cfg: Config, candles: seq<Candle>, start: nat, n: nat)
    requires WARMUP <= start && n <= |candles|
    ensures BookAt(cfg, candles, start, n) == Process(cfg.params, Bars(cfg, candles, start, n))
  {
    if n <= start {
    } else {
      BookOfBars(cfg, candles, start, n - 1);
      match BarAt(cfg, candles, n - 1)
      case None =>
      case Some(bar) => ProcessSnoc(cfg.params, Bars(cfg, candles, start, n - 1), bar);
    }
  }

  lemma {:induction false} EndOfReplay(cfg: Config, candles: seq<Candle>, since: int, start: nat)
    requires StartIndex(candles, since, |candles|) == Some(start)
    ensures FinalBook(cfg, candles, since)
            == Finish(cfg.params, BookAt(cfg, candles, start, |candles|), candles[|candles| - 1])
  {
    BookOfBars(cfg, candles, start, |candles|);
  }

  /** Trading starts at the first candle not before `since` that has 210 candles before it. */
  lemma {:induction false} StartExactly(candles: seq<Candle>, since: int, i: nat)
    ensures StartIndex(candles, since, |candles|) == Some(i) <==>
            && 210 <= i < |candles| && candles[i].openTime >= since
            && forall j :: 210 <= j < i ==> candles[j].openTime < since
  {
    forall j: nat | j < |candles|
      ensures Tradable(candles, since, j) <==> 210 <= j && candles[j].openTime >= since
    {
    }
    var start := StartIndex(candles, since, |candles|);
    if start.Some? && start.value < i {
      assert Tradable(candles, since, start.value);
    }
  }

  /** The store hands out the oldest 100000 candles at most. */
  lemma {:induction false} LimitedExactly(stored: seq<Candle>)
    ensures Limited(stored) <= stored
    ensures |Limited(stored)| == if |stored| > 100000 then 100000 else |stored|
  {
  }

  lemma {:induction false} StartBeyond(candles: seq<Candle>, since: int, i: nat)
    requires i < |candles| && Tradable(candles, since, i)
    requires forall j :: 0 <= j < i ==> !Tradable(candles, since, j)
    ensures StartIndex(candles, since, |candles|) == Some(i)
  {
  }

  lemma {:induction false} NothingToTrade(cfg: Config, candles: seq<Candle>, since: int)
    requires StartIndex(candles, since, |candles|).None?
    ensures FinalBook(cfg, candles, since) == Start(cfg.params)
  {
  }

  class BacktestRunner {
    const cfg: Config

    constructor (cfg: Config)
      ensures this.cfg == cfg
    {
      this.cfg := cfg;
    }

    method FirstTradable(candles: seq<Candle>, since: int) returns (start: Option<nat>)
      ensures start == StartIndex(candles, since, |candles|)
    {
      for i := 0 to |candles|
        invariant forall j :: 0 <= j < i ==> !Tradable(candles, since, j)
      {
        if candles[i].openTime >= since && i >= WARMUP {
          StartBeyond(candles, since, i);
          return Some(i);
        }
      }
      start := None;
    }

    /** One round of the bar loop. */
    method Feed(broker: BacktestBroker, candles: seq<Candle>, ghost start: nat, i: nat)
      requires WARMUP <= start <= i < |candles| && broker.params == cfg.params
      requires broker.State() == BookAt(cfg, candles, start, i)
      modifies broker
      ensures broker.State() == BookAt(cfg, candles, start, i + 1)
    {
      var window := candles[i - WARMUP + 1..i + 1];
      var indicators := cfg.compute(window);
      if indicators == map[] {
        return;
      }
      var candle := candles[i];
      indicators := indicators["close" := Some(candle.close)];
      var regime := Detect(indicators, candle.close);
      var signal := Generate(indicators, regime);
      broker.OnSignal(signal, candle);
    }

    /** The bar loop. */
    method Replay(candles: seq<Candle>, start: nat) returns (broker: BacktestBroker)
      requires WARMUP <= start < |candles|
      ensures fresh(broker) && broker.params == cfg.params
      ensures broker.State() == BookAt(cfg, candles, start, |candles|)
    {
      broker := new BacktestBroker(cfg.params);
      for i := start to |candles|
        invariant fresh(broker) && broker.params == cfg.params
        invariant broker.State() == BookAt(cfg, candles, start, i)
      {
        Feed(broker, candles, start, i);
      }
    }

    method Label(trades: seq<Trade>, market: string, symbol: string) returns (r: seq<Trade>)
      ensures r == Labelled(trades, market, symbol)
    {
      r := trades;
      for i := 0 to |r|
        invariant |r| == |trades|
        invariant forall j :: 0 <= j < |r| ==>
                    r[j] == if j < i then trades[j].(market := market, symbol := symbol) else trades[j]
      {
        r := r[i := r[i].(market := market, symbol := symbol)];
      }
    }

    /** The early return: nothing to trade on. */
    method Nothing(q: Query) returns (r: BacktestResult)
      requires cfg.params.initial != 0.0
      ensures Reports(cfg, r, q, Start(cfg.params), false)
    {
      var figures := ComputeMetrics([], [], cfg.params.initial, cfg.params.initial, cfg.sqrt);
      r := BacktestResult(q, cfg.params.initial, cfg.params.initial, [], [], figures);
    }

    /** Close what is left, label the trades, compute the figures. */
    method Conclude(q: Query, broker: BacktestBroker, last: Candle) returns (r: BacktestResult)
      requires cfg.params.initial != 0.0 && broker.params == cfg.params
      modifies broker
      ensures Reports(cfg, r, q, Finish(cfg.params, old(broker.State()), last), true)
    {
      broker.CloseOpenPosition(last.close, last.openTime, END_REASON);
      var trades := Label(broker.trades, q.market, q.symbol);
      var figures := ComputeMetrics(trades, broker.curve, cfg.params.initial, broker.capital, cfg.sqrt);
      r := BacktestResult(q, cfg.params.initial, RoundTo(broker.capital, 6), trades, broker.curve, figures);
    }

    method Run(stored: seq<Candle>, q: Query) returns (r: Result<BacktestResult, RunError>)
      requires cfg.params.initial != 0.0
      ensures r.Err? <==> q.since >= q.until
      ensures r.Ok? ==>
                var candles := Upto(Limited(stored), q.until);
                Reports(cfg, r.value, q, FinalBook(cfg, candles, q.since),
                        StartIndex(candles, q.since, |candles|).Some?)
    {
      if q.since >= q.until {
        return Err(EmptyPeriod);
      }
      var candles := Upto(Limited(stored), q.until);
      var start := FirstTradable(candles, q.since);
      var result: BacktestResult;
      if start.None? {
        NothingToTrade(cfg, candles, q.since);
        result := Nothing(q);
      } else {
        var broker := Replay(candles, start.value);
        EndOfReplay(cfg, candles, q.since, start.value);
        result := Conclude(q, broker, candles[|candles| - 1]);
      }
      r := Ok(result);
    }
  }
}
