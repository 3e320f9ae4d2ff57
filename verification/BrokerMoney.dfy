/** Where the capital goes: conservation, rounding of the reports, and the worst case of any run. */
module BrokerMoney {
  import opened Rounding
  import opened Metrics
  import opened Broker
  import opened Runner

  function Net(p: Params, t: Trade): real {
    NetPnl(p, t.entryPrice, t.qty, t.exitPrice)
  }

  function TotalNet(p: Params, trades: seq<Trade>): real {
    if trades == [] then 0.0 else TotalNet(p, trades[..|trades| - 1]) + Net(p, trades[|trades| - 1])
  }

  function Entries(b: Book): nat {
    |b.trades| + if b.position.Some? then 1 else 0
  }

  function EntryFees(p: Params, n: nat): real {
    n as real * Fee(p)
  }

  /** Every trade reports its own net profit to six decimals, and every lot was bought for the fixed amount. */
  ghost predicate Booked(p: Params, b: Book) {
    && (forall i :: 0 <= i < |b.trades| ==>
          var t := b.trades[i]; t.pnlUsd == RoundTo(Net(p, t), 6) && t.qty == p.amount / t.entryPrice)
    && (b.position.Some? ==> b.position.value.qty == p.amount / b.position.value.entryPrice)
  }

  ghost predicate Conserved(p: Params, b: Book) {
    b.capital == p.initial + TotalNet(p, b.trades) - EntryFees(p, Entries(b))
  }

  lemma {:induction false} TotalNetSnoc(p: Params, trades: seq<Trade>, t: Trade)
    ensures TotalNet(p, trades + [t]) == TotalNet(p, trades) + Net(p, t)
  {
    assert (trades + [t])[..|trades|] == trades;
  }

  lemma {:induction false} CloseConserves(p: Params, b: Book, price: real, ts: int, reason: string)
    requires Booked(p, b) && Conserved(p, b)
    ensures Booked(p, Close(p, b, price, ts, reason)) && Conserved(p, Close(p, b, price, ts, reason))
  {
    if b.position.Some? {
      TotalNetSnoc(p, b.trades, TradeOf(p, b.position.value, price, ts, reason));
    }
  }

  lemma {:induction false} OneMoreFee(p: Params, n: nat)
    ensures EntryFees(p, n + 1) == EntryFees(p, n) + Fee(p)
  {
  }

  lemma {:induction false} StepConserves(p: Params, b: Book, bar: Bar)
    requires Booked(p, b) && Conserved(p, b)
    ensures Booked(p, Step(p, b, bar)) && Conserved(p, Step(p, b, bar))
  {
    if bar.signal.kind.BUY? && b.position.None? {
      OneMoreFee(p, |b.trades|);
      assert Entries(Step(p, b, bar)) == |b.trades| + 1;
    } else if bar.signal.kind.SELL? && b.position.Some? {
      CloseConserves(p, b, bar.candle.close, bar.candle.openTime, bar.signal.reason);
    }
  }

  /** In every state of every run, and after the forced close at its end: capital is the initial capital plus
      the exact net profits, minus one entry commission per position ever opened. Nothing else touches it. */
  lemma {:induction false} Conservation(p: Params, bars: seq<Bar>, last: Candle)
    ensures Booked(p, Process(p, bars)) && Conserved(p, Process(p, bars))
    ensures var b := Finish(p, Process(p, bars), last);
            b.position.None? && Booked(p, b) && Conserved(p, b)
  {
    if bars == [] {
    } else {
      var n := |bars| - 1;
      Conservation(p, bars[..n], last);
      StepConserves(p, Process(p, bars[..n]), bars[n]);
    }
    CloseConserves(p, Process(p, bars), last.close, last.openTime, END_REASON);
  }

  const MICRO := 0.000001

  function HalfUnits(n: nat): real {
    n as real * (0.5 * MICRO)
  }

  lemma {:induction false} ReportedNet(p: Params, trades: seq<Trade>)
    requires forall i :: 0 <= i < |trades| ==> trades[i].pnlUsd == RoundTo(Net(p, trades[i]), 6)
    ensures Abs(TotalPnl(trades) - TotalNet(p, trades)) <= HalfUnits(|trades|)
  {
    if trades == [] {
    } else {
      var n := |trades| - 1;
      ReportedNet(p, trades[..n]);
      assert Pow10(6) == 1000000;
      RoundError(Net(p, trades[n]), 6);
      assert HalfUnits(|trades|) == HalfUnits(n) + 0.5 * MICRO;
    }
  }

  /** What the reported figures say the final equity should be. */
  function ReportedTotal(p: Params, trades: seq<Trade>): real {
    p.initial + TotalPnl(trades) - EntryFees(p, |trades|)
  }

  lemma {:induction false} ReportedBook(p: Params, b: Book)
    requires Booked(p, b) && Conserved(p, b) && b.position.None?
    ensures Abs(RoundTo(b.capital, 6) - ReportedTotal(p, b.trades)) <= HalfUnits(|b.trades| + 1)
  {
    ReportedNet(p, b.trades);
    assert Pow10(6) == 1000000;
    RoundError(b.capital, 6);
  }

  /** The reported final equity differs from the initial capital plus the reported profits minus the n entry
      commissions by at most n + 1 half units of the sixth decimal. */
  lemma {:induction false} ReportedEquity(p: Params, bars: seq<Bar>, last: Candle)
    ensures var b := Finish(p, Process(p, bars), last);
            Abs(RoundTo(b.capital, 6) - ReportedTotal(p, b.trades)) <= HalfUnits(|b.trades| + 1)
  {
    Conservation(p, bars, last);
    ReportedBook(p, Finish(p, Process(p, bars), last));
  }

  // ----- One round trip -----

  /** The reported percentage of a trade is that of its price change, to four decimals. */
  lemma {:induction false} ReportedPct(p: Params, pos: Position, price: real, ts: int, reason: string)
    ensures Abs(TradeOf(p, pos, price, ts, reason).pnlPct - 100.0 * (price / pos.entryPrice - 1.0)) <= 0.00005
  {
    var e := pos.entryPrice;
    PriceChange(e, price);
    assert Pow10(4) == 10000;
    RoundError((price - e) / e * 100.0, 4);
  }

  /** What one round trip changes, in terms of the price ratio. */
  function RoundTrip(p: Params, entry: Price, exit: real): real {
    p.amount * ((exit / entry) * (1.0 - p.commission) - (1.0 + p.commission))
  }

  lemma {:induction false} RoundTripForm(p: Params, entry: Price, exit: real)
    ensures NetPnl(p, entry, p.amount / entry, exit) - Fee(p) == RoundTrip(p, entry, exit)
  {
  }

  function RoundTrips(p: Params, trades: seq<Trade>): real {
    if trades == [] then 0.0
    else
      var t := trades[|trades| - 1];
      RoundTrips(p, trades[..|trades| - 1]) + RoundTrip(p, t.entryPrice, t.exitPrice)
  }

  lemma {:induction false} NetIsRoundTrips(p: Params, trades: seq<Trade>)
    requires forall i :: 0 <= i < |trades| ==> trades[i].qty == p.amount / trades[i].entryPrice
    ensures TotalNet(p, trades) - EntryFees(p, |trades|) == RoundTrips(p, trades)
  {
    if trades == [] {
    } else {
      var n := |trades| - 1;
      NetIsRoundTrips(p, trades[..n]);
      RoundTripForm(p, trades[n].entryPrice, trades[n].exitPrice);
      OneMoreFee(p, n);
    }
  }

  /** Capital in closed form, for every run: the initial capital plus A((p/e)(1 - c) - (1 + c)) for each closed
      trade, minus one commission while a position is open; at the end of the data nothing is left to subtract. */
  lemma {:induction false} CapitalInClosedForm(p: Params, bars: seq<Bar>, last: Candle)
    ensures var b := Process(p, bars);
            b.capital == p.initial + RoundTrips(p, b.trades) - if b.position.Some? then Fee(p) else 0.0
    ensures var b := Finish(p, Process(p, bars), last);
            b.capital == p.initial + RoundTrips(p, b.trades)
  {
    Conservation(p, bars, last);
    BookInClosedForm(p, Process(p, bars));
    BookInClosedForm(p, Finish(p, Process(p, bars), last));
  }

  lemma {:induction false} BookInClosedForm(p: Params, b: Book)
    requires Booked(p, b) && Conserved(p, b)
    ensures b.capital == p.initial + RoundTrips(p, b.trades) - if b.position.Some? then Fee(p) else 0.0
  {
    NetIsRoundTrips(p, b.trades);
    OneMoreFee(p, |b.trades|);
  }

  /** A round trip at positive prices gains exactly when the price rose by more than both commissions. */
  lemma {:induction false} GainsExactly(p: Params, entry: Price, exit: real)
    requires p.amount > 0.0 && entry > 0.0
    ensures NetPnl(p, entry, p.amount / entry, exit) - Fee(p) > 0.0
            <==> exit * (1.0 - p.commission) > entry * (1.0 + p.commission)
  {
  }

  ghost predicate PositivePrices(b: Book) {
    && (forall i :: 0 <= i < |b.trades| ==> b.trades[i].entryPrice > 0.0 && b.trades[i].exitPrice > 0.0)
    && (b.position.Some? ==> b.position.value.entryPrice > 0.0)
  }

  lemma {:induction false} PricesFromBars(p: Params, bars: seq<Bar>)
    requires forall i :: 0 <= i < |bars| ==> bars[i].candle.close > 0.0
    ensures PositivePrices(Process(p, bars))
  {
    if bars == [] {
    } else {
      PricesFromBars(p, bars[..|bars| - 1]);
    }
  }

  lemma {:induction false} WorstTrade(p: Params, entry: Price, exit: real)
    requires p.amount >= 0.0 && 0.0 <= p.commission <= 1.0 && entry > 0.0 && exit > 0.0
    ensures NetPnl(p, entry, p.amount / entry, exit) >= -p.amount
  {
  }

  /** The amounts put at risk in n trades. */
  function Stakes(p: Params, n: nat): real {
    n as real * p.amount
  }

  lemma {:induction false} WorstTotal(p: Params, trades: seq<Trade>)
    requires p.amount >= 0.0 && 0.0 <= p.commission <= 1.0
    requires forall i :: 0 <= i < |trades| ==>
               trades[i].entryPrice > 0.0 && trades[i].exitPrice > 0.0 && trades[i].qty == p.amount / trades[i].entryPrice
    ensures TotalNet(p, trades) >= -Stakes(p, |trades|)
  {
    if trades == [] {
    } else {
      var n := |trades| - 1;
      WorstTotal(p, trades[..n]);
      WorstTrade(p, trades[n].entryPrice, trades[n].exitPrice);
      assert Stakes(p, |trades|) == Stakes(p, n) + p.amount;
    }
  }

  lemma {:induction false} BookFloor(p: Params, b: Book)
    requires p.amount >= 0.0 && 0.0 <= p.commission <= 1.0
    requires Booked(p, b) && Conserved(p, b) && PositivePrices(b)
    ensures b.capital >= p.initial - Stakes(p, |b.trades|) - EntryFees(p, Entries(b))
  {
    WorstTotal(p, b.trades);
  }

  lemma {:induction false} FinishKeepsPrices(p: Params, b: Book, last: Candle)
    requires PositivePrices(b) && last.close > 0.0
    ensures PositivePrices(Finish(p, b, last))
  {
  }

  /** On any run over positive prices the capital never falls below the initial capital minus, for each closed
      trade, the traded amount and its entry commission, minus one more commission while a position is open;
      nor does the equity after the forced close. */
  lemma {:induction false} CapitalFloor(p: Params, bars: seq<Bar>, last: Candle)
    requires p.amount >= 0.0 && 0.0 <= p.commission <= 1.0
    requires forall i :: 0 <= i < |bars| ==> bars[i].candle.close > 0.0
    ensures var b := Process(p, bars);
            b.capital >= p.initial - Stakes(p, |b.trades|) - EntryFees(p, Entries(b))
    ensures var b := Finish(p, Process(p, bars), last);
            last.close > 0.0 ==> b.capital >= p.initial - Stakes(p, |b.trades|) - EntryFees(p, |b.trades|)
  {
    Conservation(p, bars, last);
    PricesFromBars(p, bars);
    BookFloor(p, Process(p, bars));
    if last.close > 0.0 {
      FinishKeepsPrices(p, Process(p, bars), last);
      BookFloor(p, Finish(p, Process(p, bars), last));
    }
  }

  // ----- What a single bar costs or brings -----

  /** A BUY without a position costs the commission on the fixed amount, nothing more, and buys that amount at the
      close; the curve gets one point. */
  lemma {:induction false} EntryCosts(p: Params, bars: seq<Bar>, bar: Bar)
    requires bar.signal.kind.BUY? && Process(p, bars).position.None?
    ensures var b, b' := Process(p, bars), Process(p, bars + [bar]);
            && b'.capital == b.capital - Times(p.amount, p.commission)
            && b'.position.Some? && b'.trades == b.trades
            && var pos := b'.position.value;
               && pos.entryPrice == bar.candle.close && Times(pos.qty, pos.entryPrice) == p.amount
               && pos.entryTs == bar.candle.openTime && pos.entryReason == bar.signal.reason
               && b'.curve == b.curve + [Point(bar.candle.openTime, b'.capital)]
  {
    ProcessSnoc(p, bars, bar);
    BoughtAmount(p.amount, bar.candle.close);
  }

  lemma {:induction false} BoughtAmount(amount: real, price: Price)
    ensures Times(amount / price, price) == amount
  {
  }

  lemma {:induction false} ExitNet(p: Params, entry: Price, qty: real, exit: real)
    ensures NetPnl(p, entry, qty, exit) == Times(Times(qty, exit), 1.0 - p.commission) - Times(qty, entry)
  {
    var gross := qty * exit;
    Spread(exit, entry, qty);
    assert exit * qty == gross;
    assert gross * (1.0 - p.commission) == gross - gross * p.commission;
  }

  lemma {:induction false} Spread(a: real, b: real, qty: real)
    ensures (a - b) * qty == a * qty - b * qty && a * qty == qty * a && b * qty == Times(qty, b)
  {
  }

  /** A SELL with a position brings the value of the lot at the close less the commission on it, minus what the
      lot cost; the position is gone, and the curve gets the point of the trade and the point of the bar. */
  lemma {:induction false} ExitBrings(p: Params, bars: seq<Bar>, bar: Bar)
    requires bar.signal.kind.SELL? && Process(p, bars).position.Some?
    ensures var b, b' := Process(p, bars), Process(p, bars + [bar]);
            var pos, exit, point := b.position.value, bar.candle.close, Point(bar.candle.openTime, b'.capital);
            && b'.capital == b.capital + (Times(Times(pos.qty, exit), 1.0 - p.commission) - Times(pos.qty, pos.entryPrice))
            && b'.position.None? && |b'.trades| == |b.trades| + 1 && b.trades <= b'.trades
            && b'.curve == b.curve + [point] + [point]
  {
    var pos := Process(p, bars).position.value;
    ProcessSnoc(p, bars, bar);
    ExitNet(p, pos.entryPrice, pos.qty, bar.candle.close);
  }

  /** So does the forced close, at the close of the last candle and with one point; without a position it changes
      nothing. */
  lemma {:induction false} ForcedCloseBrings(p: Params, b: Book, last: Candle)
    ensures var b' := Finish(p, b, last);
            && (b.position.None? ==> b' == b)
            && (b.position.Some? ==>
                  var pos, exit := b.position.value, last.close;
                  && b'.capital == b.capital + (Times(Times(pos.qty, exit), 1.0 - p.commission) - Times(pos.qty, pos.entryPrice))
                  && b'.position.None? && b'.curve == b.curve + [Point(last.openTime, b'.capital)])
  {
    if b.position.Some? {
      var pos := b.position.value;
      ExitNet(p, pos.entryPrice, pos.qty, last.close);
    }
  }

  // ----- What the report of a run shows -----

  lemma {:induction false} LabelsKeepProfit(trades: seq<Trade>, market: string, symbol: string)
    ensures TotalPnl(Labelled(trades, market, symbol)) == TotalPnl(trades)
  {
    if trades == [] {
    } else {
      var n := |trades| - 1;
      LabelsKeepProfit(trades[..n], market, symbol);
      assert Labelled(trades, market, symbol)[..n] == Labelled(trades[..n], market, symbol);
    }
  }

  lemma {:induction false} PricesFromCandles(cfg: Config, candles: seq<Candle>, start: nat, n: nat)
    requires WARMUP <= start && n <= |candles|
    requires forall i :: 0 <= i < |candles| ==> candles[i].close > 0.0
    ensures forall i :: 0 <= i < |Bars(cfg, candles, start, n)| ==> Bars(cfg, candles, start, n)[i].candle.close > 0.0
  {
    if n <= start {
    } else {
      PricesFromCandles(cfg, candles, start, n - 1);
    }
  }

  lemma {:induction false} FinalBookAddsUp(cfg: Config, candles: seq<Candle>, since: int)
    ensures var p, b := cfg.params, FinalBook(cfg, candles, since);
            b.position.None? && Booked(p, b) && Conserved(p, b)
  {
    if candles == [] {
    } else {
      Conservation(cfg.params, Processed(cfg, candles, since), candles[|candles| - 1]);
    }
  }

  lemma {:induction false} FinalBookFloor(cfg: Config, candles: seq<Candle>, since: int)
    requires cfg.params.amount >= 0.0 && 0.0 <= cfg.params.commission <= 1.0
    requires forall i :: 0 <= i < |candles| ==> candles[i].close > 0.0
    ensures var p, b := cfg.params, FinalBook(cfg, candles, since);
            b.capital >= p.initial - Stakes(p, |b.trades|) - EntryFees(p, |b.trades|)
  {
    if candles == [] {
    } else {
      match StartIndex(candles, since, |candles|)
      case None =>
      case Some(start) => PricesFromCandles(cfg, candles, start, |candles|);
      CapitalFloor(cfg.params, Processed(cfg, candles, since), candles[|candles| - 1]);
    }
  }

  /** The figures a user reads: in every report the final equity is the initial capital plus the listed profits
      minus one entry commission per listed trade, up to n + 1 half units of the sixth decimal. */
  lemma {:induction false} ReportAddsUp(cfg: Config, candles: seq<Candle>, q: Query, r: BacktestResult)
    requires cfg.params.initial != 0.0
    requires Reports(cfg, r, q, FinalBook(cfg, candles, q.since), StartIndex(candles, q.since, |candles|).Some?)
    ensures Abs(r.finalEquity - ReportedTotal(cfg.params, r.trades)) <= HalfUnits(|r.trades| + 1)
  {
    var b := FinalBook(cfg, candles, q.since);
    LabelsKeepProfit(b.trades, q.market, q.symbol);
    if StartIndex(candles, q.since, |candles|).None? {
      NothingToTrade(cfg, candles, q.since);
      assert HalfUnits(1) >= 0.0 && EntryFees(cfg.params, 0) == 0.0;
    } else {
      FinalBookAddsUp(cfg, candles, q.since);
      ReportedBook(cfg.params, b);
    }
  }

  /** And over positive prices the reported equity is not below the initial capital minus, for each listed
      trade, its amount and entry commission, by more than the rounding of the report itself. */
  lemma {:induction false} ReportedFloor(cfg: Config, candles: seq<Candle>, q: Query, r: BacktestResult)
    requires cfg.params.initial != 0.0
    requires cfg.params.amount >= 0.0 && 0.0 <= cfg.params.commission <= 1.0
    requires forall i :: 0 <= i < |candles| ==> candles[i].close > 0.0
    requires Reports(cfg, r, q, FinalBook(cfg, candles, q.since), StartIndex(candles, q.since, |candles|).Some?)
    ensures var p, n := cfg.params, |r.trades|;
            r.finalEquity >= p.initial - Stakes(p, n) - EntryFees(p, n) - HalfUnits(1)
  {
    var b := FinalBook(cfg, candles, q.since);
    FinalBookFloor(cfg, candles, q.since);
    if StartIndex(candles, q.since, |candles|).None? {
      NothingToTrade(cfg, candles, q.since);
    } else {
      assert Pow10(6) == 1000000;
      RoundError(b.capital, 6);
    }
    assert HalfUnits(1) == 0.5 * MICRO;
  }

  /** What else a report shows: every listed trade carries the market and symbol asked for and is otherwise the
      broker's own; the return is that of the unrounded final capital, within half a unit of the fourth decimal. */
  lemma {:induction false} ReportMeans(cfg: Config, candles: seq<Candle>, q: Query, r: BacktestResult)
    requires cfg.params.initial != 0.0
    requires Reports(cfg, r, q, FinalBook(cfg, candles, q.since), StartIndex(candles, q.since, |candles|).Some?)
    ensures var b := FinalBook(cfg, candles, q.since);
            && r.query == q && r.initialCapital == cfg.params.initial && r.curve == b.curve
            && |r.trades| == |b.trades| == r.metrics.totalTrades
            && (forall i :: 0 <= i < |r.trades| ==>
                  && r.trades[i].market == q.market && r.trades[i].symbol == q.symbol
                  && r.trades[i].(market := "", symbol := "") == b.trades[i].(market := "", symbol := ""))
            && Abs(r.metrics.totalReturnPct - 100.0 * (b.capital / cfg.params.initial - 1.0)) <= 0.00005
  {
    var b := FinalBook(cfg, candles, q.since);
    FiguresMean(r.metrics, r.trades, r.curve, cfg.params.initial, b.capital, cfg.sqrt);
  }
}
