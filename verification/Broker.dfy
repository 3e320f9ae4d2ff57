/** The simulated long-only broker: one position at a time, a commission on each side, an equity curve. */
module Broker {
  import opened Wrappers
  import opened Rounding
  import opened Metrics

  datatype Candle = Candle(openTime: int, open: real, high: real, low: real, close: Price,
                           volume: real, closeTime: int)

  datatype Kind = BUY | SELL | HOLD

  datatype Signal = Signal(kind: Kind, reason: string)

  datatype Bar = Bar(signal: Signal, candle: Candle)

  datatype Position = Position(entryPrice: Price, qty: real, entryTs: int, entryReason: string)

  datatype Params = Params(initial: real, amount: real, commission: real)

  /** All that the broker holds. */
  datatype Book = Book(capital: real, position: Option<Position>, trades: seq<Trade>, curve: seq<Point>)

  function Start(p: Params): Book {
    Book(p.initial, None, [], [])
  }

  /** Profit of a round trip after the exit commission; the entry commission was paid on entry. */
  function NetPnl(p: Params, entry: Price, qty: real, exit: real): real {
    (exit - entry) * qty - exit * qty * p.commission
  }

  /** The entry commission. */
  function Fee(p: Params): real {
    p.amount * p.commission
  }

  function TradeOf(p: Params, pos: Position, price: real, ts: int, reason: string): Trade {
    Trade("", "", pos.entryPrice, price, pos.qty,
          RoundTo(NetPnl(p, pos.entryPrice, pos.qty, price), 6),
          RoundTo((price - pos.entryPrice) / pos.entryPrice * 100.0, 4),
          pos.entryTs, ts, pos.entryReason, reason)
  }

  function Close(p: Params, b: Book, price: real, ts: int, reason: string): Book {
    if b.position.None? then b
    else
      var pos := b.position.value;
      var capital := b.capital + NetPnl(p, pos.entryPrice, pos.qty, price);
      Book(capital, None, b.trades + [TradeOf(p, pos, price, ts, reason)], b.curve + [Point(ts, capital)])
  }

  function Open(p: Params, b: Book, bar: Bar): Book {
    b.(capital := b.capital - Fee(p),
       position := Some(Position(bar.candle.close, p.amount / bar.candle.close, bar.candle.openTime, bar.signal.reason)))
  }

  function Step(p: Params, b: Book, bar: Bar): Book {
    var c := bar.candle;
    var b' := if bar.signal.kind.BUY? && b.position.None? then Open(p, b, bar)
              else if bar.signal.kind.SELL? && b.position.Some? then Close(p, b, c.close, c.openTime, bar.signal.reason)
              else b;
    b'.(curve := b'.curve + [Point(c.openTime, b'.capital)])
  }

  /** The book after a sequence of bars. */
  function Process(p: Params, bars: seq<Bar>): Book {
    if bars == [] then Start(p) else Step(p, Process(p, bars[..|bars| - 1]), bars[|bars| - 1])
  }

  lemma {:induction false} ProcessSnoc(p: Params, bars: seq<Bar>, bar: Bar)
    ensures Process(p, bars + [bar]) == Step(p, Process(p, bars), bar)
  {
    assert (bars + [bar])[..|bars|] == bars;
  }

  const END_REASON := "backtest_end"

  /** Force-closing what is still open, at the last candle. */
  function Finish(p: Params, b: Book, last: Candle): Book {
    Close(p, b, last.close, last.openTime, END_REASON)
  }

  class BacktestBroker {
    const params: Params
    var capital: real
    var position: Option<Position>
    var trades: seq<Trade>
    var curve: seq<Point>

    ghost function State(): Book
      reads this
    {
      Book(capital, position, trades, curve)
    }

    constructor (params: Params)
      ensures this.params == params && State() == Start(params)
    {
      this.params := params;
      capital, position, trades, curve := params.initial, None, [], [];
    }

    method OnSignal(signal: Signal, candle: Candle)
      modifies this
      ensures State() == Step(params, old(State()), Bar(signal, candle))
    {
      if signal.kind.BUY? && position.None? {
        var qty := params.amount / candle.close;
        var commission := params.amount * params.commission;
        assert commission == Fee(params);
        capital := capital - commission;
        position := Some(Position(candle.close, qty, candle.openTime, signal.reason));
      } else if signal.kind.SELL? && position.Some? {
        CloseOpenPosition(candle.close, candle.openTime, signal.reason);
      }
      curve := curve + [Point(candle.openTime, capital)];
    }

    method CloseOpenPosition(price: real, ts: int, reason: string)
      modifies this
      ensures State() == Close(params, old(State()), price, ts, reason)
    {
      if position.None? {
        return;
      }
      var pos := position.value;
      var grossPnl := (price - pos.entryPrice) * pos.qty;
      var commission := price * pos.qty * params.commission;
      var netPnl := grossPnl - commission;
      assert netPnl == NetPnl(params, pos.entryPrice, pos.qty, price);
      var pnlPct := (price - pos.entryPrice) / pos.entryPrice * 100.0;
      capital := capital + netPnl;
      trades := trades + [Trade("", "", pos.entryPrice, price, pos.qty, RoundTo(netPnl, 6), RoundTo(pnlPct, 4),
                                pos.entryTs, ts, pos.entryReason, reason)];
      position := None;
      curve := curve + [Point(ts, capital)];
    }
  }
}
