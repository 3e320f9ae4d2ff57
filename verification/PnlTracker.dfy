/** Realised profit is kept in four Redis views at once; this module proves that they agree over any run. */
module PnlTracker {
  import opened Wrappers
  import opened Rounding
  import Keys

  function SymbolKey(market: string, symbol: string): string {
    "hydra:pnl:symbol:" + (market + ":" + symbol)
  }

  /** A counter reads zero until it is first incremented. */
  function Get(counters: map<string, real>, key: string): real {
    if key in counters then counters[key] else 0.0
  }

  function Add(counters: map<string, real>, key: string, amount: real): map<string, real> {
    counters[key := Get(counters, key) + amount]
  }

  datatype Ledger = Ledger(total: real, daily: map<string, real>, count: int, symbols: map<string, real>)

  const EMPTY := Ledger(0.0, map[], 0, map[])

  /** `date` is the day on which the call is made; days roll over between calls. */
  datatype Op =
    | Record(market: string, symbol: string, pnl: real, date: string)
    | ResetDaily(date: string)

  function Apply(l: Ledger, op: Op): Ledger {
    match op
    case Record(m, s, pnl, date) =>
      Ledger(l.total + pnl, Add(l.daily, date, pnl), l.count + 1, Add(l.symbols, SymbolKey(m, s), pnl))
    case ResetDaily(date) => l.(daily := l.daily - {date})
  }

  function After(run: seq<Op>): Ledger {
    if run == [] then EMPTY else Apply(After(run[..|run| - 1]), run[|run| - 1])
  }

  class Tracker {
    var total: real
    var daily: map<string, real>
    var count: int
    var symbols: map<string, real>

    ghost function State(): Ledger
      reads this
    {
      Ledger(total, daily, count, symbols)
    }

    constructor ()
      ensures State() == EMPTY
    {
      total, daily, count, symbols := 0.0, map[], 0, map[];
    }

    method RecordTrade(market: string, symbol: string, pnl: real, today: string)
      modifies this
      ensures State() == Apply(old(State()), Record(market, symbol, pnl, today))
    {
      total := total + pnl;
      daily := Add(daily, today, pnl);
      count := count + 1;
      symbols := Add(symbols, SymbolKey(market, symbol), pnl);
    }

    method ResetDaily(today: string)
      modifies this
      ensures State() == Apply(old(State()), Op.ResetDaily(today))
    {
      daily := daily - {today};
    }
  }

  // ----- What the counters should say, read off the history -----

  function Recorded(run: seq<Op>): real {
    if run == [] then 0.0
    else
      var op := run[|run| - 1];
      Recorded(run[..|run| - 1]) + if op.Record? then op.pnl else 0.0
  }

  function Records(run: seq<Op>): int {
    if run == [] then 0 else Records(run[..|run| - 1]) + if run[|run| - 1].Record? then 1 else 0
  }

  function RecordedFor(run: seq<Op>, market: string, symbol: string): real {
    if run == [] then 0.0
    else
      var op := run[|run| - 1];
      RecordedFor(run[..|run| - 1], market, symbol)
      + if op.Record? && op.market == market && op.symbol == symbol then op.pnl else 0.0
  }

  /** Recorded on `date` since the last reset of that day. */
  function RecordedOn(run: seq<Op>, date: string): real {
    if run == [] then 0.0
    else
      var op := run[|run| - 1];
      if op == Op.ResetDaily(date) then 0.0
      else RecordedOn(run[..|run| - 1], date) + if op.Record? && op.date == date then op.pnl else 0.0
  }

  /** What all resets together have wiped. */
  function Cleared(run: seq<Op>): real {
    if run == [] then 0.0
    else
      var front, op := run[..|run| - 1], run[|run| - 1];
      Cleared(front) + if op.ResetDaily? then RecordedOn(front, op.date) else 0.0
  }

  ghost predicate PlainMarkets(run: seq<Op>) {
    forall i :: 0 <= i < |run| && run[i].Record? ==> Keys.ColonFree(run[i].market)
  }

  lemma {:induction false} SymbolKeyInjective(m: string, s: string, n: string, t: string)
    requires Keys.ColonFree(m) && Keys.ColonFree(n)
    ensures SymbolKey(m, s) == SymbolKey(n, t) <==> m == n && s == t
  {
    if SymbolKey(m, s) == SymbolKey(n, t) {
      var p := |"hydra:pnl:symbol:"|;
      assert SymbolKey(m, s)[p..] == m + ":" + s && SymbolKey(n, t)[p..] == n + ":" + t;
      Keys.PairInjective(m, s, n, t);
    }
  }

  /** The total and the trade count are the sum and the number of all records, and a daily counter is the
      sum of its day's records since the last reset. */
  lemma {:induction false} TotalsMatchHistory(run: seq<Op>, date: string)
    ensures After(run).total == Recorded(run) && After(run).count == Records(run)
    ensures Get(After(run).daily, date) == RecordedOn(run, date)
  {
    if run == [] {
    } else {
      TotalsMatchHistory(run[..|run| - 1], date);
    }
  }

  /** A symbol counter is the sum of the records of exactly that (market, symbol), whatever colons the
      symbols contain: no two pairs share a counter. */
  lemma {:induction false} SymbolsMatchHistory(run: seq<Op>, market: string, symbol: string)
    requires PlainMarkets(run) && Keys.ColonFree(market)
    ensures Get(After(run).symbols, SymbolKey(market, symbol)) == RecordedFor(run, market, symbol)
  {
    if run == [] {
    } else {
      var n := |run| - 1;
      SymbolsMatchHistory(run[..n], market, symbol);
      if run[n].Record? {
        SymbolKeyInjective(run[n].market, run[n].symbol, market, symbol);
      }
    }
  }

  // ----- The views agree -----

  function Sum(counters: map<string, real>, keys: seq<string>): real {
    if keys == [] then 0.0 else Sum(counters, keys[..|keys| - 1]) + Get(counters, keys[|keys| - 1])
  }

  /** `keys` lists every counter, once. */
  ghost predicate Covers(keys: seq<string>, counters: map<string, real>) {
    && (forall k :: k in counters ==> k in keys)
    && (forall i, j :: 0 <= i < j < |keys| ==> keys[i] != keys[j])
  }

  lemma {:induction false} SumUnaffected(a: map<string, real>, b: map<string, real>, keys: seq<string>)
    requires forall k :: k in keys ==> Get(a, k) == Get(b, k)
    ensures Sum(a, keys) == Sum(b, keys)
  {
    if keys == [] {
    } else {
      SumUnaffected(a, b, keys[..|keys| - 1]);
    }
  }

  lemma {:induction false} SumAdd(counters: map<string, real>, keys: seq<string>, key: string, amount: real)
    requires forall i, j :: 0 <= i < j < |keys| ==> keys[i] != keys[j]
    requires key in keys
    ensures Sum(Add(counters, key, amount), keys) == Sum(counters, keys) + amount
  {
    var n := |keys| - 1;
    var after := Add(counters, key, amount);
    if keys[n] == key {
      SumUnaffected(counters, after, keys[..n]);
    } else {
      SumAdd(counters, keys[..n], key, amount);
    }
  }

  lemma {:induction false} SumSnoc(counters: map<string, real>, keys: seq<string>, key: string)
    ensures Sum(counters, keys + [key]) == Sum(counters, keys) + Get(counters, key)
  {
    assert (keys + [key])[..|keys|] == keys;
  }

  lemma {:induction false} SumRemove(counters: map<string, real>, keys: seq<string>, key: string)
    requires forall i, j :: 0 <= i < j < |keys| ==> keys[i] != keys[j]
    ensures Sum(counters - {key}, keys) == Sum(counters, keys) - if key in keys then Get(counters, key) else 0.0
  {
    var less := counters - {key};
    if key in keys {
      SumAdd(less, keys, key, Get(counters, key));
      SumUnaffected(Add(less, key, Get(counters, key)), counters, keys);
    } else {
      SumUnaffected(less, counters, keys);
    }
  }

  /** Some list covers all counters when `keys` covers all but one of them. */
  function Complete(keys: seq<string>, key: string): seq<string> {
    if key in keys then keys else keys + [key]
  }

  lemma {:induction false} SumReset(counters: map<string, real>, keys: seq<string>, key: string)
    requires Covers(keys, counters - {key})
    ensures Covers(Complete(keys, key), counters)
    ensures Sum(counters - {key}, keys) == Sum(counters, Complete(keys, key)) - Get(counters, key)
  {
    SumRemove(counters, keys, key);
    SumSnoc(counters, keys, key);
  }

  /** In every reachable state the realised total is the sum over all symbol counters. */
  lemma {:induction false} SymbolsSumToTotal(run: seq<Op>, keys: seq<string>)
    requires Covers(keys, After(run).symbols)
    ensures Sum(After(run).symbols, keys) == After(run).total
  {
    if run == [] {
      SumOfNothing(keys);
    } else {
      var front, op := run[..|run| - 1], run[|run| - 1];
      assert Covers(keys, After(front).symbols);
      SymbolsSumToTotal(front, keys);
      if op.Record? {
        assert SymbolKey(op.market, op.symbol) in After(run).symbols;
        SumAdd(After(front).symbols, keys, SymbolKey(op.market, op.symbol), op.pnl);
      }
    }
  }

  lemma {:induction false} SumOfNothing(keys: seq<string>)
    ensures Sum(map[], keys) == 0.0
  {
    if keys == [] {
    } else {
      SumOfNothing(keys[..|keys| - 1]);
    }
  }

  /** ... and it is the sum over all daily counters plus what resets have cleared: a reset loses nothing
      from the total. */
  lemma {:induction false} DaysSumToTotal(run: seq<Op>, keys: seq<string>)
    requires Covers(keys, After(run).daily)
    ensures Sum(After(run).daily, keys) + Cleared(run) == After(run).total
  {
    if run == [] {
      SumOfNothing(keys);
    } else {
      var front, op := run[..|run| - 1], run[|run| - 1];
      var l := After(front);
      match op
      case Record(m, s, pnl, date) =>
        assert date in After(run).daily;
        assert Covers(keys, l.daily);
        DaysSumToTotal(front, keys);
        SumAdd(l.daily, keys, date, pnl);
      case ResetDaily(date) =>
        SumReset(l.daily, keys, date);
        DaysSumToTotal(front, Complete(keys, date));
        TotalsMatchHistory(front, date);
    }
  }

  // ----- Unrealised profit and the summary -----

  /** A position as the API hands it over; any field may be missing. */
  datatype OpenPosition = OpenPosition(qty: Option<real>, avgPrice: Option<real>, markPrice: Option<real>,
                                       side: Option<string>, leverage: Option<real>)

  function CalcUnrealized(p: OpenPosition): real {
    var qty, avg := p.qty.GetOr(0.0), p.avgPrice.GetOr(0.0);
    var mark := p.markPrice.GetOr(avg);
    var diff := mark - avg;
    var signed := if p.side.GetOr("buy") == "sell" then -diff else diff;
    if qty == 0.0 || avg == 0.0 then 0.0 else signed * qty * p.leverage.GetOr(1.0)
  }

  /** A short position mirrors the long one, and a position marked at its own price is worth nothing. */
  lemma {:induction false} ShortMirrorsLong(p: OpenPosition)
    ensures CalcUnrealized(p.(side := Some("sell"))) == -CalcUnrealized(p.(side := Some("buy")))
    ensures p.markPrice == p.avgPrice || p.markPrice.None? ==> CalcUnrealized(p) == 0.0
  {
    var qty, avg, lev := p.qty.GetOr(0.0), p.avgPrice.GetOr(0.0), p.leverage.GetOr(1.0);
    var diff := p.markPrice.GetOr(avg) - avg;
    assert (-diff) * qty == -(diff * qty);
    assert (-(diff * qty)) * lev == -(diff * qty * lev);
    if diff == 0.0 {
      assert diff * qty == 0.0 && (-diff) * qty == 0.0;
    }
  }

  /** What a position is worth: leverage times the difference between its value at the mark and at the average
      price, the other way round for a short; nothing when size or average price is missing or zero. */
  lemma {:induction false} WorthExactly(p: OpenPosition)
    ensures p.qty.None? || p.qty.value == 0.0 || p.avgPrice.None? || p.avgPrice.value == 0.0 ==> CalcUnrealized(p) == 0.0
    ensures p.qty.Some? && p.qty.value != 0.0 && p.avgPrice.Some? && p.avgPrice.value != 0.0 ==>
              var qty, avg := p.qty.value, p.avgPrice.value;
              var mark := if p.markPrice.Some? then p.markPrice.value else avg;
              var lev := if p.leverage.Some? then p.leverage.value else 1.0;
              CalcUnrealized(p) == if p.side == Some("sell") then Times(Times(qty, avg) - Times(qty, mark), lev)
                                   else Times(Times(qty, mark) - Times(qty, avg), lev)
  {
    var qty, avg, lev := p.qty.GetOr(0.0), p.avgPrice.GetOr(0.0), p.leverage.GetOr(1.0);
    var mark := p.markPrice.GetOr(avg);
    Spread(mark, avg, qty);
    Spread(avg, mark, qty);
    assert -(mark - avg) == avg - mark;
  }

  lemma {:induction false} Spread(a: real, b: real, qty: real)
    ensures (a - b) * qty == Times(qty, a) - Times(qty, b)
  {
  }

  /** A long of positive size and leverage gains exactly when the mark is above the average price, a short exactly
      when it is below. */
  lemma {:induction false} GainsExactly(p: OpenPosition, qty: real, avg: real, mark: real, lev: real)
    requires p.qty == Some(qty) && p.avgPrice == Some(avg) && p.markPrice == Some(mark) && p.leverage == Some(lev)
    requires qty > 0.0 && lev > 0.0 && avg != 0.0
    ensures p.side != Some("sell") ==> (CalcUnrealized(p) > 0.0 <==> mark > avg) && (CalcUnrealized(p) < 0.0 <==> mark < avg)
    ensures p.side == Some("sell") ==> (CalcUnrealized(p) > 0.0 <==> mark < avg) && (CalcUnrealized(p) < 0.0 <==> mark > avg)
  {
    var diff := mark - avg;
    ProductSign(diff, qty, lev);
    ProductSign(-diff, qty, lev);
  }

  lemma {:induction false} ProductSign(d: real, qty: real, lev: real)
    requires qty > 0.0 && lev > 0.0
    ensures d * qty * lev > 0.0 <==> d > 0.0
    ensures d * qty * lev < 0.0 <==> d < 0.0
  {
    FactorSign(d, qty);
    FactorSign(d * qty, lev);
  }

  lemma {:induction false} FactorSign(d: real, x: real)
    requires x > 0.0
    ensures d * x > 0.0 <==> d > 0.0
    ensures d * x < 0.0 <==> d < 0.0
  {
    assert Times(d, x) == d * x;
    Sign(d, x);
    TimesSign(d, x);
    assert d == 0.0 ==> d * x == 0.0;
  }

  function Unrealized(ps: seq<OpenPosition>): real {
    if ps == [] then 0.0 else Unrealized(ps[..|ps| - 1]) + CalcUnrealized(ps[|ps| - 1])
  }

  function RoundedUnrealized(ps: seq<OpenPosition>): real {
    if ps == [] then 0.0 else RoundedUnrealized(ps[..|ps| - 1]) + RoundTo(CalcUnrealized(ps[|ps| - 1]), 4)
  }

  datatype Summary = Summary(realizedTotal: real, dailyRealized: real, unrealized: real, totalPnl: real,
                             tradeCount: int, perPosition: seq<real>)

  function GetSummary(l: Ledger, today: string, ps: seq<OpenPosition>): Summary {
    Summary(RoundTo(l.total, 4), RoundTo(Get(l.daily, today), 4), RoundTo(Unrealized(ps), 4),
            RoundTo(l.total + Unrealized(ps), 4), l.count,
            seq(|ps|, i requires 0 <= i < |ps| => RoundTo(CalcUnrealized(ps[i]), 4)))
  }

  const UNIT := 0.0001

  /** The reported total differs from the reported realised plus the reported unrealised profit by at most
      one unit of the fourth decimal. */
  lemma {:induction false} SummaryTotal(l: Ledger, today: string, ps: seq<OpenPosition>)
    ensures var s := GetSummary(l, today, ps);
            Abs(s.totalPnl - (s.realizedTotal + s.unrealized)) <= UNIT
  {
    assert Pow10(4) == 10000;
    RoundedSumWithinOneUnit(l.total, Unrealized(ps), 4);
  }

  lemma {:induction false} PositionRounding(ps: seq<OpenPosition>)
    ensures Abs(Unrealized(ps) - RoundedUnrealized(ps)) <= |ps| as real * (0.5 * UNIT)
  {
    if ps == [] {
    } else {
      var n := |ps| - 1;
      PositionRounding(ps[..n]);
      assert Pow10(4) == 10000;
      RoundError(CalcUnrealized(ps[n]), 4);
      assert |ps| as real * (0.5 * UNIT) == n as real * (0.5 * UNIT) + 0.5 * UNIT;
    }
  }

  /** The reported unrealised profit differs from the sum of the n reported per-position values by at most
      (n + 1) / 2 units of the fourth decimal. */
  lemma {:induction false} SummaryPositions(l: Ledger, today: string, ps: seq<OpenPosition>)
    ensures Abs(GetSummary(l, today, ps).unrealized - SumOf(GetSummary(l, today, ps).perPosition))
            <= (|ps| as real + 1.0) * (0.5 * UNIT)
  {
    var s := GetSummary(l, today, ps);
    PositionRounding(ps);
    PerPosition(ps);
    assert Pow10(4) == 10000;
    RoundError(Unrealized(ps), 4);
    Chain(s.unrealized, Unrealized(ps), SumOf(s.perPosition), 0.5 * UNIT, |ps| as real * (0.5 * UNIT));
  }

  lemma {:induction false} Chain(a: real, b: real, c: real, x: real, y: real)
    requires Abs(a - b) <= x && Abs(b - c) <= y
    ensures Abs(a - c) <= x + y
  {
  }

  function SumOf(xs: seq<real>): real {
    if xs == [] then 0.0 else SumOf(xs[..|xs| - 1]) + xs[|xs| - 1]
  }

  lemma {:induction false} PerPosition(ps: seq<OpenPosition>)
    ensures SumOf(seq(|ps|, i requires 0 <= i < |ps| => RoundTo(CalcUnrealized(ps[i]), 4))) == RoundedUnrealized(ps)
  {
    if ps == [] {
    } else {
      var n := |ps| - 1;
      var xs := seq(|ps|, i requires 0 <= i < |ps| => RoundTo(CalcUnrealized(ps[i]), 4));
      PerPosition(ps[..n]);
      assert xs[..n] == seq(n, i requires 0 <= i < n => RoundTo(CalcUnrealized(ps[..n][i]), 4));
    }
  }

  function Worths(ps: seq<OpenPosition>): seq<real> {
    seq(|ps|, i requires 0 <= i < |ps| => CalcUnrealized(ps[i]))
  }

  lemma {:induction false} UnrealizedIsSum(ps: seq<OpenPosition>)
    ensures Unrealized(ps) == SumOf(Worths(ps))
  {
    if ps == [] {
    } else {
      var n := |ps| - 1;
      UnrealizedIsSum(ps[..n]);
      assert Worths(ps)[..n] == Worths(ps[..n]);
    }
  }

  lemma {:induction false} NearCent(x: real)
    ensures Abs(RoundTo(x, 4) - x) <= 0.5 * UNIT
  {
    assert Pow10(4) == 10000;
    RoundError(x, 4);
  }

  /** What a summary shows after any history, each figure within half a unit of the fourth decimal: everything
      recorded, what was recorded that day since its last reset, the worth of the open positions, and both together;
      the number of records is exact. */
  lemma {:induction false} SummaryMeans(run: seq<Op>, today: string, ps: seq<OpenPosition>)
    ensures var s := GetSummary(After(run), today, ps);
            && Abs(s.realizedTotal - Recorded(run)) <= 0.5 * UNIT
            && Abs(s.dailyRealized - RecordedOn(run, today)) <= 0.5 * UNIT
            && Abs(s.unrealized - SumOf(Worths(ps))) <= 0.5 * UNIT
            && Abs(s.totalPnl - (Recorded(run) + SumOf(Worths(ps)))) <= 0.5 * UNIT
            && s.tradeCount == Records(run)
            && |s.perPosition| == |ps|
            && forall i :: 0 <= i < |ps| ==> Abs(s.perPosition[i] - CalcUnrealized(ps[i])) <= 0.5 * UNIT
  {
    TotalsMatchHistory(run, today);
    UnrealizedIsSum(ps);
    NearCent(Recorded(run));
    NearCent(RecordedOn(run, today));
    NearCent(Unrealized(ps));
    NearCent(Recorded(run) + Unrealized(ps));
    PositionsShown(After(run), today, ps);
  }

  lemma {:induction false} PositionsShown(l: Ledger, today: string, ps: seq<OpenPosition>)
    ensures var shown := GetSummary(l, today, ps).perPosition;
            |shown| == |ps| && forall i :: 0 <= i < |ps| ==> Abs(shown[i] - CalcUnrealized(ps[i])) <= 0.5 * UNIT
  {
    forall i | 0 <= i < |ps|
      ensures Abs(RoundTo(CalcUnrealized(ps[i]), 4) - CalcUnrealized(ps[i])) <= 0.5 * UNIT
    {
      NearCent(CalcUnrealized(ps[i]));
    }
  }

  lemma {:induction false} SymbolKeyForm(rest: string)
    ensures "hydra:pnl:symbol:" + rest == "hydra" + ":" + ("pnl" + ":" + ("symbol" + ":" + rest))
  {
  }

  /** The counter of a symbol in Redis' own terms. */
  lemma {:induction false} SymbolKeyParts(market: string, symbol: string)
    requires Keys.ColonFree(market)
    ensures Keys.Split(SymbolKey(market, symbol)) == ["hydra", "pnl", "symbol", market] + Keys.Split(symbol)
  {
    SymbolKeyForm(market + ":" + symbol);
    Keys.FourInFront("hydra", "pnl", "symbol", market, symbol);
  }
}
