/** Trades, the equity curve, and the figures computed from them in one pass. */
module Metrics {
  import opened Rounding

  /** A price the program may divide by. */
  type Price = x: real | x != 0.0 witness 1.0

  datatype Trade = Trade(market: string, symbol: string, entryPrice: Price, exitPrice: real, qty: real,
                         pnlUsd: real, pnlPct: real, entryTs: int, exitTs: int,
                         entryReason: string, exitReason: string)

  datatype Point = Point(ts: int, equity: real)

  datatype Figures = Figures(totalReturnPct: real, totalTrades: nat, winRate: real,
                             maxDrawdownPct: real, sharpeRatio: real, avgPnlUsd: real)

  // ----- Drawdown, as a definition -----

  function Max(a: real, b: real): real {
    if a >= b then a else b
  }

  /** The highest equity up to and including point j. */
  function Peak(curve: seq<Point>, j: nat): real
    requires j < |curve|
  {
    if j == 0 then curve[0].equity else Max(Peak(curve, j - 1), curve[j].equity)
  }

  /** By how many percent `equity` is below `peak`; nothing is lost from a peak that is not positive. */
  function DropPct(peak: real, equity: real): real {
    if peak > 0.0 then (peak - equity) / peak * 100.0 else 0.0
  }

  function Drop(curve: seq<Point>, j: nat): real
    requires j < |curve|
  {
    DropPct(Peak(curve, j), curve[j].equity)
  }

  ghost predicate IsMaxDrop(curve: seq<Point>, d: real) {
    && (forall j :: 0 <= j < |curve| ==> Drop(curve, j) <= d)
    && (exists j :: 0 <= j < |curve| && Drop(curve, j) == d)
  }

  lemma {:induction false} DropNotNegative(curve: seq<Point>, j: nat)
    requires j < |curve|
    ensures Drop(curve, j) >= 0.0
  {
    var p, e := Peak(curve, j), curve[j].equity;
    assert p >= e;
    if p > 0.0 {
      QuotientSign(p - e, p);
    }
  }

  lemma {:induction false} QuotientSign(a: real, b: real)
    requires a >= 0.0 && b > 0.0
    ensures a / b >= 0.0
  {
  }

  /** The single pass with a running peak finds the deepest drop from the prefix maximum. */
  method MaxDrawdown(curve: seq<Point>) returns (d: real)
    ensures curve == [] ==> d == 0.0
    ensures curve != [] ==> IsMaxDrop(curve, d)
  {
    d := 0.0;
    if curve == [] {
      return;
    }
    var peak := curve[0].equity;
    ghost var at := 0;
    assert Drop(curve, 0) == 0.0;
    for i := 0 to |curve|
      invariant peak == if i == 0 then curve[0].equity else Peak(curve, i - 1)
      invariant 0 <= at < |curve| && Drop(curve, at) == d && d >= 0.0
      invariant forall j :: 0 <= j < i ==> Drop(curve, j) <= d
    {
      var eq := curve[i].equity;
      if eq > peak {
        peak := eq;
      }
      assert peak == Peak(curve, i);
      var dd := if peak > 0.0 then (peak - eq) / peak * 100.0 else 0.0;
      if dd > d {
        d := dd;
        at := i;
      }
    }
  }

  // ----- The quadratic definition -----

  ghost predicate Positive(curve: seq<Point>) {
    forall i :: 0 <= i < |curve| ==> curve[i].equity > 0.0
  }

  /** The loss from an earlier point to a later one, in percent. */
  function Loss(before: real, after: real): real
    requires before != 0.0
  {
    100.0 * (1.0 - after / before)
  }

  /** The largest loss over all pairs of points, the later one not before the earlier one. */
  ghost predicate IsMaxLoss(curve: seq<Point>, d: real)
    requires Positive(curve)
  {
    && (forall i, j :: 0 <= i <= j < |curve| ==> Loss(curve[i].equity, curve[j].equity) <= d)
    && (exists i, j :: 0 <= i <= j < |curve| && Loss(curve[i].equity, curve[j].equity) == d)
  }

  lemma {:induction false} PeakIsPrefixMaximum(curve: seq<Point>, j: nat)
    requires j < |curve|
    ensures forall i :: 0 <= i <= j ==> curve[i].equity <= Peak(curve, j)
    ensures exists i :: 0 <= i <= j && curve[i].equity == Peak(curve, j)
  {
    if j == 0 {
      assert curve[0].equity == Peak(curve, 0);
    } else {
      PeakIsPrefixMaximum(curve, j - 1);
      var i :| 0 <= i <= j - 1 && curve[i].equity == Peak(curve, j - 1);
      assert curve[i].equity == Peak(curve, j) || curve[j].equity == Peak(curve, j);
    }
  }

  lemma {:induction false} LossIsDrop(before: real, after: real)
    requires before > 0.0
    ensures Loss(before, after) == DropPct(before, after)
  {
    var q := after / before;
    assert q * before == after;
    var r := (before - after) / before;
    assert r * before == before - after;
    assert (r - (1.0 - q)) * before == 0.0;
  }

  /** From a lower positive start the loss to the same point is smaller. */
  lemma {:induction false} LossGrows(low: real, high: real, after: real)
    requires 0.0 < low <= high && after > 0.0
    ensures Loss(low, after) <= Loss(high, after)
    ensures Loss(low, after) < 100.0
  {
    var a, b := after / low, after / high;
    assert a * low == after && b * high == after;
    assert a > 0.0;
    if b > a {
      assert b * high > a * high >= a * low;
    }
  }

  /** On a positive curve the one-pass figure is the all-pairs figure, and it lies in [0, 100). */
  lemma {:induction false} OnePassIsAllPairs(curve: seq<Point>, d: real)
    requires curve != [] && Positive(curve)
    ensures IsMaxDrop(curve, d) <==> IsMaxLoss(curve, d)
    ensures IsMaxDrop(curve, d) ==> 0.0 <= d < 100.0
  {
    forall j | 0 <= j < |curve|
      ensures forall i :: 0 <= i <= j ==> Loss(curve[i].equity, curve[j].equity) <= Drop(curve, j)
      ensures exists i :: 0 <= i <= j && Loss(curve[i].equity, curve[j].equity) == Drop(curve, j)
      ensures 0.0 <= Drop(curve, j) < 100.0
    {
      BestPair(curve, j);
    }
  }

  lemma {:induction false} BestPair(curve: seq<Point>, j: nat)
    requires Positive(curve) && j < |curve|
    ensures forall i :: 0 <= i <= j ==> Loss(curve[i].equity, curve[j].equity) <= Drop(curve, j)
    ensures exists i :: 0 <= i <= j && Loss(curve[i].equity, curve[j].equity) == Drop(curve, j)
    ensures 0.0 <= Drop(curve, j) < 100.0
  {
    PeakIsPrefixMaximum(curve, j);
    DropNotNegative(curve, j);
    var after, peak := curve[j].equity, Peak(curve, j);
    var top :| 0 <= top <= j && curve[top].equity == peak;
    LossIsDrop(peak, after);
    LossGrows(peak, peak, after);
    assert Loss(curve[top].equity, after) == Drop(curve, j);
    forall i | 0 <= i <= j
      ensures Loss(curve[i].equity, after) <= Drop(curve, j)
    {
      LossGrows(curve[i].equity, peak, after);
    }
  }

  // ----- The Sharpe ratio -----

  function Square(x: real): real {
    Times(x, x)
  }

  function Mean(trades: seq<Trade>): real
    requires trades != []
  {
    TotalPnl(trades) / |trades| as real
  }

  function SquaredDeviations(trades: seq<Trade>, mean: real): real {
    if trades == [] then 0.0
    else SquaredDeviations(trades[..|trades| - 1], mean) + Square(trades[|trades| - 1].pnlUsd - mean)
  }

  function Variance(trades: seq<Trade>): real
    requires |trades| >= 2
  {
    SquaredDeviations(trades, Mean(trades)) / (|trades| - 1) as real
  }

  function Annualised(mean: real, std: real, root: real): real
    requires std > 0.0
  {
    mean / std * root
  }

  /** Mean over deviation, times the root of 252; `sqrt` stands for the library's square root. */
  function Sharpe(trades: seq<Trade>, sqrt: real -> real): real {
    if |trades| < 2 then 0.0
    else
      var std := sqrt(Variance(trades));
      if std > 0.0 then RoundTo(Annualised(Mean(trades), std, sqrt(252.0)), 4) else 0.0
  }

  ghost predicate IsRoot(sqrt: real -> real) {
    forall x :: x >= 0.0 ==> sqrt(x) >= 0.0 && Square(sqrt(x)) == x
  }

  lemma {:induction false} SquareSign(x: real)
    ensures Square(x) >= 0.0
    ensures Square(x) == 0.0 <==> x == 0.0
  {
    PositiveSquare(x);
    PositiveSquare(-x);
    NegatedSquare(x);
    if x == 0.0 {
      assert Square(0.0) == 0.0;
    }
  }

  lemma {:induction false} PositiveSquare(x: real)
    ensures x > 0.0 ==> Square(x) > 0.0
  {
    if x > 0.0 {
      Sign(x, x);
    }
  }

  lemma {:induction false} NegatedSquare(x: real)
    ensures Square(-x) == Square(x)
  {
  }

  lemma {:induction false} DeviationsSign(trades: seq<Trade>, mean: real)
    ensures SquaredDeviations(trades, mean) >= 0.0
    ensures SquaredDeviations(trades, mean) == 0.0 <==> forall i :: 0 <= i < |trades| ==> trades[i].pnlUsd == mean
  {
    if trades == [] {
    } else {
      var n := |trades| - 1;
      DeviationsSign(trades[..n], mean);
      SquareSign(trades[n].pnlUsd - mean);
    }
  }

  ghost predicate AllEqual(trades: seq<Trade>) {
    forall i, j :: 0 <= i < j < |trades| ==> trades[i].pnlUsd == trades[j].pnlUsd
  }

  lemma {:induction false} EqualTotal(trades: seq<Trade>, x: real)
    requires forall i :: 0 <= i < |trades| ==> trades[i].pnlUsd == x
    ensures TotalPnl(trades) == Times(x, |trades| as real)
  {
    if trades == [] {
      assert Times(x, 0.0) == 0.0;
    } else {
      EqualTotal(trades[..|trades| - 1], x);
      OneMoreTime(x, |trades| - 1);
    }
  }

  lemma {:induction false} OneMoreTime(x: real, n: nat)
    ensures Times(x, (n + 1) as real) == Times(x, n as real) + x
  {
  }

  lemma {:induction false} EqualMean(trades: seq<Trade>)
    requires trades != [] && AllEqual(trades)
    ensures forall i :: 0 <= i < |trades| ==> trades[i].pnlUsd == Mean(trades)
  {
    var x, n := trades[0].pnlUsd, |trades| as real;
    EqualTotal(trades, x);
    Divided(TotalPnl(trades), n);
    SameTimes(Mean(trades), x, n);
  }

  lemma {:induction false} SameTimes(a: real, b: real, n: real)
    requires n > 0.0 && Times(a, n) == Times(b, n)
    ensures a == b
  {
    Distribute(a, -b, 0.0, n);
    Negated(b, n);
    assert Times(0.0, n) == 0.0;
    Sign(a - b, n);
    assert a + -b + 0.0 == a - b;
  }

  lemma {:induction false} QuotientZero(a: real, b: real)
    requires a >= 0.0 && b > 0.0
    ensures a / b >= 0.0 && (a / b == 0.0 <==> a == 0.0)
  {
  }

  /** The spread of the profits vanishes exactly when all trades report the same profit. */
  lemma {:induction false} SpreadExactly(trades: seq<Trade>, sqrt: real -> real)
    requires |trades| >= 2 && IsRoot(sqrt)
    ensures Variance(trades) >= 0.0
    ensures sqrt(Variance(trades)) > 0.0 <==> !AllEqual(trades)
  {
    DeviationsSign(trades, Mean(trades));
    QuotientZero(SquaredDeviations(trades, Mean(trades)), (|trades| - 1) as real);
    SquareSign(sqrt(Variance(trades)));
    if AllEqual(trades) {
      EqualMean(trades);
    }
  }

  lemma {:induction false} ScaledSign(mean: real, std: real, root: real)
    requires std > 0.0 && root >= 0.0
    ensures mean >= 0.0 ==> Annualised(mean, std, root) >= 0.0
    ensures mean <= 0.0 ==> Annualised(mean, std, root) <= 0.0
  {
    var q := mean / std;
    assert q * std == mean;
    assert mean >= 0.0 ==> q >= 0.0;
    assert mean <= 0.0 ==> q <= 0.0;
    SameSign(q, root);
  }

  lemma {:induction false} SameSign(q: real, root: real)
    requires root >= 0.0
    ensures q >= 0.0 ==> q * root >= 0.0
    ensures q <= 0.0 ==> q * root <= 0.0
  {
  }

  lemma {:induction false} MeanSign(trades: seq<Trade>)
    requires trades != []
    ensures Mean(trades) >= 0.0 <==> TotalPnl(trades) >= 0.0
    ensures Mean(trades) <= 0.0 <==> TotalPnl(trades) <= 0.0
  {
    var n := |trades| as real;
    Divided(TotalPnl(trades), n);
    TimesSign(Mean(trades), n);
    Sign(Mean(trades), n);
  }

  /** The reported ratio never contradicts the result of the trades, and without any spread it is zero. */
  lemma {:induction false} SharpeSign(trades: seq<Trade>, sqrt: real -> real)
    requires IsRoot(sqrt)
    ensures TotalPnl(trades) >= 0.0 ==> Sharpe(trades, sqrt) >= 0.0
    ensures TotalPnl(trades) <= 0.0 ==> Sharpe(trades, sqrt) <= 0.0
    ensures AllEqual(trades) ==> Sharpe(trades, sqrt) == 0.0
  {
    if |trades| >= 2 {
      SpreadExactly(trades, sqrt);
      var mean, std := Mean(trades), sqrt(Variance(trades));
      if std > 0.0 {
        MeanSign(trades);
        ScaledSign(mean, std, sqrt(252.0));
        RoundSign(Annualised(mean, std, sqrt(252.0)), 4);
      }
    }
  }

  // ----- The figures -----

  function Wins(trades: seq<Trade>): nat {
    if trades == [] then 0 else Wins(trades[..|trades| - 1]) + if trades[|trades| - 1].pnlUsd > 0.0 then 1 else 0
  }

  function Winners(trades: seq<Trade>): set<nat> {
    set i: nat | i < |trades| && trades[i].pnlUsd > 0.0
  }

  /** A win is a trade whose reported profit is positive. */
  lemma {:induction false} WinsAreCounted(trades: seq<Trade>)
    ensures Wins(trades) == |Winners(trades)| <= |trades|
  {
    if trades == [] {
    } else {
      var n := |trades| - 1;
      WinsAreCounted(trades[..n]);
      LastWinner(trades);
      assert n !in Winners(trades[..n]);
    }
  }

  lemma {:induction false} LastWinner(trades: seq<Trade>)
    requires trades != []
    ensures var n := |trades| - 1; var before := Winners(trades[..n]);
            Winners(trades) == if trades[n].pnlUsd > 0.0 then before + {n} else before
  {
  }

  function TotalPnl(trades: seq<Trade>): real {
    if trades == [] then 0.0 else TotalPnl(trades[..|trades| - 1]) + trades[|trades| - 1].pnlUsd
  }

  function ReturnPct(initial: real, final: real): real
    requires initial != 0.0
  {
    (final - initial) / initial * 100.0
  }

  /** What the reported figures are of the trades and the curve. */
  ghost predicate Summarises(f: Figures, trades: seq<Trade>, curve: seq<Point>, initial: real, final: real,
                             sqrt: real -> real)
    requires initial != 0.0
  {
    && f.totalReturnPct == RoundTo(ReturnPct(initial, final), 4)
    && f.totalTrades == |trades|
    && f.sharpeRatio == Sharpe(trades, sqrt)
    && (trades == [] ==> f.winRate == 0.0 && f.maxDrawdownPct == 0.0 && f.avgPnlUsd == 0.0)
    && (trades != [] ==>
          && f.winRate == RoundTo(Wins(trades) as real / |trades| as real * 100.0, 2)
          && f.avgPnlUsd == RoundTo(TotalPnl(trades) / |trades| as real, 4)
          && (curve == [] ==> f.maxDrawdownPct == RoundTo(0.0, 4))
          && (curve != [] ==> exists d :: IsMaxDrop(curve, d) && f.maxDrawdownPct == RoundTo(d, 4)))
  }

  /** The sample variance of the reported profits. */
  method ComputeVariance(trades: seq<Trade>, mean: real) returns (variance: real)
    requires |trades| >= 2 && mean == Mean(trades)
    ensures variance == Variance(trades)
  {
    var sum := 0.0;
    for i := 0 to |trades|
      invariant sum == SquaredDeviations(trades[..i], mean)
    {
      assert trades[..i + 1][..i] == trades[..i];
      var d := trades[i].pnlUsd - mean;
      assert d * d == Square(trades[i].pnlUsd - mean);
      sum := sum + d * d;
    }
    assert trades[..|trades|] == trades;
    variance := sum / (|trades| - 1) as real;
  }

  method ComputeSharpe(trades: seq<Trade>, mean: real, sqrt: real -> real) returns (ratio: real)
    requires trades != [] ==> mean == Mean(trades)
    ensures ratio == Sharpe(trades, sqrt)
  {
    ratio := 0.0;
    if |trades| >= 2 {
      var variance := ComputeVariance(trades, mean);
      var std := sqrt(variance);
      if std > 0.0 {
        ratio := RoundTo(Annualised(mean, std, sqrt(252.0)), 4);
      }
    }
  }

  /** `compute_metrics`. */
  method ComputeMetrics(trades: seq<Trade>, curve: seq<Point>, initial: real, final: real, sqrt: real -> real)
    returns (f: Figures)
    requires initial != 0.0
    ensures Summarises(f, trades, curve, initial, final, sqrt)
  {
    var total := (final - initial) / initial * 100.0;
    if |trades| == 0 {
      return Figures(RoundTo(total, 4), 0, 0.0, 0.0, 0.0, 0.0);
    }
    var wins, sum := 0, 0.0;
    for i := 0 to |trades|
      invariant wins == Wins(trades[..i]) && sum == TotalPnl(trades[..i])
    {
      assert trades[..i + 1][..i] == trades[..i];
      if trades[i].pnlUsd > 0.0 {
        wins := wins + 1;
      }
      sum := sum + trades[i].pnlUsd;
    }
    assert trades[..|trades|] == trades;
    var drawdown := MaxDrawdown(curve);
    var average := sum / |trades| as real;
    var sharpe := ComputeSharpe(trades, average, sqrt);
    f := Figures(RoundTo(total, 4), |trades|, RoundTo(wins as real / |trades| as real * 100.0, 2),
                 RoundTo(drawdown, 4), sharpe, RoundTo(average, 4));
  }

  /** On a constant curve, and on an empty one, the general formulas give what the early return for zero trades
      gives; d is what `MaxDrawdown` returns. */
  lemma {:induction false} ConstantCurve(curve: seq<Point>, initial: real, d: real)
    requires initial != 0.0 && if curve == [] then d == 0.0 else IsMaxDrop(curve, d)
    requires forall i :: 0 <= i < |curve| ==> curve[i].equity == initial
    ensures RoundTo(d, 4) == 0.0 && RoundTo(ReturnPct(initial, initial), 4) == 0.0
  {
    forall j | 0 <= j < |curve|
      ensures Drop(curve, j) == 0.0
    {
      PeakIsPrefixMaximum(curve, j);
    }
    assert Pow10(4) == 10000;
    assert RoundTo(0.0, 4) == 0.0;
  }

  // ----- What the figures mean -----

  /** The unrounded return is the percentage that leads from the initial to the final capital. */
  lemma {:induction false} ReturnMeans(initial: real, final: real)
    requires initial != 0.0
    ensures initial + Times(ReturnPct(initial, final) / 100.0, initial) == final
    ensures initial > 0.0 ==> (ReturnPct(initial, final) > 0.0 <==> final > initial)
    ensures initial > 0.0 ==> (ReturnPct(initial, final) < 0.0 <==> final < initial)
  {
    var q := (final - initial) / initial;
    assert Times(q, initial) == final - initial;
    assert ReturnPct(initial, final) / 100.0 == q;
    if initial > 0.0 {
      Sign(q, initial);
      TimesSign(q, initial);
      TimesSign(-q, initial);
      Negated(q, initial);
      Sign(-q, initial);
    }
  }

  lemma {:induction false} PriceChange(e: Price, x: real)
    ensures (x - e) / e * 100.0 == 100.0 * (x / e - 1.0)
  {
    var q, r := (x - e) / e, x / e;
    assert q * e == x - e && r * e == x;
    LessOne(r, e);
    Cancel(q, r - 1.0, e);
  }

  lemma {:induction false} LessOne(r: real, e: real)
    ensures (r - 1.0) * e == r * e - e
  {
  }

  lemma {:induction false} Cancel(a: real, b: real, e: Price)
    requires a * e == b * e
    ensures a == b
  {
    ZeroFactor(a - b, e);
  }

  lemma {:induction false} ZeroFactor(d: real, e: Price)
    ensures d * e == 0.0 ==> d == 0.0
  {
  }

  lemma {:induction false} ReturnIsRatio(initial: real, final: real)
    requires initial != 0.0
    ensures ReturnPct(initial, final) == 100.0 * (final / initial - 1.0)
  {
    PriceChange(initial, final);
  }

  lemma {:induction false} NearPercent(x: real)
    ensures Abs(RoundTo(x, 4) - x) <= 0.00005 && Abs(RoundTo(x, 2) - x) <= 0.005
  {
    assert Pow10(4) == 10000 && Pow10(2) == 100;
    RoundError(x, 4);
    RoundError(x, 2);
  }

  lemma {:induction false} AverageMeans(trades: seq<Trade>)
    requires trades != []
    ensures Times(Mean(trades), |trades| as real) == TotalPnl(trades)
  {
    Divided(TotalPnl(trades), |trades| as real);
  }

  /** What the reported figures tell, each up to its rounding: the return on the initial capital; the share of the
      trades with a positive profit; the average profit; and on a positive curve the largest loss between any two
      points in time order. */
  lemma {:induction false} FiguresMean(f: Figures, trades: seq<Trade>, curve: seq<Point>, initial: real, final: real,
                                       sqrt: real -> real)
    requires initial != 0.0 && Summarises(f, trades, curve, initial, final, sqrt)
    ensures Abs(f.totalReturnPct - 100.0 * (final / initial - 1.0)) <= 0.00005
    ensures f.totalTrades == |trades|
    ensures trades == [] ==> f.winRate == 0.0 && f.maxDrawdownPct == 0.0 && f.avgPnlUsd == 0.0 && f.sharpeRatio == 0.0
    ensures trades != [] && curve == [] ==> f.maxDrawdownPct == 0.0
    ensures trades != [] ==>
              && Abs(f.winRate - |Winners(trades)| as real / |trades| as real * 100.0) <= 0.005
              && Abs(f.avgPnlUsd - Mean(trades)) <= 0.00005
    ensures trades != [] && curve != [] && Positive(curve) ==>
              exists d :: IsMaxLoss(curve, d) && 0.0 <= d < 100.0 && Abs(f.maxDrawdownPct - d) <= 0.00005
  {
    ReturnIsRatio(initial, final);
    NearPercent(ReturnPct(initial, final));
    if trades != [] {
      WinsAreCounted(trades);
      NearPercent(Wins(trades) as real / |trades| as real * 100.0);
      NearPercent(Mean(trades));
      if curve == [] {
        RoundSign(0.0, 4);
      } else if Positive(curve) {
        var d :| IsMaxDrop(curve, d) && f.maxDrawdownPct == RoundTo(d, 4);
        DrawdownMeans(curve, d);
      }
    }
  }

  lemma {:induction false} DrawdownMeans(curve: seq<Point>, d: real)
    requires curve != [] && Positive(curve) && IsMaxDrop(curve, d)
    ensures IsMaxLoss(curve, d) && 0.0 <= d < 100.0 && Abs(RoundTo(d, 4) - d) <= 0.00005
  {
    OnePassIsAllPairs(curve, d);
    NearPercent(d);
  }

  /** Where no peak was ever positive there is no drawdown. */
  lemma {:induction false} NoPeakNoDrop(curve: seq<Point>, d: real)
    requires IsMaxDrop(curve, d)
    requires forall i :: 0 <= i < |curve| ==> curve[i].equity <= 0.0
    ensures d == 0.0
  {
    forall j | 0 <= j < |curve|
      ensures Drop(curve, j) == 0.0
    {
      PeakIsPrefixMaximum(curve, j);
    }
  }

  function SquareSum(trades: seq<Trade>): real {
    if trades == [] then 0.0 else SquareSum(trades[..|trades| - 1]) + Square(trades[|trades| - 1].pnlUsd)
  }

  lemma {:induction false} SquareOfDifference(x: real, m: real)
    ensures Square(x - m) == Square(x) - 2.0 * Times(m, x) + Square(m)
  {
  }

  lemma {:induction false} TimesSum(m: real, x: real, y: real)
    ensures Times(m, x + y) == Times(m, x) + Times(m, y)
  {
  }

  lemma {:induction false} DeviationsExpanded(trades: seq<Trade>, m: real)
    ensures SquaredDeviations(trades, m)
            == SquareSum(trades) - 2.0 * Times(m, TotalPnl(trades)) + Times(Square(m), |trades| as real)
  {
    if trades == [] {
      assert Times(m, 0.0) == 0.0 && Times(Square(m), 0.0) == 0.0;
    } else {
      var n := |trades| - 1;
      var x := trades[n].pnlUsd;
      DeviationsExpanded(trades[..n], m);
      SquareOfDifference(x, m);
      TimesSum(m, TotalPnl(trades[..n]), x);
      OneMoreTime(Square(m), n);
    }
  }

  lemma {:induction false} MeanTimesTotal(m: real, n: real)
    ensures Times(m, Times(m, n)) == Times(Square(m), n)
  {
  }

  /** The variance is the textbook one: n - 1 times it is the sum of squares minus n times the squared mean. */
  lemma {:induction false} VarianceExactly(trades: seq<Trade>)
    requires |trades| >= 2
    ensures Times(Variance(trades), (|trades| - 1) as real)
            == SquareSum(trades) - Times(Square(Mean(trades)), |trades| as real)
  {
    var m, n := Mean(trades), |trades| as real;
    DeviationsExpanded(trades, m);
    AverageMeans(trades);
    MeanTimesTotal(m, n);
    Divided(SquaredDeviations(trades, m), (|trades| - 1) as real);
  }

  lemma {:induction false} AnnualisedExactly(mean: real, std: real, root: real)
    requires std > 0.0
    ensures Times(Annualised(mean, std, root), std) == Times(mean, root)
  {
    var q := mean / std;
    assert q * std == mean;
    assert Annualised(mean, std, root) == q * root;
    Reorder(q, root, std);
  }

  lemma {:induction false} Reorder(a: real, b: real, c: real)
    ensures (a * b) * c == (a * c) * b
  {
  }

  /** With a spread, the reported ratio is within half a unit of the fourth decimal of the number that, times the
      deviation, is the mean times the root of 252. */
  lemma {:induction false} SharpeExactly(trades: seq<Trade>, sqrt: real -> real) returns (exact: real)
    requires |trades| >= 2 && IsRoot(sqrt) && !AllEqual(trades)
    ensures Abs(Sharpe(trades, sqrt) - exact) <= 0.00005
    ensures Times(exact, sqrt(Variance(trades))) == Times(Mean(trades), sqrt(252.0))
    ensures sqrt(Variance(trades)) > 0.0 && Square(sqrt(252.0)) == 252.0
  {
    SpreadExactly(trades, sqrt);
    var std := sqrt(Variance(trades));
    exact := Annualised(Mean(trades), std, sqrt(252.0));
    AnnualisedExactly(Mean(trades), std, sqrt(252.0));
    NearPercent(exact);
  }
}
