/** A backtest never looks ahead, and its equity curve adds up. */
module Causality {
  import opened Rounding
  import opened Metrics
  import opened Broker
  import opened Runner

  // ----- More bars only append -----

  ghost predicate SameEntry(pos: Position, t: Trade) {
    t.entryPrice == pos.entryPrice && t.qty == pos.qty && t.entryTs == pos.entryTs && t.entryReason == pos.entryReason
  }

  /** `later` continues `now`: nothing already written is touched, and a position that is open now is still
      open, or is the next trade. */
  ghost predicate Continues(now: Book, later: Book) {
    && now.trades <= later.trades && now.curve <= later.curve
    && (now.position.Some? ==>
          || (later.position == now.position && later.trades == now.trades)
          || (|later.trades| > |now.trades| && SameEntry(now.position.value, later.trades[|now.trades|])))
  }

  lemma {:induction false} CloseContinues(p: Params, now: Book, b: Book, price: real, ts: int, reason: string)
    requires Continues(now, b)
    ensures Continues(now, Close(p, b, price, ts, reason))
  {
  }

  lemma {:induction false} StepContinues(p: Params, now: Book, b: Book, bar: Bar)
    requires Continues(now, b)
    ensures Continues(now, Step(p, b, bar))
  {
    if bar.signal.kind.SELL? {
      CloseContinues(p, now, b, bar.candle.close, bar.candle.openTime, bar.signal.reason);
    }
  }

  lemma {:induction false} PrefixContinues(p: Params, bars: seq<Bar>, n: nat)
    requires n <= |bars|
    ensures Continues(Process(p, bars[..n]), Process(p, bars))
  {
    if n == |bars| {
      assert bars[..n] == bars;
    } else {
      var m := |bars| - 1;
      PrefixContinues(p, bars[..m], n);
      assert bars[..m][..n] == bars[..n];
      StepContinues(p, Process(p, bars[..n]), Process(p, bars[..m]), bars[m]);
    }
  }

  // ----- More candles only append bars -----

  lemma {:induction false} SameStart(xs: seq<Candle>, ys: seq<Candle>, since: int, n: nat)
    requires xs <= ys && n <= |xs|
    ensures StartIndex(ys, since, n) == StartIndex(xs, since, n)
  {
    if n == 0 {
    } else {
      SameStart(xs, ys, since, n - 1);
    }
  }

  lemma {:induction false} StartKept(ys: seq<Candle>, since: int, n: nat, m: nat)
    requires n <= m <= |ys| && StartIndex(ys, since, n).Some?
    ensures StartIndex(ys, since, m) == StartIndex(ys, since, n)
  {
    if n == m {
    } else {
      StartKept(ys, since, n, m - 1);
    }
  }

  /** What a bar is depends only on candles up to its own. */
  lemma {:induction false} SameBars(cfg: Config, xs: seq<Candle>, ys: seq<Candle>, start: nat, n: nat)
    requires xs <= ys && WARMUP <= start && n <= |xs|
    ensures Bars(cfg, ys, start, n) == Bars(cfg, xs, start, n)
  {
    if n <= start {
    } else {
      SameBars(cfg, xs, ys, start, n - 1);
      assert Window(ys, n - 1) == Window(xs, n - 1);
    }
  }

  lemma {:induction false} BarsGrow(cfg: Config, ys: seq<Candle>, start: nat, n: nat, m: nat)
    requires WARMUP <= start && n <= m <= |ys|
    ensures Bars(cfg, ys, start, n) <= Bars(cfg, ys, start, m)
  {
    if n == m {
    } else {
      BarsGrow(cfg, ys, start, n, m - 1);
    }
  }

  lemma {:induction false} ProcessedGrows(cfg: Config, xs: seq<Candle>, ys: seq<Candle>, since: int)
    requires xs <= ys
    ensures Processed(cfg, xs, since) <= Processed(cfg, ys, since)
  {
    SameStart(xs, ys, since, |xs|);
    match StartIndex(xs, since, |xs|)
    case None =>
    case Some(start) =>
      StartKept(ys, since, |xs|, |ys|);
      SameBars(cfg, xs, ys, start, |xs|);
      BarsGrow(cfg, ys, start, |xs|, |ys|);
  }

  /** On every bar of the shorter history the two runs are in identical broker states. */
  lemma {:induction false} SameStates(cfg: Config, xs: seq<Candle>, ys: seq<Candle>, since: int, n: nat)
    requires xs <= ys && n <= |Processed(cfg, xs, since)|
    ensures n <= |Processed(cfg, ys, since)|
    ensures Process(cfg.params, Processed(cfg, ys, since)[..n]) == Process(cfg.params, Processed(cfg, xs, since)[..n])
  {
    ProcessedGrows(cfg, xs, ys, since);
    assert Processed(cfg, ys, since)[..n] == Processed(cfg, xs, since)[..n];
  }

  /** `longer` keeps every trade and curve point of `shorter` that was not forced by the end of the data, and
      the forced trade enters like the trade at the same place in `longer`. */
  ghost predicate HistoryKept(settled: Book, shorter: Book, longer: Book) {
    var k := |settled.trades|;
    && settled.trades <= shorter.trades && settled.trades <= longer.trades
    && settled.curve <= shorter.curve && settled.curve <= longer.curve
    && |shorter.trades| <= k + 1 && |shorter.curve| <= |settled.curve| + 1
    && (|shorter.trades| == k + 1 ==>
          && shorter.trades[k].exitReason == END_REASON
          && |longer.trades| > k
          && var t, u := shorter.trades[k], longer.trades[k];
             t.entryPrice == u.entryPrice && t.qty == u.qty && t.entryTs == u.entryTs && t.entryReason == u.entryReason)
  }

  lemma {:induction false} ForcedKeepsHistory(p: Params, now: Book, later: Book, x: Candle, y: Candle)
    requires Continues(now, later)
    ensures HistoryKept(now, Finish(p, now, x), Finish(p, later, y))
  {
  }

  /** Longer data never rewrites what shorter data showed. */
  lemma {:induction false} NoLookAhead(cfg: Config, xs: seq<Candle>, ys: seq<Candle>, since: int)
    requires xs <= ys
    ensures HistoryKept(Settled(cfg, xs, since), FinalBook(cfg, xs, since), FinalBook(cfg, ys, since))
  {
    var bars := Processed(cfg, ys, since);
    ProcessedGrows(cfg, xs, ys, since);
    var n := |Processed(cfg, xs, since)|;
    assert bars[..n] == Processed(cfg, xs, since);
    PrefixContinues(cfg.params, bars, n);
    if xs != [] {
      ForcedKeepsHistory(cfg.params, Settled(cfg, xs, since), Settled(cfg, ys, since), xs[|xs| - 1], ys[|ys| - 1]);
    }
  }

  ghost predicate TimeSorted(candles: seq<Candle>) {
    forall i, j :: 0 <= i < j < |candles| ==> candles[i].openTime < candles[j].openTime
  }

  lemma {:induction false} UptoIsPrefix(candles: seq<Candle>, until: int)
    requires TimeSorted(candles)
    ensures Upto(candles, until) <= candles
    ensures forall i :: 0 <= i < |candles| ==> (candles[i].openTime <= until <==> i < |Upto(candles, until)|)
  {
    if candles == [] {
    } else {
      var n := |candles| - 1;
      UptoIsPrefix(candles[..n], until);
      if candles[n].openTime <= until {
        assert forall i :: 0 <= i < n ==> candles[..n][i].openTime <= until;
        assert Upto(candles[..n], until) == candles[..n];
      }
    }
  }

  /** Enlarging `until`, adding later candles to the store, or both, never rewrites the history of a backtest. */
  lemma {:induction false} EnlargingUntilKeepsHistory(cfg: Config, stored: seq<Candle>, grown: seq<Candle>,
                                                      since: int, until: int, until': int)
    requires TimeSorted(stored) && TimeSorted(grown) && stored <= grown
    requires until <= until'
    ensures var xs, ys := Upto(Limited(stored), until), Upto(Limited(grown), until');
            xs <= ys && HistoryKept(Settled(cfg, xs, since), FinalBook(cfg, xs, since), FinalBook(cfg, ys, since))
  {
    var a, b := Limited(stored), Limited(grown);
    UptoIsPrefix(a, until);
    UptoIsPrefix(b, until');
    var xs, ys := Upto(a, until), Upto(b, until');
    assert a <= b;
    if xs != [] {
      assert a[|xs| - 1].openTime <= until && b[|xs| - 1] == a[|xs| - 1];
    }
    assert |xs| <= |ys|;
    NoLookAhead(cfg, xs, ys, since);
  }

  // ----- The equity curve -----

  ghost predicate CurveAddsUp(b: Book, bars: nat, lastTs: int) {
    && |b.curve| == bars + |b.trades|
    && (b.curve != [] ==> b.curve[|b.curve| - 1].equity == b.capital)
    && (forall i :: 0 <= i < |b.curve| ==> b.curve[i].ts <= lastTs)
    && (forall i, j :: 0 <= i < j < |b.curve| ==> b.curve[i].ts <= b.curve[j].ts)
  }

  ghost predicate BarsSorted(bars: seq<Bar>) {
    forall i, j :: 0 <= i < j < |bars| ==> bars[i].candle.openTime <= bars[j].candle.openTime
  }

  lemma {:induction false} StepAddsUp(p: Params, b: Book, bar: Bar, n: nat, lastTs: int)
    requires CurveAddsUp(b, n, lastTs) && lastTs <= bar.candle.openTime
    ensures CurveAddsUp(Step(p, b, bar), n + 1, bar.candle.openTime)
  {
  }

  /** After any bars the curve has one point per bar and one per trade, in time order, and ends at the
      current capital. */
  lemma {:induction false} Curve(p: Params, bars: seq<Bar>, lastTs: int)
    requires BarsSorted(bars)
    requires forall i :: 0 <= i < |bars| ==> bars[i].candle.openTime <= lastTs
    ensures CurveAddsUp(Process(p, bars), |bars|, lastTs)
  {
    if bars == [] {
    } else {
      var n := |bars| - 1;
      var t := bars[n].candle.openTime;
      Curve(p, bars[..n], t);
      StepAddsUp(p, Process(p, bars[..n]), bars[n], n, t);
    }
  }

  lemma {:induction false} BarsAreSorted(cfg: Config, candles: seq<Candle>, start: nat, n: nat)
    requires WARMUP <= start && n <= |candles| && TimeSorted(candles)
    ensures var bars := Bars(cfg, candles, start, n);
            && BarsSorted(bars)
            && (bars != [] ==> n > start)
            && forall i :: 0 <= i < |bars| ==> bars[i].candle.openTime <= candles[n - 1].openTime
  {
    if n <= start {
    } else {
      BarsAreSorted(cfg, candles, start, n - 1);
    }
  }

  lemma {:induction false} SettledCurve(cfg: Config, candles: seq<Candle>, since: int)
    requires TimeSorted(candles) && candles != []
    ensures CurveAddsUp(Settled(cfg, candles, since), |Processed(cfg, candles, since)|, candles[|candles| - 1].openTime)
  {
    var last := candles[|candles| - 1].openTime;
    match StartIndex(candles, since, |candles|)
    case None =>
    case Some(start) =>
      BarsAreSorted(cfg, candles, start, |candles|);
      Curve(cfg.params, Bars(cfg, candles, start, |candles|), last);
  }

  lemma {:induction false} FinishAddsUp(p: Params, b: Book, last: Candle, n: nat)
    requires CurveAddsUp(b, n, last.openTime)
    ensures CurveAddsUp(Finish(p, b, last), n, last.openTime)
  {
  }

  /** A whole run over time-sorted candles: as many curve points as processed bars and trades together, in
      time order, the last of them the unrounded final equity. */
  lemma {:induction false} RunCurve(cfg: Config, candles: seq<Candle>, since: int)
    requires TimeSorted(candles) && candles != []
    ensures CurveAddsUp(FinalBook(cfg, candles, since), |Processed(cfg, candles, since)|, candles[|candles| - 1].openTime)
  {
    SettledCurve(cfg, candles, since);
    FinishAddsUp(cfg.params, Settled(cfg, candles, since), candles[|candles| - 1], |Processed(cfg, candles, since)|);
  }

  // ----- Runs without trades -----

  ghost predicate Idle(p: Params, b: Book) {
    b.capital == p.initial && b.position.None? && b.trades == []
    && forall i :: 0 <= i < |b.curve| ==> b.curve[i].equity == p.initial
  }

  /** A run ends without a trade exactly when no bar said BUY; its curve is then constant. */
  lemma {:induction false} NoTradeMeansNoBuy(p: Params, bars: seq<Bar>)
    ensures Process(p, bars).trades == [] && Process(p, bars).position.None?
            <==> forall i :: 0 <= i < |bars| ==> !bars[i].signal.kind.BUY?
    ensures (forall i :: 0 <= i < |bars| ==> !bars[i].signal.kind.BUY?) ==> Idle(p, Process(p, bars))
  {
    if bars == [] {
    } else {
      NoTradeMeansNoBuy(p, bars[..|bars| - 1]);
    }
  }

  /** For every run without trades, also one that processed no bar: the return and the drawdown of the general
      formulas round to the zeros of the early return; d is what `MaxDrawdown` returns on the curve. */
  lemma {:induction false} ZeroTradeShortcut(cfg: Config, candles: seq<Candle>, since: int, d: real)
    requires cfg.params.initial != 0.0
    requires FinalBook(cfg, candles, since).trades == []
    ensures RoundTo(ReturnPct(cfg.params.initial, FinalBook(cfg, candles, since).capital), 4) == 0.0
    ensures var curve := FinalBook(cfg, candles, since).curve;
            (if curve == [] then d == 0.0 else IsMaxDrop(curve, d)) ==> RoundTo(d, 4) == 0.0
  {
    var b := FinalBook(cfg, candles, since);
    NoTradeMeansNoBuy(cfg.params, Processed(cfg, candles, since));
    assert Idle(cfg.params, b);
    ConstantCurve([], cfg.params.initial, 0.0);
    if if b.curve == [] then d == 0.0 else IsMaxDrop(b.curve, d) {
      ConstantCurve(b.curve, cfg.params.initial, d);
    }
  }
}
