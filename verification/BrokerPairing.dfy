/** Which bars become trades: the broker refines a declarative pairing of BUY and SELL bars. */
module BrokerPairing {
  import opened Wrappers
  import opened Metrics
  import opened Broker

  /** A round trip by bar index. */
  datatype Span = Span(entry: nat, exit: nat)

  datatype Pairing = Pairing(spans: seq<Span>, open: Option<nat>)

  ghost predicate Quiet(bars: seq<Bar>, kind: Kind, from: nat, to: nat) {
    forall j :: from <= j < to && j < |bars| ==> bars[j].signal.kind != kind
  }

  /** The first bar of a kind at or after `from`. */
  ghost predicate IsFirst(bars: seq<Bar>, kind: Kind, from: nat, i: nat) {
    from <= i < |bars| && bars[i].signal.kind == kind && Quiet(bars, kind, from, i)
  }

  /** Where the search for the k-th entry begins. */
  function FlatFrom(spans: seq<Span>, k: nat): nat
    requires k <= |spans|
  {
    if k == 0 then 0 else spans[k - 1].exit + 1
  }

  ghost predicate IsSpan(bars: seq<Bar>, spans: seq<Span>, k: nat)
    requires k < |spans|
  {
    RoundTrip(bars, FlatFrom(spans, k), spans[k])
  }

  ghost predicate RoundTrip(bars: seq<Bar>, from: nat, s: Span) {
    IsFirst(bars, BUY, from, s.entry) && IsFirst(bars, SELL, s.entry + 1, s.exit)
  }

  /** Each trade enters at the first BUY after the previous exit and leaves at the first SELL strictly after
      its entry; then either no BUY remains, or the next BUY is entered and never sold. */
  ghost predicate IsPairing(bars: seq<Bar>, p: Pairing) {
    && (forall k :: 0 <= k < |p.spans| ==> IsSpan(bars, p.spans, k))
    && var from := FlatFrom(p.spans, |p.spans|);
       match p.open
       case None => Quiet(bars, BUY, from, |bars|)
       case Some(e) => IsFirst(bars, BUY, from, e) && Quiet(bars, SELL, e + 1, |bars|)
  }

  lemma {:induction false} FirstIsUnique(bars: seq<Bar>, kind: Kind, from: nat, i: nat, j: nat)
    requires IsFirst(bars, kind, from, i) && IsFirst(bars, kind, from, j)
    ensures i == j
  {
  }

  lemma {:induction false} SpansAgree(bars: seq<Bar>, p: Pairing, q: Pairing, k: nat)
    requires IsPairing(bars, p) && IsPairing(bars, q)
    requires k <= |p.spans| && k <= |q.spans|
    ensures p.spans[..k] == q.spans[..k]
  {
    if k > 0 {
      SpansAgree(bars, p, q, k - 1);
      var i := k - 1;
      assert IsSpan(bars, p.spans, i) && IsSpan(bars, q.spans, i);
      assert FlatFrom(p.spans, i) == FlatFrom(q.spans, i) by {
        assert i > 0 ==> p.spans[i - 1] == p.spans[..i][i - 1] == q.spans[i - 1];
      }
      FirstIsUnique(bars, BUY, FlatFrom(p.spans, i), p.spans[i].entry, q.spans[i].entry);
      FirstIsUnique(bars, SELL, p.spans[i].entry + 1, p.spans[i].exit, q.spans[i].exit);
      assert p.spans[..k] == p.spans[..i] + [p.spans[i]];
    }
  }

  lemma {:induction false} NotShorter(bars: seq<Bar>, p: Pairing, q: Pairing)
    requires IsPairing(bars, p) && IsPairing(bars, q) && |p.spans| <= |q.spans|
    ensures |p.spans| == |q.spans|
  {
    var k := |p.spans|;
    SpansAgree(bars, p, q, k);
    if k > 0 {
      assert p.spans[k - 1] == q.spans[..k][k - 1];
    }
    assert FlatFrom(p.spans, k) == FlatFrom(q.spans, k);
    assert k < |q.spans| ==> IsSpan(bars, q.spans, k);
    forall s: Span
      ensures !RoundTrip(bars, FlatFrom(p.spans, k), s)
    {
      NothingAfter(bars, p, s);
    }
  }

  /** After the last span of a pairing there is no further round trip. */
  lemma {:induction false} NothingAfter(bars: seq<Bar>, p: Pairing, s: Span)
    requires IsPairing(bars, p)
    ensures !RoundTrip(bars, FlatFrom(p.spans, |p.spans|), s)
  {
    if p.open.Some? && IsFirst(bars, BUY, FlatFrom(p.spans, |p.spans|), s.entry) {
      FirstIsUnique(bars, BUY, FlatFrom(p.spans, |p.spans|), p.open.value, s.entry);
    }
  }

  /** A sequence of bars has one pairing only. */
  lemma {:induction false} PairingIsUnique(bars: seq<Bar>, p: Pairing, q: Pairing)
    requires IsPairing(bars, p) && IsPairing(bars, q)
    ensures p == q
  {
    if |p.spans| <= |q.spans| {
      NotShorter(bars, p, q);
    } else {
      NotShorter(bars, q, p);
    }
    var k := |p.spans|;
    SpansAgree(bars, p, q, k);
    assert p.spans == p.spans[..k] && q.spans == q.spans[..k];
    if p.open.Some? && q.open.Some? {
      FirstIsUnique(bars, BUY, FlatFrom(p.spans, k), p.open.value, q.open.value);
    }
  }

  // ----- The broker follows it -----

  ghost predicate EnteredAt(bar: Bar, price: real, ts: int, reason: string) {
    price == bar.candle.close && ts == bar.candle.openTime && reason == bar.signal.reason
  }

  /** The book holds exactly the trades of the pairing, and the open position if there is one. */
  ghost predicate Follows(bars: seq<Bar>, p: Pairing, b: Book) {
    && |b.trades| == |p.spans|
    && (forall k :: 0 <= k < |p.spans| ==>
          && p.spans[k].entry < p.spans[k].exit < |bars|
          && var t := b.trades[k];
             && EnteredAt(bars[p.spans[k].entry], t.entryPrice, t.entryTs, t.entryReason)
             && EnteredAt(bars[p.spans[k].exit], t.exitPrice, t.exitTs, t.exitReason))
    && (b.position.Some? <==> p.open.Some?)
    && (p.open.Some? ==>
          && p.open.value < |bars|
          && var pos := b.position.value;
             EnteredAt(bars[p.open.value], pos.entryPrice, pos.entryTs, pos.entryReason))
  }

  /** The pairing of one more bar. */
  function Extend(p: Pairing, bar: Bar, n: nat): Pairing {
    if bar.signal.kind.BUY? && p.open.None? then p.(open := Some(n))
    else if bar.signal.kind.SELL? && p.open.Some? then Pairing(p.spans + [Span(p.open.value, n)], None)
    else p
  }

  lemma {:induction false} FirstExtends(bars: seq<Bar>, bar: Bar, kind: Kind, from: nat, i: nat)
    requires IsFirst(bars, kind, from, i)
    ensures IsFirst(bars + [bar], kind, from, i)
  {
  }

  lemma {:induction false} QuietExtends(bars: seq<Bar>, bar: Bar, kind: Kind, from: nat)
    requires Quiet(bars, kind, from, |bars|)
    ensures bar.signal.kind != kind ==> Quiet(bars + [bar], kind, from, |bars| + 1)
    ensures bar.signal.kind == kind && from <= |bars| ==> IsFirst(bars + [bar], kind, from, |bars|)
  {
  }

  lemma {:induction false} ExtendPairs(bars: seq<Bar>, bar: Bar, p: Pairing)
    requires IsPairing(bars, p)
    ensures IsPairing(bars + [bar], Extend(p, bar, |bars|))
  {
    var q := Extend(p, bar, |bars|);
    var from := FlatFrom(p.spans, |p.spans|);
    forall k | 0 <= k < |p.spans|
      ensures IsSpan(bars + [bar], q.spans, k)
    {
      SpanExtends(bars, bar, p.spans, q.spans, k);
    }
    if |p.spans| > 0 {
      assert IsSpan(bars, p.spans, |p.spans| - 1);
    }
    match p.open
    case None => QuietExtends(bars, bar, BUY, from);
    case Some(e) =>
      FirstExtends(bars, bar, BUY, from, e);
      QuietExtends(bars, bar, SELL, e + 1);
  }

  lemma {:induction false} SpanExtends(bars: seq<Bar>, bar: Bar, spans: seq<Span>, more: seq<Span>, k: nat)
    requires spans <= more && k < |spans| && IsSpan(bars, spans, k)
    ensures IsSpan(bars + [bar], more, k)
  {
    FirstExtends(bars, bar, BUY, FlatFrom(spans, k), spans[k].entry);
    FirstExtends(bars, bar, SELL, spans[k].entry + 1, spans[k].exit);
  }

  lemma {:induction false} StepFollows(params: Params, bars: seq<Bar>, bar: Bar, p: Pairing, b: Book)
    requires IsPairing(bars, p) && Follows(bars, p, b)
    ensures Follows(bars + [bar], Extend(p, bar, |bars|), Step(params, b, bar))
  {
    var q, b' := Extend(p, bar, |bars|), Step(params, b, bar);
    assert forall k :: 0 <= k < |p.spans| ==> q.spans[k] == p.spans[k] && b'.trades[k] == b.trades[k];
    assert forall i :: 0 <= i < |bars| ==> (bars + [bar])[i] == bars[i];
  }

  lemma {:induction false} SomePairing(params: Params, bars: seq<Bar>) returns (p: Pairing)
    ensures IsPairing(bars, p) && Follows(bars, p, Process(params, bars))
  {
    if bars == [] {
      p := Pairing([], None);
    } else {
      var n := |bars| - 1;
      var front := SomePairing(params, bars[..n]);
      assert bars == bars[..n] + [bars[n]];
      ExtendPairs(bars[..n], bars[n], front);
      StepFollows(params, bars[..n], bars[n], front, Process(params, bars[..n]));
      p := Extend(front, bars[n], n);
    }
  }

  /** For every signal sequence there is a pairing, and the broker's trades and open position are those of
      the pairing: same bars, prices, times and reasons. */
  lemma {:induction false} BrokerRefinesPairing(params: Params, bars: seq<Bar>, p: Pairing)
    ensures exists q :: IsPairing(bars, q)
    ensures IsPairing(bars, p) ==> Follows(bars, p, Process(params, bars))
  {
    var q := SomePairing(params, bars);
    if IsPairing(bars, p) {
      PairingIsUnique(bars, p, q);
    }
  }

  /** The trades of a pairing are disjoint and in order. */
  lemma {:induction false} SpansAreOrdered(bars: seq<Bar>, p: Pairing, k: nat, l: nat)
    requires IsPairing(bars, p) && k < l < |p.spans|
    ensures p.spans[k].entry < p.spans[k].exit < p.spans[l].entry < p.spans[l].exit
  {
    assert IsSpan(bars, p.spans, l);
    if k < l - 1 {
      SpansAreOrdered(bars, p, k, l - 1);
    } else {
      assert IsSpan(bars, p.spans, k);
    }
  }

  /** Forcing the last position closed adds at most one trade, the last; it enters at the open bar. */
  lemma {:induction false} OnlyLastIsForced(params: Params, bars: seq<Bar>, p: Pairing, last: Candle)
    requires IsPairing(bars, p)
    ensures var b := Finish(params, Process(params, bars), last);
            && Process(params, bars).trades <= b.trades && b.position.None?
            && |b.trades| == |p.spans| + (if p.open.Some? then 1 else 0)
            && (p.open.Some? ==>
                  && p.open.value < |bars|
                  && var t := b.trades[|p.spans|];
                     && EnteredAt(bars[p.open.value], t.entryPrice, t.entryTs, t.entryReason)
                     && t.exitPrice == last.close && t.exitTs == last.openTime && t.exitReason == END_REASON)
  {
    BrokerRefinesPairing(params, bars, p);
  }

  /** A bar that neither enters nor leaves in the pairing of the bars so far changes neither capital, nor
      position, nor trades. */
  lemma {:induction false} OtherBarsChangeNothing(params: Params, bars: seq<Bar>, bar: Bar, p: Pairing)
    requires IsPairing(bars, p) && IsPairing(bars + [bar], p)
    ensures var b, b' := Process(params, bars), Process(params, bars + [bar]);
            b'.capital == b.capital && b'.position == b.position && b'.trades == b.trades
  {
    BrokerRefinesPairing(params, bars, p);
    ExtendPairs(bars, bar, p);
    PairingIsUnique(bars + [bar], p, Extend(p, bar, |bars|));
    assert (bars + [bar])[..|bars|] == bars;
  }
}
