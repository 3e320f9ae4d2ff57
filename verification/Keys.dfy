/** Colon-separated Redis keys: how they are printed and how they are parsed back. */
module Keys {
  import opened Wrappers

  // ----- str.split(":") and ":".join -----

  function Split(s: string): (parts: seq<string>)
    ensures |parts| >= 1
    ensures forall i :: 0 <= i < |parts| ==> ColonFree(parts[i])
  {
    if s == "" then [""]
    else
      var rest := Split(s[1..]);
      if s[0] == ':' then [""] + rest else [[s[0]] + rest[0]] + rest[1..]
  }

  function Join(parts: seq<string>): string {
    if |parts| == 0 then ""
    else if |parts| == 1 then parts[0]
    else parts[0] + ":" + Join(parts[1..])
  }

  predicate ColonFree(s: string) {
    ':' !in s
  }

  lemma {:induction false} JoinSplit(s: string)
    ensures Join(Split(s)) == s
  {
    if s != "" {
      JoinSplit(s[1..]);
      var rest := Split(s[1..]);
      if s[0] == ':' {
        assert ([""] + rest)[1..] == rest;
      } else {
        var parts := [[s[0]] + rest[0]] + rest[1..];
        assert parts[1..] == rest[1..];
        assert s == [s[0]] + s[1..];
      }
    }
  }

  lemma {:induction false} SplitColonFree(s: string)
    requires ColonFree(s)
    ensures Split(s) == [s]
  {
    if s != "" {
      SplitColonFree(s[1..]);
      assert s == [s[0]] + s[1..];
    }
  }

  /** A separator splits: the parts of `a:b` are the parts of `a` followed by the parts of `b`. */
  lemma {:induction false} SplitConcat(a: string, b: string)
    ensures Split(a + ":" + b) == Split(a) + Split(b)
  {
    if a == "" {
      assert (a + ":" + b)[1..] == b;
    } else {
      SplitConcat(a[1..], b);
      SplitCons(a[0], a[1..] + ":" + b);
      SplitCons(a[0], a[1..]);
      assert [a[0]] + (a[1..] + ":" + b) == a + ":" + b && [a[0]] + a[1..] == a;
      Regroup(a[0], Split(a[1..]), Split(b));
    }
  }

  /** One more character in front either opens a new empty part or extends the first one. */
  function Extend(c: char, parts: seq<string>): seq<string>
    requires |parts| >= 1
  {
    if c == ':' then [""] + parts else [[c] + parts[0]] + parts[1..]
  }

  lemma {:induction false} SplitCons(c: char, s: string)
    ensures Split([c] + s) == Extend(c, Split(s))
  {
    assert ([c] + s)[1..] == s;
  }

  lemma {:induction false} Regroup(c: char, xs: seq<string>, ys: seq<string>)
    requires |xs| >= 1
    ensures Extend(c, xs + ys) == Extend(c, xs) + ys
  {
    assert (xs + ys)[1..] == xs[1..] + ys;
  }

  lemma {:induction false} PairSplit(m: string, s: string)
    requires ColonFree(m)
    ensures Split(m + ":" + s) == [m] + Split(s)
  {
    SplitConcat(m, s);
    SplitColonFree(m);
  }

  lemma {:induction false} TwoInFront(a: string, b: string, s: string)
    requires ColonFree(a) && ColonFree(b)
    ensures Split(a + ":" + (b + ":" + s)) == [a, b] + Split(s)
  {
    PairSplit(a, b + ":" + s);
    PairSplit(b, s);
    assert [a] + ([b] + Split(s)) == [a, b] + Split(s);
  }

  lemma {:induction false} FourInFront(a: string, b: string, c: string, d: string, s: string)
    requires ColonFree(a) && ColonFree(b) && ColonFree(c) && ColonFree(d)
    ensures Split(a + ":" + (b + ":" + (c + ":" + (d + ":" + s)))) == [a, b, c, d] + Split(s)
  {
    TwoInFront(a, b, c + ":" + (d + ":" + s));
    TwoInFront(c, d, s);
    assert [a, b] + ([c, d] + Split(s)) == [a, b, c, d] + Split(s);
  }

  /** `market:symbol` determines both halves when the market has no colon; the symbol may have some. */
  lemma {:induction false} PairInjective(m1: string, s1: string, m2: string, s2: string)
    requires ColonFree(m1) && ColonFree(m2)
    requires m1 + ":" + s1 == m2 + ":" + s2
    ensures m1 == m2 && s1 == s2
  {
    PairSplit(m1, s1);
    PairSplit(m2, s2);
    assert ([m1] + Split(s1))[0] == m1 && ([m2] + Split(s2))[0] == m2;
    assert ([m1] + Split(s1))[1..] == Split(s1) && ([m2] + Split(s2))[1..] == Split(s2);
    JoinSplit(s1);
    JoinSplit(s2);
  }

  // ----- Indicator cache keys -----

  const INDICATOR_PREFIX := "hydra:indicator:"

  datatype Triple = Triple(market: string, symbol: string, timeframe: string)

  function IndicatorKey(t: Triple): string {
    INDICATOR_PREFIX + (t.market + ":" + (t.symbol + ":" + t.timeframe))
  }

  /** What the scanners make of one key: nothing when it has fewer than five parts. */
  function ParseIndicatorKey(key: string): Option<Triple> {
    var parts := Split(key);
    var n := |parts|;
    if n < 5 then None
    else Some(Triple(parts[2], Join(parts[3..n - 1]), parts[n - 1]))
  }

  lemma {:induction false} PrefixSplit(rest: string)
    ensures Split(INDICATOR_PREFIX + rest) == ["hydra", "indicator"] + Split(rest)
  {
    assert INDICATOR_PREFIX + rest == "hydra" + ":" + ("indicator" + ":" + rest);
    PairSplit("hydra", "indicator" + ":" + rest);
    PairSplit("indicator", rest);
    assert ["hydra"] + (["indicator"] + Split(rest)) == ["hydra", "indicator"] + Split(rest);
  }

  lemma {:induction false} IndicatorKeyParts(t: Triple)
    ensures Split(IndicatorKey(t)) ==
            ["hydra", "indicator"] + (Split(t.market) + (Split(t.symbol) + Split(t.timeframe)))
  {
    PrefixSplit(t.market + ":" + (t.symbol + ":" + t.timeframe));
    SplitConcat(t.market, t.symbol + ":" + t.timeframe);
    SplitConcat(t.symbol, t.timeframe);
  }

  /** Printing then parsing gives the triple back exactly when market and timeframe are colon-free;
      the symbol is unrestricted (it may be empty or hold colons, as `BTC/USDT:USDT` does). */
  lemma {:induction false} PrintThenParse(t: Triple)
    ensures ParseIndicatorKey(IndicatorKey(t)) == Some(t) <==> ColonFree(t.market) && ColonFree(t.timeframe)
  {
    IndicatorKeyParts(t);
    if ColonFree(t.market) && ColonFree(t.timeframe) {
      SplitColonFree(t.market);
      SplitColonFree(t.timeframe);
      var parts := ["hydra", "indicator", t.market] + Split(t.symbol) + [t.timeframe];
      assert Split(IndicatorKey(t)) == parts;
      assert parts[3..|parts| - 1] == Split(t.symbol);
      JoinSplit(t.symbol);
    }
  }

  lemma {:induction false} JoinFrontLast(parts: seq<string>)
    requires |parts| >= 2
    ensures Join(parts) == Join(parts[..|parts| - 1]) + ":" + parts[|parts| - 1]
  {
    var n := |parts|;
    if n == 2 {
      assert parts[1..] == [parts[1]] && parts[..1] == [parts[0]];
    } else {
      JoinFrontLast(parts[1..]);
      assert parts[1..][..n - 2] == parts[..n - 1][1..];
    }
  }

  /** Parsing then printing gives the key back, for every key under the prefix that parses at all. */
  lemma {:induction false} ParseThenPrint(key: string)
    requires INDICATOR_PREFIX <= key
    requires ParseIndicatorKey(key).Some?
    ensures IndicatorKey(ParseIndicatorKey(key).value) == key
    ensures ColonFree(ParseIndicatorKey(key).value.market) && ColonFree(ParseIndicatorKey(key).value.timeframe)
  {
    var rest := key[|INDICATOR_PREFIX|..];
    assert key == INDICATOR_PREFIX + rest;
    PrefixSplit(rest);
    JoinSplit(rest);
    var tail := Split(rest);
    ParsedTail(tail);
    assert (["hydra", "indicator"] + tail)[3..|tail| + 1] == tail[1..|tail| - 1];
  }

  /** Market, symbol and timeframe rejoined are the parts after the prefix rejoined. */
  lemma {:induction false} ParsedTail(tail: seq<string>)
    requires |tail| >= 3
    ensures Join(tail) == tail[0] + ":" + (Join(tail[1..|tail| - 1]) + ":" + tail[|tail| - 1])
  {
    var rest, k := tail[1..], |tail| - 2;
    assert rest[..k] == tail[1..k + 1] && rest[k] == tail[k + 1];
    JoinFrontLast(rest);
  }

  /** Distinct triples never share a cache entry. */
  lemma {:induction false} IndicatorKeyInjective(t: Triple, u: Triple)
    requires ColonFree(t.market) && ColonFree(t.timeframe) && ColonFree(u.market) && ColonFree(u.timeframe)
    requires IndicatorKey(t) == IndicatorKey(u)
    ensures t == u
  {
    PrintThenParse(t);
    PrintThenParse(u);
  }

  // ----- The scanners -----

  /** The triples behind the keys that parse, in key order. */
  function ParsedKeys(keys: seq<string>): seq<Triple> {
    if keys == [] then []
    else
      var n := |keys| - 1;
      var front := ParsedKeys(keys[..n]);
      match ParseIndicatorKey(keys[n])
      case None => front
      case Some(t) => front + [t]
  }

  /** `list_indicators`: one row per well-formed key. */
  method ListIndicators(keys: seq<string>) returns (result: seq<Triple>)
    ensures result == ParsedKeys(keys)
  {
    result := [];
    for i := 0 to |keys|
      invariant result == ParsedKeys(keys[..i])
    {
      assert keys[..i + 1][..i] == keys[..i];
      var parts := Split(keys[i]);
      if |parts| >= 5 {
        result := result + [Triple(parts[2], Join(parts[3..|parts| - 1]), parts[|parts| - 1])];
      }
    }
    assert keys[..|keys|] == keys;
  }

  function PrintedKeys(ts: seq<Triple>): seq<string> {
    if ts == [] then [] else PrintedKeys(ts[..|ts| - 1]) + [IndicatorKey(ts[|ts| - 1])]
  }

  /** Listing the keys written for some colon-free triples returns exactly those triples, in order. */
  lemma {:induction false} ListingRecoversTriples(ts: seq<Triple>)
    requires forall t :: t in ts ==> ColonFree(t.market) && ColonFree(t.timeframe)
    ensures ParsedKeys(PrintedKeys(ts)) == ts
  {
    if ts == [] {
    } else {
      var n := |ts| - 1;
      var front, key := PrintedKeys(ts[..n]), IndicatorKey(ts[n]);
      ListingRecoversTriples(ts[..n]);
      PrintThenParse(ts[n]);
      assert (front + [key])[..|front|] == front;
      assert ParsedKeys(front + [key]) == ts[..n] + [ts[n]];
    }
  }

  type Pair = (string, string)

  function PairOf(key: string): Option<Pair> {
    match ParseIndicatorKey(key)
    case None => None
    case Some(t) => Some((t.market, t.symbol))
  }

  /** The scan finds market and symbol of a printed key, and a key of fewer than five parts gives nothing. */
  lemma {:induction false} PairOfPrinted(t: Triple, key: string)
    ensures ColonFree(t.market) && ColonFree(t.timeframe) ==> PairOf(IndicatorKey(t)) == Some((t.market, t.symbol))
    ensures PairOf(key).Some? <==> |Split(key)| >= 5
  {
    PrintThenParse(t);
  }

  ghost predicate FirstAt(keys: seq<string>, p: Pair, i: nat) {
    && i < |keys|
    && PairOf(keys[i]) == Some(p)
    && forall j :: 0 <= j < i ==> PairOf(keys[j]) != Some(p)
  }

  /** The scan of the first n keys: each pair once, in order of first appearance, and none left out. */
  ghost predicate Scanned(keys: seq<string>, n: nat, result: seq<Pair>, first: seq<nat>) {
    && n <= |keys| && |first| == |result|
    && (forall k :: 0 <= k < |result| ==> first[k] < n && FirstAt(keys, result[k], first[k]))
    && (forall k, l :: 0 <= k < l < |result| ==> first[k] < first[l] && result[k] != result[l])
    && (forall j :: 0 <= j < n && PairOf(keys[j]).Some? ==> PairOf(keys[j]).value in result)
  }

  lemma {:induction false} ScanSkips(keys: seq<string>, n: nat, result: seq<Pair>, first: seq<nat>)
    requires n < |keys| && Scanned(keys, n, result, first)
    requires PairOf(keys[n]).Some? ==> PairOf(keys[n]).value in result
    ensures Scanned(keys, n + 1, result, first)
  {
  }

  lemma {:induction false} ScanAdds(keys: seq<string>, n: nat, result: seq<Pair>, first: seq<nat>, pair: Pair)
    requires n < |keys| && Scanned(keys, n, result, first)
    requires PairOf(keys[n]) == Some(pair) && pair !in result
    ensures Scanned(keys, n + 1, result + [pair], first + [n])
  {
    assert FirstAt(keys, pair, n);
  }

  /** `_get_active_symbols`: every (market, symbol) behind a well-formed key, once, in the order of
      first appearance. `first[k]` is the key index at which the k-th pair first appears. */
  method GetActiveSymbols(keys: seq<string>) returns (result: seq<Pair>, ghost first: seq<nat>)
    ensures |first| == |result|
    ensures forall k :: 0 <= k < |result| ==> FirstAt(keys, result[k], first[k])
    ensures forall k, l :: 0 <= k < l < |result| ==> first[k] < first[l] && result[k] != result[l]
    ensures forall i :: 0 <= i < |keys| && PairOf(keys[i]).Some? ==> PairOf(keys[i]).value in result
  {
    var seen: set<Pair> := {};
    result, first := [], [];
    for i := 0 to |keys|
      invariant forall p :: p in seen <==> p in result
      invariant Scanned(keys, i, result, first)
    {
      var parts := Split(keys[i]);
      if |parts| < 5 {
        ScanSkips(keys, i, result, first);
        continue;
      }
      var pair := (parts[2], Join(parts[3..|parts| - 1]));
      assert PairOf(keys[i]) == Some(pair);
      if pair !in seen {
        ScanAdds(keys, i, result, first, pair);
        seen := seen + {pair};
        result := result + [pair];
        first := first + [i];
      } else {
        ScanSkips(keys, i, result, first);
      }
    }
  }
}
