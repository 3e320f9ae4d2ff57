/** Position records as the tracker keeps them: one per (market, symbol) key. */
module Positions {
  import opened Wrappers
  import Keys

  datatype Position = Position(market: string, symbol: string, side: string, qty: real,
                               avgPrice: real, markPrice: real, leverage: int)

  type Store = map<string, Position>

  const POSITIONS_PREFIX := "hydra:positions:"

  function PositionKey(market: string, symbol: string): string {
    POSITIONS_PREFIX + (market + ":" + symbol)
  }

  /** Every record sits under the key printed from its own market and symbol. */
  ghost predicate Filed(store: Store) {
    forall k :: k in store ==> k == PositionKey(store[k].market, store[k].symbol)
  }

  /** The list a scan of the keys returns; Redis gives the keys in any order, each once. */
  function Listed(store: Store, keys: seq<string>): seq<Position>
    requires forall k :: k in keys ==> k in store
  {
    if keys == [] then [] else Listed(store, keys[..|keys| - 1]) + [store[keys[|keys| - 1]]]
  }

  ghost predicate Enumerates(store: Store, keys: seq<string>) {
    && (forall k :: k in keys <==> k in store)
    && (forall i, j :: 0 <= i < j < |keys| ==> keys[i] != keys[j])
  }

  lemma {:induction false} ListedAt(store: Store, keys: seq<string>)
    requires forall k :: k in keys ==> k in store
    ensures |Listed(store, keys)| == |keys|
    ensures forall i :: 0 <= i < |keys| ==> Listed(store, keys)[i] == store[keys[i]]
  {
    if keys == [] {
    } else {
      ListedAt(store, keys[..|keys| - 1]);
    }
  }

  /** A snapshot names each (market, symbol) at most once. */
  lemma {:induction false} SnapshotIsUnique(store: Store, keys: seq<string>)
    requires Filed(store) && Enumerates(store, keys)
    ensures var ps := Listed(store, keys);
            forall i, j :: 0 <= i < j < |ps| ==> ps[i].market != ps[j].market || ps[i].symbol != ps[j].symbol
  {
    ListedAt(store, keys);
    forall i, j | 0 <= i < j < |keys| && store[keys[i]].market == store[keys[j]].market
      ensures store[keys[i]].symbol != store[keys[j]].symbol
    {
      assert keys[i] in store && keys[j] in store;
    }
  }

  lemma {:induction false} PositionKeyInjective(m: string, s: string, n: string, t: string)
    requires Keys.ColonFree(m) && Keys.ColonFree(n)
    ensures PositionKey(m, s) == PositionKey(n, t) <==> m == n && s == t
  {
    if PositionKey(m, s) == PositionKey(n, t) {
      var p := |POSITIONS_PREFIX|;
      assert PositionKey(m, s)[p..] == m + ":" + s && PositionKey(n, t)[p..] == n + ":" + t;
      Keys.PairInjective(m, s, n, t);
    }
  }

  /** The position recorded for a (market, symbol), as `get` reads it back. */
  function Recorded(store: Store, market: string, symbol: string): Option<Position> {
    var k := PositionKey(market, symbol);
    if k in store then Some(store[k]) else None
  }

  /** The key of a record in Redis' own terms. */
  lemma {:induction false} PositionKeyParts(market: string, symbol: string)
    requires Keys.ColonFree(market)
    ensures Keys.Split(PositionKey(market, symbol)) == ["hydra", "positions", market] + Keys.Split(symbol)
  {
    PositionKeyForm(market + ":" + symbol);
    Keys.TwoInFront("hydra", "positions", market + ":" + symbol);
    Keys.PairSplit(market, symbol);
    assert ["hydra", "positions"] + ([market] + Keys.Split(symbol)) == ["hydra", "positions", market] + Keys.Split(symbol);
  }

  lemma {:induction false} PositionKeyForm(rest: string)
    ensures POSITIONS_PREFIX + rest == "hydra" + ":" + ("positions" + ":" + rest)
  {
  }
}
