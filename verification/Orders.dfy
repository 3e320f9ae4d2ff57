/** Order requests and the Redis keys derived from them. */
module Orders {
  import opened Wrappers
  import Keys

  datatype Market = Kr | Us | Upbit | Binance | Hl | Poly {
    function Name(): string {
      match this
      case Kr => "kr"
      case Us => "us"
      case Upbit => "upbit"
      case Binance => "binance"
      case Hl => "hl"
      case Poly => "poly"
    }
  }

  datatype Side = Buy | Sell {
    function Name(): string {
      if Buy? then "buy" else "sell"
    }
  }

  datatype OrderType = MarketOrder | LimitOrder

  datatype Order = Order(market: Market, symbol: string, side: Side, orderType: OrderType,
                         qty: Option<real>, price: Option<real>, key: string, leverage: int, isFutures: bool)

  const FUTURES_MARKETS := {Binance, Hl}

  datatype Invalid = BadQuantity | BadLeverage

  /** Validation and post-initialisation of a request; `uuid` is the generated key. */
  function Normalise(raw: Order, uuid: string): (r: Result<Order, Invalid>) {
    if raw.qty.Some? && raw.qty.value <= 0.0 then Err(BadQuantity)
    else if raw.leverage < 1 || raw.leverage > 125 then Err(BadLeverage)
    else
      var keyed := if raw.key == "" then raw.(key := uuid) else raw;
      Ok(if keyed.leverage > 1 && keyed.market in FUTURES_MARKETS then keyed.(isFutures := true) else keyed)
  }

  /** A normalised request that is serialised and validated again comes back unchanged, so a client that
      resends it keeps its idempotency key and its lock. */
  lemma {:induction false} NormaliseStable(raw: Order, uuid: string, later: string)
    requires uuid != ""
    requires Normalise(raw, uuid).Ok?
    ensures Normalise(Normalise(raw, uuid).value, later) == Normalise(raw, uuid)
    ensures LockKey(Normalise(raw, uuid).value) == LockKey(raw)
  {
  }

  /** What validation accepts, and what it makes of a request: a missing key is generated, leverage on a market with
      futures makes it a futures order, and everything else stays. */
  lemma {:induction false} NormaliseExactly(raw: Order, uuid: string)
    ensures Normalise(raw, uuid) == Err(BadQuantity) <==> raw.qty.Some? && raw.qty.value <= 0.0
    ensures Normalise(raw, uuid).Ok? <==> (raw.qty.Some? ==> raw.qty.value > 0.0) && 1 <= raw.leverage <= 125
    ensures Normalise(raw, uuid).Ok? ==>
              var o := Normalise(raw, uuid).value;
              && o == raw.(key := o.key, isFutures := o.isFutures)
              && (raw.key != "" ==> o.key == raw.key) && (raw.key == "" ==> o.key == uuid)
              && (o.isFutures <==> raw.isFutures || (raw.leverage >= 2 && (raw.market == Binance || raw.market == Hl)))
  {
  }

  function LockKey(o: Order): string {
    "order_lock:" + (o.market.Name() + ":" + (o.symbol + ":" + o.side.Name()))
  }

  lemma {:induction false} NamesAreDistinct(m: Market, n: Market)
    ensures Keys.ColonFree(m.Name())
    ensures m.Name() == n.Name() ==> m == n
  {
    assert "kr"[0] == 'k' && "us"[1] == 's' && "upbit"[1] == 'p' && "binance"[0] == 'b' && "hl"[0] == 'h' && "poly"[0] == 'p';
  }

  /** Two orders contend for one lock exactly when market, symbol and side agree, even though the symbol
      may itself contain the separator. */
  lemma {:induction false} LockKeyInjective(o: Order, p: Order)
    ensures LockKey(o) == LockKey(p) <==> o.market == p.market && o.symbol == p.symbol && o.side == p.side
  {
    if LockKey(o) == LockKey(p) {
      var t := Keys.Triple(o.market.Name(), o.symbol, o.side.Name());
      var u := Keys.Triple(p.market.Name(), p.symbol, p.side.Name());
      NamesAreDistinct(o.market, p.market);
      NamesAreDistinct(p.market, o.market);
      var a := o.market.Name() + ":" + (o.symbol + ":" + o.side.Name());
      var b := p.market.Name() + ":" + (p.symbol + ":" + p.side.Name());
      assert a == LockKey(o)[|"order_lock:"|..] && b == LockKey(p)[|"order_lock:"|..];
      assert Keys.IndicatorKey(t) == Keys.INDICATOR_PREFIX + a && Keys.IndicatorKey(u) == Keys.INDICATOR_PREFIX + b;
      Keys.IndicatorKeyInjective(t, u);
      assert "buy"[0] == 'b' && "sell"[0] == 's';
    }
  }

  lemma {:induction false} LockKeyForm(rest: string)
    ensures "order_lock:" + rest == "order_lock" + ":" + rest
  {
  }

  lemma {:induction false} NamesExactly(market: Market, side: Side)
    ensures market.Name() == match market case Kr => "kr" case Us => "us" case Upbit => "upbit"
                                          case Binance => "binance" case Hl => "hl" case Poly => "poly"
    ensures side.Name() == match side case Buy => "buy" case Sell => "sell"
    ensures Keys.ColonFree(market.Name()) && Keys.ColonFree(side.Name())
  {
  }

  /** The lock key in Redis' own terms. */
  lemma {:induction false} LockKeyParts(o: Order)
    ensures Keys.Split(LockKey(o)) == ["order_lock", o.market.Name()] + Keys.Split(o.symbol) + [o.side.Name()]
  {
    var market, side := o.market.Name(), o.side.Name();
    NamesExactly(o.market, o.side);
    LockKeyForm(market + ":" + (o.symbol + ":" + side));
    Keys.TwoInFront("order_lock", market, o.symbol + ":" + side);
    Keys.SplitConcat(o.symbol, side);
    Keys.SplitColonFree(side);
    assert ["order_lock", market] + (Keys.Split(o.symbol) + [side]) == ["order_lock", market] + Keys.Split(o.symbol) + [side];
  }
}
