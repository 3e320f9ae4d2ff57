/** The daily-loss guard consulted inside every order submission, and the two kill triggers. */
module Risk {
  import opened Wrappers

  datatype RiskConfig = RiskConfig(dailyLossLimit: real, dailyLossKill: real, maxPositionPerSymbol: real)

  const KILL_THRESHOLD := -0.05

  datatype Refusal = KillLevel | LossLimit | PositionTooLarge

  function DailyPnl(stored: Option<real>): real {
    stored.GetOr(0.0)
  }

  /** `check_order_allowed`: None means allowed. */
  function CheckOrder(config: RiskConfig, stored: Option<real>, positionPct: real): Option<Refusal> {
    var pnl := DailyPnl(stored);
    if pnl <= -config.dailyLossKill then Some(KillLevel)
    else if pnl <= -config.dailyLossLimit then Some(LossLimit)
    else if positionPct > config.maxPositionPerSymbol then Some(PositionTooLarge)
    else None
  }

  /** `RiskEngine.should_kill_switch`. */
  predicate ShouldKill(config: RiskConfig, stored: Option<real>) {
    DailyPnl(stored) <= -config.dailyLossKill
  }

  /** `KillSwitch.check_auto_triggers`, which has its own threshold. */
  predicate AutoTrigger(stored: Option<real>) {
    DailyPnl(stored) <= KILL_THRESHOLD
  }

  /** The two kill triggers read the same number but compare it with thresholds kept in two files:
      they agree on every stored value exactly when the configured threshold is the constant one. */
  lemma {:induction false} TriggersAgree(config: RiskConfig)
    ensures (forall stored :: ShouldKill(config, stored) <==> AutoTrigger(stored)) <==> config.dailyLossKill == 0.05
  {
    if config.dailyLossKill != 0.05 {
      var low := if config.dailyLossKill < 0.05 then -config.dailyLossKill else KILL_THRESHOLD;
      var witnessed := Some(low);
      assert ShouldKill(config, witnessed) != AutoTrigger(witnessed);
    }
  }

  /** No order is admitted at a loss that fires the automatic trigger, whatever the position size,
      exactly when one of the two configured loss levels is at or before the trigger. */
  lemma {:induction false} TriggeredLossRefusesOrders(config: RiskConfig)
    ensures (forall stored, pct :: AutoTrigger(stored) ==> CheckOrder(config, stored, pct).Some?)
            <==> config.dailyLossKill <= 0.05 || config.dailyLossLimit <= 0.05
  {
    if config.dailyLossKill > 0.05 && config.dailyLossLimit > 0.05 {
      assert CheckOrder(config, Some(KILL_THRESHOLD), config.maxPositionPerSymbol) == None;
      assert AutoTrigger(Some(KILL_THRESHOLD));
    }
  }

  /** The loss a stored figure stands for; nothing stored is no loss. */
  ghost predicate LossAtLeast(stored: Option<real>, level: real) {
    match stored
    case None => level <= 0.0
    case Some(pnl) => pnl + level <= 0.0
  }

  /** Exactly when an order is refused, and why; and exactly when either trigger fires, the level included. */
  lemma {:induction false} GuardsExactly(config: RiskConfig, stored: Option<real>, pct: real)
    ensures var kill, limit := LossAtLeast(stored, config.dailyLossKill), LossAtLeast(stored, config.dailyLossLimit);
            && (CheckOrder(config, stored, pct) == Some(KillLevel) <==> kill)
            && (CheckOrder(config, stored, pct) == Some(LossLimit) <==> limit && !kill)
            && (CheckOrder(config, stored, pct) == Some(PositionTooLarge) <==>
                  !kill && !limit && pct > config.maxPositionPerSymbol)
            && (ShouldKill(config, stored) <==> kill)
    ensures AutoTrigger(stored) <==> LossAtLeast(stored, 0.05)
  {
  }
}
