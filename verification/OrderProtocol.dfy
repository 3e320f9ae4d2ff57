/**
 Order execution as a transition system.

 The state is what Redis, the exchanges and the suspended `submit` coroutines hold. One step is one
 stretch of code between two `await`s of some coroutine (Redis calls are synchronous, so such a stretch is
 atomic in one event loop), or a move of the environment: time passes and TTLs run out, the kill flag
 or the daily PnL is written, a shutdown blocks the queue, the process dies and restarts.
 An event that cannot happen in a state leaves it unchanged, so every sequence of events is a run.
 */
module OrderProtocol {
  import opened Wrappers
  import opened Orders
  import Risk

  const LOCK_TIMEOUT := 10.0
  const IDEMPOTENCY_TTL := 86400.0

  datatype Config = Config(exchanges: set<Market>, risk: Risk.RiskConfig)

  datatype Receipt = Receipt(orderId: string, status: string)

  /** What an exchange answers; both fields may be missing. */
  datatype Reply = Reply(orderId: Option<string>, status: Option<string>)

  function ReceiptOf(reply: Reply, uuid: string): Receipt {
    Receipt(reply.orderId.GetOr(uuid), reply.status.GetOr("submitted"))
  }

  datatype OrderError = KillActive | LockHeld | RiskRefused(why: Risk.Refusal) | InactiveMarket | ExchangeFailed

  datatype Phase =
    | AtLeverage                  // suspended in `await ex.set_leverage`
    | AtCreate                    // suspended in `await ex.create_order`
    | Returned(receipt: Receipt)
    | Raised(error: OrderError)
    | Lost                        // was suspended when the process died

  datatype Task = Task(order: Order, since: real, phase: Phase) {
    predicate InFlight() {
      phase.AtLeverage? || phase.AtCreate?
    }

    function Lock(): string {
      LockKey(order)
    }
  }

  type Tasks = map<nat, Task>

  function HoldersIn(tasks: Tasks, lock: string): set<nat> {
    set t | t in tasks && tasks[t].InFlight() && tasks[t].Lock() == lock
  }

  function PendingIn(tasks: Tasks): set<nat> {
    set t | t in tasks && tasks[t].phase.AtLeverage?
  }

  datatype Cached = Cached(receipt: Receipt, deadline: real)

  datatype Placement = Placement(tid: nat, key: string, receipt: Receipt)

  datatype State = State(
    // Redis
    now: real,
    idem: map<string, Cached>,
    locks: map<string, real>,      // lock key to the time at which its TTL runs out
    killed: bool,
    pnl: Option<real>,
    // the process
    blocked: bool,
    tasks: Tasks,
    // what an observer has seen: create_order calls started and returned, TTLs that ran out
    // while a submission was in the critical section, and who took each lock last
    started: seq<nat>,
    placed: seq<Placement>,
    late: map<string, nat>,
    owner: map<string, nat>
  ) {
    function Late(lock: string): nat {
      if lock in late then late[lock] else 0
    }

    /** The submissions in the critical section of a lock. */
    function Holders(lock: string): set<nat> {
      HoldersIn(tasks, lock)
    }

    /** The submissions that passed the kill check but have not called create_order yet. */
    function Pending(): set<nat> {
      PendingIn(tasks)
    }

    predicate InPhase(tid: nat, phase: Phase) {
      tid in tasks && tasks[tid].phase == phase
    }

    function SetPhase(tid: nat, phase: Phase): State
      requires tid in tasks
    {
      this.(tasks := tasks[tid := tasks[tid].(phase := phase)])
    }

    /** Leaving the `try` block: whichever way it ends, the lock key is deleted unconditionally. */
    function Leave(tid: nat, phase: Phase): State
      requires tid in tasks
    {
      SetPhase(tid, phase).(locks := locks - {tasks[tid].Lock()})
    }
  }

  const INITIAL := State(0.0, map[], map[], false, None, false, map[], [], [], map[], map[])

  datatype Event =
    | Submit(tid: nat, order: Order)
    | LeverageDone(tid: nat, ok: bool)
    | CreateDone(tid: nat, reply: Option<Reply>, uuid: string)
    | KillFlag
    | Block
    | WritePnl(pnl: real)
    | Tick(d: real)
    | Crash

  /** The first stretch of `submit`: cache, kill check, lock, risk check, connector lookup. */
  function Begin(cfg: Config, s: State, tid: nat, order: Order): State
    requires tid !in s.tasks
  {
    if order.key in s.idem then Enter(s, tid, order, Returned(s.idem[order.key].receipt))
    else if s.blocked || s.killed then Enter(s, tid, order, Raised(KillActive))
    else if LockKey(order) in s.locks then Enter(s, tid, order, Raised(LockHeld))
    else
      match Risk.CheckOrder(cfg.risk, s.pnl, 0.0)
      case Some(why) => Enter(s, tid, order, Raised(RiskRefused(why)))
      case None =>
        if order.market !in cfg.exchanges then Enter(s, tid, order, Raised(InactiveMarket))
        else
          var s' := Enter(s, tid, order, AtLeverage).(
                    locks := s.locks[LockKey(order) := s.now + LOCK_TIMEOUT],
                    owner := s.owner[LockKey(order) := tid]);
          if order.isFutures && order.leverage > 1 then s' else CallCreate(s', tid)
  }

  function Enter(s: State, tid: nat, order: Order, phase: Phase): State {
    s.(tasks := s.tasks[tid := Task(order, s.now, phase)])
  }

  function CallCreate(s: State, tid: nat): State
    requires tid in s.tasks
  {
    s.SetPhase(tid, AtCreate).(started := s.started + [tid])
  }

  /** The last stretch after a successful create_order: cache the receipt, return it, drop the lock. */
  function Complete(s: State, tid: nat, receipt: Receipt): State
    requires tid in s.tasks
  {
    var key := s.tasks[tid].order.key;
    s.Leave(tid, Returned(receipt)).(
      idem := s.idem[key := Cached(receipt, s.now + IDEMPOTENCY_TTL)],
      placed := s.placed + [Placement(tid, key, receipt)])
  }

  function FreshCache(idem: map<string, Cached>, now: real): map<string, Cached> {
    map k | k in idem && now < idem[k].deadline :: idem[k]
  }

  function FreshLocks(locks: map<string, real>, now: real): map<string, real> {
    map l | l in locks && now < locks[l] :: locks[l]
  }

  /** How often the TTL of each lock has run out under a submission once it is `now`. */
  function LateAt(s: State, now: real): map<string, nat> {
    map l | l in s.late.Keys + s.locks.Keys ::
      s.Late(l) + if l in s.locks && s.locks[l] <= now && s.Holders(l) != {} then 1 else 0
  }

  /** Time moves on by d; keys whose TTL has run out disappear. */
  function Advance(s: State, d: real): State {
    var now := s.now + d;
    s.(now := now, idem := FreshCache(s.idem, now), locks := FreshLocks(s.locks, now), late := LateAt(s, now))
  }

  function Restart(s: State): State {
    s.(blocked := false,
       tasks := map t | t in s.tasks ::
         if s.tasks[t].InFlight() then s.tasks[t].(phase := Lost) else s.tasks[t])
  }

  function Next(cfg: Config, s: State, e: Event): State {
    match e
    case Submit(tid, order) => if tid in s.tasks then s else Begin(cfg, s, tid, order)
    case LeverageDone(tid, ok) =>
      if !s.InPhase(tid, AtLeverage) then s
      else if ok then CallCreate(s, tid) else s.Leave(tid, Raised(ExchangeFailed))
    case CreateDone(tid, reply, uuid) =>
      if !s.InPhase(tid, AtCreate) then s
      else if reply.None? then s.Leave(tid, Raised(ExchangeFailed))
      else Complete(s, tid, ReceiptOf(reply.value, uuid))
    case KillFlag => s.(killed := true)
    case Block => s.(blocked := true)
    case WritePnl(pnl) => s.(pnl := Some(pnl))
    case Tick(d) => if d < 0.0 then s else Advance(s, d)
    case Crash => Restart(s)
  }

  /** The state after a run. */
  function Exec(cfg: Config, s: State, run: seq<Event>): State {
    if run == [] then s
    else Next(cfg, Exec(cfg, s, run[..|run| - 1]), run[|run| - 1])
  }

  function After(cfg: Config, run: seq<Event>): State {
    Exec(cfg, INITIAL, run)
  }

  lemma {:induction false} Snoc(cfg: Config, run: seq<Event>, e: Event)
    ensures After(cfg, run + [e]) == Next(cfg, After(cfg, run), e)
  {
    assert (run + [e])[..|run|] == run;
  }

  // ----- Shapes of steps -----

  /** Exactly when a submission gets past the first stretch. */
  predicate Admits(cfg: Config, s: State, order: Order) {
    && order.key !in s.idem
    && !s.blocked && !s.killed
    && LockKey(order) !in s.locks
    && Risk.CheckOrder(cfg.risk, s.pnl, 0.0).None?
    && order.market in cfg.exchanges
  }

  function EntryPhase(order: Order): Phase {
    if order.isFutures && order.leverage > 1 then AtLeverage else AtCreate
  }

  lemma {:induction false} BeginAdmitted(cfg: Config, s: State, tid: nat, order: Order)
    requires tid !in s.tasks && Admits(cfg, s, order)
    ensures Begin(cfg, s, tid, order) ==
            Enter(s, tid, order, EntryPhase(order)).(
            locks := s.locks[LockKey(order) := s.now + LOCK_TIMEOUT],
            owner := s.owner[LockKey(order) := tid],
            started := s.started + if EntryPhase(order).AtCreate? then [tid] else [])
  {
    assert s.tasks[tid := Task(order, s.now, AtLeverage)][tid := Task(order, s.now, AtCreate)]
        == s.tasks[tid := Task(order, s.now, AtCreate)];
    assert s.started + [] == s.started;
  }

  function RefusalPhase(cfg: Config, s: State, order: Order): (p: Phase)
    requires !Admits(cfg, s, order)
    ensures p.Returned? || p.Raised?
    ensures p.Returned? <==> order.key in s.idem
    ensures p.Returned? ==> p.receipt == s.idem[order.key].receipt
  {
    if order.key in s.idem then Returned(s.idem[order.key].receipt)
    else if s.blocked || s.killed then Raised(KillActive)
    else if LockKey(order) in s.locks then Raised(LockHeld)
    else
      match Risk.CheckOrder(cfg.risk, s.pnl, 0.0)
      case Some(why) => Raised(RiskRefused(why))
      case None => Raised(InactiveMarket)
  }

  /** A refused or replayed submission changes nothing but its own record. */
  lemma {:induction false} BeginRefused(cfg: Config, s: State, tid: nat, order: Order)
    requires tid !in s.tasks && !Admits(cfg, s, order)
    ensures Begin(cfg, s, tid, order) == Enter(s, tid, order, RefusalPhase(cfg, s, order))
  {
  }

  lemma {:induction false} HoldersAdd(tasks: Tasks, tid: nat, task: Task, lock: string)
    requires tid !in tasks
    ensures HoldersIn(tasks[tid := task], lock) ==
            HoldersIn(tasks, lock) + if task.InFlight() && task.Lock() == lock then {tid} else {}
  {
  }

  lemma {:induction false} HoldersChange(tasks: Tasks, tid: nat, phase: Phase, lock: string)
    requires tid in tasks && tasks[tid].InFlight()
    ensures var stays := phase.AtLeverage? || phase.AtCreate?;
            HoldersIn(tasks[tid := tasks[tid].(phase := phase)], lock) ==
            if stays then HoldersIn(tasks, lock) else HoldersIn(tasks, lock) - {tid}
  {
    assert tasks[tid].(phase := phase).Lock() == tasks[tid].Lock();
  }
}
