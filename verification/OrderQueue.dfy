/**
 `OrderQueue` and its users, in the form the program has: objects that update a shared Redis server.
 `submit` is cut at its `await`s; the suspended coroutines are the entries of `tasks`.
 Each method is proved to be one step of OrderProtocol.
 */
module OrderQueue {
  import opened Wrappers
  import opened Orders
  import opened OrderProtocol
  import opened Positions
  import opened Redis
  import Risk

  class Queue {
    const cfg: Config
    const redis: Server
    var blocked: bool
    var tasks: Tasks
    ghost var started: seq<nat>
    ghost var placed: seq<Placement>
    ghost var late: map<string, nat>
    ghost var owner: map<string, nat>

    ghost function State(): OrderProtocol.State
      reads this, redis
    {
      OrderProtocol.State(redis.now, redis.idem, redis.locks, redis.killed, redis.pnl,
                          blocked, tasks, started, placed, late, owner)
    }

    constructor (cfg: Config, redis: Server)
      ensures this.cfg == cfg && this.redis == redis
      ensures redis.now == 0.0 && redis.idem == map[] && redis.locks == map[] && !redis.killed && redis.pnl == None
              ==> State() == INITIAL
    {
      this.cfg, this.redis := cfg, redis;
      blocked, tasks := false, map[];
      started, placed, late, owner := [], [], map[], map[];
    }

    method BlockNewOrders()
      modifies this
      ensures blocked && State() == Next(cfg, old(State()), Block)
    {
      blocked := true;
    }

    /** From the call up to the first `await`, or to the end. */
    method Submit(tid: nat, order: Order)
      requires tid !in tasks
      modifies this, redis`locks
      ensures State() == Next(cfg, old(State()), Event.Submit(tid, order))
    {
      if order.key in redis.idem {
        Finish(tid, order, Returned(redis.idem[order.key].receipt));
        return;
      }
      if blocked || redis.killed {
        Finish(tid, order, Raised(KillActive));
        return;
      }
      var lock := LockKey(order);
      if lock in redis.locks {
        Finish(tid, order, Raised(LockHeld));
        return;
      }
      ghost var before := State();
      ghost var unlocked := redis.locks;
      redis.locks := redis.locks[lock := redis.now + LOCK_TIMEOUT];
      var refusal := Risk.CheckOrder(cfg.risk, redis.pnl, 0.0);
      if refusal.Some? || order.market !in cfg.exchanges {
        Finish(tid, order, Raised(if refusal.Some? then RiskRefused(refusal.value) else InactiveMarket));
        redis.locks := redis.locks - {lock};
        assert redis.locks == unlocked;
        BeginRefused(cfg, before, tid, order);
        return;
      }
      owner := owner[lock := tid];
      if order.isFutures && order.leverage > 1 {
        Finish(tid, order, AtLeverage);
      } else {
        Finish(tid, order, AtCreate);
        started := started + [tid];
      }
      BeginAdmitted(cfg, before, tid, order);
      assert old(started) + [] == old(started);
    }

    /** Where the coroutine stops for now, or for good. */
    method Finish(tid: nat, order: Order, phase: Phase)
      modifies this`tasks
      ensures tasks == old(tasks)[tid := Task(order, redis.now, phase)]
    {
      tasks := tasks[tid := Task(order, redis.now, phase)];
    }

    /** Resumed after `await ex.set_leverage`, which came back or raised. */
    method ResumeAfterLeverage(tid: nat, ok: bool)
      requires tid in tasks && tasks[tid].phase == AtLeverage
      modifies this, redis`locks
      ensures State() == Next(cfg, old(State()), LeverageDone(tid, ok))
    {
      if ok {
        tasks := tasks[tid := tasks[tid].(phase := AtCreate)];
        started := started + [tid];
      } else {
        redis.locks := redis.locks - {tasks[tid].Lock()};
        tasks := tasks[tid := tasks[tid].(phase := Raised(ExchangeFailed))];
      }
    }

    /** Resumed after `await ex.create_order`, with a reply or with an exception. */
    method ResumeAfterCreate(tid: nat, reply: Option<Reply>, uuid: string)
      requires tid in tasks && tasks[tid].phase == AtCreate
      modifies this, redis`locks, redis`idem
      ensures State() == Next(cfg, old(State()), CreateDone(tid, reply, uuid))
    {
      var order := tasks[tid].order;
      if reply.Some? {
        var receipt := ReceiptOf(reply.value, uuid);
        redis.idem := redis.idem[order.key := Cached(receipt, redis.now + IDEMPOTENCY_TTL)];
        placed := placed + [Placement(tid, order.key, receipt)];
        tasks := tasks[tid := tasks[tid].(phase := Returned(receipt))];
      } else {
        tasks := tasks[tid := tasks[tid].(phase := Raised(ExchangeFailed))];
      }
      redis.locks := redis.locks - {LockKey(order)};
    }
  }

  class PositionTracker {
    const redis: Server

    constructor (redis: Server)
      ensures this.redis == redis
    {
      this.redis := redis;
    }

    method Update(market: string, symbol: string, qty: real, avgPrice: real, side: string,
                  leverage: int, markPrice: Option<real>)
      modifies redis`positions
      ensures old(Filed(redis.positions)) ==> Filed(redis.positions)
      ensures var mark := if markPrice.Some? && markPrice.value != 0.0 then markPrice.value else avgPrice;
              Recorded(redis.positions, market, symbol) ==
              Some(Position(market, symbol, side, qty, avgPrice, mark, leverage))
      ensures forall k :: k != PositionKey(market, symbol) ==>
                (k in redis.positions <==> k in old(redis.positions))
                && (k in redis.positions ==> redis.positions[k] == old(redis.positions)[k])
    {
      var mark := if markPrice.Some? && markPrice.value != 0.0 then markPrice.value else avgPrice;
      redis.positions := redis.positions[
        PositionKey(market, symbol) := Position(market, symbol, side, qty, avgPrice, mark, leverage)];
    }

    method Clear(market: string, symbol: string)
      modifies redis`positions
      ensures old(Filed(redis.positions)) ==> Filed(redis.positions)
      ensures redis.positions == old(redis.positions) - {PositionKey(market, symbol)}
    {
      redis.positions := redis.positions - {PositionKey(market, symbol)};
    }

    method GetAll(keys: seq<string>) returns (result: seq<Position>)
      requires Enumerates(redis.positions, keys)
      ensures result == Listed(redis.positions, keys)
    {
      result := [];
      for i := 0 to |keys|
        invariant result == Listed(redis.positions, keys[..i])
      {
        assert keys[..i + 1][..i] == keys[..i];
        var k := keys[i];
        if k in redis.positions {
          result := result + [redis.positions[k]];
        }
      }
      assert keys[..|keys|] == keys;
    }
  }

  /** `GracefulManager.shutdown`: blocks the queue before it takes the snapshot, once. */
  class GracefulManager {
    const queue: Queue
    const tracker: PositionTracker
    var shuttingDown: bool
    var lastSnapshot: Option<seq<Position>>

    constructor (queue: Queue, tracker: PositionTracker)
      requires tracker.redis == queue.redis
      ensures this.queue == queue && this.tracker == tracker && !shuttingDown && lastSnapshot == None
    {
      this.queue, this.tracker := queue, tracker;
      shuttingDown, lastSnapshot := false, None;
    }

    method Shutdown(keys: seq<string>)
      requires Enumerates(tracker.redis.positions, keys)
      modifies this, queue
      ensures shuttingDown
      ensures if old(shuttingDown)
              then queue.State() == old(queue.State()) && lastSnapshot == old(lastSnapshot)
              else && queue.blocked && queue.State() == Next(queue.cfg, old(queue.State()), Block)
                   && lastSnapshot == Some(Listed(tracker.redis.positions, keys))
    {
      if shuttingDown {
        return;
      }
      shuttingDown := true;
      queue.BlockNewOrders();
      var snapshot := tracker.GetAll(keys);
      lastSnapshot := Some(snapshot);
    }
  }
}
