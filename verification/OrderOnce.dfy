/** At most one order per idempotency key: when it holds, and that each condition is needed. */
module OrderOnce {
  import opened Wrappers
  import opened Orders
  import opened OrderProtocol

  // ----- The three conditions, for one key and one lock -----

  /** The key is only ever submitted for the market, symbol and side behind `lock`. */
  ghost predicate KeyBound(run: seq<Event>, key: string, lock: string) {
    forall i :: 0 <= i < |run| && run[i].Submit? && run[i].order.key == key ==> LockKey(run[i].order) == lock
  }

  /** This step does not let any critical section of `lock` reach the lock TTL. */
  ghost predicate PromptAt(s: State, e: Event, lock: string) {
    e.Tick? && e.d >= 0.0 ==> forall t :: t in s.Holders(lock) ==> s.now + e.d < s.tasks[t].since + LOCK_TIMEOUT
  }

  /** This step does not let the cached receipt of `key` run out. */
  ghost predicate KeptAt(s: State, e: Event, key: string) {
    e.Tick? && e.d >= 0.0 && key in s.idem ==> s.now + e.d < s.idem[key].deadline
  }

  ghost predicate Prompt(cfg: Config, run: seq<Event>, lock: string) {
    forall i :: 0 <= i < |run| ==> PromptAt(After(cfg, run[..i]), run[i], lock)
  }

  ghost predicate Kept(cfg: Config, run: seq<Event>, key: string) {
    forall i :: 0 <= i < |run| ==> KeptAt(After(cfg, run[..i]), run[i], key)
  }

  lemma {:induction false} Fronts(cfg: Config, run: seq<Event>, key: string, lock: string)
    requires run != []
    ensures var front, last := run[..|run| - 1], run[|run| - 1];
            && (KeyBound(run, key, lock) ==> KeyBound(front, key, lock))
            && (Prompt(cfg, run, lock) ==> Prompt(cfg, front, lock) && PromptAt(After(cfg, front), last, lock))
            && (Kept(cfg, run, key) ==> Kept(cfg, front, key) && KeptAt(After(cfg, front), last, key))
  {
    var front := run[..|run| - 1];
    forall i | 0 <= i < |front|
      ensures front[..i] == run[..i] && front[i] == run[i]
    {
    }
  }

  // ----- Mutual exclusion -----

  /** At most one submission is inside, and its own TTL is the one on the lock. */
  ghost predicate Exclusive(s: State, lock: string) {
    && (forall t, u :: t in s.Holders(lock) && u in s.Holders(lock) ==> t == u)
    && (forall t :: t in s.Holders(lock) ==>
          lock in s.locks && s.locks[lock] == s.tasks[t].since + LOCK_TIMEOUT)
  }

  lemma {:induction false} ExclusiveEnter(cfg: Config, s: State, tid: nat, order: Order, lock: string)
    requires tid !in s.tasks && Exclusive(s, lock)
    ensures Exclusive(Begin(cfg, s, tid, order), lock)
  {
    if Admits(cfg, s, order) {
      BeginAdmitted(cfg, s, tid, order);
      HoldersAdd(s.tasks, tid, Task(order, s.now, EntryPhase(order)), lock);
    } else {
      BeginRefused(cfg, s, tid, order);
      HoldersAdd(s.tasks, tid, Task(order, s.now, RefusalPhase(cfg, s, order)), lock);
    }
  }

  lemma {:induction false} ExclusiveLeave(s: State, tid: nat, phase: Phase, lock: string)
    requires tid in s.tasks && s.tasks[tid].InFlight() && Exclusive(s, lock)
    requires phase.Returned? || phase.Raised?
    ensures Exclusive(s.Leave(tid, phase), lock)
    ensures s.tasks[tid].Lock() == lock ==> s.Leave(tid, phase).Holders(lock) == {}
  {
    HoldersChange(s.tasks, tid, phase, lock);
    if s.tasks[tid].Lock() == lock {
      assert tid in s.Holders(lock);
    }
  }

  lemma {:induction false} ExclusiveReply(s: State, tid: nat, reply: Option<Reply>, uuid: string, lock: string)
    requires s.InPhase(tid, AtCreate) && Exclusive(s, lock)
    ensures reply.None? ==> Exclusive(s.Leave(tid, Raised(ExchangeFailed)), lock)
    ensures reply.Some? ==> Exclusive(Complete(s, tid, ReceiptOf(reply.value, uuid)), lock)
  {
    if reply.None? {
      ExclusiveLeave(s, tid, Raised(ExchangeFailed), lock);
    } else {
      ExclusiveLeave(s, tid, Returned(ReceiptOf(reply.value, uuid)), lock);
    }
  }

  lemma {:induction false} ExclusiveLeverage(s: State, tid: nat, ok: bool, lock: string)
    requires s.InPhase(tid, AtLeverage) && Exclusive(s, lock)
    ensures Exclusive(if ok then CallCreate(s, tid) else s.Leave(tid, Raised(ExchangeFailed)), lock)
  {
    if ok {
      HoldersChange(s.tasks, tid, AtCreate, lock);
    } else {
      ExclusiveLeave(s, tid, Raised(ExchangeFailed), lock);
    }
  }

  lemma {:induction false} ExclusiveAdvance(s: State, d: real, lock: string)
    requires Exclusive(s, lock)
    requires forall t :: t in s.Holders(lock) ==> s.now + d < s.tasks[t].since + LOCK_TIMEOUT
    ensures Exclusive(Advance(s, d), lock)
  {
  }

  lemma {:induction false} ExclusiveStep(cfg: Config, s: State, e: Event, lock: string)
    requires Exclusive(s, lock) && PromptAt(s, e, lock)
    ensures Exclusive(Next(cfg, s, e), lock)
  {
    match e
    case Submit(tid, order) =>
      if tid !in s.tasks {
        ExclusiveEnter(cfg, s, tid, order, lock);
      }
    case LeverageDone(tid, ok) =>
      if s.InPhase(tid, AtLeverage) {
        ExclusiveLeverage(s, tid, ok, lock);
      }
    case CreateDone(tid, reply, uuid) =>
      if s.InPhase(tid, AtCreate) {
        ExclusiveReply(s, tid, reply, uuid, lock);
      }
    case Tick(d) =>
      if d >= 0.0 {
        ExclusiveAdvance(s, d, lock);
      }
    case Crash => assert Restart(s).Holders(lock) == {};
    case _ =>
  }

  /** If no critical section of a lock lasts ten seconds, its critical sections never overlap. */
  lemma {:induction false} MutualExclusion(cfg: Config, run: seq<Event>, lock: string)
    requires Prompt(cfg, run, lock)
    ensures Exclusive(After(cfg, run), lock)
  {
    if run == [] {
    } else {
      var front := run[..|run| - 1];
      Fronts(cfg, run, "", lock);
      MutualExclusion(cfg, front, lock);
      ExclusiveStep(cfg, After(cfg, front), run[|run| - 1], lock);
    }
  }

  // ----- At most one order per key -----

  ghost predicate Placed(s: State, key: string, receipt: Receipt) {
    exists i :: 0 <= i < |s.placed| && s.placed[i].key == key && s.placed[i].receipt == receipt
  }

  /** At most one create_order returned for the key, and every submission of the key that returned at all
      returned that order's id and status. */
  ghost predicate Once(s: State, key: string) {
    && (forall i, j :: 0 <= i < j < |s.placed| ==> !(s.placed[i].key == key && s.placed[j].key == key))
    && (forall t :: t in s.tasks && s.tasks[t].order.key == key && s.tasks[t].phase.Returned? ==>
          Placed(s, key, s.tasks[t].phase.receipt))
  }

  /** What carries `Once` through a run: the cache holds the receipt of the only placement, and nobody is in
      flight with a cached key. */
  ghost predicate Keyed(s: State, key: string, lock: string) {
    && (forall t :: t in s.tasks && s.tasks[t].order.key == key ==> TaskKeyed(s, s.tasks[t], lock))
    && (forall i :: 0 <= i < |s.placed| && s.placed[i].key == key ==>
          key in s.idem && s.idem[key].receipt == s.placed[i].receipt)
    && (key in s.idem ==> Placed(s, key, s.idem[key].receipt))
    && (forall i, j :: 0 <= i < j < |s.placed| ==> !(s.placed[i].key == key && s.placed[j].key == key))
  }

  ghost predicate TaskKeyed(s: State, task: Task, lock: string) {
    var key := task.order.key;
    && task.Lock() == lock
    && (task.InFlight() ==> key !in s.idem)
    && (task.phase.Returned? ==> key in s.idem && s.idem[key].receipt == task.phase.receipt)
  }

  lemma {:induction false} KeyedEnter(cfg: Config, s: State, tid: nat, order: Order, key: string, lock: string)
    requires tid !in s.tasks && Keyed(s, key, lock)
    requires order.key == key ==> LockKey(order) == lock
    ensures Keyed(Begin(cfg, s, tid, order), key, lock)
  {
    if Admits(cfg, s, order) {
      BeginAdmitted(cfg, s, tid, order);
    } else {
      BeginRefused(cfg, s, tid, order);
    }
  }

  lemma {:induction false} KeyedCall(s: State, tid: nat, key: string, lock: string)
    requires tid in s.tasks && s.tasks[tid].InFlight() && Keyed(s, key, lock)
    ensures Keyed(CallCreate(s, tid), key, lock)
  {
  }

  lemma {:induction false} KeyedFail(s: State, tid: nat, key: string, lock: string)
    requires tid in s.tasks && Keyed(s, key, lock)
    ensures Keyed(s.Leave(tid, Raised(ExchangeFailed)), key, lock)
  {
  }

  lemma {:induction false} KeyedComplete(s: State, tid: nat, receipt: Receipt, key: string, lock: string)
    requires tid in s.tasks && s.tasks[tid].InFlight() && Keyed(s, key, lock) && Exclusive(s, lock)
    ensures Keyed(Complete(s, tid, receipt), key, lock)
  {
    var s' := Complete(s, tid, receipt);
    if s.tasks[tid].order.key == key {
      assert TaskKeyed(s, s.tasks[tid], lock) && tid in s.Holders(lock);
      assert s'.placed[|s.placed|] == Placement(tid, key, receipt);
      forall t | t in s'.tasks && s'.tasks[t].order.key == key
        ensures TaskKeyed(s', s'.tasks[t], lock)
      {
        assert TaskKeyed(s, s.tasks[t], lock);
        assert t in s.Holders(lock) ==> t == tid;
      }
    } else {
      assert forall i :: 0 <= i < |s.placed| ==> s'.placed[i] == s.placed[i];
    }
  }

  lemma {:induction false} KeyedAdvance(s: State, d: real, key: string, lock: string)
    requires Keyed(s, key, lock)
    requires key in s.idem ==> s.now + d < s.idem[key].deadline
    ensures Keyed(Advance(s, d), key, lock)
  {
  }

  lemma {:induction false} KeyedRestart(s: State, key: string, lock: string)
    requires Keyed(s, key, lock)
    ensures Keyed(Restart(s), key, lock)
  {
  }

  lemma {:induction false} KeyedReply(s: State, tid: nat, reply: Option<Reply>, uuid: string, key: string, lock: string)
    requires tid in s.tasks && s.tasks[tid].InFlight() && Keyed(s, key, lock) && Exclusive(s, lock)
    ensures reply.None? ==> Keyed(s.Leave(tid, Raised(ExchangeFailed)), key, lock)
    ensures reply.Some? ==> Keyed(Complete(s, tid, ReceiptOf(reply.value, uuid)), key, lock)
  {
    if reply.None? {
      KeyedFail(s, tid, key, lock);
    } else {
      KeyedComplete(s, tid, ReceiptOf(reply.value, uuid), key, lock);
    }
  }

  lemma {:induction false} KeyedLeverage(s: State, tid: nat, ok: bool, key: string, lock: string)
    requires s.InPhase(tid, AtLeverage) && Keyed(s, key, lock)
    ensures Keyed(if ok then CallCreate(s, tid) else s.Leave(tid, Raised(ExchangeFailed)), key, lock)
  {
    if ok {
      KeyedCall(s, tid, key, lock);
    } else {
      KeyedFail(s, tid, key, lock);
    }
  }

  lemma {:induction false} KeyedSame(s: State, s': State, key: string, lock: string)
    requires s'.tasks == s.tasks && s'.placed == s.placed && s'.idem == s.idem && Keyed(s, key, lock)
    ensures Keyed(s', key, lock)
  {
    assert forall t :: t in s.tasks && s.tasks[t].order.key == key ==> TaskKeyed(s, s.tasks[t], lock);
    assert forall r :: Placed(s, key, r) ==> Placed(s', key, r);
  }

  lemma {:induction false} KeyedCoroutine(cfg: Config, s: State, e: Event, key: string, lock: string)
    requires e.Submit? || e.LeverageDone? || e.CreateDone?
    requires Keyed(s, key, lock) && Exclusive(s, lock)
    requires e.Submit? && e.order.key == key ==> LockKey(e.order) == lock
    ensures Keyed(Next(cfg, s, e), key, lock)
  {
    match e
    case Submit(tid, order) =>
      if tid !in s.tasks {
        KeyedEnter(cfg, s, tid, order, key, lock);
      }
    case LeverageDone(tid, ok) =>
      if s.InPhase(tid, AtLeverage) {
        KeyedLeverage(s, tid, ok, key, lock);
      }
    case CreateDone(tid, reply, uuid) =>
      if s.InPhase(tid, AtCreate) {
        KeyedReply(s, tid, reply, uuid, key, lock);
      }
  }

  lemma {:induction false} KeyedEnvironment(cfg: Config, s: State, e: Event, key: string, lock: string)
    requires !e.Submit? && !e.LeverageDone? && !e.CreateDone?
    requires Keyed(s, key, lock) && KeptAt(s, e, key)
    ensures Keyed(Next(cfg, s, e), key, lock)
  {
    match e
    case Tick(d) =>
      if d >= 0.0 {
        KeyedAdvance(s, d, key, lock);
      }
    case Crash => KeyedRestart(s, key, lock);
    case _ => KeyedSame(s, Next(cfg, s, e), key, lock);
  }

  lemma {:induction false} KeyedStep(cfg: Config, s: State, e: Event, key: string, lock: string)
    requires Keyed(s, key, lock) && Exclusive(s, lock) && KeptAt(s, e, key)
    requires e.Submit? && e.order.key == key ==> LockKey(e.order) == lock
    ensures Keyed(Next(cfg, s, e), key, lock)
  {
    if e.Submit? || e.LeverageDone? || e.CreateDone? {
      KeyedCoroutine(cfg, s, e, key, lock);
    } else {
      KeyedEnvironment(cfg, s, e, key, lock);
    }
  }

  lemma {:induction false} KeyedAlways(cfg: Config, run: seq<Event>, key: string, lock: string)
    requires KeyBound(run, key, lock) && Prompt(cfg, run, lock) && Kept(cfg, run, key)
    ensures Keyed(After(cfg, run), key, lock)
  {
    if run == [] {
    } else {
      var front := run[..|run| - 1];
      Fronts(cfg, run, key, lock);
      KeyedAlways(cfg, front, key, lock);
      MutualExclusion(cfg, front, lock);
      KeyedStep(cfg, After(cfg, front), run[|run| - 1], key, lock);
    }
  }

  /** Any interleaving of any number of submissions, with exchange failures, kill flags, shutdowns and
      process deaths, places at most one order for a key that is always used for one lock, as long as no
      critical section of that lock lasts ten seconds and the cached receipt does not run out. */
  lemma {:induction false} AtMostOnce(cfg: Config, run: seq<Event>, key: string, lock: string)
    requires KeyBound(run, key, lock) && Prompt(cfg, run, lock) && Kept(cfg, run, key)
    ensures Once(After(cfg, run), key)
  {
    KeyedAlways(cfg, run, key, lock);
    var s := After(cfg, run);
    forall t | t in s.tasks && s.tasks[t].order.key == key && s.tasks[t].phase.Returned?
      ensures Placed(s, key, s.tasks[t].phase.receipt)
    {
      assert TaskKeyed(s, s.tasks[t], lock);
    }
  }

  /** After the order has been placed, every later submission of the key returns its id and status and does
      nothing else, even with the kill flag set or the queue blocked. */
  lemma {:induction false} ReplayReturnsTheOrder(cfg: Config, run: seq<Event>, key: string, lock: string, tid: nat, order: Order)
    requires KeyBound(run, key, lock) && Prompt(cfg, run, lock) && Kept(cfg, run, key)
    ensures var s := After(cfg, run);
            tid !in s.tasks && order.key == key ==>
              forall i :: 0 <= i < |s.placed| && s.placed[i].key == key ==>
                Next(cfg, s, Submit(tid, order)) == Enter(s, tid, order, Returned(s.placed[i].receipt))
  {
    KeyedAlways(cfg, run, key, lock);
  }
}
