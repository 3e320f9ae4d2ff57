/** At most one create_order started per idempotency key, unless an earlier one failed: what a retry can double. */
module OrderCalls {
  import opened Wrappers
  import opened Orders
  import opened OrderProtocol
  import opened OrderSafety
  import opened OrderOnce
  import opened OrderLimits

  /** A call for the key that is under way or has returned. */
  ghost predicate Live(s: State, t: nat, key: string) {
    && t in s.started && t in s.tasks && s.tasks[t].order.key == key
    && (s.tasks[t].phase.AtCreate? || s.tasks[t].phase.Returned?)
  }

  ghost predicate OneLive(s: State, key: string) {
    forall t, u :: Live(s, t, key) && Live(s, u, key) ==> t == u
  }

  ghost predicate NoneLive(s: State, key: string) {
    forall t :: !Live(s, t, key)
  }

  /** No call of the key is live while its receipt is not cached and nobody inside its lock has called yet. */
  lemma {:induction false} NothingCalled(s: State, key: string, lock: string)
    requires Keyed(s, key, lock) && key !in s.idem
    requires forall t :: t in s.Holders(lock) ==> s.tasks[t].phase.AtLeverage?
    ensures NoneLive(s, key)
  {
  }

  /** From s to s' no call becomes live but that of tid. */
  ghost predicate OnlyNew(s: State, s': State, key: string, tid: nat) {
    forall t :: Live(s', t, key) ==> Live(s, t, key) || t == tid
  }

  lemma {:induction false} OneThen(s: State, s': State, key: string, tid: nat)
    requires OnlyNew(s, s', key, tid) && OneLive(s, key)
    requires NoneLive(s, key) || !Live(s', tid, key) || Live(s, tid, key)
    ensures OneLive(s', key)
  {
  }

  lemma {:induction false} LiveEnter(cfg: Config, s: State, tid: nat, order: Order, key: string, lock: string)
    requires tid !in s.tasks && CallsOnce(s)
    requires Keyed(s, key, lock) && Exclusive(s, lock) && OneLive(s, key)
    requires order.key == key ==> LockKey(order) == lock
    ensures OneLive(Begin(cfg, s, tid, order), key)
  {
    if Admits(cfg, s, order) {
      BeginAdmitted(cfg, s, tid, order);
      if order.key == key {
        NothingCalled(s, key, lock);
      }
    } else {
      BeginRefused(cfg, s, tid, order);
    }
    OneThen(s, Begin(cfg, s, tid, order), key, tid);
  }

  /** While a submission of the key waits in set_leverage, no call of the key is live. */
  lemma {:induction false} WaitingAlone(s: State, tid: nat, key: string, lock: string)
    requires s.InPhase(tid, AtLeverage) && s.tasks[tid].order.key == key
    requires Keyed(s, key, lock) && Exclusive(s, lock)
    ensures NoneLive(s, key)
  {
    assert TaskKeyed(s, s.tasks[tid], lock);
    assert tid in s.Holders(lock);
    NothingCalled(s, key, lock);
  }

  lemma {:induction false} CallIsNew(s: State, tid: nat, key: string)
    requires tid in s.tasks
    ensures OnlyNew(s, CallCreate(s, tid), key, tid)
    ensures s.tasks[tid].order.key != key ==> !Live(CallCreate(s, tid), tid, key)
  {
  }

  lemma {:induction false} SameCalls(s: State, s': State, key: string)
    requires s'.tasks == s.tasks && s'.started == s.started && OneLive(s, key)
    ensures OneLive(s', key)
  {
    assert forall t :: Live(s', t, key) ==> Live(s, t, key);
  }

  lemma {:induction false} LiveCall(s: State, tid: nat, key: string, lock: string)
    requires s.InPhase(tid, AtLeverage)
    requires Keyed(s, key, lock) && Exclusive(s, lock) && OneLive(s, key)
    ensures OneLive(CallCreate(s, tid), key)
  {
    if s.tasks[tid].order.key == key {
      WaitingAlone(s, tid, key, lock);
    }
    CallIsNew(s, tid, key);
    OneThen(s, CallCreate(s, tid), key, tid);
  }

  lemma {:induction false} LivePhase(s: State, s': State, tid: nat, phase: Phase, key: string)
    requires tid in s.tasks && s'.tasks == s.SetPhase(tid, phase).tasks && s'.started == s.started
    requires phase.Raised? || (phase.Returned? && s.tasks[tid].phase.AtCreate?)
    requires OneLive(s, key)
    ensures OneLive(s', key)
  {
    OneThen(s, s', key, tid);
  }

  lemma {:induction false} LiveReply(s: State, tid: nat, reply: Option<Reply>, uuid: string, key: string)
    requires s.InPhase(tid, AtCreate) && OneLive(s, key)
    ensures reply.None? ==> OneLive(s.Leave(tid, Raised(ExchangeFailed)), key)
    ensures reply.Some? ==> OneLive(Complete(s, tid, ReceiptOf(reply.value, uuid)), key)
  {
    PendingReply(s, tid, reply, uuid);
    if reply.None? {
      LivePhase(s, s.Leave(tid, Raised(ExchangeFailed)), tid, Raised(ExchangeFailed), key);
    } else {
      var receipt := ReceiptOf(reply.value, uuid);
      LivePhase(s, Complete(s, tid, receipt), tid, Returned(receipt), key);
    }
  }

  lemma {:induction false} LiveStep(cfg: Config, s: State, e: Event, key: string, lock: string)
    requires CallsOnce(s) && Keyed(s, key, lock) && Exclusive(s, lock) && OneLive(s, key)
    requires e.Submit? && e.order.key == key ==> LockKey(e.order) == lock
    ensures OneLive(Next(cfg, s, e), key)
  {
    match e
    case Submit(tid, order) =>
      if tid !in s.tasks {
        LiveEnter(cfg, s, tid, order, key, lock);
      }
    case LeverageDone(tid, ok) =>
      if s.InPhase(tid, AtLeverage) {
        if ok {
          LiveCall(s, tid, key, lock);
        } else {
          LivePhase(s, s.Leave(tid, Raised(ExchangeFailed)), tid, Raised(ExchangeFailed), key);
        }
      }
    case CreateDone(tid, reply, uuid) =>
      if s.InPhase(tid, AtCreate) {
        LiveReply(s, tid, reply, uuid, key);
      }
    case Crash => OneThen(s, Restart(s), key, 0);
    case KillFlag => SameCalls(s, s.(killed := true), key);
    case Block => SameCalls(s, s.(blocked := true), key);
    case WritePnl(pnl) => SameCalls(s, s.(pnl := Some(pnl)), key);
    case Tick(d) => SameCalls(s, Next(cfg, s, e), key);
  }

  lemma {:induction false} LiveAlways(cfg: Config, run: seq<Event>, key: string, lock: string)
    requires KeyBound(run, key, lock) && Prompt(cfg, run, lock) && Kept(cfg, run, key)
    ensures OneLive(After(cfg, run), key)
  {
    if run == [] {
    } else {
      var front := run[..|run| - 1];
      Fronts(cfg, run, key, lock);
      LiveAlways(cfg, front, key, lock);
      EveryCallWasAdmitted(cfg, front);
      KeyedAlways(cfg, front, key, lock);
      MutualExclusion(cfg, front, lock);
      LiveStep(cfg, After(cfg, front), run[|run| - 1], key, lock);
    }
  }

  /** The submissions of the key whose create_order was started. */
  function CallsFor(s: State, key: string): set<nat> {
    set t | t in s.started && t in s.tasks && s.tasks[t].order.key == key
  }

  /** Those among them whose call raised, or was lost when the process died. */
  function FailuresFor(s: State, key: string): set<nat> {
    set t | t in CallsFor(s, key) && (s.tasks[t].phase.Raised? || s.tasks[t].phase.Lost?)
  }

  lemma {:induction false} CountCalls(s: State, key: string)
    requires OneLive(s, key) && CallsOnce(s)
    ensures |CallsFor(s, key)| <= |FailuresFor(s, key)| + 1
  {
    var calls, failures := CallsFor(s, key), FailuresFor(s, key);
    var live := calls - failures;
    assert calls == failures + live;
    if t :| t in live {
      assert Live(s, t, key);
      assert live == {t} by {
        forall u | u in live
          ensures u == t
        {
          assert Live(s, u, key);
        }
      }
    }
  }

  /** Under the conditions of `AtMostOnce`, counting the calls an exchange is asked to perform rather than those
      that come back: a key starts at most one create_order more than those of its calls that raised or were
      lost. So two orders at an exchange need a call that was executed there without its reply coming back. */
  lemma {:induction false} AtMostOneCall(cfg: Config, run: seq<Event>, key: string, lock: string)
    requires KeyBound(run, key, lock) && Prompt(cfg, run, lock) && Kept(cfg, run, key)
    ensures var s := After(cfg, run);
            && |CallsFor(s, key)| <= |FailuresFor(s, key)| + 1
            && (forall i :: 0 <= i < |s.started| ==> s.started[i] in s.tasks)
            && (forall i, j :: 0 <= i < j < |s.started| ==> s.started[i] != s.started[j])
  {
    LiveAlways(cfg, run, key, lock);
    EveryCallWasAdmitted(cfg, run);
    CountCalls(After(cfg, run), key);
  }

  // ----- The bound is reached -----

  /** A request whose call raises, and the same request again. */
  function RetryEvents(order: Order): seq<Event> {
    [Submit(0, order), Go(0), CreateDone(0, None, ""), Submit(1, order), Go(1)]
  }

  lemma {:induction false} AfterFailure(cfg: Config, order: Order)
    requires Admits(cfg, INITIAL, order)
    ensures var s := After(cfg, Opening(order) + [CreateDone(0, None, "")]);
            && s.locks == map[] && s.idem == map[] && !s.killed && !s.blocked && s.pnl.None?
            && s.tasks == map[0 := Task(order, 0.0, Raised(ExchangeFailed))] && s.started == [0]
  {
    First(cfg, order);
    Snoc(cfg, Opening(order), CreateDone(0, None, ""));
  }

  lemma {:induction false} AfterRetry(cfg: Config, order: Order)
    requires Admits(cfg, INITIAL, order)
    ensures var s := After(cfg, RetryEvents(order));
            && s.tasks.Keys == {0, 1} && s.tasks[0].order == s.tasks[1].order == order
            && s.tasks[0].phase.Raised? && s.tasks[1].phase.AtCreate? && s.started == [0, 1]
  {
    var c := Opening(order) + [CreateDone(0, None, "")];
    AfterFailure(cfg, order);
    ThenWaiting(cfg, c, 1, order);
    assert RetryEvents(order) == c + [Submit(1, order)] + [Go(1)];
  }

  lemma {:induction false} RetryIsPermitted(cfg: Config, order: Order)
    ensures Permitted(Waived(false, false, false), cfg, RetryEvents(order), order)
  {
    Tickless(cfg, RetryEvents(order), order);
    Sends(RetryEvents(order), order);
  }

  /** One failed call is enough for a second one under the same key, on a run that meets all three conditions. */
  lemma {:induction false} RetryCallsTwice(cfg: Config, order: Order)
    requires Admits(cfg, INITIAL, order)
    ensures var run := RetryEvents(order);
            && Permitted(Waived(false, false, false), cfg, run, order)
            && CallsFor(After(cfg, run), order.key) == {0, 1} && FailuresFor(After(cfg, run), order.key) == {0}
  {
    RetryIsPermitted(cfg, order);
    AfterRetry(cfg, order);
    TwoCalls(After(cfg, RetryEvents(order)), order.key);
  }

  lemma {:induction false} TwoCalls(s: State, key: string)
    requires s.tasks.Keys == {0, 1} && s.tasks[0].order.key == s.tasks[1].order.key == key
    requires s.tasks[0].phase.Raised? && s.tasks[1].phase.AtCreate? && s.started == [0, 1]
    ensures CallsFor(s, key) == {0, 1} && FailuresFor(s, key) == {0}
  {
  }
}
