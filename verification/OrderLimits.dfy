/** The bounds of the order protocol are exact: runs that reach them, and runs that break a dropped condition. */
module OrderLimits {
  import opened Wrappers
  import opened Orders
  import opened OrderProtocol
  import opened OrderOnce

  // ----- The lock bound is reached -----

  /** The same request n + 1 times, with the lock TTL running out between any two. */
  function Pile(order: Order, n: nat): seq<Event> {
    if n == 0 then [Submit(0, order)] else Pile(order, n - 1) + [Tick(LOCK_TIMEOUT)] + [Submit(n, order)]
  }

  /** Submissions 0 to n are all in flight and nothing else has happened to the system. */
  ghost predicate Piled(s: State, order: Order, n: nat) {
    && Untouched(s)
    && (forall t :: t in s.tasks ==> t <= n)
    && |s.Holders(LockKey(order))| == n + 1
    && s.locks == map[LockKey(order) := s.now + LOCK_TIMEOUT]
    && s.Late(LockKey(order)) == n
  }

  ghost predicate Untouched(s: State) {
    s.idem == map[] && !s.killed && !s.blocked && s.pnl.None?
  }

  lemma {:induction false} PileExpires(s: State, order: Order, n: nat)
    requires Piled(s, order, n)
    ensures var m := Advance(s, LOCK_TIMEOUT);
            && Untouched(m) && m.tasks == s.tasks && m.locks == map[] && m.Late(LockKey(order)) == n + 1
  {
    var m := Advance(s, LOCK_TIMEOUT);
    assert s.Holders(LockKey(order)) != {};
    assert m.idem == map[] && m.locks == map[];
  }

  lemma {:induction false} HoldersGrow(m: State, order: Order, n: nat, phase: Phase)
    requires n !in m.tasks && (phase.AtLeverage? || phase.AtCreate?)
    ensures var lock := LockKey(order);
            |Enter(m, n, order, phase).Holders(lock)| == |m.Holders(lock)| + 1
  {
    HoldersAdd(m.tasks, n, Task(order, m.now, phase), LockKey(order));
    assert n !in m.Holders(LockKey(order));
  }

  lemma {:induction false} PileEnters(cfg: Config, m: State, order: Order, n: nat)
    requires Admits(cfg, INITIAL, order) && Untouched(m) && m.locks == map[]
    requires n !in m.tasks && |m.Holders(LockKey(order))| == n && m.Late(LockKey(order)) == n
    requires forall t :: t in m.tasks ==> t < n
    ensures Piled(Begin(cfg, m, n, order), order, n)
  {
    assert Admits(cfg, m, order);
    BeginAdmitted(cfg, m, n, order);
    HoldersGrow(m, order, n, EntryPhase(order));
    OneLock(LockKey(order), m.now + LOCK_TIMEOUT);
  }

  lemma {:induction false} OneLock(lock: string, deadline: real)
    ensures map[][lock := deadline] == map[lock := deadline]
  {
  }

  lemma {:induction false} AfterTick(cfg: Config, s: State)
    ensures Next(cfg, s, Tick(LOCK_TIMEOUT)) == Advance(s, LOCK_TIMEOUT)
  {
  }

  lemma {:induction false} AfterSubmit(cfg: Config, s: State, tid: nat, order: Order)
    requires tid !in s.tasks
    ensures Next(cfg, s, Submit(tid, order)) == Begin(cfg, s, tid, order)
  {
  }

  lemma {:induction false} PileStep(cfg: Config, s: State, order: Order, n: nat)
    requires Admits(cfg, INITIAL, order) && Piled(s, order, n)
    ensures Piled(Next(cfg, Next(cfg, s, Tick(LOCK_TIMEOUT)), Submit(n + 1, order)), order, n + 1)
  {
    var m := Advance(s, LOCK_TIMEOUT);
    AfterTick(cfg, s);
    PileExpires(s, order, n);
    AfterSubmit(cfg, m, n + 1, order);
    PileEnters(cfg, m, order, n + 1);
  }

  lemma {:induction false} PileStart(cfg: Config, order: Order)
    requires Admits(cfg, INITIAL, order)
    ensures Piled(After(cfg, [Submit(0, order)]), order, 0)
  {
    Snoc(cfg, [], Submit(0, order));
    assert [] + [Submit(0, order)] == [Submit(0, order)];
    assert INITIAL.Holders(LockKey(order)) == {};
    PileEnters(cfg, INITIAL, order, 0);
  }

  lemma {:induction false} PiledNext(cfg: Config, run: seq<Event>, order: Order, n: nat)
    requires Admits(cfg, INITIAL, order) && Piled(After(cfg, run), order, n)
    ensures Piled(After(cfg, run + [Tick(LOCK_TIMEOUT)] + [Submit(n + 1, order)]), order, n + 1)
  {
    Snoc(cfg, run, Tick(LOCK_TIMEOUT));
    Snoc(cfg, run + [Tick(LOCK_TIMEOUT)], Submit(n + 1, order));
    PileStep(cfg, After(cfg, run), order, n);
  }

  /** For every n some run has n + 1 submissions of one and the same request inside the critical section
      after n expiries: the bound of `LockBound` cannot be improved. The first call lasts 10 n seconds, so the
      bound is tight for calls of unbounded duration; connectors that give up earlier stay below it. */
  lemma {:induction false} BoundIsReached(cfg: Config, order: Order, n: nat)
    requires Admits(cfg, INITIAL, order)
    ensures Piled(After(cfg, Pile(order, n)), order, n)
  {
    if n == 0 {
      PileStart(cfg, order);
    } else {
      BoundIsReached(cfg, order, n - 1);
      PiledNext(cfg, Pile(order, n - 1), order, n - 1);
    }
  }

  // ----- Each condition of AtMostOnce is needed -----

  /** Which of the three conditions are dropped: critical sections shorter than the lock TTL, receipts that
      outlive the run, keys bound to one market, symbol and side. */
  datatype Waived = Waived(prompt: bool, kept: bool, bound: bool)

  ghost predicate Permitted(w: Waived, cfg: Config, run: seq<Event>, order: Order) {
    && (w.prompt || Prompt(cfg, run, LockKey(order)))
    && (w.kept || Kept(cfg, run, order.key))
    && (w.bound || KeyBound(run, order.key, LockKey(order)))
  }

  const REPLY := Some(Reply(None, None))

  function Finish(tid: nat): Event {
    CreateDone(tid, REPLY, "uuid")
  }

  ghost predicate Twice(s: State, key: string) {
    |s.placed| == 2 && s.placed[0].key == key && s.placed[1].key == key
  }

  /** Two submissions of a key in flight together both place an order. */
  lemma {:induction false} BothPlaced(cfg: Config, run: seq<Event>, key: string)
    requires var s := After(cfg, run);
             && s.InPhase(0, AtCreate) && s.InPhase(1, AtCreate) && s.placed == []
             && s.tasks[0].order.key == key && s.tasks[1].order.key == key
    ensures Twice(After(cfg, run + [Finish(0)] + [Finish(1)]), key)
  {
    Snoc(cfg, run, Finish(0));
    Snoc(cfg, run + [Finish(0)], Finish(1));
  }

  /** With no tick but that at index k, what that one spares decides `Prompt` and `Kept`. */
  lemma {:induction false} OneTick(cfg: Config, run: seq<Event>, k: nat, order: Order)
    requires k <= |run| && forall i :: 0 <= i < |run| && run[i].Tick? ==> i == k
    ensures After(cfg, run[..k]).Holders(LockKey(order)) == {} ==> Prompt(cfg, run, LockKey(order))
    ensures After(cfg, run[..k]).idem == map[] ==> Kept(cfg, run, order.key)
  {
  }

  lemma {:induction false} Tickless(cfg: Config, run: seq<Event>, order: Order)
    requires forall i :: 0 <= i < |run| ==> !run[i].Tick?
    ensures Prompt(cfg, run, LockKey(order)) && Kept(cfg, run, order.key)
  {
  }

  lemma {:induction false} Sends(run: seq<Event>, order: Order)
    requires forall i :: 0 <= i < |run| && run[i].Submit? ==> run[i].order == order
    ensures KeyBound(run, order.key, LockKey(order))
  {
  }

  /** The end of set_leverage; it changes nothing for a submission that did not need one. */
  function Go(tid: nat): Event {
    LeverageDone(tid, true)
  }

  /** An admitted submission, with or without leverage, ends up waiting for its order. */
  lemma {:induction false} EnterAndGo(cfg: Config, s: State, tid: nat, order: Order)
    requires tid !in s.tasks && Admits(cfg, s, order)
    ensures Next(cfg, Next(cfg, s, Submit(tid, order)), Go(tid)) == Waiting(s, tid, order)
  {
    AfterSubmit(cfg, s, tid, order);
    BeginAdmitted(cfg, s, tid, order);
    if EntryPhase(order).AtLeverage? {
      LeverageOver(s.tasks, tid, Task(order, s.now, AtLeverage));
      assert s.started + [] == s.started;
    }
  }

  lemma {:induction false} LeverageOver(tasks: Tasks, tid: nat, task: Task)
    ensures tasks[tid := task][tid := task.(phase := AtCreate)] == tasks[tid := task.(phase := AtCreate)]
  {
  }

  function Waiting(s: State, tid: nat, order: Order): State {
    Enter(s, tid, order, AtCreate).(
    locks := s.locks[LockKey(order) := s.now + LOCK_TIMEOUT],
    owner := s.owner[LockKey(order) := tid],
    started := s.started + [tid])
  }

  lemma {:induction false} ThenWaiting(cfg: Config, run: seq<Event>, tid: nat, order: Order)
    requires tid !in After(cfg, run).tasks && Admits(cfg, After(cfg, run), order)
    ensures After(cfg, run + [Submit(tid, order)] + [Go(tid)]) == Waiting(After(cfg, run), tid, order)
  {
    Snoc(cfg, run, Submit(tid, order));
    Snoc(cfg, run + [Submit(tid, order)], Go(tid));
    EnterAndGo(cfg, After(cfg, run), tid, order);
  }

  function Opening(order: Order): seq<Event> {
    [Submit(0, order)] + [Go(0)]
  }

  lemma {:induction false} First(cfg: Config, order: Order)
    requires Admits(cfg, INITIAL, order)
    ensures After(cfg, Opening(order)) == Waiting(INITIAL, 0, order)
  {
    ThenWaiting(cfg, [], 0, order);
    assert [] + [Submit(0, order)] == [Submit(0, order)];
  }

  // A call that takes too long: its lock runs out and the same request enters again.

  function SlowStart(order: Order): seq<Event> {
    Opening(order) + [Tick(LOCK_TIMEOUT)]
  }

  lemma {:induction false} Overtaken(cfg: Config, order: Order)
    requires Admits(cfg, INITIAL, order)
    ensures var s := After(cfg, SlowStart(order) + [Submit(1, order)] + [Go(1)]);
            && s.InPhase(0, AtCreate) && s.InPhase(1, AtCreate) && s.placed == []
            && s.tasks[0].order == order && s.tasks[1].order == order
  {
    First(cfg, order);
    Snoc(cfg, Opening(order), Tick(LOCK_TIMEOUT));
    var m := After(cfg, SlowStart(order));
    assert m.locks == map[] && m.idem == map[];
    ThenWaiting(cfg, SlowStart(order), 1, order);
  }

  function SlowEvents(order: Order): seq<Event> {
    [Submit(0, order), Go(0), Tick(LOCK_TIMEOUT), Submit(1, order), Go(1), Finish(0), Finish(1)]
  }

  lemma {:induction false} SlowPlacesTwice(cfg: Config, order: Order)
    requires Admits(cfg, INITIAL, order)
    ensures Twice(After(cfg, SlowEvents(order)), order.key)
  {
    var c := SlowStart(order) + [Submit(1, order)] + [Go(1)];
    Overtaken(cfg, order);
    BothPlaced(cfg, c, order.key);
    assert SlowEvents(order) == c + [Finish(0)] + [Finish(1)];
  }

  lemma {:induction false} SlowRun(cfg: Config, order: Order) returns (run: seq<Event>)
    requires Admits(cfg, INITIAL, order)
    ensures Permitted(Waived(true, false, false), cfg, run, order) && Twice(After(cfg, run), order.key)
  {
    run := SlowEvents(order);
    SlowPlacesTwice(cfg, order);
    SlowKeepsReceipts(cfg, order);
    Sends(run, order);
  }

  lemma {:induction false} SlowKeepsReceipts(cfg: Config, order: Order)
    requires Admits(cfg, INITIAL, order)
    ensures Kept(cfg, SlowEvents(order), order.key)
  {
    First(cfg, order);
    assert SlowEvents(order)[..2] == Opening(order);
    OneTick(cfg, SlowEvents(order), 2, order);
  }

  // A request placed in full, whose receipt then runs out.

  function PlacedInFull(order: Order): seq<Event> {
    Opening(order) + [Finish(0)]
  }

  lemma {:induction false} PlacedThenForgotten(cfg: Config, order: Order)
    requires Admits(cfg, INITIAL, order)
    ensures var m := After(cfg, PlacedInFull(order) + [Tick(IDEMPOTENCY_TTL)]);
            && After(cfg, PlacedInFull(order)).Holders(LockKey(order)) == {}
            && m.locks == map[] && m.idem == map[] && !m.killed && !m.blocked && m.pnl.None?
            && |m.placed| == 1 && m.placed[0].key == order.key && 1 !in m.tasks
  {
    First(cfg, order);
    Snoc(cfg, Opening(order), Finish(0));
    Snoc(cfg, PlacedInFull(order), Tick(IDEMPOTENCY_TTL));
    assert After(cfg, PlacedInFull(order)).locks == map[];
  }

  lemma {:induction false} PlacedAgain(cfg: Config, order: Order)
    requires Admits(cfg, INITIAL, order)
    ensures Twice(After(cfg, PlacedInFull(order) + [Tick(IDEMPOTENCY_TTL)] + [Submit(1, order)] + [Go(1)] + [Finish(1)]), order.key)
  {
    var c := PlacedInFull(order) + [Tick(IDEMPOTENCY_TTL)];
    PlacedThenForgotten(cfg, order);
    ThenWaiting(cfg, c, 1, order);
    Snoc(cfg, c + [Submit(1, order)] + [Go(1)], Finish(1));
  }

  function ForgetfulEvents(order: Order): seq<Event> {
    [Submit(0, order), Go(0), Finish(0), Tick(IDEMPOTENCY_TTL), Submit(1, order), Go(1), Finish(1)]
  }

  lemma {:induction false} ForgetfulPlacesTwice(cfg: Config, order: Order)
    requires Admits(cfg, INITIAL, order)
    ensures Twice(After(cfg, ForgetfulEvents(order)), order.key)
  {
    PlacedAgain(cfg, order);
    assert ForgetfulEvents(order)
        == PlacedInFull(order) + [Tick(IDEMPOTENCY_TTL)] + [Submit(1, order)] + [Go(1)] + [Finish(1)];
  }

  lemma {:induction false} ForgetfulRun(cfg: Config, order: Order) returns (run: seq<Event>)
    requires Admits(cfg, INITIAL, order)
    ensures Permitted(Waived(false, true, false), cfg, run, order) && Twice(After(cfg, run), order.key)
  {
    run := ForgetfulEvents(order);
    ForgetfulPlacesTwice(cfg, order);
    ForgetfulIsPrompt(cfg, order);
    Sends(run, order);
  }

  lemma {:induction false} ForgetfulIsPrompt(cfg: Config, order: Order)
    requires Admits(cfg, INITIAL, order)
    ensures Prompt(cfg, ForgetfulEvents(order), LockKey(order))
  {
    PlacedThenForgotten(cfg, order);
    assert ForgetfulEvents(order)[..3] == PlacedInFull(order);
    OneTick(cfg, ForgetfulEvents(order), 3, order);
  }

  // One key used for two symbols at a time.

  lemma {:induction false} ReusedRun(cfg: Config, order: Order) returns (run: seq<Event>)
    requires Admits(cfg, INITIAL, order)
    ensures Permitted(Waived(false, false, true), cfg, run, order) && Twice(After(cfg, run), order.key)
  {
    var other := order.(symbol := order.symbol + "x");
    LockKeyInjective(order, other);
    assert |order.symbol| != |other.symbol|;
    First(cfg, order);
    assert Admits(cfg, Waiting(INITIAL, 0, order), other);
    ThenWaiting(cfg, Opening(order), 1, other);
    var c := Opening(order) + [Submit(1, other)] + [Go(1)];
    BothPlaced(cfg, c, order.key);
    run := [Submit(0, order), Go(0), Submit(1, other), Go(1), Finish(0), Finish(1)];
    assert run == c + [Finish(0)] + [Finish(1)];
    Tickless(cfg, run, order);
  }

  lemma {:induction false} SomeRunPlacesTwice(cfg: Config, order: Order, w: Waived) returns (run: seq<Event>)
    requires Admits(cfg, INITIAL, order) && w != Waived(false, false, false)
    ensures Permitted(w, cfg, run, order) && Twice(After(cfg, run), order.key)
  {
    if w.prompt {
      run := SlowRun(cfg, order);
    } else if w.kept {
      run := ForgetfulRun(cfg, order);
    } else {
      run := ReusedRun(cfg, order);
    }
  }

  /** For every request the system would admit at the start: at-most-once holds on all runs that respect the
      conditions kept exactly when none of the three is dropped. A critical section that reaches the lock TTL,
      a receipt that runs out, or a key reused for another symbol each suffices for two orders under one key. */
  lemma {:induction false} AtMostOnceExactly(cfg: Config, order: Order, w: Waived)
    requires Admits(cfg, INITIAL, order)
    ensures (forall run :: Permitted(w, cfg, run, order) ==> Once(After(cfg, run), order.key))
            <==> w == Waived(false, false, false)
  {
    if w == Waived(false, false, false) {
      forall run | Permitted(w, cfg, run, order)
        ensures Once(After(cfg, run), order.key)
      {
        AtMostOnce(cfg, run, order.key, LockKey(order));
      }
    } else {
      var run := SomeRunPlacesTwice(cfg, order, w);
      assert Permitted(w, cfg, run, order) && !Once(After(cfg, run), order.key);
    }
  }
}
