/** What every run of the order protocol guarantees: the lock bound, the kill fence, admission. */
module OrderSafety {
  import opened Wrappers
  import opened Orders
  import opened OrderProtocol

  ghost predicate NoCrash(run: seq<Event>) {
    Crash !in run
  }

  lemma {:induction false} NoCrashFront(run: seq<Event>)
    requires run != [] && NoCrash(run)
    ensures NoCrash(run[..|run| - 1]) && run[|run| - 1] != Crash
  {
  }

  // ----- The lock bound -----

  ghost predicate WithinBound(s: State, lock: string) {
    |s.Holders(lock)| <= s.Late(lock) + if lock in s.locks then 1 else 0
  }

  lemma {:induction false} LeaveBound(s: State, tid: nat, phase: Phase, lock: string)
    requires tid in s.tasks && s.tasks[tid].InFlight() && WithinBound(s, lock)
    requires phase.Returned? || phase.Raised?
    ensures WithinBound(s.Leave(tid, phase), lock)
  {
    HoldersChange(s.tasks, tid, phase, lock);
    var before, after := s.Holders(lock), s.Leave(tid, phase).Holders(lock);
    assert after == before - {tid};
    assert tid in before <==> s.tasks[tid].Lock() == lock;
  }

  lemma {:induction false} CompleteBound(s: State, tid: nat, receipt: Receipt, lock: string)
    requires tid in s.tasks && s.tasks[tid].InFlight() && WithinBound(s, lock)
    ensures WithinBound(Complete(s, tid, receipt), lock)
  {
    LeaveBound(s, tid, Returned(receipt), lock);
  }

  lemma {:induction false} AdvanceBound(s: State, d: real, lock: string)
    requires WithinBound(s, lock)
    ensures WithinBound(Advance(s, d), lock)
  {
  }

  lemma {:induction false} EnterBound(cfg: Config, s: State, tid: nat, order: Order, lock: string)
    requires tid !in s.tasks && WithinBound(s, lock)
    ensures WithinBound(Begin(cfg, s, tid, order), lock)
  {
    if Admits(cfg, s, order) {
      BeginAdmitted(cfg, s, tid, order);
      HoldersAdd(s.tasks, tid, Task(order, s.now, EntryPhase(order)), lock);
    } else {
      BeginRefused(cfg, s, tid, order);
      HoldersAdd(s.tasks, tid, Task(order, s.now, RefusalPhase(cfg, s, order)), lock);
    }
  }

  lemma {:induction false} BoundStep(cfg: Config, s: State, e: Event, lock: string)
    requires WithinBound(s, lock)
    ensures WithinBound(Next(cfg, s, e), lock)
  {
    match e
    case Submit(tid, order) =>
      if tid !in s.tasks {
        EnterBound(cfg, s, tid, order, lock);
      }
    case LeverageDone(tid, ok) =>
      if s.InPhase(tid, AtLeverage) {
        if ok {
          HoldersChange(s.tasks, tid, AtCreate, lock);
        } else {
          LeaveBound(s, tid, Raised(ExchangeFailed), lock);
        }
      }
    case CreateDone(tid, reply, uuid) =>
      if s.InPhase(tid, AtCreate) {
        if reply.None? {
          LeaveBound(s, tid, Raised(ExchangeFailed), lock);
        } else {
          CompleteBound(s, tid, ReceiptOf(reply.value, uuid), lock);
        }
      }
    case Tick(d) =>
      if d >= 0.0 {
        AdvanceBound(s, d, lock);
      }
    case Crash => assert Restart(s).Holders(lock) == {};
    case _ =>
  }

  /** In every reachable state the submissions inside a lock's critical section number at most one if the
      lock is present, plus one for every time its TTL ran out under a submission, although the lock
      is deleted without checking who holds it. */
  lemma {:induction false} LockBound(cfg: Config, run: seq<Event>, lock: string)
    ensures WithinBound(After(cfg, run), lock)
  {
    if run == [] {
    } else {
      var front := run[..|run| - 1];
      LockBound(cfg, front, lock);
      BoundStep(cfg, After(cfg, front), run[|run| - 1], lock);
    }
  }

  // ----- Who holds a present lock, and for how long -----

  ghost predicate OwnersKnown(s: State) {
    forall l :: l in s.locks ==>
      && l in s.owner && s.owner[l] in s.tasks
      && s.tasks[s.owner[l]].Lock() == l
      && (s.tasks[s.owner[l]].InFlight() || s.tasks[s.owner[l]].phase.Lost?)
      && s.now < s.locks[l] <= s.now + LOCK_TIMEOUT
  }

  lemma {:induction false} OwnersEnter(cfg: Config, s: State, tid: nat, order: Order)
    requires tid !in s.tasks && OwnersKnown(s)
    ensures OwnersKnown(Begin(cfg, s, tid, order))
  {
    if Admits(cfg, s, order) {
      BeginAdmitted(cfg, s, tid, order);
    } else {
      BeginRefused(cfg, s, tid, order);
    }
  }

  lemma {:induction false} OwnersLeave(s: State, tid: nat, phase: Phase)
    requires tid in s.tasks && OwnersKnown(s)
    ensures OwnersKnown(s.Leave(tid, phase))
  {
  }

  lemma {:induction false} OwnersAdvance(s: State, d: real)
    requires d >= 0.0 && OwnersKnown(s)
    ensures OwnersKnown(Advance(s, d))
  {
  }

  lemma {:induction false} OwnersStep(cfg: Config, s: State, e: Event)
    requires OwnersKnown(s)
    ensures OwnersKnown(Next(cfg, s, e))
  {
    match e
    case Submit(tid, order) =>
      if tid !in s.tasks {
        OwnersEnter(cfg, s, tid, order);
      }
    case LeverageDone(tid, ok) =>
      if s.InPhase(tid, AtLeverage) && !ok {
        OwnersLeave(s, tid, Raised(ExchangeFailed));
      }
    case CreateDone(tid, reply, uuid) =>
      if s.InPhase(tid, AtCreate) {
        OwnersLeave(s, tid, if reply.None? then Raised(ExchangeFailed) else Returned(ReceiptOf(reply.value, uuid)));
      }
    case Tick(d) =>
      if d >= 0.0 {
        OwnersAdvance(s, d);
      }
    case _ =>
  }

  ghost predicate NoneLost(s: State) {
    forall t :: t in s.tasks ==> !s.tasks[t].phase.Lost?
  }

  lemma {:induction false} LostEnter(cfg: Config, s: State, tid: nat, order: Order)
    requires tid !in s.tasks && NoneLost(s)
    ensures NoneLost(Begin(cfg, s, tid, order))
  {
    if Admits(cfg, s, order) {
      BeginAdmitted(cfg, s, tid, order);
    } else {
      BeginRefused(cfg, s, tid, order);
    }
  }

  lemma {:induction false} LostChange(s: State, tid: nat, phase: Phase)
    requires NoneLost(s) && !phase.Lost?
    ensures tid in s.tasks ==> NoneLost(s.SetPhase(tid, phase))
  {
  }

  lemma {:induction false} LostStep(cfg: Config, s: State, e: Event)
    requires e != Crash && NoneLost(s)
    ensures NoneLost(Next(cfg, s, e))
  {
    match e
    case Submit(tid, order) =>
      if tid !in s.tasks {
        LostEnter(cfg, s, tid, order);
      }
    case LeverageDone(tid, ok) => LostChange(s, tid, if ok then AtCreate else Raised(ExchangeFailed));
    case CreateDone(tid, reply, uuid) =>
      LostChange(s, tid, if reply.None? then Raised(ExchangeFailed) else Returned(ReceiptOf(reply.value, uuid)));
    case _ =>
  }

  lemma {:induction false} OwnersAlways(cfg: Config, run: seq<Event>)
    ensures OwnersKnown(After(cfg, run))
    ensures NoCrash(run) ==> NoneLost(After(cfg, run))
  {
    if run == [] {
    } else {
      var front, e := run[..|run| - 1], run[|run| - 1];
      OwnersAlways(cfg, front);
      OwnersStep(cfg, After(cfg, front), e);
      if NoCrash(run) {
        NoCrashFront(run);
        LostStep(cfg, After(cfg, front), e);
      }
    }
  }

  /** Without a process death, whoever took a present lock last is still inside its critical section; so once
      every submission has ended, by whichever exit path, no lock is left behind. */
  lemma {:induction false} NoOrphanLocks(cfg: Config, run: seq<Event>)
    requires NoCrash(run)
    ensures var s := After(cfg, run);
            && (forall l :: l in s.locks ==> l in s.owner && s.owner[l] in s.Holders(l))
            && ((forall l :: s.Holders(l) == {}) ==> s.locks == map[])
  {
    OwnersAlways(cfg, run);
    var s := After(cfg, run);
    assert forall l :: l in s.locks ==> s.owner[l] in s.Holders(l);
    if s.locks != map[] {
      var l :| l in s.locks;
      assert s.Holders(l) != {};
    }
  }

  lemma {:induction false} ExecConcat(cfg: Config, s: State, run: seq<Event>, more: seq<Event>)
    ensures Exec(cfg, s, run + more) == Exec(cfg, Exec(cfg, s, run), more)
  {
    if more == [] {
      assert run + more == run;
    } else {
      var n := |more| - 1;
      ExecConcat(cfg, s, run, more[..n]);
      assert (run + more)[..|run + more| - 1] == run + more[..n];
    }
  }

  ghost predicate NoneTakes(run: seq<Event>, lock: string) {
    forall i :: 0 <= i < |run| && run[i].Submit? ==> LockKey(run[i].order) != lock
  }

  lemma {:induction false} DeadlineStays(cfg: Config, s: State, e: Event, lock: string)
    requires e.Submit? ==> LockKey(e.order) != lock
    ensures var s' := Next(cfg, s, e); lock in s'.locks ==> lock in s.locks && s'.locks[lock] == s.locks[lock]
  {
    if e.Submit? && e.tid !in s.tasks {
      if Admits(cfg, s, e.order) {
        BeginAdmitted(cfg, s, e.tid, e.order);
      } else {
        BeginRefused(cfg, s, e.tid, e.order);
      }
    }
  }

  lemma {:induction false} DeadlinesStay(cfg: Config, s: State, more: seq<Event>, lock: string)
    requires NoneTakes(more, lock)
    ensures var s' := Exec(cfg, s, more); lock in s'.locks ==> lock in s.locks && s'.locks[lock] == s.locks[lock]
  {
    if more == [] {
    } else {
      var n := |more| - 1;
      assert NoneTakes(more[..n], lock);
      DeadlinesStay(cfg, s, more[..n], lock);
      DeadlineStays(cfg, Exec(cfg, s, more[..n]), more[n], lock);
    }
  }

  /** Whatever happens in between, process deaths included: ten seconds later every lock that no submission asked
      for again is gone. */
  lemma {:induction false} LocksRunOut(cfg: Config, run: seq<Event>, more: seq<Event>)
    requires After(cfg, run + more).now >= After(cfg, run).now + LOCK_TIMEOUT
    ensures forall l :: NoneTakes(more, l) ==> l !in After(cfg, run + more).locks
  {
    OwnersAlways(cfg, run);
    OwnersAlways(cfg, run + more);
    ExecConcat(cfg, INITIAL, run, more);
    forall l | NoneTakes(more, l)
      ensures l !in After(cfg, run + more).locks
    {
      DeadlinesStay(cfg, After(cfg, run), more, l);
    }
  }

  // ----- The kill fence -----

  lemma {:induction false} PendingChange(s: State, tid: nat, phase: Phase)
    requires tid in s.tasks && !phase.AtLeverage?
    ensures s.SetPhase(tid, phase).Pending() == s.Pending() - {tid}
  {
  }

  lemma {:induction false} FenceRefuses(cfg: Config, s: State, tid: nat, order: Order)
    requires tid !in s.tasks && (s.killed || s.blocked)
    ensures var s' := Begin(cfg, s, tid, order);
            s'.started == s.started && s'.Pending() == s.Pending() && s'.killed == s.killed && s'.blocked == s.blocked
  {
    BeginRefused(cfg, s, tid, order);
  }

  /** What a step may do behind the fence: start the call of a waiting submission, or start nothing. */
  ghost predicate FencedMove(s: State, e: Event, s': State) {
    || (s'.started == s.started && s'.Pending() <= s.Pending())
    || (e.LeverageDone? && e.tid in s.Pending() && s'.started == s.started + [e.tid]
        && s'.Pending() == s.Pending() - {e.tid})
  }

  lemma {:induction false} FencedLeave(s: State, e: Event, tid: nat, phase: Phase)
    requires tid in s.tasks && !phase.AtLeverage?
    ensures FencedMove(s, e, s.Leave(tid, phase))
  {
    PendingChange(s, tid, phase);
  }

  lemma {:induction false} FencedComplete(s: State, e: Event, tid: nat, receipt: Receipt)
    requires tid in s.tasks
    ensures FencedMove(s, e, Complete(s, tid, receipt))
  {
    PendingChange(s, tid, Returned(receipt));
  }

  /** Only a submission needs the fence: all other steps are fenced moves anyway. */
  lemma {:induction false} OthersAreFenced(cfg: Config, s: State, e: Event)
    requires !e.Submit?
    ensures FencedMove(s, e, Next(cfg, s, e))
  {
    match e
    case LeverageDone(tid, ok) =>
      if s.InPhase(tid, AtLeverage) {
        if ok {
          PendingChange(s, tid, AtCreate);
        } else {
          FencedLeave(s, e, tid, Raised(ExchangeFailed));
        }
      }
    case CreateDone(tid, reply, uuid) =>
      if s.InPhase(tid, AtCreate) {
        if reply.None? {
          FencedLeave(s, e, tid, Raised(ExchangeFailed));
        } else {
          FencedComplete(s, e, tid, ReceiptOf(reply.value, uuid));
        }
      }
    case Crash => assert PendingIn(Restart(s).tasks) == {};
    case _ =>
  }

  lemma {:induction false} FenceStep(cfg: Config, s: State, e: Event)
    requires s.killed || (s.blocked && e != Crash)
    ensures FencedMove(s, e, Next(cfg, s, e))
  {
    if e.Submit? {
      if e.tid !in s.tasks {
        FenceRefuses(cfg, s, e.tid, e.order);
      }
    } else {
      OthersAreFenced(cfg, s, e);
    }
  }

  /** Nothing but a process death ever clears the block, and nothing clears the kill flag. */
  lemma {:induction false} FlagsStay(cfg: Config, s: State, e: Event)
    ensures s.killed ==> Next(cfg, s, e).killed
    ensures e != Crash && s.blocked ==> Next(cfg, s, e).blocked
  {
    if e.Submit? && e.tid !in s.tasks {
      if Admits(cfg, s, e.order) {
        BeginAdmitted(cfg, s, e.tid, e.order);
      } else {
        BeginRefused(cfg, s, e.tid, e.order);
      }
    }
  }

  ghost predicate Fenced(s: State, s': State) {
    var n := |s.started|;
    && s.started <= s'.started
    && s'.Pending() <= s.Pending()
    && |s'.started| - n + |s'.Pending()| <= |s.Pending()|
    && (forall i :: n <= i < |s'.started| ==> s'.started[i] in s.Pending() - s'.Pending())
    && (forall i, j :: n <= i < j < |s'.started| ==> s'.started[i] != s'.started[j])
  }

  lemma {:induction false} FencedThen(s: State, m: State, s': State, tid: nat)
    requires Fenced(s, m)
    requires || (s'.started == m.started && s'.Pending() <= m.Pending())
             || (tid in m.Pending() && s'.started == m.started + [tid] && s'.Pending() == m.Pending() - {tid})
    ensures Fenced(s, s')
  {
    SubsetSize(s'.Pending(), m.Pending());
  }

  lemma {:induction false} SubsetSize<T>(a: set<T>, b: set<T>)
    requires a <= b
    ensures |a| <= |b|
  {
    assert |b| == |a| + |b - a| by { assert b == a + (b - a); }
  }

  /** Once the kill flag is set, or the queue is blocked and the process lives on, every create_order the
      queue still starts belongs to a submission that was waiting in set_leverage at that moment, each
      at most once; calls started plus submissions still waiting never exceed those that were waiting. */
  lemma {:induction false} KillFence(cfg: Config, s: State, run: seq<Event>)
    requires s.killed || (s.blocked && NoCrash(run))
    ensures var s' := Exec(cfg, s, run);
            && (s.killed ==> s'.killed) && (s.blocked && NoCrash(run) ==> s'.blocked)
            && Fenced(s, s')
  {
    if run == [] {
    } else {
      var front, e := run[..|run| - 1], run[|run| - 1];
      if NoCrash(run) {
        NoCrashFront(run);
      }
      KillFence(cfg, s, front);
      var m := Exec(cfg, s, front);
      FenceStep(cfg, m, e);
      FlagsStay(cfg, m, e);
      FencedThen(s, m, Next(cfg, m, e), if e.LeverageDone? then e.tid else 0);
    }
  }

  /** With nobody waiting in set_leverage the fence is complete: no further create_order, ever. */
  lemma {:induction false} KillIsFinal(cfg: Config, run: seq<Event>, more: seq<Event>)
    requires After(cfg, run).Pending() == {}
    ensures After(cfg, run + [KillFlag] + more).started == After(cfg, run).started
  {
    var s := After(cfg, run);
    AfterThen(cfg, run, KillFlag, more);
    KillFence(cfg, s.(killed := true), more);
    NothingStarts(s.(killed := true), After(cfg, run + [KillFlag] + more));
  }

  lemma {:induction false} AfterThen(cfg: Config, run: seq<Event>, e: Event, more: seq<Event>)
    ensures After(cfg, run + [e] + more) == Exec(cfg, Next(cfg, After(cfg, run), e), more)
  {
    Snoc(cfg, run, e);
    ExecConcat(cfg, INITIAL, run + [e], more);
  }

  /** Behind a fence with nobody waiting nothing starts. */
  lemma {:induction false} NothingStarts(s: State, s': State)
    requires Fenced(s, s') && s.Pending() == {}
    ensures s'.started == s.started
  {
  }

  // ----- What can still come back after the kill flag -----

  function FlyingIn(tasks: Tasks): set<nat> {
    set t | t in tasks && tasks[t].InFlight()
  }

  /** The submissions suspended in an exchange call. */
  function Flying(s: State): set<nat> {
    FlyingIn(s.tasks)
  }

  /** What a step may do behind the fence: end the call of a submission with an order, or place nothing. */
  ghost predicate DrainingMove(s: State, e: Event, s': State) {
    || (s'.placed == s.placed && Flying(s') <= Flying(s))
    || (e.CreateDone? && e.tid in Flying(s)
        && |s'.placed| == |s.placed| + 1 && s'.placed[..|s.placed|] == s.placed && s'.placed[|s.placed|].tid == e.tid
        && Flying(s') == Flying(s) - {e.tid})
  }

  lemma {:induction false} FlyingChange(s: State, tid: nat, phase: Phase)
    requires tid in s.tasks
    ensures phase.Returned? || phase.Raised? ==> Flying(s.SetPhase(tid, phase)) == Flying(s) - {tid}
    ensures phase.AtCreate? && s.tasks[tid].InFlight() ==> Flying(s.SetPhase(tid, phase)) == Flying(s)
  {
  }

  lemma {:induction false} DrainEnter(cfg: Config, s: State, tid: nat, order: Order)
    requires tid !in s.tasks && (s.killed || s.blocked)
    ensures DrainingMove(s, Submit(tid, order), Begin(cfg, s, tid, order))
  {
    BeginRefused(cfg, s, tid, order);
  }

  lemma {:induction false} DrainReply(s: State, e: Event, tid: nat, reply: Option<Reply>, uuid: string)
    requires e == CreateDone(tid, reply, uuid) && s.InPhase(tid, AtCreate)
    ensures reply.None? ==> DrainingMove(s, e, s.Leave(tid, Raised(ExchangeFailed)))
    ensures reply.Some? ==> DrainingMove(s, e, Complete(s, tid, ReceiptOf(reply.value, uuid)))
  {
    if reply.None? {
      FlyingChange(s, tid, Raised(ExchangeFailed));
    } else {
      FlyingChange(s, tid, Returned(ReceiptOf(reply.value, uuid)));
    }
  }

  lemma {:induction false} DrainStep(cfg: Config, s: State, e: Event)
    requires s.killed || (s.blocked && e != Crash)
    ensures DrainingMove(s, e, Next(cfg, s, e))
  {
    match e
    case Submit(tid, order) =>
      if tid !in s.tasks {
        DrainEnter(cfg, s, tid, order);
      }
    case LeverageDone(tid, ok) =>
      if s.InPhase(tid, AtLeverage) {
        FlyingChange(s, tid, if ok then AtCreate else Raised(ExchangeFailed));
      }
    case CreateDone(tid, reply, uuid) =>
      if s.InPhase(tid, AtCreate) {
        DrainReply(s, e, tid, reply, uuid);
      }
    case Crash => assert FlyingIn(Restart(s).tasks) == {};
    case _ =>
  }

  ghost predicate Drained(s: State, s': State) {
    var n := |s.placed|;
    && s.placed <= s'.placed
    && Flying(s') <= Flying(s)
    && |s'.placed| - n + |Flying(s')| <= |Flying(s)|
    && (forall i :: n <= i < |s'.placed| ==> s'.placed[i].tid in Flying(s) - Flying(s'))
    && (forall i, j :: n <= i < j < |s'.placed| ==> s'.placed[i].tid != s'.placed[j].tid)
  }

  lemma {:induction false} DrainedThen(s: State, m: State, e: Event, s': State)
    requires Drained(s, m) && DrainingMove(m, e, s')
    ensures Drained(s, s')
  {
    SubsetSize(Flying(s'), Flying(m));
  }

  /** The fence seen from the exchange: every order that still comes back after the kill flag belongs to a
      submission that was suspended in an exchange call at that moment, one order each; orders placed since
      plus submissions still in flight never exceed those in flight then. */
  lemma {:induction false} OrdersDrain(cfg: Config, s: State, run: seq<Event>)
    requires s.killed || (s.blocked && NoCrash(run))
    ensures Drained(s, Exec(cfg, s, run))
  {
    if run == [] {
    } else {
      var front, e := run[..|run| - 1], run[|run| - 1];
      if NoCrash(run) {
        NoCrashFront(run);
      }
      KillFence(cfg, s, front);
      OrdersDrain(cfg, s, front);
      DrainStep(cfg, Exec(cfg, s, front), e);
      DrainedThen(s, Exec(cfg, s, front), e, Exec(cfg, s, run));
    }
  }

  // ----- Every call was admitted -----

  /** Event i is the entry of the submission: its order entered there, was admitted, and is still its order. */
  ghost predicate AdmittedAt(cfg: Config, run: seq<Event>, tid: nat, i: nat) {
    && i < |run| && run[i].Submit? && run[i].tid == tid
    && tid !in After(cfg, run[..i]).tasks
    && Admits(cfg, After(cfg, run[..i]), run[i].order)
    && tid in After(cfg, run).tasks && After(cfg, run).tasks[tid].order == run[i].order
  }

  ghost predicate Admitted(cfg: Config, run: seq<Event>, tid: nat) {
    exists i: nat :: AdmittedAt(cfg, run, tid, i)
  }

  ghost predicate CallsOnce(s: State) {
    && (forall tid :: tid in s.started ==> tid in s.tasks && tid !in s.Pending())
    && (forall i, j :: 0 <= i < j < |s.started| ==> s.started[i] != s.started[j])
  }

  /** Whether `e` starts the call of a submission, which was waiting or has just been admitted. */
  ghost predicate Starts(cfg: Config, s: State, e: Event) {
    || (e.LeverageDone? && e.tid in s.Pending() && e.ok)
    || (EntersNow(cfg, s, e) && EntryPhase(e.order).AtCreate?)
  }

  ghost predicate EntersNow(cfg: Config, s: State, e: Event) {
    e.Submit? && e.tid !in s.tasks && Admits(cfg, s, e.order)
  }

  lemma {:induction false} StartedStep(cfg: Config, s: State, e: Event)
    ensures Next(cfg, s, e).started == if Starts(cfg, s, e) then s.started + [e.tid] else s.started
  {
    if e.Submit? && e.tid !in s.tasks {
      if Admits(cfg, s, e.order) {
        BeginAdmitted(cfg, s, e.tid, e.order);
      } else {
        BeginRefused(cfg, s, e.tid, e.order);
      }
    }
  }

  ghost predicate PendingMoves(cfg: Config, s: State, e: Event, tasks: Tasks) {
    && (forall t :: t in s.tasks ==> t in tasks && (t in PendingIn(tasks) ==> t in s.Pending()))
    && (forall t :: t in PendingIn(tasks) ==> t in s.Pending() || (EntersNow(cfg, s, e) && t == e.tid))
    && (Starts(cfg, s, e) ==> e.tid in tasks && e.tid !in PendingIn(tasks))
  }

  lemma {:induction false} PendingEnter(cfg: Config, s: State, tid: nat, order: Order)
    requires tid !in s.tasks
    ensures PendingMoves(cfg, s, Submit(tid, order), Begin(cfg, s, tid, order).tasks)
  {
    if Admits(cfg, s, order) {
      BeginAdmitted(cfg, s, tid, order);
    } else {
      BeginRefused(cfg, s, tid, order);
    }
  }

  lemma {:induction false} PendingOnly(cfg: Config, s: State, e: Event, tasks: Tasks, tid: nat)
    requires tasks.Keys == s.tasks.Keys && PendingIn(tasks) == s.Pending() - {tid}
    requires !e.Submit? && (e.LeverageDone? ==> e.tid == tid)
    ensures PendingMoves(cfg, s, e, tasks)
  {
  }

  lemma {:induction false} PendingRestart(cfg: Config, s: State)
    ensures PendingMoves(cfg, s, Crash, Restart(s).tasks)
  {
    assert PendingIn(Restart(s).tasks) == {};
  }

  lemma {:induction false} PendingLeave(cfg: Config, s: State, e: Event, phase: Phase)
    requires e.LeverageDone? || e.CreateDone?
    requires e.tid in s.tasks && !phase.AtLeverage?
    ensures PendingMoves(cfg, s, e, s.SetPhase(e.tid, phase).tasks)
  {
    PendingChange(s, e.tid, phase);
    PendingOnly(cfg, s, e, s.SetPhase(e.tid, phase).tasks, e.tid);
  }

  lemma {:induction false} PendingReply(s: State, tid: nat, reply: Option<Reply>, uuid: string)
    requires tid in s.tasks
    ensures reply.None? ==> s.Leave(tid, Raised(ExchangeFailed)).tasks == s.SetPhase(tid, Raised(ExchangeFailed)).tasks
    ensures reply.Some? ==> var receipt := ReceiptOf(reply.value, uuid);
                            Complete(s, tid, receipt).tasks == s.SetPhase(tid, Returned(receipt)).tasks
  {
  }

  lemma {:induction false} PendingAnswer(cfg: Config, s: State, e: Event)
    requires e.CreateDone? && s.InPhase(e.tid, AtCreate)
    ensures PendingMoves(cfg, s, e, Next(cfg, s, e).tasks)
  {
    var phase := if e.reply.None? then Raised(ExchangeFailed) else Returned(ReceiptOf(e.reply.value, e.uuid));
    PendingLeave(cfg, s, e, phase);
    PendingReply(s, e.tid, e.reply, e.uuid);
  }

  lemma {:induction false} PendingStep(cfg: Config, s: State, e: Event)
    ensures PendingMoves(cfg, s, e, Next(cfg, s, e).tasks)
  {
    match e
    case Submit(tid, order) =>
      if tid !in s.tasks {
        PendingEnter(cfg, s, tid, order);
      }
    case Crash => PendingRestart(cfg, s);
    case LeverageDone(tid, ok) =>
      if s.InPhase(tid, AtLeverage) {
        PendingLeave(cfg, s, e, if ok then AtCreate else Raised(ExchangeFailed));
      }
    case CreateDone(tid, reply, uuid) =>
      if s.InPhase(tid, AtCreate) {
        PendingAnswer(cfg, s, e);
      }
    case _ =>
  }

  lemma {:induction false} CallsOnceStep(cfg: Config, s: State, e: Event)
    requires CallsOnce(s)
    ensures CallsOnce(Next(cfg, s, e))
  {
    StartedStep(cfg, s, e);
    PendingStep(cfg, s, e);
  }

  ghost predicate SameOrder(tasks: Tasks, tasks': Tasks, tid: nat) {
    tid in tasks ==> tid in tasks' && tasks'[tid].order == tasks[tid].order
  }

  lemma {:induction false} PhaseKeepsOrder(s: State, t: nat, phase: Phase, tid: nat)
    requires t in s.tasks
    ensures SameOrder(s.tasks, s.SetPhase(t, phase).tasks, tid)
  {
  }

  lemma {:induction false} EnterKeepsOrder(cfg: Config, s: State, t: nat, order: Order, tid: nat)
    requires t !in s.tasks
    ensures SameOrder(s.tasks, Begin(cfg, s, t, order).tasks, tid)
  {
    if Admits(cfg, s, order) {
      BeginAdmitted(cfg, s, t, order);
    } else {
      BeginRefused(cfg, s, t, order);
    }
  }

  /** A submission and its order, once there, stay. */
  lemma {:induction false} OrderStays(cfg: Config, s: State, e: Event, tid: nat)
    ensures SameOrder(s.tasks, Next(cfg, s, e).tasks, tid)
  {
    match e
    case Submit(t, order) =>
      if t !in s.tasks {
        EnterKeepsOrder(cfg, s, t, order, tid);
      }
    case LeverageDone(t, ok) =>
      if s.InPhase(t, AtLeverage) {
        PhaseKeepsOrder(s, t, if ok then AtCreate else Raised(ExchangeFailed), tid);
      }
    case CreateDone(t, reply, uuid) =>
      if s.InPhase(t, AtCreate) {
        PendingReply(s, t, reply, uuid);
        PhaseKeepsOrder(s, t, if reply.None? then Raised(ExchangeFailed) else Returned(ReceiptOf(reply.value, uuid)), tid);
      }
    case _ =>
  }

  lemma {:induction false} Extended(cfg: Config, run: seq<Event>, tid: nat)
    requires run != [] && Admitted(cfg, run[..|run| - 1], tid)
    ensures Admitted(cfg, run, tid)
  {
    var n := |run| - 1;
    var i: nat :| AdmittedAt(cfg, run[..n], tid, i);
    assert run[..n][..i] == run[..i];
    OrderStays(cfg, After(cfg, run[..n]), run[n], tid);
    assert AdmittedAt(cfg, run, tid, i);
  }

  lemma {:induction false} JustEntered(cfg: Config, run: seq<Event>, order: Order)
    requires run != []
    requires var e := run[|run| - 1]; e.Submit? && e.order == order && EntersNow(cfg, After(cfg, run[..|run| - 1]), e)
    ensures Admitted(cfg, run, run[|run| - 1].tid)
  {
    var n := |run| - 1;
    BeginAdmitted(cfg, After(cfg, run[..n]), run[n].tid, order);
    assert AdmittedAt(cfg, run, run[n].tid, n);
  }

  /** Every create_order ever started belongs to a submission that, when it entered, found its key
      uncached, neither kill flag nor block, its lock free, the daily loss within limits and its market
      connected; and no submission starts two calls. */
  lemma {:induction false} EveryCallWasAdmitted(cfg: Config, run: seq<Event>)
    ensures var s := After(cfg, run);
            && CallsOnce(s)
            && forall tid :: tid in s.started || tid in s.Pending() ==> Admitted(cfg, run, tid)
  {
    if run == [] {
    } else {
      var n := |run| - 1;
      EveryCallWasAdmitted(cfg, run[..n]);
      CallsOnceStep(cfg, After(cfg, run[..n]), run[n]);
      forall tid | tid in After(cfg, run).started || tid in After(cfg, run).Pending()
        ensures Admitted(cfg, run, tid)
      {
        AdmissionStep(cfg, run, tid);
      }
    }
  }

  lemma {:induction false} AdmissionStep(cfg: Config, run: seq<Event>, tid: nat)
    requires run != []
    requires var s := After(cfg, run[..|run| - 1]);
             tid in s.started || tid in s.Pending() ==> Admitted(cfg, run[..|run| - 1], tid)
    requires var s' := After(cfg, run); tid in s'.started || tid in s'.Pending()
    ensures Admitted(cfg, run, tid)
  {
    var n := |run| - 1;
    var s, e := After(cfg, run[..n]), run[n];
    if tid in s.started || tid in s.Pending() {
      Extended(cfg, run, tid);
    } else {
      StartedStep(cfg, s, e);
      PendingStep(cfg, s, e);
      JustEntered(cfg, run, e.order);
    }
  }
}
