/** What the steps of the order protocol do, in the terms of a caller: answers, refusals, lifetimes, fences. */
module OrderEffects {
  import opened Wrappers
  import opened Orders
  import opened OrderProtocol
  import opened OrderSafety
  import Risk

  // ----- Answers -----

  /** What the caller is told: the exchange's own fields, and for a missing one the generated id or "submitted". */
  ghost predicate Tells(r: Receipt, reply: Reply, uuid: string) {
    && (reply.orderId.Some? ==> r.orderId == reply.orderId.value)
    && (reply.orderId.None? ==> r.orderId == uuid)
    && (reply.status.Some? ==> r.status == reply.status.value)
    && (reply.status.None? ==> r.status == "submitted")
  }

  /** An answered call returns the answer, caches it for a day, records it and frees the lock. */
  lemma {:induction false} AnswerExactly(cfg: Config, s: State, tid: nat, reply: Reply, uuid: string)
    requires s.InPhase(tid, AtCreate)
    ensures var s', task := Next(cfg, s, CreateDone(tid, Some(reply), uuid)), s.tasks[tid];
            && tid in s'.tasks && s'.tasks[tid].phase.Returned?
            && var r := s'.tasks[tid].phase.receipt;
               && Tells(r, reply, uuid)
               && s'.tasks == s.tasks[tid := Task(task.order, task.since, Returned(r))]
               && s'.idem == s.idem[task.order.key := Cached(r, s.now + 86400.0)]
               && s'.placed == s.placed + [Placement(tid, task.order.key, r)]
               && s'.locks == s.locks - {LockKey(task.order)}
               && s'.started == s.started && s'.owner == s.owner && s'.late == s.late
               && s'.now == s.now && s'.pnl == s.pnl && s'.killed == s.killed && s'.blocked == s.blocked
  {
  }

  /** A call that raised, in set_leverage or create_order, raises in the caller, caches nothing and frees the lock. */
  lemma {:induction false} FailureExactly(cfg: Config, s: State, tid: nat, e: Event)
    requires || (e == LeverageDone(tid, false) && s.InPhase(tid, AtLeverage))
             || (e.CreateDone? && e.tid == tid && e.reply.None? && s.InPhase(tid, AtCreate))
    ensures var s', task := Next(cfg, s, e), s.tasks[tid];
            && s'.tasks == s.tasks[tid := Task(task.order, task.since, Raised(ExchangeFailed))]
            && s'.locks == s.locks - {LockKey(task.order)}
            && s'.idem == s.idem && s'.placed == s.placed && s'.started == s.started
            && s'.owner == s.owner && s'.late == s.late
            && s'.now == s.now && s'.pnl == s.pnl && s'.killed == s.killed && s'.blocked == s.blocked
  {
  }

  /** After set_leverage the order is sent, and nothing else happens. */
  lemma {:induction false} LeverageExactly(cfg: Config, s: State, tid: nat)
    requires s.InPhase(tid, AtLeverage)
    ensures var s', task := Next(cfg, s, LeverageDone(tid, true)), s.tasks[tid];
            && s'.tasks == s.tasks[tid := Task(task.order, task.since, AtCreate)]
            && s'.started == s.started + [tid]
            && s'.locks == s.locks && s'.idem == s.idem && s'.placed == s.placed
            && s'.owner == s.owner && s'.late == s.late
            && s'.now == s.now && s'.pnl == s.pnl && s'.killed == s.killed && s'.blocked == s.blocked
  {
  }

  /** Event i is the answer behind a placement. */
  ghost predicate AnsweredAt(run: seq<Event>, i: nat, p: Placement) {
    && i < |run| && run[i].CreateDone? && run[i].tid == p.tid && run[i].reply.Some?
    && Tells(p.receipt, run[i].reply.value, run[i].uuid)
  }

  ghost predicate Answered(run: seq<Event>, p: Placement) {
    exists i: nat :: AnsweredAt(run, i, p)
  }

  /** The submission of a placement still has the answer as its result, and was counted as a call. */
  ghost predicate Delivered(s: State, p: Placement) {
    && p.tid in s.tasks && s.tasks[p.tid].order.key == p.key
    && s.tasks[p.tid].phase == Returned(p.receipt) && p.tid in s.started
  }

  /** A cached receipt is that of some placement of the key. */
  ghost predicate FromPlacement(s: State, key: string, r: Receipt) {
    exists j :: 0 <= j < |s.placed| && s.placed[j].key == key && s.placed[j].receipt == r
  }

  ghost predicate AllDelivered(s: State) {
    && (forall j :: 0 <= j < |s.placed| ==> Delivered(s, s.placed[j]))
    && (forall t :: s.InPhase(t, AtCreate) ==> t in s.started)
  }

  ghost predicate AllTraced(s: State) {
    && (forall k :: k in s.idem ==> FromPlacement(s, k, s.idem[k].receipt))
    && (forall t :: t in s.tasks && s.tasks[t].phase.Returned? ==>
          FromPlacement(s, s.tasks[t].order.key, s.tasks[t].phase.receipt))
  }

  /** A step keeps what is finished and adds to what is recorded. */
  ghost predicate Grows(s: State, s': State) {
    && s.started <= s'.started && s.placed <= s'.placed
    && (forall t :: t in s.tasks ==> t in s'.tasks && s'.tasks[t].order == s.tasks[t].order)
    && (forall t :: t in s.tasks && s.tasks[t].phase.Returned? ==> s'.tasks[t].phase == s.tasks[t].phase)
  }

  lemma {:induction false} EnterGrows(cfg: Config, s: State, tid: nat, order: Order)
    requires tid !in s.tasks
    ensures var s' := Begin(cfg, s, tid, order);
            Grows(s, s') && s'.placed == s.placed && s'.idem == s.idem
    ensures var s' := Begin(cfg, s, tid, order);
            && tid in s'.tasks && s'.tasks == s.tasks[tid := s'.tasks[tid]] && s'.tasks[tid].order == order
            && (s'.tasks[tid].phase.AtCreate? ==> tid in s'.started)
            && (s'.tasks[tid].phase.Returned? ==> order.key in s.idem && s'.tasks[tid].phase.receipt == s.idem[order.key].receipt)
  {
    if Admits(cfg, s, order) {
      BeginAdmitted(cfg, s, tid, order);
    } else {
      BeginRefused(cfg, s, tid, order);
    }
  }

  lemma {:induction false} DeliveredStays(s: State, s': State)
    requires AllDelivered(s) && Grows(s, s') && s'.placed == s.placed
    requires forall t :: s'.InPhase(t, AtCreate) ==> s.InPhase(t, AtCreate) || t in s'.started
    ensures AllDelivered(s')
  {
    forall j | 0 <= j < |s'.placed|
      ensures Delivered(s', s'.placed[j])
    {
      assert Delivered(s, s.placed[j]);
    }
  }

  lemma {:induction false} DeliveredAnswer(cfg: Config, s: State, tid: nat, reply: Reply, uuid: string)
    requires s.InPhase(tid, AtCreate) && AllDelivered(s)
    ensures AllDelivered(Next(cfg, s, CreateDone(tid, Some(reply), uuid)))
  {
    AnswerExactly(cfg, s, tid, reply, uuid);
    var s' := Next(cfg, s, CreateDone(tid, Some(reply), uuid));
    forall j | 0 <= j < |s'.placed|
      ensures Delivered(s', s'.placed[j])
    {
      if j < |s.placed| {
        assert Delivered(s, s.placed[j]);
      }
    }
  }

  lemma {:induction false} DeliveredLeverage(cfg: Config, s: State, tid: nat, ok: bool)
    requires s.InPhase(tid, AtLeverage) && AllDelivered(s)
    ensures AllDelivered(Next(cfg, s, LeverageDone(tid, ok)))
  {
    if ok {
      LeverageExactly(cfg, s, tid);
    } else {
      FailureExactly(cfg, s, tid, LeverageDone(tid, ok));
    }
    DeliveredStays(s, Next(cfg, s, LeverageDone(tid, ok)));
  }

  lemma {:induction false} DeliveredReply(cfg: Config, s: State, tid: nat, reply: Option<Reply>, uuid: string)
    requires s.InPhase(tid, AtCreate) && AllDelivered(s)
    ensures AllDelivered(Next(cfg, s, CreateDone(tid, reply, uuid)))
  {
    if reply.Some? {
      DeliveredAnswer(cfg, s, tid, reply.value, uuid);
    } else {
      FailureExactly(cfg, s, tid, CreateDone(tid, reply, uuid));
      DeliveredStays(s, Next(cfg, s, CreateDone(tid, reply, uuid)));
    }
  }

  lemma {:induction false} DeliveredStep(cfg: Config, s: State, e: Event)
    requires AllDelivered(s)
    ensures AllDelivered(Next(cfg, s, e))
  {
    match e
    case Submit(tid, order) =>
      if tid !in s.tasks {
        EnterGrows(cfg, s, tid, order);
        DeliveredStays(s, Next(cfg, s, e));
      }
    case LeverageDone(tid, ok) =>
      if s.InPhase(tid, AtLeverage) {
        DeliveredLeverage(cfg, s, tid, ok);
      }
    case CreateDone(tid, reply, uuid) =>
      if s.InPhase(tid, AtCreate) {
        DeliveredReply(cfg, s, tid, reply, uuid);
      }
    case _ => DeliveredStays(s, Next(cfg, s, e));
  }

  lemma {:induction false} TraceKept(s: State, s': State, key: string, r: Receipt)
    requires FromPlacement(s, key, r) && s.placed <= s'.placed
    ensures FromPlacement(s', key, r)
  {
    var j :| 0 <= j < |s.placed| && s.placed[j].key == key && s.placed[j].receipt == r;
    assert s'.placed[j] == s.placed[j];
  }

  /** Nothing appears in the cache or as a result that was not there or has been placed. */
  lemma {:induction false} TracedStays(s: State, s': State)
    requires AllTraced(s) && s.placed <= s'.placed
    requires forall k :: k in s'.idem ==> (k in s.idem && s'.idem[k].receipt == s.idem[k].receipt) || FromPlacement(s', k, s'.idem[k].receipt)
    requires forall t :: t in s'.tasks && s'.tasks[t].phase.Returned? ==>
               || (t in s.tasks && s'.tasks[t] == s.tasks[t])
               || FromPlacement(s', s'.tasks[t].order.key, s'.tasks[t].phase.receipt)
    ensures AllTraced(s')
  {
    forall k | k in s'.idem
      ensures FromPlacement(s', k, s'.idem[k].receipt)
    {
      if k in s.idem && s'.idem[k].receipt == s.idem[k].receipt {
        TraceKept(s, s', k, s.idem[k].receipt);
      }
    }
    forall t | t in s'.tasks && s'.tasks[t].phase.Returned?
      ensures FromPlacement(s', s'.tasks[t].order.key, s'.tasks[t].phase.receipt)
    {
      if t in s.tasks && s'.tasks[t] == s.tasks[t] {
        TraceKept(s, s', s.tasks[t].order.key, s.tasks[t].phase.receipt);
      }
    }
  }

  lemma {:induction false} TracedAnswer(cfg: Config, s: State, tid: nat, reply: Reply, uuid: string)
    requires s.InPhase(tid, AtCreate) && AllTraced(s)
    ensures AllTraced(Next(cfg, s, CreateDone(tid, Some(reply), uuid)))
  {
    AnswerExactly(cfg, s, tid, reply, uuid);
    var s' := Next(cfg, s, CreateDone(tid, Some(reply), uuid));
    var key, r := s.tasks[tid].order.key, s'.tasks[tid].phase.receipt;
    assert s'.placed[|s.placed|] == Placement(tid, key, r);
    assert FromPlacement(s', key, r);
    TracedStays(s, s');
  }

  lemma {:induction false} TracedEnter(cfg: Config, s: State, tid: nat, order: Order)
    requires tid !in s.tasks && AllTraced(s)
    ensures AllTraced(Begin(cfg, s, tid, order))
  {
    var s' := Begin(cfg, s, tid, order);
    EnterGrows(cfg, s, tid, order);
    if s'.tasks[tid].phase.Returned? {
      TraceKept(s, s', order.key, s.idem[order.key].receipt);
    }
    TracedStays(s, s');
  }

  lemma {:induction false} TracedStep(cfg: Config, s: State, e: Event)
    requires AllTraced(s)
    ensures AllTraced(Next(cfg, s, e))
  {
    match e
    case Submit(tid, order) =>
      if tid !in s.tasks {
        TracedEnter(cfg, s, tid, order);
      }
    case LeverageDone(tid, ok) =>
      if s.InPhase(tid, AtLeverage) {
        if ok {
          LeverageExactly(cfg, s, tid);
        } else {
          FailureExactly(cfg, s, tid, e);
        }
        TracedStays(s, Next(cfg, s, e));
      }
    case CreateDone(tid, reply, uuid) =>
      if s.InPhase(tid, AtCreate) {
        if reply.Some? {
          TracedAnswer(cfg, s, tid, reply.value, uuid);
        } else {
          FailureExactly(cfg, s, tid, e);
          TracedStays(s, Next(cfg, s, e));
        }
      }
    case _ => TracedStays(s, Next(cfg, s, e));
  }

  lemma {:induction false} AnswerKept(run: seq<Event>, p: Placement)
    requires run != [] && Answered(run[..|run| - 1], p)
    ensures Answered(run, p)
  {
    var i: nat :| AnsweredAt(run[..|run| - 1], i, p);
    assert AnsweredAt(run, i, p);
  }

  lemma {:induction false} PlacedOnlyByAnswers(cfg: Config, s: State, e: Event)
    ensures var s' := Next(cfg, s, e);
            || s'.placed == s.placed
            || (e.CreateDone? && e.reply.Some? && s.InPhase(e.tid, AtCreate))
  {
    if e.Submit? && e.tid !in s.tasks {
      EnterGrows(cfg, s, e.tid, e.order);
    }
  }

  lemma {:induction false} LastAnswer(cfg: Config, run: seq<Event>)
    requires run != []
    requires var e := run[|run| - 1]; e.CreateDone? && e.reply.Some? && After(cfg, run[..|run| - 1]).InPhase(e.tid, AtCreate)
    ensures var s, s' := After(cfg, run[..|run| - 1]), After(cfg, run);
            && |s'.placed| == |s.placed| + 1 && s'.placed[..|s.placed|] == s.placed
            && Answered(run, s'.placed[|s.placed|])
  {
    var n := |run| - 1;
    var s, e := After(cfg, run[..n]), run[n];
    AnswerExactly(cfg, s, e.tid, e.reply.value, e.uuid);
    assert AnsweredAt(run, n, After(cfg, run).placed[|s.placed|]);
  }

  /** Over any run: every placement is the answer an exchange gave to that submission's own call, field by field;
      the submission returned exactly it; and whatever the cache holds or any submission returned is one of those
      answers, given to the same key. */
  lemma {:induction false} AnswersAreTheExchanges(cfg: Config, run: seq<Event>)
    ensures var s := After(cfg, run);
            && (forall j :: 0 <= j < |s.placed| ==> Answered(run, s.placed[j]))
            && AllDelivered(s) && AllTraced(s)
  {
    if run == [] {
    } else {
      var n := |run| - 1;
      var s, e := After(cfg, run[..n]), run[n];
      AnswersAreTheExchanges(cfg, run[..n]);
      DeliveredStep(cfg, s, e);
      TracedStep(cfg, s, e);
      PlacedOnlyByAnswers(cfg, s, e);
      if After(cfg, run).placed != s.placed {
        LastAnswer(cfg, run);
      }
      forall j | 0 <= j < |After(cfg, run).placed|
        ensures Answered(run, After(cfg, run).placed[j])
      {
        if j < |s.placed| {
          assert After(cfg, run).placed[j] == s.placed[j];
          AnswerKept(run, s.placed[j]);
        }
      }
    }
  }

  // ----- Refusals -----

  /** The daily figure; nothing stored counts as zero. */
  function Loss(s: State): real {
    if s.pnl.Some? then -s.pnl.value else 0.0
  }

  /** A submission, from the call to the first await, by what its caller finds: the first of these that applies
      decides, and only the last one touches anything but the submission's own record. */
  lemma {:induction false} SubmitExactly(cfg: Config, s: State, tid: nat, order: Order)
    requires tid !in s.tasks
    ensures var s' := Next(cfg, s, Submit(tid, order));
            var risk, lock := cfg.risk, LockKey(order);
            var admitted := && order.key !in s.idem && !s.blocked && !s.killed && lock !in s.locks
                            && Loss(s) < risk.dailyLossKill && Loss(s) < risk.dailyLossLimit
                            && risk.maxPositionPerSymbol >= 0.0 && order.market in cfg.exchanges;
            && tid in s'.tasks
            && var phase := s'.tasks[tid].phase;
               && s'.tasks == s.tasks[tid := Task(order, s.now, phase)]
               && (order.key in s.idem ==> phase == Returned(s.idem[order.key].receipt))
               && (phase == Raised(KillActive) <==> order.key !in s.idem && (s.blocked || s.killed))
               && (phase == Raised(LockHeld) <==> order.key !in s.idem && !s.blocked && !s.killed && lock in s.locks)
               && (phase.Raised? && phase.error.RiskRefused? <==>
                     && order.key !in s.idem && !s.blocked && !s.killed && lock !in s.locks
                     && (Loss(s) >= risk.dailyLossKill || Loss(s) >= risk.dailyLossLimit || risk.maxPositionPerSymbol < 0.0))
               && (phase == Raised(InactiveMarket) <==>
                     && order.key !in s.idem && !s.blocked && !s.killed && lock !in s.locks
                     && Loss(s) < risk.dailyLossKill && Loss(s) < risk.dailyLossLimit
                     && risk.maxPositionPerSymbol >= 0.0 && order.market !in cfg.exchanges)
               && (phase.AtLeverage? <==> admitted && order.isFutures && order.leverage > 1)
               && (phase.AtCreate? <==> admitted && !(order.isFutures && order.leverage > 1))
               && s'.started == (if phase.AtCreate? then s.started + [tid] else s.started)
               && s'.locks == (if admitted then s.locks[lock := s.now + 10.0] else s.locks)
               && s'.owner == (if admitted then s.owner[lock := tid] else s.owner)
               && s'.idem == s.idem && s'.placed == s.placed && s'.late == s.late
               && s'.now == s.now && s'.pnl == s.pnl && s'.killed == s.killed && s'.blocked == s.blocked
  {
    if Admits(cfg, s, order) {
      BeginAdmitted(cfg, s, tid, order);
      assert s.started + [] == s.started;
    } else {
      BeginRefused(cfg, s, tid, order);
    }
  }

  // ----- The environment -----

  /** Setting the flag, blocking the queue and writing the daily figure each do just that. */
  lemma {:induction false} WritesExactly(cfg: Config, s: State, pnl: real)
    ensures Next(cfg, s, KillFlag) == s.(killed := true)
    ensures Next(cfg, s, Block) == s.(blocked := true)
    ensures Next(cfg, s, WritePnl(pnl)) == s.(pnl := Some(pnl))
  {
  }

  /** A process death ends every suspended submission and forgets the block; Redis and what is finished stay. */
  lemma {:induction false} CrashExactly(cfg: Config, s: State)
    ensures var s' := Next(cfg, s, Crash);
            && s' == s.(blocked := false, tasks := s'.tasks) && s'.tasks.Keys == s.tasks.Keys
            && forall t :: t in s.tasks ==>
                 && s'.tasks[t].order == s.tasks[t].order && s'.tasks[t].since == s.tasks[t].since
                 && s'.tasks[t].phase == if s.tasks[t].phase.AtLeverage? || s.tasks[t].phase.AtCreate? then Lost
                                         else s.tasks[t].phase
  {
  }

  /** Time: exactly the entries whose deadline lies ahead remain, and an expiry counts against a lock exactly when
      it hits a submission inside. */
  lemma {:induction false} TickExactly(cfg: Config, s: State, d: real)
    requires d >= 0.0
    ensures var s' := Next(cfg, s, Tick(d));
            && s'.now == s.now + d
            && s' == s.(now := s'.now, idem := s'.idem, locks := s'.locks, late := s'.late)
            && (forall k :: k in s'.idem <==> k in s.idem && s'.now < s.idem[k].deadline)
            && (forall k :: k in s'.idem ==> s'.idem[k] == s.idem[k])
            && (forall l :: l in s'.locks <==> l in s.locks && s'.now < s.locks[l])
            && (forall l :: l in s'.locks ==> s'.locks[l] == s.locks[l])
            && forall l :: s'.Late(l) == s.Late(l) + if l in s.locks && l !in s'.locks && s.Holders(l) != {} then 1 else 0
  {
  }

  /** An event that cannot happen changes nothing. */
  lemma {:induction false} ImpossibleEvents(cfg: Config, s: State, e: Event)
    requires || (e.Submit? && e.tid in s.tasks)
             || (e.LeverageDone? && !s.InPhase(e.tid, AtLeverage))
             || (e.CreateDone? && !s.InPhase(e.tid, AtCreate))
             || (e.Tick? && e.d < 0.0)
    ensures Next(cfg, s, e) == s
  {
  }

  // ----- Lifetimes -----

  lemma {:induction false} AfterTwo(cfg: Config, run: seq<Event>, e: Event, f: Event)
    ensures After(cfg, run + [e] + [f]) == Next(cfg, Next(cfg, After(cfg, run), e), f)
  {
    Snoc(cfg, run, e);
    Snoc(cfg, run + [e], f);
  }

  /** A lock just taken is held for less than ten seconds of waiting and gone after ten. */
  lemma {:induction false} LockLastsTenSeconds(cfg: Config, run: seq<Event>, tid: nat, order: Order, d: real)
    requires d >= 0.0
    requires tid !in After(cfg, run).tasks && Admits(cfg, After(cfg, run), order)
    ensures LockKey(order) in After(cfg, run + [Submit(tid, order)] + [Tick(d)]).locks <==> d < 10.0
  {
    var s := After(cfg, run);
    AfterTwo(cfg, run, Submit(tid, order), Tick(d));
    BeginAdmitted(cfg, s, tid, order);
    TickExactly(cfg, Next(cfg, s, Submit(tid, order)), d);
  }

  /** An answer is replayed for less than a day and forgotten after one. */
  lemma {:induction false} AnswerLastsADay(cfg: Config, run: seq<Event>, tid: nat, reply: Reply, uuid: string, d: real)
    requires d >= 0.0
    requires After(cfg, run).InPhase(tid, AtCreate)
    ensures var key := After(cfg, run).tasks[tid].order.key;
            key in After(cfg, run + [CreateDone(tid, Some(reply), uuid)] + [Tick(d)]).idem <==> d < 24.0 * 3600.0
  {
    var s := After(cfg, run);
    AfterTwo(cfg, run, CreateDone(tid, Some(reply), uuid), Tick(d));
    AnswerExactly(cfg, s, tid, reply, uuid);
    TickExactly(cfg, Next(cfg, s, CreateDone(tid, Some(reply), uuid)), d);
  }

  // ----- More fences -----

  /** A block closes the queue like the kill flag does, as long as the process lives: with nobody waiting in
      set_leverage no further create_order starts. */
  lemma {:induction false} BlockIsFinal(cfg: Config, run: seq<Event>, more: seq<Event>)
    requires After(cfg, run).Pending() == {} && NoCrash(more)
    ensures After(cfg, run + [Block] + more).started == After(cfg, run).started
  {
    var s := After(cfg, run);
    AfterThen(cfg, run, Block, more);
    KillFence(cfg, s.(blocked := true), more);
    NothingStarts(s.(blocked := true), After(cfg, run + [Block] + more));
  }

  ghost predicate NoWrites(run: seq<Event>) {
    forall i :: 0 <= i < |run| ==> !run[i].WritePnl?
  }

  ghost predicate TooLow(cfg: Config, s: State) {
    s.pnl.Some? && (-s.pnl.value >= cfg.risk.dailyLossKill || -s.pnl.value >= cfg.risk.dailyLossLimit)
  }

  lemma {:induction false} FigureStays(cfg: Config, s: State, e: Event)
    requires !e.WritePnl?
    ensures Next(cfg, s, e).pnl == s.pnl
  {
    if e.Submit? && e.tid !in s.tasks {
      SubmitExactly(cfg, s, e.tid, e.order);
    }
  }

  lemma {:induction false} LossRefuses(cfg: Config, s: State, tid: nat, order: Order)
    requires TooLow(cfg, s) && tid !in s.tasks
    ensures FencedMove(s, Submit(tid, order), Begin(cfg, s, tid, order))
  {
    assert !Admits(cfg, s, order);
    BeginRefused(cfg, s, tid, order);
  }

  lemma {:induction false} LossKept(cfg: Config, s: State, e: Event)
    requires !e.WritePnl? && TooLow(cfg, s)
    ensures TooLow(cfg, Next(cfg, s, e))
    ensures FencedMove(s, e, Next(cfg, s, e))
  {
    FigureStays(cfg, s, e);
    if e.Submit? {
      if e.tid !in s.tasks {
        LossRefuses(cfg, s, e.tid, e.order);
      }
    } else {
      OthersAreFenced(cfg, s, e);
    }
  }

  lemma {:induction false} LossFence(cfg: Config, s: State, run: seq<Event>)
    requires TooLow(cfg, s) && NoWrites(run)
    ensures TooLow(cfg, Exec(cfg, s, run)) && Fenced(s, Exec(cfg, s, run))
  {
    if run == [] {
    } else {
      var front, e := run[..|run| - 1], run[|run| - 1];
      assert NoWrites(front);
      LossFence(cfg, s, front);
      var m := Exec(cfg, s, front);
      LossKept(cfg, m, e);
      FencedThen(s, m, Next(cfg, m, e), if e.LeverageDone? then e.tid else 0);
    }
  }

  /** A daily loss at either configured level stops trading until another figure is written: with nobody waiting
      in set_leverage no further create_order starts, process deaths included. */
  lemma {:induction false} LossIsFinal(cfg: Config, run: seq<Event>, pnl: real, more: seq<Event>)
    requires After(cfg, run).Pending() == {} && NoWrites(more)
    requires -pnl >= cfg.risk.dailyLossKill || -pnl >= cfg.risk.dailyLossLimit
    ensures After(cfg, run + [WritePnl(pnl)] + more).started == After(cfg, run).started
  {
    var s := After(cfg, run);
    AfterThen(cfg, run, WritePnl(pnl), more);
    LossStops(cfg, s, pnl, more);
  }

  lemma {:induction false} LossWritten(cfg: Config, s: State, pnl: real)
    requires -pnl >= cfg.risk.dailyLossKill || -pnl >= cfg.risk.dailyLossLimit
    ensures var t := Next(cfg, s, WritePnl(pnl));
            TooLow(cfg, t) && t.Pending() == s.Pending() && t.started == s.started
  {
  }

  lemma {:induction false} LossStops(cfg: Config, s: State, pnl: real, more: seq<Event>)
    requires s.Pending() == {} && NoWrites(more)
    requires -pnl >= cfg.risk.dailyLossKill || -pnl >= cfg.risk.dailyLossLimit
    ensures Exec(cfg, Next(cfg, s, WritePnl(pnl)), more).started == s.started
  {
    var t := Next(cfg, s, WritePnl(pnl));
    LossWritten(cfg, s, pnl);
    LossFence(cfg, t, more);
    NothingStarts(t, Exec(cfg, t, more));
  }
}
