/** The external watchdog: three health checks in a row must fail before it closes everything. */
module Watchdog {
  import opened Wrappers

  const MAX_FAILURES: nat := 3

  /** What happens if this tick gets as far as the emergency call, the alert and the reset after it. */
  datatype CallOutcome = Completes | CloseRaises | AlertRaises | ResetRaises

  datatype Tick = Healthy | Failing(call: CallOutcome)

  datatype Report = Ok | Failure(failures: nat) | Exception

  predicate Fires(count: nat, t: Tick) {
    t.Failing? && count + 1 >= MAX_FAILURES
  }

  /** The stored counter after a tick; it is written before the call and reset only after the alert. */
  function NextCount(count: nat, t: Tick): nat {
    if t.Healthy? || (Fires(count, t) && t.call.Completes?) then 0 else count + 1
  }

  /** One invocation: which storage calls go through, what the health check says, and what the calls do. */
  datatype Invocation = Invocation(canRead: bool, healthy: bool, canReset: bool, canStore: bool, call: CallOutcome)

  /** What an invocation is for the counter: nothing when the count cannot be read or stored. The reset after a
      healthy answer is inside the `try` of the check, so when it raises the answer counts as a failure. */
  function Effect(v: Invocation): Option<Tick> {
    if !v.canRead then None
    else if v.healthy && v.canReset then Some(Healthy)
    else if !v.canStore then None
    else Some(Failing(v.call))
  }

  function Counted(count: nat, v: Invocation): nat {
    match Effect(v)
    case None => count
    case Some(t) => NextCount(count, t)
  }

  predicate Closes(count: nat, v: Invocation) {
    Effect(v).Some? && Fires(count, Effect(v).value)
  }

  class Handler {
    var count: nat

    constructor ()
      ensures count == 0
    {
      count := 0;
    }

    method Handle(v: Invocation) returns (report: Report, closes: nat)
      modifies this
      ensures count == Counted(old(count), v)
      ensures closes == if Closes(old(count), v) then 1 else 0
      // the count cannot be read
      ensures !v.canRead ==> report == Exception && closes == 0 && count == old(count)
      // a healthy answer, and the reset went through
      ensures v.canRead && v.healthy && v.canReset ==> report == Report.Ok && closes == 0 && count == 0
      // a failure that cannot be stored
      ensures v.canRead && !(v.healthy && v.canReset) && !v.canStore ==> report == Exception && closes == 0 && count == old(count)
      // a failure, the third in a row or not
      ensures v.canRead && !(v.healthy && v.canReset) && v.canStore && old(count) < 2 ==>
                report == Failure(old(count) + 1) && closes == 0 && count == old(count) + 1
      ensures v.canRead && !(v.healthy && v.canReset) && v.canStore && old(count) >= 2 ==>
                && closes == 1
                && (v.call == Completes ==> report == Failure(old(count) + 1) && count == 0)
                && (v.call != Completes ==> report == Exception && count == old(count) + 1)
    {
      closes := 0;
      if !v.canRead {
        return Exception, 0;
      }
      var failures := count;
      if v.healthy && v.canReset {
        count := 0;
        return Report.Ok, 0;
      }
      failures := failures + 1;
      if !v.canStore {
        return Exception, 0;
      }
      count := failures;
      if failures >= MAX_FAILURES {
        closes := 1;
        if !v.call.Completes? {
          return Exception, closes;
        }
        count := 0;
      }
      report := Failure(failures);
    }
  }

  function CountAfter(ticks: seq<Tick>): nat {
    if ticks == [] then 0 else NextCount(CountAfter(ticks[..|ticks| - 1]), ticks[|ticks| - 1])
  }

  /** How many times the emergency call has been made. */
  function Calls(ticks: seq<Tick>): nat {
    if ticks == [] then 0
    else
      var front := ticks[..|ticks| - 1];
      Calls(front) + if Fires(CountAfter(front), ticks[|ticks| - 1]) then 1 else 0
  }

  /** The lengths of the stretches of failing ticks between healthy ones. */
  function FailureRuns(ticks: seq<Tick>): (runs: seq<nat>)
    ensures |runs| >= 1
  {
    if ticks == [] then [0]
    else
      Grown(FailureRuns(ticks[..|ticks| - 1]), ticks[|ticks| - 1].Healthy?)
  }

  function Grown(runs: seq<nat>, healthy: bool): (r: seq<nat>)
    requires |runs| >= 1
    ensures |r| >= 1
  {
    var k := |runs| - 1;
    if healthy then runs + [0] else runs[..k] + [runs[k] + 1]
  }

  function Thirds(runs: seq<nat>): nat {
    if runs == [] then 0 else Thirds(runs[..|runs| - 1]) + runs[|runs| - 1] / MAX_FAILURES
  }

  lemma {:induction false} OneMore(r: nat)
    ensures (r + 1) % MAX_FAILURES == if r % MAX_FAILURES == 2 then 0 else r % MAX_FAILURES + 1
    ensures (r + 1) / MAX_FAILURES == r / MAX_FAILURES + if r % MAX_FAILURES == 2 then 1 else 0
  {
  }

  lemma {:induction false} ThirdsLast(front: seq<nat>, r: nat)
    ensures Thirds(front + [r]) == Thirds(front) + r / MAX_FAILURES
  {
    assert (front + [r])[..|front|] == front;
  }

  lemma {:induction false} NewTick(runs: seq<nat>, healthy: bool, count: nat)
    requires |runs| >= 1 && count == runs[|runs| - 1] % MAX_FAILURES
    ensures var fires := !healthy && count + 1 >= MAX_FAILURES;
            var runs' := Grown(runs, healthy);
            && Thirds(runs') == Thirds(runs) + (if fires then 1 else 0)
            && runs'[|runs'| - 1] % MAX_FAILURES == if healthy || fires then 0 else count + 1
  {
    var k := |runs| - 1;
    if healthy {
      ThirdsLast(runs, 0);
    } else {
      ThirdsLast(runs[..k], runs[k] + 1);
      ThirdsLast(runs[..k], runs[k]);
      assert runs == runs[..k] + [runs[k]];
      OneMore(runs[k]);
    }
  }

  /** If no call raises, the counter is always 0, 1 or 2 between ticks and the emergency call is made once for
      every three failures inside an uninterrupted stretch of them. */
  lemma {:induction false} CallsPerFailureRun(ticks: seq<Tick>)
    requires forall i :: 0 <= i < |ticks| && ticks[i].Failing? ==> ticks[i].call.Completes?
    ensures var runs := FailureRuns(ticks);
            && CountAfter(ticks) < MAX_FAILURES
            && CountAfter(ticks) == runs[|runs| - 1] % MAX_FAILURES
            && Calls(ticks) == Thirds(runs)
  {
    if ticks == [] {
    } else {
      var n := |ticks| - 1;
      CallsPerFailureRun(ticks[..n]);
      var runs := FailureRuns(ticks[..n]);
      NewTick(runs, ticks[n].Healthy?, CountAfter(ticks[..n]));
      assert FailureRuns(ticks) == Grown(runs, ticks[n].Healthy?);
    }
  }

  /** The emergency call was made at tick i, and the alert after it went through. */
  ghost predicate CompletedAt(ticks: seq<Tick>, i: nat)
    requires i < |ticks|
  {
    Fires(CountAfter(ticks[..i]), ticks[i]) && ticks[i].call.Completes?
  }

  ghost predicate UnresolvedAt(ticks: seq<Tick>, i: nat)
    requires i < |ticks|
  {
    ticks[i].Failing? && !CompletedAt(ticks, i)
  }

  lemma {:induction false} CountLevels(ticks: seq<Tick>)
    ensures var n := |ticks|;
            && (CountAfter(ticks) >= 1 <==> n >= 1 && UnresolvedAt(ticks, n - 1))
            && (CountAfter(ticks) >= 2 <==> n >= 2 && UnresolvedAt(ticks, n - 1) && UnresolvedAt(ticks, n - 2))
  {
    var n := |ticks|;
    if n >= 2 {
      assert ticks[..n - 1][..n - 2] == ticks[..n - 2];
    }
  }

  /** With calls that may raise in any pattern: a failing tick makes the emergency call exactly when the two
      ticks before it failed too and neither of them saw a call through. So after a call that raised,
      every failing tick tries again, until one call completes or a check succeeds. */
  lemma {:induction false} FiresExactly(ticks: seq<Tick>, i: nat)
    requires i < |ticks|
    ensures Fires(CountAfter(ticks[..i]), ticks[i]) <==>
            ticks[i].Failing? && i >= 2 && UnresolvedAt(ticks, i - 1) && UnresolvedAt(ticks, i - 2)
  {
    CountLevels(ticks[..i]);
    if i >= 2 {
      assert ticks[..i][..i - 1] == ticks[..i - 1] && ticks[..i][..i - 2] == ticks[..i - 2];
    }
  }

  // ----- Storage that raises -----

  /** The ticks that reach the counter. */
  function Effects(vs: seq<Invocation>): seq<Tick> {
    if vs == [] then []
    else
      var front := Effects(vs[..|vs| - 1]);
      match Effect(vs[|vs| - 1])
      case None => front
      case Some(t) => front + [t]
  }

  function StoredAfter(vs: seq<Invocation>): nat {
    if vs == [] then 0 else Counted(StoredAfter(vs[..|vs| - 1]), vs[|vs| - 1])
  }

  function Closings(vs: seq<Invocation>): nat {
    if vs == [] then 0
    else
      var front := vs[..|vs| - 1];
      Closings(front) + if Closes(StoredAfter(front), vs[|vs| - 1]) then 1 else 0
  }

  /** Whatever the storage does, counter and emergency calls are those of the ticks that reached the counter. */
  lemma {:induction false} StorageOnlySkipsTicks(vs: seq<Invocation>)
    ensures StoredAfter(vs) == CountAfter(Effects(vs)) && Closings(vs) == Calls(Effects(vs))
  {
    if vs == [] {
    } else {
      var front, v := vs[..|vs| - 1], vs[|vs| - 1];
      StorageOnlySkipsTicks(front);
      if Effect(v).Some? {
        assert (Effects(front) + [Effect(v).value])[..|Effects(front)|] == Effects(front);
      }
    }
  }

  function Times(v: Invocation, n: nat): seq<Invocation> {
    seq(n, _ => v)
  }

  /** Three invocations alike make the emergency call exactly when the count can be read and stored and the check
      fails, or is answered but its reset raises: a healthy machine is closed down if only resets are refused. */
  lemma {:induction false} ThreeAlike(v: Invocation)
    ensures Closings(Times(v, MAX_FAILURES)) == 1 <==> v.canRead && v.canStore && !(v.healthy && v.canReset)
  {
    forall n: nat | n < MAX_FAILURES
      ensures Times(v, n + 1)[..n] == Times(v, n) && Times(v, n + 1)[n] == v
    {
    }
    assert StoredAfter(Times(v, 0)) == 0 && Closings(Times(v, 0)) == 0;
    assert StoredAfter(Times(v, 1)) == if Effect(v).Some? && Effect(v).value.Failing? then 1 else 0;
    assert StoredAfter(Times(v, 2)) == if Effect(v).Some? && Effect(v).value.Failing? then 2 else 0;
    assert Closings(Times(v, 1)) == Closings(Times(v, 2)) == 0;
  }

  /** What an invocation amounts to: a tick that says what the check said and how the calls went, unless the count
      could not be read, or a failure not stored. */
  lemma {:induction false} EffectExactly(v: Invocation)
    ensures Effect(v) == Some(Healthy) <==> v.canRead && v.healthy && v.canReset
    ensures Effect(v) == Some(Failing(v.call)) <==> v.canRead && v.canStore && !(v.healthy && v.canReset)
    ensures Effect(v).None? <==> !v.canRead || (!(v.healthy && v.canReset) && !v.canStore)
  {
  }
}
