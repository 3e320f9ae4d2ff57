/**
 The token bucket that limits exchange calls. The clock readings of `time.monotonic()` come from the
 environment: any non-decreasing sequence, so sleeps may overshoot or undershoot by any amount.
 */
module RateLimiter {
  import opened Sequences

  datatype Bucket = Bucket(rate: real, capacity: int, tokens: real, lastRefill: real) {
    ghost predicate Valid() {
      0.0 <= tokens <= capacity as real && rate >= 0.0
    }
  }

  function Min(a: real, b: real): real {
    if a <= b then a else b
  }

  /** What the bucket does: refill at a clock reading, or hand out tokens. */
  datatype Step = Refill(now: real) | Grant(n: int)

  /** Tokens earned in `dt` seconds. */
  function Earned(rate: real, dt: real): real {
    dt * rate
  }

  function Uncapped(b: Bucket, now: real): real {
    b.tokens + Earned(b.rate, now - b.lastRefill)
  }

  function Apply(b: Bucket, s: Step): Bucket {
    match s
    case Refill(now) => b.(tokens := Min(b.capacity as real, Uncapped(b, now)), lastRefill := now)
    case Grant(n) => b.(tokens := b.tokens - n as real)
  }

  /** Readings do not go back, requests are not negative, and tokens are only handed out when they are there. */
  ghost predicate Legal(b: Bucket, s: Step) {
    match s
    case Refill(now) => now >= b.lastRefill
    case Grant(n) => 0 <= n && n as real <= b.tokens
  }

  function Exec(b: Bucket, steps: seq<Step>): Bucket {
    if steps == [] then b else Apply(Exec(b, steps[..|steps| - 1]), steps[|steps| - 1])
  }

  ghost predicate LegalRun(b: Bucket, steps: seq<Step>) {
    steps == [] || (LegalRun(b, steps[..|steps| - 1]) && Legal(Exec(b, steps[..|steps| - 1]), steps[|steps| - 1]))
  }

  function Granted(steps: seq<Step>): int {
    if steps == [] then 0
    else
      var s := steps[|steps| - 1];
      Granted(steps[..|steps| - 1]) + if s.Grant? then s.n else 0
  }

  /** The tokens the cap throws away during a run. */
  function Overflow(b: Bucket, steps: seq<Step>): real {
    if steps == [] then 0.0
    else
      var front, s := steps[..|steps| - 1], steps[|steps| - 1];
      var m := Exec(b, front);
      Overflow(b, front) + if s.Refill? then Uncapped(m, s.now) - Apply(m, s).tokens else 0.0
  }

  // ----- Acquiring -----

  datatype Outcome = Acquired | StillWaiting | DividedByZero

  /** The steps of one acquire that reads the clock `k` times before it gets its tokens. */
  function Attempt(clock: seq<real>, k: nat, n: int, acquired: bool): seq<Step>
    requires k <= |clock|
  {
    Refills(clock[..k]) + if acquired then [Grant(n)] else []
  }

  function Refills(clock: seq<real>): seq<Step> {
    if clock == [] then [] else Refills(clock[..|clock| - 1]) + [Refill(clock[|clock| - 1])]
  }

  /** The bucket after the first k clock readings. */
  function BucketAt(b: Bucket, clock: seq<real>, k: nat): Bucket
    requires k <= |clock|
  {
    Exec(b, Refills(clock[..k]))
  }

  /** After k readings the bucket holds enough for the request. */
  ghost predicate Ready(b: Bucket, clock: seq<real>, k: nat, n: int)
    requires k <= |clock|
  {
    BucketAt(b, clock, k).tokens >= n as real
  }

  ghost predicate SleptEnough(m: Bucket, n: int, now: real) {
    n as real - m.tokens <= Earned(m.rate, now - m.lastRefill)
  }

  lemma {:induction false} ExecSnoc(b: Bucket, steps: seq<Step>, s: Step)
    ensures Exec(b, steps + [s]) == Apply(Exec(b, steps), s)
  {
    assert (steps + [s])[..|steps|] == steps;
  }

  lemma {:induction false} RefillsSnoc(b: Bucket, clock: seq<real>, k: nat)
    requires k < |clock|
    ensures BucketAt(b, clock, k + 1) == Apply(BucketAt(b, clock, k), Refill(clock[k]))
  {
    assert clock[..k + 1][..k] == clock[..k];
    ExecSnoc(b, Refills(clock[..k]), Refill(clock[k]));
  }

  lemma {:induction false} AttemptEnds(b: Bucket, clock: seq<real>, k: nat, n: int)
    requires k <= |clock|
    ensures Exec(b, Attempt(clock, k, n, false)) == BucketAt(b, clock, k)
    ensures Exec(b, Attempt(clock, k, n, true)) == Apply(BucketAt(b, clock, k), Grant(n))
  {
    var r := Refills(clock[..k]);
    assert r + [] == r;
    ExecSnoc(b, r, Grant(n));
  }

  /** Reading k + 1 comes at least the requested wait after reading k. */
  ghost predicate SleepsEnough(b: Bucket, clock: seq<real>, n: int) {
    forall k :: 1 <= k < |clock| ==> SleptEnough(BucketAt(b, clock, k), n, clock[k])
  }

  class TokenBucketRateLimiter {
    const rate: real
    const capacity: int
    var tokens: real
    var lastRefill: real

    ghost function State(): Bucket
      reads this
    {
      Bucket(rate, capacity, tokens, lastRefill)
    }

    constructor (rate: real, capacity: int, now: real)
      ensures State() == Bucket(rate, capacity, capacity as real, now)
    {
      this.rate, this.capacity := rate, capacity;
      tokens, lastRefill := capacity as real, now;
    }

    method Refill(now: real)
      modifies this
      ensures State() == Apply(old(State()), Step.Refill(now))
    {
      var elapsed := now - lastRefill;
      tokens := Min(capacity as real, tokens + elapsed * rate);
      lastRefill := now;
    }

    /** One acquire, run for as many clock readings as the environment supplies. The requested sleep is
        (n - tokens) / rate; how long it lasts shows in the next reading. */
    method Acquire(n: int, clock: seq<real>) returns (outcome: Outcome, used: nat)
      requires |clock| >= 1
      modifies this
      ensures 1 <= used <= |clock|
      ensures State() == Exec(old(State()), Attempt(clock, used, n, outcome.Acquired?))
      ensures forall k :: 1 <= k < used ==> !Ready(old(State()), clock, k, n)
      ensures var ready := Ready(old(State()), clock, used, n);
              && (outcome.Acquired? <==> ready)
              && (outcome.DividedByZero? <==> !ready && rate == 0.0)
              && (outcome.StillWaiting? <==> !ready && rate != 0.0 && used == |clock|)
    {
      RefillsSnoc(old(State()), clock, 0);
      Refill(clock[0]);
      used := 1;
      while tokens < n as real
        invariant 1 <= used <= |clock|
        invariant State() == BucketAt(old(State()), clock, used)
        invariant forall k :: 1 <= k < used ==> !Ready(old(State()), clock, k, n)
        invariant used > 1 ==> rate != 0.0
        decreases |clock| - used
      {
        if rate == 0.0 {
          AttemptEnds(old(State()), clock, used, n);
          return DividedByZero, used;
        }
        if used == |clock| {
          AttemptEnds(old(State()), clock, used, n);
          return StillWaiting, used;
        }
        RefillsSnoc(old(State()), clock, used);
        Refill(clock[used]);
        used := used + 1;
      }
      AttemptEnds(old(State()), clock, used, n);
      tokens := tokens - n as real;
      outcome := Acquired;
    }
  }

  // ----- Accounting -----

  lemma {:induction false} EarnedNotNegative(rate: real, dt: real)
    requires rate >= 0.0 && dt >= 0.0
    ensures Earned(rate, dt) >= 0.0
  {
  }

  /** A refill adds what the elapsed time has earned, and throws something away only when it leaves the bucket full. */
  lemma {:induction false} RefillExactly(b: Bucket, now: real)
    ensures var b', earned := Apply(b, Refill(now)), Earned(b.rate, now - b.lastRefill);
            && b'.lastRefill == now && b'.rate == b.rate && b'.capacity == b.capacity
            && (b.tokens + earned <= b.capacity as real ==> b'.tokens == b.tokens + earned)
            && (b.tokens + earned > b.capacity as real ==> b'.tokens == b.capacity as real)
  {
  }

  lemma {:induction false} ApplyKeeps(b: Bucket, s: Step)
    requires b.Valid() && Legal(b, s)
    ensures Apply(b, s).Valid() && Apply(b, s).rate == b.rate && Apply(b, s).capacity == b.capacity
    ensures Apply(b, s).lastRefill >= b.lastRefill
    ensures s.Refill? ==> Uncapped(b, s.now) >= Apply(b, s).tokens
  {
    if s.Refill? {
      EarnedNotNegative(b.rate, s.now - b.lastRefill);
    }
  }

  /** In every reachable state 0 <= tokens <= capacity, and the tokens at the start plus those earned by
      elapsed time are exactly the tokens granted, held, or thrown away by the cap. */
  lemma {:induction false} Accounting(b: Bucket, steps: seq<Step>)
    requires b.Valid() && LegalRun(b, steps)
    ensures var b' := Exec(b, steps);
            && b'.Valid() && b'.rate == b.rate && b'.capacity == b.capacity && b'.lastRefill >= b.lastRefill
            && Overflow(b, steps) >= 0.0
            && b.tokens + Earned(b.rate, b'.lastRefill - b.lastRefill)
               == Granted(steps) as real + b'.tokens + Overflow(b, steps)
  {
    if steps == [] {
    } else {
      var front, s := steps[..|steps| - 1], steps[|steps| - 1];
      Accounting(b, front);
      var m := Exec(b, front);
      ApplyKeeps(m, s);
      if s.Refill? {
        EarnedSum(b.rate, m.lastRefill - b.lastRefill, s.now - m.lastRefill);
      }
    }
  }

  lemma {:induction false} EarnedSum(rate: real, x: real, y: real)
    ensures Earned(rate, x + y) == Earned(rate, x) + Earned(rate, y)
  {
  }

  lemma {:induction false} Split(b: Bucket, a: seq<Step>, c: seq<Step>)
    ensures Exec(b, a + c) == Exec(Exec(b, a), c)
    ensures LegalRun(b, a + c) <==> LegalRun(b, a) && LegalRun(Exec(b, a), c)
    ensures Granted(a + c) == Granted(a) + Granted(c)
  {
    if c == [] {
      assert a + c == a;
    } else {
      var n := |c| - 1;
      Split(b, a, c[..n]);
      assert (a + c)[..|a + c| - 1] == a + c[..n];
    }
  }

  /** Between any two points of any run, the tokens granted in that stretch never exceed the capacity plus
      the rate times the time between the clock readings in force at its two ends. */
  lemma {:induction false} WindowBound(b: Bucket, before: seq<Step>, window: seq<Step>)
    requires b.Valid() && LegalRun(b, before + window)
    ensures var from, to := Exec(b, before).lastRefill, Exec(b, before + window).lastRefill;
            Granted(window) as real <= b.capacity as real + Earned(b.rate, to - from)
  {
    Split(b, before, window);
    Accounting(b, before);
    Accounting(Exec(b, before), window);
  }

  lemma {:induction false} ThreeSteps(b: Bucket, x: Step, y: Step, z: Step)
    ensures Exec(b, [x, y, z]) == Apply(Apply(Apply(b, x), y), z)
    ensures LegalRun(b, [x, y, z]) <==> Legal(b, x) && Legal(Apply(b, x), y) && Legal(Apply(Apply(b, x), y), z)
    ensures Granted([x, y, z]) == Granted([x]) + Granted([y]) + Granted([z])
  {
    assert [x, y] + [z] == [x, y, z] && [x] + [y] == [x, y];
    Split(b, [x, y], [z]);
    Split(b, [x], [y]);
    forall c: Bucket, s: Step
      ensures Exec(c, [s]) == Apply(c, s) && (LegalRun(c, [s]) <==> Legal(c, s))
    {
      assert [s][..0] == [];
    }
  }

  /** The bound is reached: a full bucket can hand out its capacity and, after any wait that earns a whole
      number of tokens without refilling it completely, everything earned meanwhile. */
  lemma {:induction false} WindowBoundIsReached(b: Bucket, now: real, n: int)
    requires b.Valid() && b.tokens == b.capacity as real && now >= b.lastRefill
    requires n as real == Earned(b.rate, now - b.lastRefill) && 0 <= n <= b.capacity
    ensures var run := [Grant(b.capacity), Refill(now), Grant(n)];
            && LegalRun(b, run) && Exec(b, run).lastRefill == now
            && Granted(run) as real == b.capacity as real + Earned(b.rate, now - b.lastRefill)
  {
    ThreeSteps(b, Grant(b.capacity), Refill(now), Grant(n));
    assert Granted([Grant(b.capacity)]) == b.capacity && Granted([Grant(n)]) == n && Granted([Refill(now)]) == 0;
  }

  // ----- When a request is served -----

  lemma {:induction false} RefillsNeverExceed(b: Bucket, clock: seq<real>)
    requires clock != []
    ensures var b' := Exec(b, Refills(clock));
            b'.tokens <= b.capacity as real && b'.capacity == b.capacity && b'.rate == b.rate
            && b'.lastRefill == clock[|clock| - 1]
  {
    var n := |clock| - 1;
    var r := Refills(clock[..n]);
    assert (r + [Refill(clock[n])])[..|r|] == r;
    if n > 0 {
      RefillsNeverExceed(b, clock[..n]);
    } else {
      assert r == [];
    }
  }

  /** A request above the capacity is never served, whatever the clock does. */
  lemma {:induction false} OversizedNeverServed(b: Bucket, n: int, clock: seq<real>, k: nat)
    requires n > b.capacity && 1 <= k <= |clock|
    ensures !Ready(b, clock, k, n)
  {
    RefillsNeverExceed(b, clock[..k]);
  }

  /** If sleeps last as long as asked, a request within the capacity is served at the second clock reading
      at the latest: the waiting loop runs at most once. */
  lemma {:induction false} ServedAfterOneSleep(b: Bucket, n: int, clock: seq<real>)
    requires n <= b.capacity && |clock| >= 2
    requires SleepsEnough(b, clock, n)
    ensures Ready(b, clock, 2, n)
  {
    var m := BucketAt(b, clock, 1);
    assert SleptEnough(m, n, clock[1]);
    RefillsNeverExceed(b, clock[..1]);
    EnoughAfterSleep(m, n, clock[1]);
    RefillsSnoc(b, clock, 1);
  }

  lemma {:induction false} EnoughAfterSleep(m: Bucket, n: int, now: real)
    requires n <= m.capacity && SleptEnough(m, n, now)
    ensures Apply(m, Refill(now)).tokens >= n as real
  {
  }

  // ----- Acquires make legal runs -----

  ghost predicate Forward(b: Bucket, clock: seq<real>) {
    && (clock != [] ==> b.lastRefill <= clock[0])
    && (forall i, j :: 0 <= i < j < |clock| ==> clock[i] <= clock[j])
  }

  lemma {:induction false} RefillsLegal(b: Bucket, clock: seq<real>)
    requires Forward(b, clock)
    ensures LegalRun(b, Refills(clock))
  {
    if clock == [] {
    } else {
      var n := |clock| - 1;
      var r := Refills(clock[..n]);
      RefillsLegal(b, clock[..n]);
      assert (r + [Refill(clock[n])])[..|r|] == r;
      if n > 0 {
        RefillsNeverExceed(b, clock[..n]);
      } else {
        assert r == [];
      }
    }
  }

  lemma {:induction false} AttemptGrants(clock: seq<real>, k: nat, n: nat, acquired: bool)
    requires k <= |clock|
    ensures Granted(Attempt(clock, k, n, acquired)) == if acquired then n else 0
  {
    var r := Refills(clock[..k]);
    NothingGranted(clock[..k]);
    if acquired {
      assert (r + [Grant(n)])[..|r|] == r;
    } else {
      assert r + [] == r;
    }
  }

  /** Whatever one acquire of a non-negative request does on a clock that does not go back is a legal run. */
  lemma {:induction false} AcquireIsLegal(b: Bucket, clock: seq<real>, k: nat, n: nat, acquired: bool)
    requires Forward(b, clock) && k <= |clock|
    requires acquired ==> Ready(b, clock, k, n)
    ensures LegalRun(b, Attempt(clock, k, n, acquired))
    ensures Granted(Attempt(clock, k, n, acquired)) == if acquired then n else 0
  {
    var r := Refills(clock[..k]);
    RefillsLegal(b, clock[..k]);
    AttemptGrants(clock, k, n, acquired);
    if acquired {
      assert (r + [Grant(n)])[..|r|] == r;
    } else {
      assert r + [] == r;
    }
  }

  lemma {:induction false} NothingGranted(clock: seq<real>)
    ensures Granted(Refills(clock)) == 0
  {
    if clock == [] {
    } else {
      var r := Refills(clock[..|clock| - 1]);
      NothingGranted(clock[..|clock| - 1]);
      assert (r + [Refill(clock[|clock| - 1])])[..|r|] == r;
    }
  }

  /** One acquire: the clock readings it consumed, its request, and whether it got it. */
  datatype Acquisition = Acquisition(clock: seq<real>, n: nat, acquired: bool) {
    function Steps(): seq<Step> {
      Attempt(clock, |clock|, n, acquired)
    }
  }

  /** What a sequence of acquires does to the bucket. */
  function StepsOf(acquires: seq<Acquisition>): seq<Step> {
    if acquires == [] then [] else StepsOf(acquires[..|acquires| - 1]) + acquires[|acquires| - 1].Steps()
  }

  /** The tokens handed to a sequence of acquires. */
  function Handed(acquires: seq<Acquisition>): nat {
    if acquires == [] then 0
    else
      var a := acquires[|acquires| - 1];
      Handed(acquires[..|acquires| - 1]) + if a.acquired then a.n else 0
  }

  /** The clock never goes back, and an acquire succeeds only when its last reading made the bucket ready. */
  ghost predicate Possible(b: Bucket, acquires: seq<Acquisition>) {
    acquires == [] ||
    var front, a := acquires[..|acquires| - 1], acquires[|acquires| - 1];
    && Possible(b, front)
    && Forward(Exec(b, StepsOf(front)), a.clock)
    && (a.acquired ==> Ready(Exec(b, StepsOf(front)), a.clock, |a.clock|, a.n))
  }

  lemma {:induction false} HandedIsGranted(b: Bucket, acquires: seq<Acquisition>)
    ensures Granted(StepsOf(acquires)) == Handed(acquires)
  {
    if acquires == [] {
    } else {
      var front, a := acquires[..|acquires| - 1], acquires[|acquires| - 1];
      HandedIsGranted(b, front);
      AttemptGrants(a.clock, |a.clock|, a.n, a.acquired);
      Split(b, StepsOf(front), a.Steps());
    }
  }

  /** Any sequence of acquires is a legal run, so the accounting and the window bound hold for it. */
  lemma {:induction false} AcquiresAreLegal(b: Bucket, acquires: seq<Acquisition>)
    requires Possible(b, acquires)
    ensures LegalRun(b, StepsOf(acquires)) && Granted(StepsOf(acquires)) == Handed(acquires)
  {
    if acquires == [] {
    } else {
      var front, a := acquires[..|acquires| - 1], acquires[|acquires| - 1];
      AcquiresAreLegal(b, front);
      HandedIsGranted(b, acquires);
      AcquireIsLegal(Exec(b, StepsOf(front)), a.clock, |a.clock|, a.n, a.acquired);
      Split(b, StepsOf(front), a.Steps());
    }
  }

  lemma {:induction false} StepsSnoc(acquires: seq<Acquisition>, a: Acquisition)
    ensures StepsOf(acquires + [a]) == StepsOf(acquires) + a.Steps()
  {
    assert (acquires + [a])[..|acquires|] == acquires;
  }

  lemma {:induction false} StepsConcat(a: seq<Acquisition>, c: seq<Acquisition>)
    ensures StepsOf(a + c) == StepsOf(a) + StepsOf(c)
  {
    if c == [] {
      assert a + c == a;
      assert StepsOf(a) + [] == StepsOf(a);
    } else {
      var front, last := c[..|c| - 1], c[|c| - 1];
      StepsConcat(a, front);
      assert c == front + [last];
      Associates(a, front, [last]);
      StepsSnoc(a + front, last);
      Associates(StepsOf(a), StepsOf(front), last.Steps());
    }
  }

  /** The legal run behind any stretch of acquires after any others. */
  lemma {:induction false} Stretch(b: Bucket, before: seq<Acquisition>, window: seq<Acquisition>)
    requires Possible(b, before + window)
    ensures StepsOf(before + window) == StepsOf(before) + StepsOf(window)
    ensures LegalRun(b, StepsOf(before) + StepsOf(window))
    ensures Granted(StepsOf(window)) == Handed(window)
  {
    StepsConcat(before, window);
    AcquiresAreLegal(b, before + window);
    HandedIsGranted(b, window);
  }

  /** The rate limit itself: any stretch of acquires, after any others, is handed at most the capacity plus the
      rate times the time from the last clock reading before the stretch to its own last reading. */
  lemma {:induction false} AcquiresAreLimited(b: Bucket, before: seq<Acquisition>, window: seq<Acquisition>)
    requires b.Valid() && Possible(b, before + window)
    ensures var from, to := Exec(b, StepsOf(before)).lastRefill, Exec(b, StepsOf(before + window)).lastRefill;
            Handed(window) as real <= b.capacity as real + Earned(b.rate, to - from)
  {
    Stretch(b, before, window);
    WindowBound(b, StepsOf(before), StepsOf(window));
  }

  /** The sleep an acquire asks for earns exactly the missing tokens. */
  lemma {:induction false} SleepEarnsMissing(rate: real, missing: real) returns (wait: real)
    requires rate != 0.0
    ensures wait == missing / rate && Earned(rate, wait) == missing
  {
    wait := missing / rate;
  }

  lemma {:induction false} SomeClockServes(b: Bucket, n: int) returns (clock: seq<real>)
    requires b.rate > 0.0 && n <= b.capacity
    ensures |clock| == 2 && Forward(b, clock) && Ready(b, clock, 2, n)
  {
    var t := b.lastRefill;
    var m := BucketAt(b, [t], 1);
    RefillsNeverExceed(b, [t]);
    assert [t][..1] == [t];
    var missing := if n as real > m.tokens then n as real - m.tokens else 0.0;
    var wait := SleepEarnsMissing(b.rate, missing);
    NoNegativeWait(missing, b.rate);
    clock := [t, t + wait];
    assert clock[..1] == [t];
    assert SleptEnough(m, n, clock[1]) by { assert clock[1] - m.lastRefill == wait; }
    ServedAfterOneSleep(b, n, clock);
  }

  lemma {:induction false} NoNegativeWait(missing: real, rate: real)
    requires missing >= 0.0 && rate > 0.0
    ensures missing / rate >= 0.0
  {
  }

  /** So a request can be served at all, by a clock that does not go back, exactly when it fits the capacity. */
  lemma {:induction false} ServableExactly(b: Bucket, n: int)
    requires b.rate > 0.0
    ensures (exists clock: seq<real>, k: nat :: 1 <= k <= |clock| && Forward(b, clock) && Ready(b, clock, k, n))
            <==> n <= b.capacity
  {
    forall clock: seq<real>, k: nat | 1 <= k <= |clock| && n > b.capacity
      ensures !Ready(b, clock, k, n)
    {
      OversizedNeverServed(b, n, clock, k);
    }
    if n <= b.capacity {
      var clock := SomeClockServes(b, n);
    }
  }
}
