/** The kill switch: block, cancel everywhere, close every recorded position, report. */
module KillSwitch {
  import opened Positions
  import opened Redis
  import opened Sequences
  import OrderProtocol
  import OrderQueue

  /** One visible action, in the order in which it happens. */
  datatype Call =
    | SetFlag
    | CancelAll(name: string, ok: bool)
    | Close(market: string, symbol: string, side: string, qty: real, ok: bool)

  datatype KillError = CancelFailed(name: string) | CloseFailed(symbol: string)

  datatype KillResult = KillResult(success: bool, closed: seq<string>, errors: seq<KillError>)

  function CloseSide(side: string): string {
    if side == "buy" then "sell" else "buy"
  }

  // ----- The trace -----

  function Cancels(names: seq<string>, fails: seq<bool>): seq<Call>
    requires |fails| == |names|
  {
    if names == [] then []
    else
      var n := |names| - 1;
      Cancels(names[..n], fails[..n]) + [CancelAll(names[n], !fails[n])]
  }

  function CloseCall(p: Position, fails: bool): Call {
    Close(p.market, p.symbol, CloseSide(p.side), p.qty, !fails)
  }

  /** A position whose market has no connector produces no call. */
  function Closes(names: seq<string>, positions: seq<Position>, fails: seq<bool>): seq<Call>
    requires |fails| == |positions|
  {
    if positions == [] then []
    else
      var n := |positions| - 1;
      var front := Closes(names, positions[..n], fails[..n]);
      if positions[n].market in names then front + [CloseCall(positions[n], fails[n])] else front
  }

  function Trace(names: seq<string>, positions: seq<Position>, cancelFails: seq<bool>, closeFails: seq<bool>): seq<Call>
    requires |cancelFails| == |names| && |closeFails| == |positions|
  {
    [SetFlag] + Cancels(names, cancelFails) + Closes(names, positions, closeFails)
  }

  predicate Done(c: Call) {
    c.Close? && c.ok
  }

  predicate Failed(c: Call) {
    (c.CancelAll? || c.Close?) && !c.ok
  }

  function ErrorOf(c: Call): KillError
    requires Failed(c)
  {
    if c.CancelAll? then CancelFailed(c.name) else CloseFailed(c.symbol)
  }

  /** The symbols of the accepted closing orders. */
  function Closed(calls: seq<Call>): seq<string> {
    if calls == [] then []
    else
      var front, c := Closed(calls[..|calls| - 1]), calls[|calls| - 1];
      if Done(c) then front + [c.symbol] else front
  }

  function Errors(calls: seq<Call>): seq<KillError> {
    if calls == [] then []
    else
      var front, c := Errors(calls[..|calls| - 1]), calls[|calls| - 1];
      if Failed(c) then front + [ErrorOf(c)] else front
  }

  lemma {:induction false} ReportSnoc(calls: seq<Call>, c: Call)
    ensures Closed(calls + [c]) == if Done(c) then Closed(calls) + [c.symbol] else Closed(calls)
    ensures Errors(calls + [c]) == if Failed(c) then Errors(calls) + [ErrorOf(c)] else Errors(calls)
  {
    SnocFront(calls, c);
  }

  lemma {:induction false} NextCancel(names: seq<string>, fails: seq<bool>, i: nat)
    requires |fails| == |names| && i < |names|
    ensures [SetFlag] + Cancels(names[..i + 1], fails[..i + 1])
            == ([SetFlag] + Cancels(names[..i], fails[..i])) + [CancelAll(names[i], !fails[i])]
  {
    PrefixSnoc(names, i);
    PrefixSnoc(fails, i);
    Associates([SetFlag], Cancels(names[..i], fails[..i]), [CancelAll(names[i], !fails[i])]);
  }

  lemma {:induction false} NextClose(names: seq<string>, positions: seq<Position>, fails: seq<bool>, i: nat, before: seq<Call>)
    requires |fails| == |positions| && i < |positions|
    ensures before + Closes(names, positions[..i + 1], fails[..i + 1])
            == var soFar := before + Closes(names, positions[..i], fails[..i]);
               if positions[i].market in names then soFar + [CloseCall(positions[i], fails[i])] else soFar
  {
    PrefixSnoc(positions, i);
    PrefixSnoc(fails, i);
    Associates(before, Closes(names, positions[..i], fails[..i]), [CloseCall(positions[i], fails[i])]);
  }

  /** `execute` is cut where its cancellations are through: other coroutines run during them and may change
      the records, so the second part lists whatever the tracker holds when it starts. */
  class Switch {
    const redis: Server
    const tracker: OrderQueue.PositionTracker
    const names: seq<string>  // the exchanges dictionary, in iteration order

    constructor (redis: Server, tracker: OrderQueue.PositionTracker, names: seq<string>)
      requires tracker.redis == redis
      requires forall i, j :: 0 <= i < j < |names| ==> names[i] != names[j]
      ensures this.redis == redis && this.tracker == tracker && this.names == names
    {
      this.redis, this.tracker, this.names := redis, tracker, names;
    }

    /** The flag and the cancellations; `cancelFails` says which calls raise. For any queue on the same server
        this is its KillFlag step. */
    method BlockAndCancel(cancelFails: seq<bool>, ghost queue: OrderQueue.Queue)
      returns (errors: seq<KillError>, trace: seq<Call>)
      requires |cancelFails| == |names| && queue.redis == redis
      modifies redis`killed
      ensures queue.State() == OrderProtocol.Next(queue.cfg, old(queue.State()), OrderProtocol.KillFlag)
      ensures trace == [SetFlag] + Cancels(names, cancelFails)
      ensures errors == Errors(trace) && Closed(trace) == []
    {
      redis.killed := true;
      assert queue.State() == old(queue.State()).(killed := true);
      errors, trace := CancelEach(cancelFails);
    }

    method CancelEach(cancelFails: seq<bool>) returns (errors: seq<KillError>, trace: seq<Call>)
      requires |cancelFails| == |names|
      ensures trace == [SetFlag] + Cancels(names, cancelFails)
      ensures errors == Errors(trace) && Closed(trace) == []
    {
      trace, errors := [SetFlag], [];
      for i := 0 to |names|
        invariant trace == [SetFlag] + Cancels(names[..i], cancelFails[..i])
        invariant errors == Errors(trace) && Closed(trace) == []
      {
        NextCancel(names, cancelFails, i);
        var call := CancelAll(names[i], !cancelFails[i]);
        if cancelFails[i] {
          errors := errors + [CancelFailed(names[i])];
        }
        ReportSnoc(trace, call);
        trace := trace + [call];
      }
      assert names[..|names|] == names && cancelFails[..|names|] == cancelFails;
    }

    /** List the records, close each position that has a connector, report. */
    method CloseRecorded(keys: seq<string>, closeFails: seq<bool>, ghost cancelFails: seq<bool>,
                         cancelErrors: seq<KillError>, before: seq<Call>)
      returns (result: KillResult, trace: seq<Call>)
      requires Enumerates(tracker.redis.positions, keys) && |closeFails| == |keys| && |cancelFails| == |names|
      requires before == [SetFlag] + Cancels(names, cancelFails)
      requires cancelErrors == Errors(before) && Closed(before) == []
      ensures |Listed(tracker.redis.positions, keys)| == |keys|
      ensures trace == Trace(names, Listed(tracker.redis.positions, keys), cancelFails, closeFails)
      ensures result == KillResult(Errors(trace) == [], Closed(trace), Errors(trace))
    {
      ListedAt(tracker.redis.positions, keys);
      var positions := tracker.GetAll(keys);
      var errors, closed;
      errors, closed, trace := CloseEach(positions, closeFails, cancelErrors, before);
      result := KillResult(|errors| == 0, closed, errors);
    }

    /** One market order on the other side for every position that has a connector. */
    method CloseEach(positions: seq<Position>, closeFails: seq<bool>, cancelErrors: seq<KillError>, before: seq<Call>)
      returns (errors: seq<KillError>, closed: seq<string>, trace: seq<Call>)
      requires |closeFails| == |positions| && cancelErrors == Errors(before) && Closed(before) == []
      ensures trace == before + Closes(names, positions, closeFails)
      ensures errors == Errors(trace) && closed == Closed(trace)
    {
      errors, closed, trace := cancelErrors, [], before;
      for i := 0 to |positions|
        invariant trace == before + Closes(names, positions[..i], closeFails[..i])
        invariant errors == Errors(trace) && closed == Closed(trace)
      {
        NextClose(names, positions, closeFails, i, before);
        var p := positions[i];
        if p.market in names {
          var call := CloseCall(p, closeFails[i]);
          if closeFails[i] {
            errors := errors + [CloseFailed(p.symbol)];
          } else {
            closed := closed + [p.symbol];
          }
          ReportSnoc(trace, call);
          trace := trace + [call];
        }
      }
      assert positions[..|positions|] == positions && closeFails[..|positions|] == closeFails;
    }

    /** The whole of `execute`. While the cancellations are awaited the other coroutines may do anything to the
        records; `meanwhile` is what they leave. */
    method Execute(keys: seq<string>, cancelFails: seq<bool>, closeFails: seq<bool>,
                   meanwhile: Store, ghost queue: OrderQueue.Queue)
      returns (result: KillResult, trace: seq<Call>)
      requires tracker.redis == redis && queue.redis == redis
      requires Enumerates(meanwhile, keys) && |cancelFails| == |names| && |closeFails| == |keys|
      modifies redis`killed, redis`positions
      ensures queue.State() == OrderProtocol.Next(queue.cfg, old(queue.State()), OrderProtocol.KillFlag)
      ensures redis.positions == meanwhile && |Listed(meanwhile, keys)| == |keys|
      ensures trace == Trace(names, Listed(meanwhile, keys), cancelFails, closeFails)
      ensures result == KillResult(Errors(trace) == [], Closed(trace), Errors(trace))
    {
      var errors, before := BlockAndCancel(cancelFails, queue);
      redis.positions := meanwhile;
      result, trace := CloseRecorded(keys, closeFails, cancelFails, errors, before);
    }
  }

  // ----- Order and accounting -----

  lemma {:induction false} CancelsAt(names: seq<string>, fails: seq<bool>)
    requires |fails| == |names|
    ensures |Cancels(names, fails)| == |names|
    ensures forall i :: 0 <= i < |names| ==> Cancels(names, fails)[i] == CancelAll(names[i], !fails[i])
  {
    if names == [] {
    } else {
      var n := |names| - 1;
      CancelsAt(names[..n], fails[..n]);
    }
  }

  datatype Attempt = Attempt(position: Position, fails: bool)

  /** The recorded positions that have a connector, with the fate of their closing order. */
  function Attempts(names: seq<string>, positions: seq<Position>, fails: seq<bool>): seq<Attempt>
    requires |fails| == |positions|
  {
    if positions == [] then []
    else
      var n := |positions| - 1;
      var front := Attempts(names, positions[..n], fails[..n]);
      if positions[n].market in names then front + [Attempt(positions[n], fails[n])] else front
  }

  ghost predicate Opposes(c: Call, a: Attempt) {
    var p := a.position;
    && c.Close? && c.ok == !a.fails
    && c.market == p.market && c.symbol == p.symbol && c.qty == p.qty
    && c.side == (if p.side == "buy" then "sell" else "buy")
    && Signed(c.side, c.qty) == -Signed(p.side, p.qty)
  }

  lemma {:induction false} ClosesAt(names: seq<string>, positions: seq<Position>, fails: seq<bool>)
    requires |fails| == |positions|
    ensures var cs, ps := Closes(names, positions, fails), Attempts(names, positions, fails);
            |cs| == |ps| && forall i :: 0 <= i < |cs| ==> Opposes(cs[i], ps[i])
  {
    if positions == [] {
    } else {
      var n := |positions| - 1;
      ClosesAt(names, positions[..n], fails[..n]);
    }
  }

  /** For every pattern of failures the flag is written first, then each connector gets its one cancel_all,
      and only then does each position with a connector get one order of the same size on the other side. */
  lemma {:induction false} TraceOrder(names: seq<string>, positions: seq<Position>, cancelFails: seq<bool>, closeFails: seq<bool>)
    requires |cancelFails| == |names| && |closeFails| == |positions|
    ensures var t, ps := Trace(names, positions, cancelFails, closeFails), Attempts(names, positions, closeFails);
            && |t| == 1 + |names| + |ps| && t[0] == SetFlag
            && (forall i :: 0 <= i < |names| ==> t[1 + i] == CancelAll(names[i], !cancelFails[i]))
            && (forall i :: 0 <= i < |ps| ==> Opposes(t[1 + |names| + i], ps[i]))
  {
    CancelsInTrace(names, cancelFails, Closes(names, positions, closeFails));
    ClosesInTrace(names, positions, closeFails, [SetFlag] + Cancels(names, cancelFails));
  }

  lemma {:induction false} CancelsInTrace(names: seq<string>, fails: seq<bool>, rest: seq<Call>)
    requires |fails| == |names|
    ensures |Cancels(names, fails)| == |names|
    ensures var t := [SetFlag] + Cancels(names, fails) + rest;
            t[0] == SetFlag && forall i :: 0 <= i < |names| ==> t[1 + i] == CancelAll(names[i], !fails[i])
  {
    CancelsAt(names, fails);
    Sections(SetFlag, Cancels(names, fails), rest);
  }

  lemma {:induction false} ClosesInTrace(names: seq<string>, positions: seq<Position>, fails: seq<bool>, before: seq<Call>)
    requires |fails| == |positions|
    ensures var t, ps := before + Closes(names, positions, fails), Attempts(names, positions, fails);
            |t| == |before| + |ps| && forall i :: 0 <= i < |ps| ==> Opposes(t[|before| + i], ps[i])
  {
    ClosesAt(names, positions, fails);
  }

  /** The symbols of the attempts that go through, in order. */
  function Taken(attempts: seq<Attempt>): seq<string> {
    if attempts == [] then []
    else
      var front, a := Taken(attempts[..|attempts| - 1]), attempts[|attempts| - 1];
      if a.fails then front else front + [a.position.symbol]
  }

  /** One error for each attempt that raises, in order. */
  function Refused(attempts: seq<Attempt>): seq<KillError> {
    if attempts == [] then []
    else
      var front, a := Refused(attempts[..|attempts| - 1]), attempts[|attempts| - 1];
      if a.fails then front + [CloseFailed(a.position.symbol)] else front
  }

  /** One error for each connector whose cancellation raises, in order. */
  function Uncancelled(names: seq<string>, fails: seq<bool>): seq<KillError>
    requires |fails| == |names|
  {
    if names == [] then []
    else
      var n := |names| - 1;
      var front := Uncancelled(names[..n], fails[..n]);
      if fails[n] then front + [CancelFailed(names[n])] else front
  }

  lemma {:induction false} AttemptSnoc(attempts: seq<Attempt>, a: Attempt)
    ensures Taken(attempts + [a]) == if a.fails then Taken(attempts) else Taken(attempts) + [a.position.symbol]
    ensures Refused(attempts + [a])
            == if a.fails then Refused(attempts) + [CloseFailed(a.position.symbol)] else Refused(attempts)
  {
    SnocFront(attempts, a);
  }

  lemma {:induction false} CloseReport(names: seq<string>, positions: seq<Position>, fails: seq<bool>)
    requires |fails| == |positions|
    ensures Closed(Closes(names, positions, fails)) == Taken(Attempts(names, positions, fails))
    ensures Errors(Closes(names, positions, fails)) == Refused(Attempts(names, positions, fails))
  {
    if positions == [] {
    } else {
      var n := |positions| - 1;
      CloseReport(names, positions[..n], fails[..n]);
      if positions[n].market in names {
        ReportSnoc(Closes(names, positions[..n], fails[..n]), CloseCall(positions[n], fails[n]));
        AttemptSnoc(Attempts(names, positions[..n], fails[..n]), Attempt(positions[n], fails[n]));
      }
    }
  }

  lemma {:induction false} TakenOrRefused(attempts: seq<Attempt>)
    ensures |Taken(attempts)| + |Refused(attempts)| == |attempts|
    ensures Refused(attempts) == [] <==> forall i :: 0 <= i < |attempts| ==> !attempts[i].fails
  {
    if attempts == [] {
    } else {
      TakenOrRefused(attempts[..|attempts| - 1]);
    }
  }

  lemma {:induction false} ReportConcat(a: seq<Call>, b: seq<Call>)
    ensures Closed(a + b) == Closed(a) + Closed(b)
    ensures Errors(a + b) == Errors(a) + Errors(b)
  {
    if b == [] {
      assert a + b == a;
    } else {
      var front, last := b[..|b| - 1], b[|b| - 1];
      ReportConcat(a, front);
      FrontLast(b);
      Associates(a, front, [last]);
      ReportSnoc(a + front, last);
      if Done(last) {
        Associates(Closed(a), Closed(front), [last.symbol]);
      }
      if Failed(last) {
        Associates(Errors(a), Errors(front), [ErrorOf(last)]);
      }
    }
  }

  lemma {:induction false} FlagReport(a: seq<Call>)
    ensures Closed([SetFlag] + a) == Closed(a) && Errors([SetFlag] + a) == Errors(a)
  {
    ReportConcat([SetFlag], a);
    NothingBefore(Closed(a));
    NothingBefore(Errors(a));
  }

  lemma {:induction false} TraceReport(a: seq<Call>, b: seq<Call>)
    ensures Closed([SetFlag] + a + b) == Closed(a) + Closed(b)
    ensures Errors([SetFlag] + a + b) == Errors(a) + Errors(b)
  {
    ReportConcat([SetFlag] + a, b);
    FlagReport(a);
  }

  lemma {:induction false} CancelReport(names: seq<string>, fails: seq<bool>)
    requires |fails| == |names|
    ensures Closed(Cancels(names, fails)) == []
    ensures Errors(Cancels(names, fails)) == Uncancelled(names, fails)
  {
    if names == [] {
    } else {
      var n := |names| - 1;
      CancelReport(names[..n], fails[..n]);
      ReportSnoc(Cancels(names[..n], fails[..n]), CancelAll(names[n], !fails[n]));
    }
  }

  lemma {:induction false} AllCancelled(names: seq<string>, fails: seq<bool>)
    requires |fails| == |names|
    ensures Uncancelled(names, fails) == [] <==> forall i :: 0 <= i < |fails| ==> !fails[i]
  {
    if names == [] {
    } else {
      AllCancelled(names[..|names| - 1], fails[..|names| - 1]);
    }
  }

  /** The report: `closed` holds the symbol of every attempt that went through, `errors` the failed
      cancellations and then every attempt that raised, each in order; so every position with a connector
      ends in exactly one of the two lists, and there is nothing else in them. */
  lemma {:induction false} ClosedOrError(names: seq<string>, positions: seq<Position>, cancelFails: seq<bool>, closeFails: seq<bool>)
    requires |cancelFails| == |names| && |closeFails| == |positions|
    ensures var t, attempts := Trace(names, positions, cancelFails, closeFails), Attempts(names, positions, closeFails);
            && Closed(t) == Taken(attempts)
            && Errors(t) == Uncancelled(names, cancelFails) + Refused(attempts)
            && |Taken(attempts)| + |Refused(attempts)| == |attempts|
            && (Errors(t) == [] <==> (forall i :: 0 <= i < |cancelFails| ==> !cancelFails[i])
                                     && (forall i :: 0 <= i < |attempts| ==> !attempts[i].fails))
  {
    var a, b := Cancels(names, cancelFails), Closes(names, positions, closeFails);
    TraceReport(a, b);
    CancelReport(names, cancelFails);
    AllCancelled(names, cancelFails);
    CloseReport(names, positions, closeFails);
    NothingBefore(Taken(Attempts(names, positions, closeFails)));
    TakenOrRefused(Attempts(names, positions, closeFails));
  }

  /** The indices of the recorded positions that have a connector. */
  function Connected(names: seq<string>, positions: seq<Position>): (indices: seq<nat>)
    ensures forall k :: 0 <= k < |indices| ==> indices[k] < |positions|
  {
    if positions == [] then []
    else
      var n := |positions| - 1;
      var front := Connected(names, positions[..n]);
      if positions[n].market in names then front + [n] else front
  }

  lemma {:induction false} ConnectedExactly(names: seq<string>, positions: seq<Position>, i: nat)
    ensures i in Connected(names, positions) <==> i < |positions| && positions[i].market in names
    ensures var indices := Connected(names, positions);
            forall k, l :: 0 <= k < l < |indices| ==> indices[k] < indices[l]
  {
    if positions == [] {
    } else {
      ConnectedExactly(names, positions[..|positions| - 1], i);
    }
  }

  /** An attempt is made for exactly the positions that have a connector, in the order of the records. */
  lemma {:induction false} AttemptsExactly(names: seq<string>, positions: seq<Position>, fails: seq<bool>)
    requires |fails| == |positions|
    ensures var attempts, indices := Attempts(names, positions, fails), Connected(names, positions);
            |attempts| == |indices| && forall k :: 0 <= k < |attempts| ==>
              attempts[k] == Attempt(positions[indices[k]], fails[indices[k]])
  {
    if positions == [] {
    } else {
      AttemptsExactly(names, positions[..|positions| - 1], fails[..|positions| - 1]);
    }
  }

  lemma {:induction false} TakenExactly(attempts: seq<Attempt>, symbol: string)
    ensures symbol in Taken(attempts) <==> exists k :: 0 <= k < |attempts| && !attempts[k].fails && attempts[k].position.symbol == symbol
    ensures CloseFailed(symbol) in Refused(attempts) <==>
            exists k :: 0 <= k < |attempts| && attempts[k].fails && attempts[k].position.symbol == symbol
    ensures forall e :: e in Refused(attempts) ==> e.CloseFailed?
  {
    if attempts == [] {
    } else {
      var n := |attempts| - 1;
      TakenExactly(attempts[..n], symbol);
      assert forall k :: 0 <= k < n ==> attempts[..n][k] == attempts[k];
    }
  }

  lemma {:induction false} UncancelledExactly(names: seq<string>, fails: seq<bool>, name: string)
    requires |fails| == |names|
    ensures CancelFailed(name) in Uncancelled(names, fails) <==> exists i :: 0 <= i < |names| && fails[i] && names[i] == name
    ensures forall e :: e in Uncancelled(names, fails) ==> e.CancelFailed?
  {
    if names == [] {
    } else {
      var n := |names| - 1;
      UncancelledExactly(names[..n], fails[..n], name);
      assert forall i :: 0 <= i < n ==> names[..n][i] == names[i] && fails[..n][i] == fails[i];
    }
  }

  /** What the report tells about one symbol or one connector: the symbol is listed as closed exactly when some
      recorded position of it on a connected market was closed, as an error exactly when closing one raised, and the
      connector exactly when its cancellation raised. */
  lemma {:induction false} ReportTells(names: seq<string>, positions: seq<Position>, cancelFails: seq<bool>, closeFails: seq<bool>,
                                       symbol: string, name: string)
    requires |cancelFails| == |names| && |closeFails| == |positions|
    ensures var t := Trace(names, positions, cancelFails, closeFails);
            && (symbol in Closed(t) <==>
                  exists i :: 0 <= i < |positions| && positions[i].market in names && !closeFails[i] && positions[i].symbol == symbol)
            && (CloseFailed(symbol) in Errors(t) <==>
                  exists i :: 0 <= i < |positions| && positions[i].market in names && closeFails[i] && positions[i].symbol == symbol)
            && (CancelFailed(name) in Errors(t) <==> exists i :: 0 <= i < |names| && cancelFails[i] && names[i] == name)
  {
    var attempts := Attempts(names, positions, closeFails);
    ClosedOrError(names, positions, cancelFails, closeFails);
    UncancelledExactly(names, cancelFails, name);
    TakenExactly(attempts, symbol);
    AttemptOf(names, positions, closeFails, symbol, true);
    AttemptOf(names, positions, closeFails, symbol, false);
  }

  lemma {:induction false} AttemptOf(names: seq<string>, positions: seq<Position>, fails: seq<bool>, symbol: string, failed: bool)
    requires |fails| == |positions|
    ensures var attempts := Attempts(names, positions, fails);
            (exists k :: 0 <= k < |attempts| && attempts[k].fails == failed && attempts[k].position.symbol == symbol) <==>
            (exists i :: 0 <= i < |positions| && positions[i].market in names && fails[i] == failed && positions[i].symbol == symbol)
  {
    var attempts, indices := Attempts(names, positions, fails), Connected(names, positions);
    AttemptsExactly(names, positions, fails);
    forall i: nat | i < |positions| && positions[i].market in names
      ensures exists k :: 0 <= k < |indices| && indices[k] == i
    {
      ConnectedExactly(names, positions, i);
    }
    forall k | 0 <= k < |indices|
      ensures positions[indices[k]].market in names
    {
      ConnectedExactly(names, positions, indices[k]);
    }
  }

  // ----- Flattening -----

  function Signed(side: string, qty: real): real {
    if side == "buy" then qty else -qty
  }

  /** What the accepted closing orders add to a (market, symbol). */
  function Accepted(calls: seq<Call>, market: string, symbol: string): real {
    if calls == [] then 0.0
    else
      var c := calls[|calls| - 1];
      Accepted(calls[..|calls| - 1], market, symbol)
      + if c.Close? && c.ok && c.market == market && c.symbol == symbol then Signed(c.side, c.qty) else 0.0
  }

  function Exposure(positions: seq<Position>, market: string, symbol: string): real {
    if positions == [] then 0.0
    else
      var p := positions[|positions| - 1];
      Exposure(positions[..|positions| - 1], market, symbol)
      + if p.market == market && p.symbol == symbol then Signed(p.side, p.qty) else 0.0
  }

  lemma {:induction false} AcceptedConcat(a: seq<Call>, b: seq<Call>, market: string, symbol: string)
    ensures Accepted(a + b, market, symbol) == Accepted(a, market, symbol) + Accepted(b, market, symbol)
  {
    if b == [] {
      assert a + b == a;
    } else {
      var n := |b| - 1;
      AcceptedConcat(a, b[..n], market, symbol);
      assert (a + b)[..|a + b| - 1] == a + b[..n];
    }
  }

  lemma {:induction false} NoCloseNoChange(calls: seq<Call>, market: string, symbol: string)
    requires forall c :: c in calls ==> !c.Close?
    ensures Accepted(calls, market, symbol) == 0.0
  {
    if calls == [] {
    } else {
      NoCloseNoChange(calls[..|calls| - 1], market, symbol);
    }
  }

  lemma {:induction false} ClosesCancelExposure(names: seq<string>, positions: seq<Position>, fails: seq<bool>,
                                                market: string, symbol: string)
    requires |fails| == |positions|
    requires Errors(Closes(names, positions, fails)) == []
    ensures Accepted(Closes(names, positions, fails), market, symbol)
            == if market in names then -Exposure(positions, market, symbol) else 0.0
  {
    if positions == [] {
    } else {
      var n := |positions| - 1;
      var front, p := Closes(names, positions[..n], fails[..n]), positions[n];
      if p.market in names {
        var c := Close(p.market, p.symbol, CloseSide(p.side), p.qty, !fails[n]);
        assert (front + [c])[..|front|] == front;
      }
      ClosesCancelExposure(names, positions[..n], fails[..n], market, symbol);
    }
  }

  /** What a successful execution leaves open: nothing where there is a connector, everything elsewhere. */
  lemma {:induction false} SuccessfulRun(names: seq<string>, positions: seq<Position>, cancelFails: seq<bool>, closeFails: seq<bool>,
                      market: string, symbol: string)
    requires |cancelFails| == |names| && |closeFails| == |positions|
    requires Errors(Trace(names, positions, cancelFails, closeFails)) == []
    ensures Accepted(Trace(names, positions, cancelFails, closeFails), market, symbol)
            == if market in names then -Exposure(positions, market, symbol) else 0.0
  {
    var a, b := [SetFlag] + Cancels(names, cancelFails), Closes(names, positions, closeFails);
    ReportConcat(a, b);
    AcceptedConcat(a, b, market, symbol);
    CancelsAt(names, cancelFails);
    NoCloseNoChange(a, market, symbol);
    ClosesCancelExposure(names, positions, closeFails, market, symbol);
  }

  lemma {:induction false} AllGoesWell(names: seq<string>, positions: seq<Position>, fails: seq<bool>)
    requires |fails| == |positions| && forall i :: 0 <= i < |fails| ==> !fails[i]
    ensures forall i :: 0 <= i < |Attempts(names, positions, fails)| ==> !Attempts(names, positions, fails)[i].fails
  {
    if positions == [] {
    } else {
      AllGoesWell(names, positions[..|positions| - 1], fails[..|positions| - 1]);
    }
  }

  ghost predicate Flat(calls: seq<Call>, positions: seq<Position>) {
    forall m, s :: Accepted(calls, m, s) + Exposure(positions, m, s) == 0.0
  }

  /** Whatever fails, an execution that reports success has cancelled the recorded exposure. */
  ghost predicate SuccessFlattens(names: seq<string>, positions: seq<Position>) {
    forall cancelFails: seq<bool>, closeFails: seq<bool> ::
      |cancelFails| == |names| && |closeFails| == |positions|
      && Errors(Trace(names, positions, cancelFails, closeFails)) == []
      ==> Flat(Trace(names, positions, cancelFails, closeFails), positions)
  }

  /** No exposure is recorded on a market without a connector. */
  ghost predicate Covered(names: seq<string>, positions: seq<Position>) {
    forall m, s :: m !in names ==> Exposure(positions, m, s) == 0.0
  }

  /** `success` means that the recorded exposure is gone exactly when no exposure is recorded on a market
      without a connector: such positions are skipped without an error. */
  lemma {:induction false} SuccessMeansFlatExactly(names: seq<string>, positions: seq<Position>)
    ensures SuccessFlattens(names, positions) <==> Covered(names, positions)
  {
    if Covered(names, positions) {
      forall cancelFails: seq<bool>, closeFails: seq<bool>, m, s |
        |cancelFails| == |names| && |closeFails| == |positions|
        && Errors(Trace(names, positions, cancelFails, closeFails)) == []
        ensures Accepted(Trace(names, positions, cancelFails, closeFails), m, s) + Exposure(positions, m, s) == 0.0
      {
        SuccessfulRun(names, positions, cancelFails, closeFails, m, s);
      }
    } else {
      var m, s :| m !in names && Exposure(positions, m, s) != 0.0;
      SkippedPosition(names, positions, m, s);
    }
  }

  lemma {:induction false} SkippedPosition(names: seq<string>, positions: seq<Position>, m: string, s: string)
    requires m !in names && Exposure(positions, m, s) != 0.0
    ensures !SuccessFlattens(names, positions)
  {
    var cancelFails, closeFails := seq(|names|, _ => false), seq(|positions|, _ => false);
    NoErrors(names, positions, cancelFails, closeFails);
    SuccessfulRun(names, positions, cancelFails, closeFails, m, s);
    assert !Flat(Trace(names, positions, cancelFails, closeFails), positions);
  }

  lemma {:induction false} NoErrors(names: seq<string>, positions: seq<Position>,
                                    cancelFails: seq<bool>, closeFails: seq<bool>)
    requires |cancelFails| == |names| && |closeFails| == |positions|
    requires forall i :: 0 <= i < |cancelFails| ==> !cancelFails[i]
    requires forall i :: 0 <= i < |closeFails| ==> !closeFails[i]
    ensures Errors(Trace(names, positions, cancelFails, closeFails)) == []
  {
    AllGoesWell(names, positions, closeFails);
    ClosedOrError(names, positions, cancelFails, closeFails);
  }

  /** On a snapshot of the tracker the exposure of a (market, symbol) is that of its one record. */
  lemma {:induction false} SnapshotExposure(store: Store, keys: seq<string>, market: string, symbol: string)
    requires Filed(store) && forall k :: k in keys ==> k in store
    requires forall i, j :: 0 <= i < j < |keys| ==> keys[i] != keys[j]
    ensures var key := PositionKey(market, symbol);
            Exposure(Listed(store, keys), market, symbol)
            == if key in keys && store[key].market == market && store[key].symbol == symbol
               then Signed(store[key].side, store[key].qty) else 0.0
  {
    if keys == [] {
    } else {
      var n := |keys| - 1;
      SnapshotExposure(store, keys[..n], market, symbol);
      ExposureSnoc(Listed(store, keys[..n]), store[keys[n]], market, symbol);
    }
  }

  lemma {:induction false} ExposureSnoc(front: seq<Position>, p: Position, market: string, symbol: string)
    ensures Exposure(front + [p], market, symbol) == Exposure(front, market, symbol)
            + if p.market == market && p.symbol == symbol then Signed(p.side, p.qty) else 0.0
  {
    assert (front + [p])[..|front|] == front;
  }

  lemma {:induction false} CoveredSnapshot(names: seq<string>, store: Store, keys: seq<string>)
    requires Filed(store) && Enumerates(store, keys)
    ensures Covered(names, Listed(store, keys))
            <==> (forall k :: k in store && store[k].qty != 0.0 ==> store[k].market in names)
  {
    var positions := Listed(store, keys);
    if forall k :: k in store && store[k].qty != 0.0 ==> store[k].market in names {
      forall m, s | m !in names
        ensures Exposure(positions, m, s) == 0.0
      {
        SnapshotExposure(store, keys, m, s);
      }
    } else {
      var k :| k in store && store[k].qty != 0.0 && store[k].market !in names;
      SnapshotExposure(store, keys, store[k].market, store[k].symbol);
      assert Exposure(positions, store[k].market, store[k].symbol) != 0.0;
    }
  }

  /** So a successful kill over what the tracker holds flattens the account exactly when every non-empty
      recorded position is on a connected market. */
  lemma {:induction false} KillFlattensExactly(names: seq<string>, store: Store, keys: seq<string>)
    requires Filed(store) && Enumerates(store, keys)
    ensures SuccessFlattens(names, Listed(store, keys))
            <==> (forall k :: k in store && store[k].qty != 0.0 ==> store[k].market in names)
  {
    SuccessMeansFlatExactly(names, Listed(store, keys));
    CoveredSnapshot(names, store, keys);
  }

  /** Executing does not clear the tracker, so a second successful execution over the same records does not
      find a flat account: it reverses every connected position. */
  lemma {:induction false} SecondKillReverses(names: seq<string>, positions: seq<Position>,
                           cancelFails: seq<bool>, closeFails: seq<bool>,
                           cancelFails': seq<bool>, closeFails': seq<bool>, market: string, symbol: string)
    requires |cancelFails| == |names| == |cancelFails'| && |closeFails| == |positions| == |closeFails'|
    requires Errors(Trace(names, positions, cancelFails, closeFails)) == []
    requires Errors(Trace(names, positions, cancelFails', closeFails')) == []
    requires market in names
    ensures Accepted(Trace(names, positions, cancelFails, closeFails)
                     + Trace(names, positions, cancelFails', closeFails'), market, symbol)
            + Exposure(positions, market, symbol) == -Exposure(positions, market, symbol)
  {
    SuccessfulRun(names, positions, cancelFails, closeFails, market, symbol);
    SuccessfulRun(names, positions, cancelFails', closeFails', market, symbol);
    AcceptedConcat(Trace(names, positions, cancelFails, closeFails),
                   Trace(names, positions, cancelFails', closeFails'), market, symbol);
  }
}
