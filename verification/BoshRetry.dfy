/** Failures and retries. */
module BoshRetry {
  // Retries and giving up, over every run of the client from `connect` on: each failed
  // request is sent again or scheduled to be, until the ninth failure in a row.

  import opened Options
  import opened BoshClient

  /** The event is a failure on an active connection: the transport failed, the status is
      bad, or the content is not a body. */
  predicate Fails(c: Conn, e: Event) {
    && c.active
    && match e
       case Error(_) => true
       case Response(status, answer, _) => status != 404 && ((status != 200 && status != 0) || answer.None?)
       case _ => false
  }

  /** The requests that scheduled retries will send. */
  function Scheduled(timers: seq<Timer>): multiset<Body> {
    if timers == [] then multiset{}
    else
      var n := |timers| - 1;
      Scheduled(timers[..n]) + if timers[n].Retry? then multiset{timers[n].request} else multiset{}
  }

  /** The failed requests of a run, each as often as it failed. */
  ghost function Failures(c: Conn, es: seq<Event>): multiset<Body>
    requires IsRun(c, es)
    decreases |es|
  {
    if es == [] then multiset{}
    else (if Fails(c, es[0]) then multiset{es[0].request} else multiset{}) + Failures(React(c, es[0]), es[1..])
  }

  /** How many failures there have been in a row, if there were `n` before the event: any
      response that is not a failure ends the row, a failure by its status or content starts
      a new one, and so does a call of `connect`. */
  function NextInRow(c: Conn, e: Event, n: nat): nat {
    match e
    case Error(_) => if c.active then n + 1 else n
    case Response(_, _, _) => if Fails(c, e) then 1 else 0
    case Call(a) => if a.ApiConnect? then 0 else n
    case Tick(_) => n
  }

  ghost function InRow(c: Conn, es: seq<Event>, n: nat): nat
    requires IsRun(c, es)
    decreases |es|
  {
    if es == [] then n else InRow(React(c, es[0]), es[1..], NextInRow(c, es[0], n))
  }

  // ---------------------------------------------------------------- what a run keeps

  /** Sent again or scheduled to be. */
  function Owed(c: Conn): multiset<Body> {
    multiset(c.past.retries) + Scheduled(c.timers)
  }

  /** From `c` to `d`, unless the history ended, nothing was added to what is owed and the
      counter of errors stayed at `n`. */
  ghost predicate Even(c: Conn, d: Conn, n: nat) {
    && d.stream.Some? && (c.past.ended ==> d.past.ended)
    && (d.past.ended || (Live(d) && Owed(d) == Owed(c) && d.errors == n))
  }

  /** Something was sent before the connection became inactive, so that a further call of
      `connect` ends this history. */
  ghost predicate Live(c: Conn) {
    !c.past.ended && (c.active || c.past.firsts != [])
  }

  lemma {:induction false} ScheduledTogether(a: seq<Timer>, b: seq<Timer>)
    ensures Scheduled(a + b) == Scheduled(a) + Scheduled(b)
    decreases |b|
  {
    if b == [] {
      assert a + b == a;
    } else {
      var n := |b| - 1;
      assert (a + b)[..|a + b| - 1] == a + b[..n];
      ScheduledTogether(a, b[..n]);
    }
  }

  lemma ScheduledOne(t: Timer)
    ensures Scheduled([t]) == if t.Retry? then multiset{t.request} else multiset{}
  {
    assert [t][..0] == [];
  }

  lemma ScheduledMiddle(a: seq<Timer>, t: Timer, b: seq<Timer>)
    ensures Scheduled(a + [t] + b) == Scheduled(a + b) + Scheduled([t])
  {
    ScheduledTogether(a + [t], b);
    ScheduledTogether(a, [t]);
    ScheduledTogether(a, b);
  }

  /** Taking out one timer takes out its request. */
  lemma ScheduledWithout(timers: seq<Timer>, i: nat)
    requires i < |timers|
    ensures Scheduled(timers) == Scheduled(TimersWithout(timers, i)) + Scheduled([timers[i]])
  {
    AroundTimer(timers, i);
    ScheduledMiddle(timers[..i], timers[i], timers[i + 1..]);
  }

  lemma AroundTimer(timers: seq<Timer>, i: nat)
    requires i < |timers|
    ensures timers == timers[..i] + [timers[i]] + timers[i + 1..]
    ensures TimersWithout(timers, i) == timers[..i] + timers[i + 1..]
  {
  }

  lemma {:induction false} NothingScheduled(timers: seq<Timer>)
    requires forall t :: t in timers ==> t.KeepAlive?
    ensures Scheduled(timers) == multiset{}
    decreases |timers|
  {
    if timers != [] {
      assert timers[|timers| - 1] in timers;
      NothingScheduled(timers[..|timers| - 1]);
    }
  }

  // ---------------------------------------------------------------- calls

  lemma DoEven(c: Conn, a: Api)
    requires c.stream.Some? && (c.past.ended || Live(c))
    ensures Even(c, Do(c, a), if a.ApiConnect? then 0 else c.errors)
  {
    if a.ApiConnect? {
      ConnectEven(c, a.rid);
    } else {
      SameOwed(c, a);
    }
  }

  /** Nothing owed or counted changes, and the connection stays as it is or the history ends. */
  ghost predicate SameBooks(c: Conn, d: Conn) {
    && d.past.retries == c.past.retries && d.timers == c.timers && d.errors == c.errors
    && (c.past.ended ==> d.past.ended) && (d.past.ended || d.active == c.active)
    && (c.past.firsts != [] ==> d.past.firsts != [])
  }

  lemma SendSameBooks(c: Conn, p: Stanza)
    requires c.stream.Some?
    ensures SameBooks(c, Send(c, p))
  {
  }

  lemma PauseSameBooks(c: Conn)
    requires c.stream.Some?
    ensures SameBooks(c, Pause(c))
  {
  }

  lemma DisconnectSameBooks(c: Conn)
    requires c.stream.Some?
    ensures SameBooks(c, Disconnect(c))
  {
  }

  lemma SameOwed(c: Conn, a: Api)
    requires c.stream.Some? && !a.ApiConnect?
    ensures SameBooks(c, Do(c, a))
  {
    match a
    case ApiSend(p) => SendSameBooks(c, p);
    case ApiRestart =>
    case ApiPause => PauseSameBooks(c);
    case ApiDisconnect => DisconnectSameBooks(c);
  }

  lemma ConnectEven(c: Conn, rid: int)
    requires c.stream.Some? && (c.past.ended || Live(c))
    ensures Even(c, Connect(c, rid), 0)
  {
  }

  lemma {:induction false} DoAllEven(c: Conn, calls: seq<Api>)
    requires c.stream.Some? && (c.past.ended || (Live(c) && c.errors == 0))
    ensures Even(c, DoAll(c, calls), 0)
    decreases |calls|
  {
    if calls != [] {
      DoEven(c, calls[0]);
      DoAllEven(Do(c, calls[0]), calls[1..]);
    }
  }

  lemma {:induction false} DispatchEven(c: Conn, stanzas: seq<seq<Api>>)
    requires c.stream.Some? && (c.past.ended || (Live(c) && c.errors == 0))
    ensures Even(c, Dispatch(c, stanzas), 0)
    decreases |stanzas|
  {
    if stanzas != [] {
      DoAllEven(c, stanzas[0]);
      DispatchEven(DoAll(c, stanzas[0]), stanzas[1..]);
    }
  }

  // ---------------------------------------------------------------- callbacks

  lemma EstablishedEven(c: Conn, a: Answer)
    requires c.stream.Some? && (c.past.ended || (Live(c) && c.errors == 0))
    ensures Even(c, Established(c, a), 0)
  {
    if c.stream.value.sid.None? {
      DoAllEven(c.(stream := Some(c.stream.value.(sid := a.sid))), a.onConnected);
    }
  }

  /** `Continue` schedules at most a keep-alive. */
  lemma ContinueEven(c: Conn)
    requires c.stream.Some? && (c.past.ended || (Live(c) && c.errors == 0))
    ensures Even(c, Continue(c), 0)
  {
    if Continue(c).timers != c.timers {
      ScheduledTogether(c.timers, [KeepAlive(c.stream.value.rid)]);
      ScheduledOne(KeepAlive(c.stream.value.rid));
    }
  }

  lemma HandleEven(c: Conn, a: Answer)
    requires c.stream.Some? && (c.past.ended || (Live(c) && c.errors == 0 && c.past.firsts != []))
    ensures Even(c, Handle(c, a), 0)
  {
    if !a.terminate {
      EstablishedEven(c, a);
      var c1 := Established(c, a).(collecting := true);
      DispatchEven(c1, a.stanzas);
      ContinueEven(Dispatch(c1, a.stanzas).(collecting := false));
    }
  }

  /** From `c` to `d` the request became owed, and is scheduled. */
  ghost predicate Owes(c: Conn, d: Conn, request: Body, n: nat) {
    && d.stream.Some? && Live(d) && d.errors == n
    && Owed(d) == Owed(c) + multiset{request} && Retry(request) in d.timers
  }

  /** From `c` to `d` one request went out, a terminating one, and the connection is inactive
      and without a sid. */
  predicate Farewell(c: Conn, d: Conn) {
    var n := |c.past.firsts|;
    && !d.active && d.stream.Some? && d.stream.value.sid.None? && d.body.None?
    && |d.past.firsts| == n + 1 && d.past.firsts[..n] == c.past.firsts && d.past.firsts[n].terminate
  }

  /** The ninth failure in a row ends the history with a terminating request. */
  ghost predicate GaveUp(c: Conn, d: Conn) {
    && d.past.ended && Farewell(c, d)
    && d.past.retries == c.past.retries && d.timers == c.timers
  }

  lemma ScheduledLater(timers: seq<Timer>, request: Body)
    ensures Scheduled(timers + [Retry(request)]) == Scheduled(timers) + multiset{request}
    ensures Retry(request) in timers + [Retry(request)]
  {
    ScheduledTogether(timers, [Retry(request)]);
    ScheduledOne(Retry(request));
    assert (timers + [Retry(request)])[|timers|] == Retry(request);
  }

  lemma FailedOwes(c: Conn, request: Body)
    requires c.stream.Some? && c.active && Live(c)
    ensures var d := Failed(c, request);
      if c.errors < 8 then Owes(c, d, request, c.errors + 1) else GaveUp(c, d)
  {
    if c.errors < 8 {
      ScheduledLater(c.timers, request);
    }
  }

  lemma ErrorOwes(c: Conn, request: Body)
    requires Possible(c, Error(request)) && Live(c)
    ensures var d := React(c, Error(request));
      if !c.active then Even(c, d, c.errors)
      else if c.errors < 8 then Owes(c, d, request, c.errors + 1) else GaveUp(c, d)
  {
    if c.active {
      FailedOwes(CalledBack(c, request), request);
    }
  }

  lemma ResponseOwes(c: Conn, e: Event)
    requires Possible(c, e) && e.Response? && Live(c) && c.past.firsts != []
    ensures if Fails(c, e) then Owes(c, React(c, e), e.request, 1) else Even(c, React(c, e), 0)
  {
    var c1 := Taken(c, e.request);
    if Fails(c, e) {
      FailedOwes(c1, e.request);
    } else if c.active && e.status != 404 {
      HandleEven(c1, e.answer.value);
    }
  }

  /** A scheduled retry that is sent moves from what is scheduled to what was sent again. */
  lemma TickOwes(c: Conn, i: nat)
    requires Possible(c, Tick(i)) && Live(c)
    ensures Even(c, React(c, Tick(i)), c.errors)
  {
    ScheduledWithout(c.timers, i);
    ScheduledOne(c.timers[i]);
    FireOwes(c.(timers := TimersWithout(c.timers, i)), c.timers[i]);
  }

  lemma FireOwes(c: Conn, t: Timer)
    requires c.stream.Some? && Live(c)
    ensures var d := Fire(c, t);
      && d.stream.Some? && Live(d) && d.errors == c.errors && d.timers == c.timers
      && d.past.retries == if t.Retry? then c.past.retries + [t.request] else c.past.retries
  {
  }

  /** What every event does to the failures: the counter of errors counts those in a row, and
      each failure makes its request owed unless it is the ninth. */
  lemma ReactOwes(c: Conn, e: Event)
    requires Possible(c, e) && Sound(c) && Live(c) && c.errors <= 8
    ensures var d := React(c, e); var n := NextInRow(c, e, c.errors);
      if !Fails(c, e) then Even(c, d, n)
      else if n < 9 then Owes(c, d, e.request, n) else n == 9 && GaveUp(c, d)
  {
    match e
    case Call(a) => DoEven(c, a);
    case Response(_, _, request) =>
      assert WentOut(c.past.firsts, c.past.taken, request);
      ResponseOwes(c, e);
    case Error(request) => ErrorOwes(c, request);
    case Tick(i) => TickOwes(c, i);
  }

  /** Whatever happens, a history that has ended stays ended. */
  lemma EndedStays(c: Conn, e: Event)
    requires Possible(c, e) && c.past.ended
    ensures React(c, e).past.ended
  {
    match e
    case Call(a) => DoEven(c, a);
    case Response(_, _, request) => EndedStaysAfter(c, e);
    case Error(request) =>
    case Tick(i) =>
  }

  lemma EndedStaysAfter(c: Conn, e: Event)
    requires Possible(c, e) && c.past.ended && e.Response?
    ensures React(c, e).past.ended
  {
    if c.active && !Fails(c, e) && e.status != 404 {
      HandleEven(Taken(c, e.request), e.answer.value);
    }
  }

  lemma {:induction false} EndedForGood(c: Conn, es: seq<Event>)
    requires IsRun(c, es) && c.past.ended
    ensures After(c, es).past.ended
    decreases |es|
  {
    if es != [] {
      EndedStays(c, es[0]);
      EndedForGood(React(c, es[0]), es[1..]);
    }
  }

  lemma {:induction false} RunOwes(c: Conn, es: seq<Event>)
    requires IsRun(c, es) && Sound(c) && Live(c) && c.errors <= 8
    ensures var d := After(c, es);
      && Sound(d)
      && (d.past.ended
          || (Live(d) && Owed(d) == Owed(c) + Failures(c, es) && d.errors == InRow(c, es, c.errors) && d.errors <= 8))
    decreases |es|
  {
    if es != [] {
      ReactOwes(c, es[0]);
      ReactSound(c, es[0]);
      var d := React(c, es[0]);
      if d.past.ended {
        EndedForGood(d, es[1..]);
        RunsAreSound(d, es[1..]);
      } else {
        RunOwes(d, es[1..]);
      }
    }
  }

  lemma ConnectOwesNothing(c: Conn, rid: int)
    requires Unused(c)
    ensures var d := Connect(c, rid); Sound(d) && Live(d) && d.errors == 0 && Owed(d) == multiset{}
  {
    ConnectSound(c, rid);
  }

  /** Main result on retries: over every run from `connect` until it ends, the requests sent
      again and those scheduled to be are, one by one, the requests that failed; and the
      counter of errors is the number of failures in a row, at most eight. */
  lemma FailedAreRetried(c: Conn, rid: int, es: seq<Event>)
    requires Unused(c) && IsRun(Connect(c, rid), es)
    ensures var d := After(Connect(c, rid), es);
      d.past.ended || (
        && multiset(d.past.retries) + Scheduled(d.timers) == Failures(Connect(c, rid), es)
        && d.errors == InRow(Connect(c, rid), es, 0) && d.errors <= 8)
  {
    ConnectOwesNothing(c, rid);
    RunOwes(Connect(c, rid), es);
  }

  /** Main result on giving up: after every such run, a failure schedules its request again,
      or it is the ninth in a row and ends the history: a terminating request is forced out,
      and the connection is inactive and without a sid. */
  lemma GivesUpAtTheNinth(c: Conn, rid: int, es: seq<Event>, e: Event)
    requires Unused(c) && IsRun(Connect(c, rid), es)
    ensures var d := After(Connect(c, rid), es);
      !d.past.ended && Possible(d, e) && Fails(d, e) ==>
        var f := React(d, e); var n := NextInRow(d, e, InRow(Connect(c, rid), es, 0));
        && n <= 9 && (f.past.ended <==> n == 9)
        && if n < 9 then Retry(e.request) in f.timers && f.active && f.past.firsts == d.past.firsts
           else Farewell(d, f)
  {
    ConnectOwesNothing(c, rid);
    RunOwes(Connect(c, rid), es);
    var d := After(Connect(c, rid), es);
    if !d.past.ended && Possible(d, e) && Fails(d, e) {
      ReactOwes(d, e);
      FailureKeeps(d, e);
    }
  }

  lemma FailureKeeps(c: Conn, e: Event)
    requires Possible(c, e) && Fails(c, e)
    ensures var d := React(c, e); d.past.ended || (d.active && d.past.firsts == c.past.firsts)
  {
  }

  /** A scheduled retry that fires transmits its request, whatever else is going on: as many
      requests as there are, active or not. Only a refusal of the connector stops it. */
  lemma RetryIsSent(c: Conn, i: nat)
    requires Possible(c, Tick(i)) && c.timers[i].Retry?
    ensures var d := React(c, Tick(i)); var r := c.timers[i].request;
      var refused := c.refusals != [] && c.refusals[0];
      && d.past.retries == c.past.retries + [r]
      && d.past.outstanding == c.past.outstanding + (if refused then multiset{} else multiset{r})
      && d.connections == c.connections + (if refused then 0 else 1)
      && d.refusals == (if c.refusals == [] then [] else c.refusals[1..])
      && d.timers == c.timers[..i] + c.timers[i + 1..]
      && d == c.(timers := d.timers, refusals := d.refusals, connections := d.connections,
                 past := c.past.(retries := d.past.retries, outstanding := d.past.outstanding))
  {
  }
}
