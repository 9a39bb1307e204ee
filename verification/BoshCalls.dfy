/** Calls and endings. */
module BoshCalls {
  // Calls of the application and of event handlers, over every run of the client from
  // `connect` on: in which order their packets are taken, when a packet goes out at once,
  // which events end the stream, and that an ended stream sends nothing new.

  import opened Options
  import opened BoshClient
  import opened BoshRetry

  // ---------------------------------------------------------------- the order of packets

  /** The packets that these calls give to `send`. */
  function Packets(calls: seq<Api>): seq<Stanza> {
    if calls == [] then []
    else Packets(calls[..|calls| - 1]) +
         if calls[|calls| - 1].ApiSend? then [calls[|calls| - 1].packet] else []
  }

  function Joined(stanzas: seq<seq<Api>>): seq<Api> {
    if stanzas == [] then [] else stanzas[0] + Joined(stanzas[1..])
  }

  /** The calls made in an event: by the application, or by the handlers of a good answer on an
      active connection, those of the connection event first if there was no sid yet. */
  function CallsIn(c: Conn, e: Event): seq<Api>
    requires Possible(c, e)
  {
    match e
    case Call(a) => [a]
    case Response(status, answer, _) =>
      if c.active && (status == 200 || status == 0) && answer.Some? && !answer.value.terminate
      then (if c.stream.value.sid.None? then answer.value.onConnected else []) + Joined(answer.value.stanzas)
      else []
    case _ => []
  }

  ghost function CallsDuring(c: Conn, es: seq<Event>): seq<Api>
    requires IsRun(c, es)
    decreases |es|
  {
    if es == [] then [] else CallsIn(c, es[0]) + CallsDuring(React(c, es[0]), es[1..])
  }

  lemma {:induction false} PacketsTogether(a: seq<Api>, b: seq<Api>)
    ensures Packets(a + b) == Packets(a) + Packets(b)
    decreases |b|
  {
    if b == [] {
      assert a + b == a;
    } else {
      var n := |b| - 1;
      assert (a + b)[..|a + b| - 1] == a + b[..n];
      PacketsTogether(a, b[..n]);
    }
  }

  lemma PacketsOne(a: Api)
    ensures Packets([a]) == if a.ApiSend? then [a.packet] else []
  {
    assert [a][..0] == [];
  }

  /** From `c` to `d`, unless the history ended, those packets were given. */
  ghost predicate Gave(c: Conn, d: Conn, packets: seq<Stanza>) {
    && d.stream.Some? && (c.past.ended ==> d.past.ended)
    && (d.past.ended || (Live(d) && d.past.given == c.past.given + packets))
  }

  lemma GaveOn(c: Conn, d: Conn, e: Conn, p: seq<Stanza>, q: seq<Stanza>)
    requires Gave(c, d, p) && Gave(d, e, q)
    ensures Gave(c, e, p + q)
  {
  }

  lemma DoGives(c: Conn, a: Api)
    requires c.stream.Some? && (c.past.ended || Live(c))
    ensures Gave(c, Do(c, a), Packets([a]))
  {
    PacketsOne(a);
    DoEven(c, a);
    if a.ApiPause? {
      PauseGives(c);
    }
  }

  lemma PauseGives(c: Conn)
    requires c.stream.Some?
    ensures Pause(c).past.given == c.past.given
  {
  }

  lemma {:induction false} DoAllGives(c: Conn, calls: seq<Api>)
    requires c.stream.Some? && (c.past.ended || Live(c))
    ensures Gave(c, DoAll(c, calls), Packets(calls))
    decreases |calls|
  {
    if calls != [] {
      DoGives(c, calls[0]);
      DoAllGives(Do(c, calls[0]), calls[1..]);
      GaveOn(c, Do(c, calls[0]), DoAll(c, calls), Packets([calls[0]]), Packets(calls[1..]));
      PacketsTogether([calls[0]], calls[1..]);
      assert calls == [calls[0]] + calls[1..];
    }
  }

  lemma {:induction false} DispatchGives(c: Conn, stanzas: seq<seq<Api>>)
    requires c.stream.Some? && (c.past.ended || Live(c))
    ensures Gave(c, Dispatch(c, stanzas), Packets(Joined(stanzas)))
    decreases |stanzas|
  {
    if stanzas != [] {
      DoAllGives(c, stanzas[0]);
      DispatchGives(DoAll(c, stanzas[0]), stanzas[1..]);
      GaveOn(c, DoAll(c, stanzas[0]), Dispatch(c, stanzas), Packets(stanzas[0]), Packets(Joined(stanzas[1..])));
      PacketsTogether(stanzas[0], Joined(stanzas[1..]));
    }
  }

  lemma EstablishedGives(c: Conn, a: Answer)
    requires c.stream.Some? && (c.past.ended || Live(c))
    ensures Gave(c, Established(c, a), Packets(if c.stream.value.sid.None? then a.onConnected else []))
  {
    if c.stream.value.sid.None? {
      DoAllGives(c.(stream := Some(c.stream.value.(sid := a.sid))), a.onConnected);
    }
  }

  lemma ContinueGives(c: Conn)
    requires c.stream.Some? && (c.past.ended || Live(c))
    ensures Gave(c, Continue(c), [])
  {
  }

  lemma HandleGives(c: Conn, a: Answer)
    requires c.stream.Some? && !a.terminate && (c.past.ended || Live(c))
    ensures Gave(c, Handle(c, a),
                 Packets((if c.stream.value.sid.None? then a.onConnected else []) + Joined(a.stanzas)))
  {
    var first := if c.stream.value.sid.None? then a.onConnected else [];
    EstablishedGives(c, a);
    var c1 := Established(c, a).(collecting := true);
    DispatchGives(c1, a.stanzas);
    var c2 := Dispatch(c1, a.stanzas);
    GaveOn(c, c1, c2, Packets(first), Packets(Joined(a.stanzas)));
    ContinueGives(c2.(collecting := false));
    PacketsTogether(first, Joined(a.stanzas));
  }

  lemma ResponseGives(c: Conn, e: Event)
    requires Possible(c, e) && e.Response? && Live(c) && c.past.firsts != []
    ensures Gave(c, React(c, e), Packets(CallsIn(c, e)))
  {
    var c1 := Taken(c, e.request);
    if c.active && (e.status == 200 || e.status == 0) && e.answer.Some? {
      if !e.answer.value.terminate {
        HandleGives(c1, e.answer.value);
      }
    }
  }

  lemma TickGives(c: Conn, i: nat)
    requires Possible(c, Tick(i)) && Live(c)
    ensures Gave(c, React(c, Tick(i)), [])
  {
  }

  lemma ErrorGives(c: Conn, request: Body)
    requires Possible(c, Error(request)) && Live(c)
    ensures Gave(c, React(c, Error(request)), [])
  {
  }

  lemma ReactGives(c: Conn, e: Event)
    requires Possible(c, e) && Sound(c) && Live(c)
    ensures Gave(c, React(c, e), Packets(CallsIn(c, e)))
  {
    match e
    case Call(a) => DoGives(c, a);
    case Response(_, _, request) =>
      assert WentOut(c.past.firsts, c.past.taken, request);
      ResponseGives(c, e);
    case Error(request) => ErrorGives(c, request);
    case Tick(i) => TickGives(c, i);
  }

  lemma {:induction false} RunGives(c: Conn, es: seq<Event>)
    requires IsRun(c, es) && Sound(c) && (c.past.ended || Live(c))
    ensures Sound(After(c, es)) && Gave(c, After(c, es), Packets(CallsDuring(c, es)))
    decreases |es|
  {
    if es != [] {
      var d := React(c, es[0]);
      ReactSound(c, es[0]);
      if c.past.ended {
        EndedStays(c, es[0]);
      } else {
        ReactGives(c, es[0]);
      }
      RunGives(d, es[1..]);
      GaveOn(c, d, After(c, es), Packets(CallsIn(c, es[0])), Packets(CallsDuring(d, es[1..])));
      PacketsTogether(CallsIn(c, es[0]), CallsDuring(d, es[1..]));
    }
  }

  lemma GivenInCallOrder(c: Conn, rid: int, es: seq<Event>)
    requires Unused(c) && IsRun(Connect(c, rid), es)
    ensures var d := After(Connect(c, rid), es);
      d.past.ended || d.past.given == Packets(CallsDuring(Connect(c, rid), es))
  {
    ConnectOwesNothing(c, rid);
    RunGives(Connect(c, rid), es);
    assert Connect(c, rid).past.given == [];
  }

  /** Main result on packets: over every run from `connect` until it ends, the stanzas in the
      order in which they were first tried, followed by the queued ones, are the packets of
      all calls of `send`, by the application and by handlers, in the order of the calls. */
  lemma TriedInCallOrder(c: Conn, rid: int, es: seq<Event>)
    requires Unused(c) && IsRun(Connect(c, rid), es)
    ensures var d := After(Connect(c, rid), es);
      d.past.ended || Flatten(d.past.firsts) + Waiting(d.body) == Packets(CallsDuring(Connect(c, rid), es))
  {
    GivenInCallOrder(c, rid, es);
    SoundFromConnect(c, rid, es);
  }

  // ---------------------------------------------------------------- when a packet goes out

  /** The body a packet is added to: the queued one, or a new one with the next rid. */
  function Pending(c: Conn): Body
    requires c.stream.Some?
  {
    if c.body.Some? then c.body.value
    else Body(c.stream.value.rid + 1, c.stream.value.sid, false, false, false, false, [])
  }

  /** A packet goes out with the call, behind what was queued, exactly when the connection is
      active, is not dispatching an answer, has a request to spare and no error to recover
      from; otherwise it is queued. */
  lemma SendGoesOut(c: Conn, packet: Stanza)
    requires c.stream.Some?
    ensures var d := Send(c, packet); var n := |c.past.firsts|;
      var b := Pending(c).(stanzas := Pending(c).stanzas + [packet]);
      if c.active && !c.collecting && c.connections < c.maxRequests && c.errors == 0
      then d.past.firsts == c.past.firsts + [b] && d.body == None
      else d.past.firsts == c.past.firsts && d.body == Some(b)
  {
  }

  /** `pause` on an established stream sends what is queued at once, whatever the limits;
      `restartStream` only queues. */
  lemma PauseGoesOut(c: Conn)
    requires c.stream.Some?
    ensures if c.stream.value.sid.None? then Pause(c) == c
            else Pause(c).past.firsts == c.past.firsts + [Pending(c).(pause := true)] && Pause(c).body == None
    ensures RestartStream(c).past == c.past && RestartStream(c).body == Some(Pending(c).(restart := true))
  {
  }

  /** From `c` to `d` nothing went out, and those packets were queued. */
  ghost predicate Held(c: Conn, d: Conn, packets: seq<Stanza>) {
    && d.stream.Some? && d.past.firsts == c.past.firsts && d.connections == c.connections && d.active == c.active
    && d.collecting == c.collecting && d.errors == c.errors && d.refusals == c.refusals
    && d.maxRequests == c.maxRequests && d.timers == c.timers
    && Waiting(d.body) == Waiting(c.body) + packets && (c.body.Some? ==> d.body.Some?)
  }

  lemma HeldOn(c: Conn, d: Conn, e: Conn, p: seq<Stanza>, q: seq<Stanza>)
    requires Held(c, d, p) && Held(d, e, q)
    ensures Held(c, e, p + q)
  {
  }

  lemma OneHeldBack(c: Conn, a: Api)
    requires c.stream.Some? && (c.collecting || c.errors > 0) && Polite(a)
    ensures Held(c, Do(c, a), Packets([a])) && Do(c, a).body.Some?
  {
    PacketsOne(a);
  }

  /** While an answer is dispatched, and while there are errors, handlers and application may
      send what they like: nothing goes out. */
  lemma {:induction false} HeldBack(c: Conn, calls: seq<Api>)
    requires c.stream.Some? && (c.collecting || c.errors > 0) && AllPolite(calls)
    ensures Held(c, DoAll(c, calls), Packets(calls)) && (calls != [] ==> DoAll(c, calls).body.Some?)
    decreases |calls|
  {
    if calls != [] {
      OneHeldBack(c, calls[0]);
      HeldBack(Do(c, calls[0]), calls[1..]);
      HeldOn(c, Do(c, calls[0]), DoAll(c, calls), Packets([calls[0]]), Packets(calls[1..]));
      PacketsTogether([calls[0]], calls[1..]);
      assert calls == [calls[0]] + calls[1..];
    }
  }

  lemma {:induction false} DispatchHeldBack(c: Conn, stanzas: seq<seq<Api>>)
    requires c.stream.Some? && c.collecting && forall i :: 0 <= i < |stanzas| ==> AllPolite(stanzas[i])
    ensures var d := Dispatch(c, stanzas);
      && Held(c, d, Packets(Joined(stanzas))) && (Joined(stanzas) != [] ==> d.body.Some?)
      && (Joined(stanzas) == [] ==> d == c)
    decreases |stanzas|
  {
    if stanzas != [] {
      var d := DoAll(c, stanzas[0]);
      HeldBack(c, stanzas[0]);
      DispatchHeldBack(d, stanzas[1..]);
      HeldOn(c, d, Dispatch(c, stanzas), Packets(stanzas[0]), Packets(Joined(stanzas[1..])));
      PacketsTogether(stanzas[0], Joined(stanzas[1..]));
    }
  }

  /** Main result on answers: what the handlers of an answer give goes out in one request
      behind what was queued, if that was the last one open; otherwise it is queued.  With
      nothing to send, a keep-alive is armed for the rid instead. */
  lemma AnswerSendsOnce(c: Conn, request: Body, a: Answer)
    requires Possible(c, Response(200, Some(a), request)) && c.active && !a.terminate
    requires c.stream.value.sid.Some? && c.maxRequests >= 1
    requires forall i :: 0 <= i < |a.stanzas| ==> AllPolite(a.stanzas[i])
    ensures var d := React(c, Response(200, Some(a), request)); var n := |c.past.firsts|;
      var packets := Waiting(c.body) + Packets(Joined(a.stanzas));
      var something := c.body.Some? || Joined(a.stanzas) != [];
      && (|d.past.firsts| == if c.connections == 1 && something then n + 1 else n)
      && d.past.firsts[..n] == c.past.firsts
      && (d.body.Some? <==> something && c.connections != 1)
      && (if |d.past.firsts| > n then d.past.firsts[n].stanzas else Waiting(d.body)) == packets
      && d.timers == c.timers
        + (if c.connections == 1 && !something then [KeepAlive(c.stream.value.rid)] else [])
  {
    var c1 := Taken(c, request);
    DispatchHeldBack(c1.(collecting := true), a.stanzas);
    var c2 := Dispatch(c1.(collecting := true), a.stanzas).(collecting := false);
    ContinueSends(c2);
    AnswerHandled(c, request, a);
  }

  lemma AnswerHandled(c: Conn, request: Body, a: Answer)
    requires Possible(c, Response(200, Some(a), request)) && c.active && !a.terminate && c.stream.value.sid.Some?
    ensures React(c, Response(200, Some(a), request))
      == Continue(Dispatch(Taken(c, request).(collecting := true), a.stanzas).(collecting := false))
  {
  }

  /** With no request open what is queued goes out, or a keep-alive is armed. */
  lemma ContinueSends(c: Conn)
    requires c.stream.Some? && c.active && !c.collecting && c.errors == 0 && c.maxRequests >= 1
    ensures var d := Continue(c); var out := c.connections == 0 && c.body.Some?;
      && d.past.firsts == c.past.firsts + (if out then [c.body.value] else [])
      && d.body == (if out then None else c.body)
      && d.timers == c.timers
        + (if c.connections == 0 && c.body.None? then [KeepAlive(c.stream.value.rid)] else [])
  {
  }

  // ---------------------------------------------------------------- what ends the stream

  /** Handlers that neither disconnect nor connect. */
  predicate Gentle(calls: seq<Api>) {
    forall i :: 0 <= i < |calls| ==> !calls[i].ApiDisconnect? && !calls[i].ApiConnect?
  }

  predicate GentleAnswer(a: Answer) {
    Gentle(a.onConnected) && forall i :: 0 <= i < |a.stanzas| ==> Gentle(a.stanzas[i])
  }

  lemma {:induction false} GentleGoesOn(c: Conn, calls: seq<Api>)
    requires c.stream.Some? && Gentle(calls)
    ensures DoAll(c, calls).past.ended == c.past.ended
    decreases |calls|
  {
    if calls != [] {
      GentleDoes(c, calls[0]);
      GentleGoesOn(Do(c, calls[0]), calls[1..]);
    }
  }

  lemma GentleDoes(c: Conn, a: Api)
    requires c.stream.Some? && !a.ApiDisconnect? && !a.ApiConnect?
    ensures Do(c, a).past.ended == c.past.ended
  {
  }

  lemma {:induction false} GentleDispatch(c: Conn, stanzas: seq<seq<Api>>)
    requires c.stream.Some? && forall i :: 0 <= i < |stanzas| ==> Gentle(stanzas[i])
    ensures Dispatch(c, stanzas).past.ended == c.past.ended
    decreases |stanzas|
  {
    if stanzas != [] {
      GentleGoesOn(c, stanzas[0]);
      GentleDispatch(DoAll(c, stanzas[0]), stanzas[1..]);
    }
  }

  lemma GentleHandle(c: Conn, a: Answer)
    requires c.stream.Some? && GentleAnswer(a)
    ensures Handle(c, a).past.ended == c.past.ended
  {
    if !a.terminate {
      if c.stream.value.sid.None? {
        GentleGoesOn(c.(stream := Some(c.stream.value.(sid := a.sid))), a.onConnected);
      }
      GentleDispatch(Established(c, a).(collecting := true), a.stanzas);
    }
  }

  /** A run of the client until its history ends. */
  ghost predicate Going(c: Conn, rid: int, es: seq<Event>) {
    Unused(c) && IsRun(Connect(c, rid), es) && !After(Connect(c, rid), es).past.ended
  }

  /** The event ends the history of a connection that had so many errors in a row. */
  predicate IsEnd(active: bool, row: nat, e: Event) {
    match e
    case Call(a) => a.ApiDisconnect? || (a.ApiConnect? && !active)
    case Response(status, _, _) => active && status == 404
    case Error(_) => active && row == 8
    case Tick(_) => false
  }

  lemma CallEnds(c: Conn, a: Api)
    requires c.stream.Some? && Live(c)
    ensures Do(c, a).past.ended <==> a.ApiDisconnect? || (a.ApiConnect? && !c.active)
  {
    if !a.ApiDisconnect? && !a.ApiConnect? {
      GentleDoes(c, a);
    }
  }

  lemma EventEnds(c: Conn, e: Event)
    requires Possible(c, e) && Sound(c) && Live(c) && c.errors <= 8
    requires e.Response? && e.answer.Some? ==> GentleAnswer(e.answer.value)
    ensures React(c, e).past.ended <==> IsEnd(c.active, c.errors, e)
  {
    match e
    case Call(a) => CallEnds(c, a);
    case Response(_, _, _) => ResponseEnds(c, e);
    case Error(request) => ErrorOwes(c, request);
    case Tick(i) => TickOwes(c, i);
  }

  /** Main result on endings: after every run that goes on, the next event ends it exactly
      when it is a call of `disconnect`, a call of `connect` on an inactive connection, the
      answer 404 on an active one, or the ninth error in a row; unless handlers do. */
  lemma EndsWhen(c: Conn, rid: int, es: seq<Event>, e: Event)
    requires Going(c, rid, es) && Possible(After(Connect(c, rid), es), e)
    requires e.Response? && e.answer.Some? ==> GentleAnswer(e.answer.value)
    ensures var d := After(Connect(c, rid), es);
      React(d, e).past.ended <==> IsEnd(d.active, InRow(Connect(c, rid), es, 0), e)
  {
    ConnectOwesNothing(c, rid);
    RunOwes(Connect(c, rid), es);
    EventEnds(After(Connect(c, rid), es), e);
  }

  lemma ResponseEnds(c: Conn, e: Event)
    requires Possible(c, e) && e.Response? && !c.past.ended
    requires e.answer.Some? ==> GentleAnswer(e.answer.value)
    ensures React(c, e).past.ended <==> c.active && e.status == 404
  {
    if c.active && (e.status == 200 || e.status == 0) && e.answer.Some? {
      GentleHandle(Taken(c, e.request), e.answer.value);
    }
  }

  /** `disconnect` and the answer 404 force out a terminating request. */
  lemma EndsWithFarewell(c: Conn, e: Event)
    requires Possible(c, e) && (e == Call(ApiDisconnect) || (e.Response? && c.active && e.status == 404))
    ensures Farewell(c, React(c, e)) && React(c, e).past.ended
  {
  }

  /** A terminating answer sends nothing; the connection is inactive all the same. */
  lemma TerminatedQuietly(c: Conn, e: Event)
    requires Possible(c, e) && e.Response? && c.active && (e.status == 200 || e.status == 0)
    requires e.answer.Some? && e.answer.value.terminate
    ensures var d := React(c, e);
      && !d.active && d.stream.Some? && d.stream.value.sid.None? && d.past.firsts == c.past.firsts
      && d.past.retries == c.past.retries && d.timers == c.timers && d.body == c.body
  {
  }

  /** Inactive and without a sid. */
  predicate Quiet(c: Conn) {
    !c.active && c.stream.Some? && c.stream.value.sid.None?
  }

  lemma CallStaysQuiet(c: Conn, a: Api)
    requires Quiet(c) && !a.ApiDisconnect? && !a.ApiConnect?
    ensures Quiet(Do(c, a)) && Do(c, a).past.firsts == c.past.firsts && Do(c, a).timers == c.timers
  {
  }

  lemma BackStaysQuiet(c: Conn, e: Event)
    requires Quiet(c) && Possible(c, e) && !e.Call?
    ensures var d := React(c, e);
      && Quiet(d) && d.past.firsts == c.past.firsts
      && d.timers == if e.Tick? then c.timers[..e.i] + c.timers[e.i + 1..] else c.timers
  {
  }

  lemma StaysQuiet(c: Conn, e: Event)
    requires Quiet(c) && Possible(c, e) && (e.Call? ==> !e.api.ApiDisconnect? && !e.api.ApiConnect?)
    ensures var d := React(c, e);
      && Quiet(d) && d.past.firsts == c.past.firsts
      && d.timers == if e.Tick? then c.timers[..e.i] + c.timers[e.i + 1..] else c.timers
  {
    if e.Call? {
      CallStaysQuiet(c, e.api);
    } else {
      BackStaysQuiet(c, e);
    }
  }

  /** Main result on an ended stream: until `connect` or `disconnect` is called, whatever is
      sent, answered or fails, no new request goes out and nothing is scheduled; only what
      was scheduled before is sent again. */
  lemma {:induction false} NothingNewAfterEnd(c: Conn, es: seq<Event>)
    requires IsRun(c, es) && Quiet(c)
    requires forall i :: 0 <= i < |es| ==> es[i] != Call(ApiDisconnect) && !(es[i].Call? && es[i].api.ApiConnect?)
    ensures var d := After(c, es);
      && !d.active && d.stream.Some? && d.stream.value.sid.None?
      && d.past.firsts == c.past.firsts && |d.timers| <= |c.timers|
      && (forall t :: t in d.timers ==> t in c.timers)
    decreases |es|
  {
    if es != [] {
      StaysQuiet(c, es[0]);
      NothingNewAfterEnd(React(c, es[0]), es[1..]);
    }
  }

  // ---------------------------------------------------------------- the marks of a request

  /** Only the first request opens the stream, and none ends it. */
  ghost predicate MarksInv(c: Conn) {
    && c.stream.Some? && (c.past.ended || Marked(c))
  }

  ghost predicate Marked(c: Conn) {
    && (forall i :: 0 <= i < |c.past.firsts| ==> c.past.firsts[i].opening == (i == 0) && !c.past.firsts[i].terminate)
    && (c.body.Some? ==> c.body.value.opening == (c.past.firsts == []) && !c.body.value.terminate)
    && (c.body.None? ==> c.past.firsts != [])
    && (c.active || c.past.firsts != [])
  }

  lemma TransmitMarks(c: Conn, b: Body, retry: bool)
    requires c.stream.Some? && (retry ==> MarksInv(c))
    requires !retry ==> c.past.ended || (Marked(c.(body := Some(b))))
    ensures MarksInv(Transmit(c.(body := if retry then c.body else None), b, retry))
  {
  }

  lemma DoMarks(c: Conn, a: Api)
    requires MarksInv(c)
    ensures MarksInv(Do(c, a))
  {
    match a
    case ApiSend(p) =>
      var c1 := WithBody(c);
      var b := c1.body.value.(stanzas := c1.body.value.stanzas + [p]);
      TransmitMarks(c1.(past := c1.past.(given := c1.past.given + [p])), b, false);
    case ApiPause =>
      if c.stream.value.sid.Some? {
        TransmitMarks(WithBody(c), WithBody(c).body.value.(pause := true), false);
      }
    case ApiRestart | ApiDisconnect =>
    case ApiConnect(rid) =>
  }

  lemma {:induction false} DoAllMarks(c: Conn, calls: seq<Api>)
    requires MarksInv(c)
    ensures MarksInv(DoAll(c, calls))
    decreases |calls|
  {
    if calls != [] {
      DoMarks(c, calls[0]);
      DoAllMarks(Do(c, calls[0]), calls[1..]);
    }
  }

  lemma {:induction false} DispatchMarks(c: Conn, stanzas: seq<seq<Api>>)
    requires MarksInv(c)
    ensures MarksInv(Dispatch(c, stanzas))
    decreases |stanzas|
  {
    if stanzas != [] {
      DoAllMarks(c, stanzas[0]);
      DispatchMarks(DoAll(c, stanzas[0]), stanzas[1..]);
    }
  }

  lemma ContinueMarks(c: Conn)
    requires MarksInv(c)
    ensures MarksInv(Continue(c))
  {
    if c.body.Some? {
      TransmitMarks(c, c.body.value, false);
    }
  }

  lemma HandleMarks(c: Conn, a: Answer)
    requires MarksInv(c) && (c.past.ended || c.past.firsts != [])
    ensures MarksInv(Handle(c, a))
  {
    if !a.terminate {
      if c.stream.value.sid.None? {
        DoAllMarks(c.(stream := Some(c.stream.value.(sid := a.sid))), a.onConnected);
      }
      var c1 := Established(c, a).(collecting := true);
      DispatchMarks(c1, a.stanzas);
      ContinueMarks(Dispatch(c1, a.stanzas).(collecting := false));
    }
  }

  lemma ResponseMarks(c: Conn, e: Event)
    requires Possible(c, e) && e.Response? && MarksInv(c) && (c.past.ended || c.past.firsts != [])
    ensures MarksInv(React(c, e))
  {
    if c.active && (e.status == 200 || e.status == 0) && e.answer.Some? {
      HandleMarks(Taken(c, e.request), e.answer.value);
    }
  }

  lemma TickMarks(c: Conn, i: nat)
    requires Possible(c, Tick(i)) && MarksInv(c)
    ensures MarksInv(React(c, Tick(i)))
  {
    var c1 := c.(timers := TimersWithout(c.timers, i));
    match c.timers[i]
    case Retry(request) => TransmitMarks(c1, request, true);
    case KeepAlive(_) => TransmitMarks(WithBody(c1), WithBody(c1).body.value, false);
  }

  lemma ReactMarks(c: Conn, e: Event)
    requires Possible(c, e) && Sound(c) && MarksInv(c)
    ensures MarksInv(React(c, e))
  {
    match e
    case Call(a) => DoMarks(c, a);
    case Response(_, _, request) =>
      assert c.past.ended || WentOut(c.past.firsts, c.past.taken, request);
      ResponseMarks(c, e);
    case Error(_) =>
    case Tick(i) => TickMarks(c, i);
  }

  lemma {:induction false} RunMarks(c: Conn, es: seq<Event>)
    requires IsRun(c, es) && Sound(c) && MarksInv(c)
    ensures MarksInv(After(c, es))
    decreases |es|
  {
    if es != [] {
      ReactSound(c, es[0]);
      ReactMarks(c, es[0]);
      RunMarks(React(c, es[0]), es[1..]);
    }
  }

  /** Over every run from `connect` until it ends, exactly the first request is an opening one,
      and none is a terminating one. */
  lemma OnlyFirstOpens(c: Conn, rid: int, es: seq<Event>, i: nat)
    requires Going(c, rid, es)
    ensures var firsts := After(Connect(c, rid), es).past.firsts;
      i < |firsts| ==> firsts[i].opening == (i == 0) && !firsts[i].terminate
  {
    ConnectSound(c, rid);
    assert MarksInv(Connect(c, rid));
    RunMarks(Connect(c, rid), es);
  }

  // ---------------------------------------------------------------- timers and handlers

  /** A keep-alive that is overtaken, by a queued body or by another rid, does nothing; one
      that is not takes the next rid for an empty body, which goes out like any other. */
  lemma KeepAliveFires(c: Conn, i: nat)
    requires Possible(c, Tick(i)) && c.timers[i].KeepAlive?
    ensures var d := React(c, Tick(i)); var rest := c.timers[..i] + c.timers[i + 1..];
      var b := Body(c.stream.value.rid + 1, c.stream.value.sid, false, false, false, false, []);
      if c.body.Some? || c.timers[i].rid != c.stream.value.rid then d == c.(timers := rest)
      else d.timers == rest && if c.active && !c.collecting && c.connections < c.maxRequests && c.errors == 0
        then d.past.firsts == c.past.firsts + [b] && d.body == None
        else d.past == c.past && d.body == Some(b)
  {
  }

  /** Handlers are called after the call whose event they handle, and before the next call. */
  lemma HandlersFollow(call: Nested, rest: seq<Nested>)
    ensures Flat([call] + rest) == [call.api]
      + (if call.api.ApiSend? || call.api.ApiDisconnect? then Flat(call.handlers) else []) + Flat(rest)
  {
    assert ([call] + rest)[1..] == rest;
  }

  /** The handlers of the end of the connection are called exactly when a failure ends it. */
  lemma EndByErrorIsTold(c: Conn, request: Body)
    requires Possible(c, Error(request)) && Live(c)
    ensures GivesUp(c) <==> React(c, Error(request)).past.ended
  {
    ErrorOwes(c, request);
  }

  /** And exactly when a response leaves an active connection inactive, by its status or as a
      terminating answer, as long as handlers do not end it. */
  lemma EndByResponseIsTold(c: Conn, e: Event)
    requires Possible(c, e) && e.Response? && (e.answer.Some? ==> GentleAnswer(e.answer.value))
    ensures Disconnects(c, e.status, e.answer) <==> c.active && !React(c, e).active
  {
    if c.active && (e.status == 200 || e.status == 0) && e.answer.Some? && !e.answer.value.terminate {
      GentleHandleActive(Taken(c, e.request), e.answer.value);
    }
  }

  lemma GentleDoesActive(c: Conn, a: Api)
    requires c.stream.Some? && !a.ApiDisconnect? && !a.ApiConnect?
    ensures Do(c, a).active == c.active
  {
  }

  lemma {:induction false} GentleAllActive(c: Conn, calls: seq<Api>)
    requires c.stream.Some? && Gentle(calls)
    ensures DoAll(c, calls).active == c.active
    decreases |calls|
  {
    if calls != [] {
      GentleDoesActive(c, calls[0]);
      GentleAllActive(Do(c, calls[0]), calls[1..]);
    }
  }

  lemma {:induction false} GentleDispatchActive(c: Conn, stanzas: seq<seq<Api>>)
    requires c.stream.Some? && forall i :: 0 <= i < |stanzas| ==> Gentle(stanzas[i])
    ensures Dispatch(c, stanzas).active == c.active
    decreases |stanzas|
  {
    if stanzas != [] {
      GentleAllActive(c, stanzas[0]);
      GentleDispatchActive(DoAll(c, stanzas[0]), stanzas[1..]);
    }
  }

  lemma GentleHandleActive(c: Conn, a: Answer)
    requires c.stream.Some? && GentleAnswer(a) && !a.terminate
    ensures Handle(c, a).active == c.active
  {
    if c.stream.value.sid.None? {
      GentleAllActive(c.(stream := Some(c.stream.value.(sid := a.sid))), a.onConnected);
    }
    GentleDispatchActive(Established(c, a).(collecting := true), a.stanzas);
  }
}
