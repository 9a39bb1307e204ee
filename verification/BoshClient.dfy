/** The BOSH client, on values. */
module BoshClient {
  // The client side of BOSH as functions on values: what each public call and
  // each callback of `XmppBoshConnection` does to the connection, together with
  // the history the properties speak of.  `BoshConnection` holds the class whose
  // methods refine these functions.

  import opened Options

  type Stanza = string

  const MAX_RETRIES := 8        // RetryControl.maxRetries

  /** A <body/> element.  Rendering it gives the request string. */
  datatype Body = Body(
    rid: int,
    sid: Option<string>,
    opening: bool,               // the attributes of createInitialBody
    terminate: bool,
    pause: bool,
    restart: bool,
    stanzas: seq<Stanza>)

  /** StreamSettings. */
  datatype Stream = Stream(rid: int, sid: Option<string>)

  /** What is handed to `services.schedule`. */
  datatype Timer = KeepAlive(rid: int) | Retry(request: Body)

  /** What happened since `connect`. */
  datatype History = History(
    base: int,                   // the rid the stream started from
    firsts: seq<Body>,           // first transmissions tried, in order
    taken: seq<bool>,            // which of them the connector accepted
    retries: seq<Body>,          // later transmissions, in order
    given: seq<Stanza>,          // what was passed to send(packet)
    outstanding: multiset<Body>, // accepted by the connector and not yet called back
    ended: bool)                 // disconnect was called, or connect for a second time

  datatype Conn = Conn(
    active: bool,
    collecting: bool,            // shouldCollectResponses
    errors: nat,
    connections: int,            // activeConnections
    stream: Option<Stream>,
    body: Option<Body>,          // currentBody
    maxRequests: int,            // of the connection settings
    timers: seq<Timer>,
    refusals: seq<bool>,         // which of the next calls the connector throws on; accepts once exhausted
    past: History)

  // ---------------------------------------------------------------- private methods

  function NewBody(rid: int, sid: Option<string>): Body {
    Body(rid, sid, false, false, false, false, [])
  }

  /** createBodyIfNeeded */
  function WithBody(c: Conn): (r: Conn)
    requires c.stream.Some?
    ensures r.body.Some? && r.stream.Some? && r.past == c.past
    ensures c.body.Some? ==> r == c
    ensures c.body.None? ==>
      r.body.value == NewBody(c.stream.value.rid + 1, c.stream.value.sid)
        && r.stream.value.rid == c.stream.value.rid + 1
  {
    if c.body.Some? then c else
    var st := c.stream.value;
    c.(stream := Some(st.(rid := st.rid + 1)), body := Some(NewBody(st.rid + 1, st.sid)))
  }

  function Refused(c: Conn): bool {
    c.refusals != [] && c.refusals[0]
  }

  /** send(String): hand a request to the connector. */
  function Transmit(c: Conn, request: Body, retry: bool): Conn {
    var p := if retry then c.past.(retries := c.past.retries + [request])
             else c.past.(firsts := c.past.firsts + [request], taken := c.past.taken + [!Refused(c)]);
    var q := if c.refusals == [] then [] else c.refusals[1..];
    if Refused(c) then c.(refusals := q, past := p)
    else c.(connections := c.connections + 1, refusals := q,
      past := p.(outstanding := p.outstanding + multiset{request}))
  }

  predicate MaySend(c: Conn) {
    !c.collecting && c.active && c.connections < c.maxRequests && c.errors == 0
  }

  /** sendBody(boolean) */
  function SendBody(c: Conn, force: bool): Conn
    requires c.body.Some?
  {
    if force || MaySend(c) then Transmit(c.(body := None), c.body.value, false) else c
  }

  /** continueConnection */
  function Continue(c: Conn): Conn {
    if c.stream.Some? && c.connections == 0 then
      if c.body.Some? then SendBody(c, false)
      else c.(timers := c.timers + [KeepAlive(c.stream.value.rid)])
    else c
  }

  // ---------------------------------------------------------------- public methods

  function Connect(c: Conn, rid: int): Conn {
    var c1 := c.(errors := 0);
    if c.active then c1 else
    var opening := NewBody(rid + 1, None).(opening := true);
    SendBody(c1.(active := true, stream := Some(Stream(rid + 1, None)), connections := 0, body := Some(opening),
                 past := Restarted(c.past, rid)), false)
  }

  /** The history a call of `connect` leaves: a fresh one for the first call. */
  function Restarted(p: History, rid: int): History {
    History(rid, [], [], [], [], p.outstanding, p.ended || p.firsts != [] || p.outstanding != multiset{})
  }

  function Disconnect(c: Conn): (r: Conn)
    requires c.stream.Some?
    ensures r.stream.Some?
  {
    var c1 := WithBody(c.(body := None));
    var c2 := SendBody(c1.(body := Some(c1.body.value.(terminate := true))), true);
    c2.(active := false, stream := Some(c2.stream.value.(sid := None)), past := c2.past.(ended := true))
  }

  function Pause(c: Conn): Conn {
    if c.stream.None? || c.stream.value.sid.None? then c else
    var c1 := WithBody(c);
    SendBody(c1.(body := Some(c1.body.value.(pause := true))), true)
  }

  function RestartStream(c: Conn): Conn
    requires c.stream.Some?
  {
    var c1 := WithBody(c);
    c1.(body := Some(c1.body.value.(restart := true)))
  }

  function Send(c: Conn, packet: Stanza): Conn
    requires c.stream.Some?
  {
    var c1 := WithBody(c);
    var b := c1.body.value;
    SendBody(c1.(body := Some(b.(stanzas := b.stanzas + [packet])),
      past := c1.past.(given := c1.past.given + [packet])), false)
  }

  /** A call an event handler may make. */
  datatype Api = ApiSend(packet: Stanza) | ApiRestart | ApiPause | ApiDisconnect | ApiConnect(rid: int)

  function Do(c: Conn, a: Api): (r: Conn)
    requires c.stream.Some?
    ensures r.stream.Some?
  {
    match a
    case ApiSend(p) => Send(c, p)
    case ApiRestart => RestartStream(c)
    case ApiPause => Pause(c)
    case ApiDisconnect => Disconnect(c)
    case ApiConnect(rid) => Connect(c, rid)
  }

  function DoAll(c: Conn, calls: seq<Api>): (r: Conn)
    requires c.stream.Some?
    ensures r.stream.Some?
    decreases |calls|
  {
    if calls == [] then c else DoAll(Do(c, calls[0]), calls[1..])
  }

  // ---------------------------------------------------------------- callbacks

  /** A parsed answer: its relevant attributes and, for each child, the calls
      that the handlers of that stanza make. */
  datatype Answer = Answer(terminate: bool, sid: Option<string>, stanzas: seq<seq<Api>>, onConnected: seq<Api>)

  function Dispatch(c: Conn, stanzas: seq<seq<Api>>): (r: Conn)
    requires c.stream.Some?
    ensures r.stream.Some?
    decreases |stanzas|
  {
    if stanzas == [] then c else Dispatch(DoAll(c, stanzas[0]), stanzas[1..])
  }

  /** initStream and fireConnected, when there was no sid yet */
  function Established(c: Conn, a: Answer): (r: Conn)
    requires c.stream.Some?
    ensures r.stream.Some?
  {
    if c.stream.value.sid.Some? then c
    else DoAll(c.(stream := Some(c.stream.value.(sid := a.sid))), a.onConnected)
  }

  /** handleResponse */
  function Handle(c: Conn, a: Answer): (r: Conn)
    requires c.stream.Some?
    ensures r.stream.Some?
  {
    if a.terminate then c.(stream := Some(c.stream.value.(sid := None)), active := false) else
    var c1 := Established(c, a);
    Continue(Dispatch(c1.(collecting := true), a.stanzas).(collecting := false))
  }

  /** ConnectorCallback.onError, without the transport's share */
  function Failed(c: Conn, request: Body): (r: Conn)
    requires c.stream.Some?
    ensures r.stream.Some?
  {
    if !c.active then c else
    var e := c.errors + 1;
    if e > MAX_RETRIES then Disconnect(c.(errors := e))
    else c.(errors := e, timers := c.timers + [Retry(request)])
  }

  function CalledBack(c: Conn, request: Body): Conn {
    c.(past := c.past.(outstanding := c.past.outstanding - multiset{request}))
  }

  /** ConnectorCallback.onError called by the transport: `activeConnections` stays. */
  function OnError(c: Conn, request: Body): (r: Conn)
    requires c.stream.Some?
    ensures r.stream.Some?
  {
    Failed(CalledBack(c, request), request)
  }

  /** A response was taken in: the counters follow. */
  function Taken(c: Conn, request: Body): Conn {
    CalledBack(c, request).(errors := 0, connections := c.connections - 1)
  }

  /** ConnectorCallback.onResponseReceived; no answer when the content is not a body */
  function OnResponse(c: Conn, status: int, answer: Option<Answer>, request: Body): (r: Conn)
    requires c.stream.Some?
    ensures r.stream.Some?
  {
    var c1 := Taken(c, request);
    if c.active then Answered(c1, status, answer, request) else c1
  }

  /** onResponseReceived on an active connection. */
  function Answered(c1: Conn, status: int, answer: Option<Answer>, request: Body): (r: Conn)
    requires c1.stream.Some?
    ensures r.stream.Some?
  {
    if status == 404 then Disconnect(c1)
    else if status != 200 && status != 0 then Failed(c1, request)
    else if answer.Some? then Handle(c1, answer.value)
    else Failed(c1, request)
  }

  /** A scheduled action runs. */
  function Fire(c: Conn, t: Timer): Conn
    requires c.stream.Some?
  {
    match t
    case Retry(request) => Transmit(c, request, true)
    case KeepAlive(rid) =>
      if c.body.None? && c.stream.value.rid == rid then SendBody(WithBody(c), false) else c
  }

  // ---------------------------------------------------------------- nested handlers

  /** A call with the calls that the handlers of its event make.  `send` and `disconnect`
      fire an event as the last thing they do, and so does a terminating answer. */
  datatype Nested = Nested(api: Api, handlers: seq<Nested>)

  predicate Fires(a: Api) {
    a.ApiSend? || a.ApiDisconnect?
  }

  /** The calls in the order in which they are made. */
  function Flat(calls: seq<Nested>): seq<Api>
    decreases calls
  {
    if calls == [] then [] else FlatCall(calls[0]) + Flat(calls[1..])
  }

  function FlatCall(call: Nested): seq<Api>
    decreases call
  {
    [call.api] + if Fires(call.api) then Flat(call.handlers) else []
  }

  lemma {:induction false} DoAllTogether(c: Conn, a: seq<Api>, b: seq<Api>)
    requires c.stream.Some?
    ensures DoAll(c, a + b) == DoAll(DoAll(c, a), b)
    decreases |a|
  {
    if a == [] {
      assert a + b == b;
    } else {
      assert (a + b)[1..] == a[1..] + b;
      DoAllTogether(Do(c, a[0]), a[1..], b);
    }
  }

  /** An answer with the calls of all handlers. */
  datatype FullAnswer = FullAnswer(terminate: bool, sid: Option<string>, stanzas: seq<seq<Nested>>,
    onConnected: seq<Nested>)

  function Flattened(r: FullAnswer): Answer {
    Answer(r.terminate, r.sid, seq(|r.stanzas|, i requires 0 <= i < |r.stanzas| => Flat(r.stanzas[i])),
      Flat(r.onConnected))
  }

  function Parsed(reply: Option<FullAnswer>): Option<Answer> {
    if reply.None? then None else Some(Flattened(reply.value))
  }

  /** The connection after the calls of handlers, if they are called. */
  function Then(c: Conn, called: bool, handlers: seq<Nested>): Conn
    requires c.stream.Some?
  {
    if called then DoAll(c, Flat(handlers)) else c
  }

  /** Whether a failure ends the connection. */
  predicate GivesUp(c: Conn) {
    c.active && c.errors >= MAX_RETRIES
  }

  /** Whether handling a response ends with the event of the end of the connection. */
  predicate Disconnects(c: Conn, status: int, answer: Option<Answer>) {
    c.active && (status == 404 || ((status == 200 || status == 0) && answer.Some? && answer.value.terminate))
  }

  // ---------------------------------------------------------------- runs

  datatype Event =
    | Call(api: Api)
    | Response(status: int, answer: Option<Answer>, request: Body)
    | Error(request: Body)
    | Tick(i: nat)

  /** Taking one timer out leaves the others. */
  function TimersWithout(timers: seq<Timer>, i: nat): (rest: seq<Timer>)
    requires i < |timers|
    ensures forall t :: t in rest ==> t in timers
    ensures forall t :: t in timers && t != timers[i] ==> t in rest
  {
    var rest := timers[..i] + timers[i + 1..];
    assert forall t :: t in timers && t != timers[i] ==> t in rest by {
      forall t | t in timers && t != timers[i]
        ensures t in rest
      {
        var j :| 0 <= j < |timers| && timers[j] == t;
        assert rest[if j < i then j else j - 1] == t;
      }
    }
    rest
  }

  predicate Possible(c: Conn, e: Event) {
    && c.stream.Some?
    && match e
       case Call(_) => true
       case Response(_, _, request) => request in c.past.outstanding
       case Error(request) => request in c.past.outstanding
       case Tick(i) => i < |c.timers|
  }

  function React(c: Conn, e: Event): Conn
    requires Possible(c, e)
  {
    match e
    case Call(a) => Do(c, a)
    case Response(status, answer, request) => OnResponse(c, status, answer, request)
    case Error(request) => OnError(c, request)
    case Tick(i) => Fire(c.(timers := TimersWithout(c.timers, i)), c.timers[i])
  }

  ghost predicate IsRun(c: Conn, es: seq<Event>)
    decreases |es|
  {
    es == [] || (Possible(c, es[0]) && IsRun(React(c, es[0]), es[1..]))
  }

  ghost function After(c: Conn, es: seq<Event>): Conn
    requires IsRun(c, es)
    decreases |es|
  {
    if es == [] then c else After(React(c, es[0]), es[1..])
  }

  function Calls(calls: seq<Api>): seq<Event> {
    seq(|calls|, i requires 0 <= i < |calls| => Call(calls[i]))
  }

  /** What handlers call after an event of the connection is a run of such events. */
  lemma {:induction false} CallsAreRuns(c: Conn, calls: seq<Api>)
    requires c.stream.Some?
    ensures IsRun(c, Calls(calls)) && After(c, Calls(calls)) == DoAll(c, calls)
    decreases |calls|
  {
    if calls != [] {
      assert Calls(calls)[1..] == Calls(calls[1..]);
      CallsAreRuns(Do(c, calls[0]), calls[1..]);
    }
  }

  /** A connection object on which `connect` was never called. */
  predicate Unused(c: Conn) {
    && !c.active && !c.collecting && c.errors == 0 && c.stream.None? && c.body.None? && c.timers == []
    && c.past.firsts == [] && c.past.taken == [] && c.past.retries == [] && c.past.given == []
      && c.past.outstanding == multiset{} && !c.past.ended
  }

  // ---------------------------------------------------------------- rids and stanzas

  function Flatten(bodies: seq<Body>): seq<Stanza> {
    if bodies == [] then [] else Flatten(bodies[..|bodies| - 1]) + bodies[|bodies| - 1].stanzas
  }

  /** The first transmissions that the connector accepted, in order. */
  function Accepted(firsts: seq<Body>, taken: seq<bool>): seq<Body>
    requires |taken| == |firsts|
  {
    if firsts == [] then []
    else
      var n := |firsts| - 1;
      Accepted(firsts[..n], taken[..n]) + if taken[n] then [firsts[n]] else []
  }

  /** First transmissions carry base+1, base+2, ...; a queued body carries the next
      rid, which is the current one of the stream. */
  ghost predicate RidInv(c: Conn) {
    var p := c.past;
    && c.stream.Some? && |p.taken| == |p.firsts|
    && (forall i :: 0 <= i < |p.firsts| ==> p.firsts[i].rid == p.base + 1 + i)
    && c.stream.value.rid == p.base + |p.firsts| + (if c.body.Some? then 1 else 0)
    && (c.body.Some? ==> c.body.value.rid == c.stream.value.rid)
  }

  /** The request was tried before, and accepted by the connector. */
  ghost predicate WentOut(firsts: seq<Body>, taken: seq<bool>, r: Body) {
    |taken| == |firsts| && exists i :: 0 <= i < |firsts| && firsts[i] == r && taken[i]
  }

  /** Whatever is sent again, or is to be sent again, went out before. */
  ghost predicate RetryInv(c: Conn) {
    && (forall r :: r in c.past.retries ==> WentOut(c.past.firsts, c.past.taken, r))
    && (forall r :: r in c.past.outstanding ==> WentOut(c.past.firsts, c.past.taken, r))
    && (forall t :: t in c.timers && t.Retry? ==> WentOut(c.past.firsts, c.past.taken, t.request))
  }

  /** Nothing passed to `send` is doubled or moved: it was tried, or it is queued. */
  ghost predicate StanzaInv(c: Conn) {
    c.past.given == Flatten(c.past.firsts) + (if c.body.Some? then c.body.value.stanzas else [])
  }

  ghost predicate Sound(c: Conn) {
    c.stream.Some? && (c.past.ended || (RidInv(c) && RetryInv(c) && StanzaInv(c)))
  }

  lemma WithBodySound(c: Conn)
    requires c.stream.Some? && Sound(c)
    ensures Sound(WithBody(c))
  {
  }

  lemma FlattenSnoc(bodies: seq<Body>, b: Body)
    ensures Flatten(bodies + [b]) == Flatten(bodies) + b.stanzas
  {
    assert (bodies + [b])[..|bodies|] == bodies;
  }

  lemma SendBodyRids(c: Conn)
    requires c.body.Some? && RidInv(c)
    ensures RidInv(Transmit(c.(body := None), c.body.value, false))
  {
  }

  lemma SendBodyRetries(c: Conn)
    requires c.body.Some? && RetryInv(c) && |c.past.taken| == |c.past.firsts|
    ensures RetryInv(Transmit(c.(body := None), c.body.value, false))
  {
    var d := Transmit(c.(body := None), c.body.value, false);
    forall r | WentOut(c.past.firsts, c.past.taken, r)
      ensures WentOut(d.past.firsts, d.past.taken, r)
    {
      var i :| 0 <= i < |c.past.firsts| && c.past.firsts[i] == r && c.past.taken[i];
      assert d.past.firsts[i] == r && d.past.taken[i];
    }
    var n := |c.past.firsts|;
    assert d.past.firsts[n] == c.body.value && d.past.taken[n] == !Refused(c);
  }

  lemma SendBodySound(c: Conn, force: bool)
    requires c.body.Some? && Sound(c)
    ensures Sound(SendBody(c, force))
  {
    if !c.past.ended {
      SendBodyRids(c);
      SendBodyRetries(c);
      FlattenSnoc(c.past.firsts, c.body.value);
    }
  }

  lemma RetrySound(c: Conn, request: Body)
    requires Sound(c) && (c.past.ended || WentOut(c.past.firsts, c.past.taken, request))
    ensures Sound(Transmit(c, request, true))
  {
    if !c.past.ended {
      RetryKeepsRetries(c, request);
    }
  }

  lemma RetryKeepsRetries(c: Conn, request: Body)
    requires RetryInv(c) && WentOut(c.past.firsts, c.past.taken, request)
    ensures RetryInv(Transmit(c, request, true))
  {
  }

  lemma DoSound(c: Conn, a: Api)
    requires Sound(c)
    ensures Sound(Do(c, a))
  {
    match a
    case ApiSend(p) => SendSound(c, p);
    case ApiRestart =>
    case ApiPause =>
      if c.stream.value.sid.Some? {
        var c1 := WithBody(c);
        SendBodySound(c1.(body := Some(c1.body.value.(pause := true))), true);
      }
    case ApiDisconnect =>
    case ApiConnect(rid) =>
      ConnectSound(c, rid);
  }

  lemma SendSound(c: Conn, p: Stanza)
    requires Sound(c)
    ensures Sound(Send(c, p))
  {
    var c1 := WithBody(c);
    var b := c1.body.value;
    var more := c1.past.(given := c1.past.given + [p]);
    SendBodySound(c1.(body := Some(b.(stanzas := b.stanzas + [p])), past := more), false);
  }

  lemma ConnectSound(c: Conn, rid: int)
    requires Sound(c) || Unused(c)
    ensures Sound(Connect(c, rid))
  {
    if !c.active {
      var past := Restarted(c.past, rid);
      if !past.ended {
        var opening := NewBody(rid + 1, None).(opening := true);
        var d := c.(errors := 0, active := true, stream := Some(Stream(rid + 1, None)), connections := 0,
                    body := Some(opening), past := past);
        assert RidInv(d);
        assert RetryInv(d);
        assert StanzaInv(d);
        SendBodySound(d, false);
      }
    }
  }

  lemma {:induction false} DoAllSound(c: Conn, calls: seq<Api>)
    requires Sound(c)
    ensures Sound(DoAll(c, calls))
    decreases |calls|
  {
    if calls != [] {
      DoSound(c, calls[0]);
      DoAllSound(Do(c, calls[0]), calls[1..]);
    }
  }

  lemma {:induction false} DispatchSound(c: Conn, stanzas: seq<seq<Api>>)
    requires Sound(c)
    ensures Sound(Dispatch(c, stanzas))
    decreases |stanzas|
  {
    if stanzas != [] {
      DoAllSound(c, stanzas[0]);
      DispatchSound(DoAll(c, stanzas[0]), stanzas[1..]);
    }
  }

  lemma ContinueSound(c: Conn)
    requires Sound(c)
    ensures Sound(Continue(c))
  {
    if c.body.Some? {
      SendBodySound(c, false);
    }
  }

  lemma HandleSound(c: Conn, a: Answer)
    requires Sound(c)
    ensures Sound(Handle(c, a))
  {
    if !a.terminate {
      var c0 := c.(stream := Some(c.stream.value.(sid := a.sid)));
      if c.stream.value.sid.None? {
        assert Sound(c0);
        DoAllSound(c0, a.onConnected);
      }
      var c1 := Established(c, a).(collecting := true);
      DispatchSound(c1, a.stanzas);
      ContinueSound(Dispatch(c1, a.stanzas).(collecting := false));
    }
  }

  lemma FailedSound(c: Conn, request: Body)
    requires Sound(c) && (c.past.ended || WentOut(c.past.firsts, c.past.taken, request))
    ensures Sound(Failed(c, request))
  {
  }

  lemma CalledBackSound(c: Conn, request: Body)
    requires Sound(c)
    ensures Sound(CalledBack(c, request))
  {
    var d := CalledBack(c, request);
    assert forall r :: r in d.past.outstanding ==> r in c.past.outstanding;
  }

  lemma OnResponseSound(c: Conn, status: int, answer: Option<Answer>, request: Body)
    requires Sound(c) && request in c.past.outstanding
    ensures Sound(OnResponse(c, status, answer, request))
  {
    CalledBackSound(c, request);
    var c1 := Taken(c, request);
    CountedDown(CalledBack(c, request), c.connections - 1);
    if c.active {
      AnsweredSound(c1, status, answer, request);
      assert OnResponse(c, status, answer, request) == Answered(c1, status, answer, request);
    } else {
      assert OnResponse(c, status, answer, request) == c1;
    }
  }

  lemma AnsweredSound(c1: Conn, status: int, answer: Option<Answer>, request: Body)
    requires Sound(c1) && (c1.past.ended || WentOut(c1.past.firsts, c1.past.taken, request))
    ensures Sound(Answered(c1, status, answer, request))
  {
    if (status == 200 || status == 0) && answer.Some? {
      HandleSound(c1, answer.value);
    } else if status != 404 {
      FailedSound(c1, request);
    }
  }

  lemma CountedDown(c: Conn, connections: int)
    requires Sound(c)
    ensures Sound(c.(errors := 0, connections := connections))
  {
  }

  lemma FireSound(c: Conn, t: Timer)
    requires Sound(c) && (t.Retry? ==> c.past.ended || WentOut(c.past.firsts, c.past.taken, t.request))
    ensures Sound(Fire(c, t))
  {
    if t.Retry? {
      RetrySound(c, t.request);
    } else if c.body.None? {
      WithBodySound(c);
      SendBodySound(WithBody(c), false);
    }
  }

  lemma ReactSound(c: Conn, e: Event)
    requires Sound(c) && Possible(c, e)
    ensures Sound(React(c, e))
  {
    match e
    case Call(a) => DoSound(c, a);
    case Response(status, answer, request) => OnResponseSound(c, status, answer, request);
    case Error(request) =>
      CalledBackSound(c, request);
      FailedSound(CalledBack(c, request), request);
    case Tick(i) =>
      var rest := TimersWithout(c.timers, i);
      assert forall t :: t in rest ==> t in c.timers;
      assert Sound(c.(timers := rest));
      FireSound(c.(timers := rest), c.timers[i]);
  }

  /** Over every run from `connect` to the first `disconnect`, with lost answers, bad
      statuses, retries, refusals of the connector and calls made from event handlers:
      first transmissions tried carry consecutive rids, every retry repeats an accepted
      request unchanged, a queued body carries the current rid of the stream, and the
      stanzas in the order in which they were first tried, accepted or not, followed by
      the queued ones are exactly those passed to `send`. */
  lemma {:induction false} RunsAreSound(c: Conn, es: seq<Event>)
    requires Sound(c) && IsRun(c, es)
    ensures Sound(After(c, es))
    decreases |es|
  {
    if es != [] {
      ReactSound(c, es[0]);
      RunsAreSound(React(c, es[0]), es[1..]);
    }
  }

  lemma SoundFromConnect(c: Conn, rid: int, es: seq<Event>)
    requires Unused(c) && IsRun(Connect(c, rid), es)
    ensures var p := After(Connect(c, rid), es).past; var b := After(Connect(c, rid), es).body;
      p.ended || (
        && |p.taken| == |p.firsts|
        && (forall i :: 0 <= i < |p.firsts| ==> p.firsts[i].rid == p.base + 1 + i)
        && (forall r :: r in p.retries ==> r in Accepted(p.firsts, p.taken))
        && p.given == Flatten(p.firsts) + Waiting(b)
        && (b.Some? ==> b.value.rid == p.base + 1 + |p.firsts|))
  {
    ConnectSound(c, rid);
    RunsAreSound(Connect(c, rid), es);
    var p := After(Connect(c, rid), es).past;
    if !p.ended {
      forall r | r in p.retries
        ensures r in Accepted(p.firsts, p.taken)
      {
        AcceptedAre(p.firsts, p.taken, r);
      }
    }
  }

  // ---------------------------------------------------------------- what a refusal costs

  /** The stanzas of the queued body. */
  function Waiting(body: Option<Body>): seq<Stanza> {
    if body.Some? then body.value.stanzas else []
  }

  lemma {:induction false} AcceptedAre(firsts: seq<Body>, taken: seq<bool>, r: Body)
    requires |taken| == |firsts|
    ensures r in Accepted(firsts, taken) <==> WentOut(firsts, taken, r)
  {
    if firsts != [] {
      var n := |firsts| - 1;
      AcceptedAre(firsts[..n], taken[..n], r);
      if WentOut(firsts[..n], taken[..n], r) {
        var i :| 0 <= i < n && firsts[..n][i] == r && taken[..n][i];
        assert firsts[i] == r && taken[i];
      }
    }
  }

  /** A first transmission with stanzas was refused. */
  ghost predicate LostStanza(firsts: seq<Body>, taken: seq<bool>)
    requires |taken| == |firsts|
  {
    exists i :: 0 <= i < |firsts| && !taken[i] && firsts[i].stanzas != []
  }

  /** What reached the connector is all that was tried, unless stanzas were refused. */
  lemma {:induction false} RefusalsLose(firsts: seq<Body>, taken: seq<bool>)
    requires |taken| == |firsts|
    ensures |Flatten(Accepted(firsts, taken))| <= |Flatten(firsts)|
    ensures |Flatten(Accepted(firsts, taken))| == |Flatten(firsts)| <==> !LostStanza(firsts, taken)
    ensures !LostStanza(firsts, taken) ==> Flatten(Accepted(firsts, taken)) == Flatten(firsts)
  {
    if firsts != [] {
      var n := |firsts| - 1;
      var a := Accepted(firsts[..n], taken[..n]);
      RefusalsLose(firsts[..n], taken[..n]);
      FlattenSnoc(a, firsts[n]);
      assert Accepted(firsts, taken) == if taken[n] then a + [firsts[n]] else a;
      LostEarlier(firsts, taken);
    }
  }

  lemma LostEarlier(firsts: seq<Body>, taken: seq<bool>)
    requires |taken| == |firsts| && firsts != []
    ensures var n := |firsts| - 1;
      LostStanza(firsts, taken) <==> LostStanza(firsts[..n], taken[..n]) || (!taken[n] && firsts[n].stanzas != [])
  {
    var n := |firsts| - 1;
    if LostStanza(firsts[..n], taken[..n]) {
      var i :| 0 <= i < n && !taken[..n][i] && firsts[..n][i].stanzas != [];
      assert !taken[i] && firsts[i].stanzas != [];
    }
    if LostStanza(firsts, taken) {
      var i :| 0 <= i < |firsts| && !taken[i] && firsts[i].stanzas != [];
      assert i < n ==> !taken[..n][i] && firsts[..n][i].stanzas != [];
    }
  }

  /** Main result on stanzas: until `disconnect`, what the connector accepted, followed
      by what is queued, is what was given, exactly when the connector refused no first
      transmission that carried a stanza. */
  lemma ConservedUnlessRefused(c: Conn, rid: int, es: seq<Event>)
    requires Unused(c) && IsRun(Connect(c, rid), es)
    ensures var d := After(Connect(c, rid), es); var p := d.past;
      p.ended || (
        && |p.taken| == |p.firsts|
        && (p.given == Flatten(Accepted(p.firsts, p.taken)) + Waiting(d.body) <==> !LostStanza(p.firsts, p.taken)))
  {
    SoundFromConnect(c, rid, es);
    var d := After(Connect(c, rid), es);
    if !d.past.ended {
      RefusalsLose(d.past.firsts, d.past.taken);
    }
  }

  /** The rids that reach the connector have no gap exactly when no refused request is
      followed by an accepted one. */
  lemma {:induction false} GapAfterRefusal(base: int, firsts: seq<Body>, taken: seq<bool>)
    requires |taken| == |firsts| && forall i :: 0 <= i < |firsts| ==> firsts[i].rid == base + 1 + i
    ensures var a := Accepted(firsts, taken);
      && |a| <= |firsts|
      && ((forall i :: 0 <= i < |a| ==> a[i].rid == base + 1 + i)
        <==> forall i, j :: 0 <= i < j < |firsts| && taken[j] ==> taken[i])
      && (|a| == |firsts| <==> forall i :: 0 <= i < |firsts| ==> taken[i])
  {
    if firsts != [] {
      var n := |firsts| - 1;
      var a, b := Accepted(firsts[..n], taken[..n]), Accepted(firsts, taken);
      GapAfterRefusal(base, firsts[..n], taken[..n]);
      assert forall i :: 0 <= i < n ==> taken[..n][i] == taken[i];
      assert forall i :: 0 <= i < |a| ==> b[i] == a[i];
      if taken[n] {
        assert b[|a|] == firsts[n];
      }
    }
  }

  /** Main result on rids: until `disconnect`, those that reach the connector are
      consecutive exactly when no refused request was followed by an accepted one. */
  lemma RidsWithoutGap(c: Conn, rid: int, es: seq<Event>)
    requires Unused(c) && IsRun(Connect(c, rid), es)
    ensures var p := After(Connect(c, rid), es).past;
      p.ended || (
        && |p.taken| == |p.firsts|
        && var a := Accepted(p.firsts, p.taken);
           ((forall i :: 0 <= i < |a| ==> a[i].rid == p.base + 1 + i)
             <==> forall i, j :: 0 <= i < j < |p.firsts| && p.taken[j] ==> p.taken[i]))
  {
    SoundFromConnect(c, rid, es);
    var p := After(Connect(c, rid), es).past;
    if !p.ended {
      GapAfterRefusal(p.base, p.firsts, p.taken);
    }
  }

  /** The opening request, as `connect` sends it. */
  function Opener(rid: int): Body {
    NewBody(rid + 1, None).(opening := true)
  }

  lemma Connected(c: Conn, rid: int)
    requires Unused(c) && c.maxRequests >= 1 && !Refused(c)
    ensures var d := Connect(c, rid);
      && d.past == History(rid, [Opener(rid)], [true], [], [], multiset{Opener(rid)}, false)
      && d == c.(active := true, stream := Some(Stream(rid + 1, None)), connections := 1,
                 refusals := if c.refusals == [] then [] else c.refusals[1..], past := d.past)
  {
  }

  lemma TwoEvents(c: Conn, e: Event, f: Event)
    requires Possible(c, e) && Possible(React(c, e), f)
    ensures IsRun(c, [e, f]) && After(c, [e, f]) == React(React(c, e), f)
  {
    var d := React(React(c, e), f);
    assert [e, f][1..] == [f] && [f][1..] == [];
    assert IsRun(d, []) && After(d, []) == d;
  }

  /** An input that leaves a gap: the connector throws on the second of three requests. */
  lemma RefusalLeavesGap(c: Conn, rid: int, p: Stanza, q: Stanza)
    requires Unused(c) && c.maxRequests >= 2 && c.refusals == [false, true, false]
    ensures var es := [Call(ApiSend(p)), Call(ApiSend(q))]; var d := After(Connect(c, rid), es);
      && IsRun(Connect(c, rid), es) && !d.past.ended && |d.past.firsts| == |d.past.taken| == 3
      && d.past.taken == [true, false, true] && d.past.firsts[1].stanzas == [p] && d.past.firsts[2].stanzas == [q]
      && d.past.firsts[2].rid == rid + 3
  {
    Connected(c, rid);
    var c0 := Connect(c, rid);
    TwoEvents(c0, Call(ApiSend(p)), Call(ApiSend(q)));
    var c1 := Send(c0, p);
    assert c1.past.taken == [true] + [false] && c1.connections == 1 && c1.refusals == [false];
  }

  /** What is lost stays lost: a refused request is not outstanding, is never sent
      again, and no timer will send it again. */
  lemma RefusedIsGone(c: Conn, i: nat)
    requires Sound(c) && !c.past.ended && i < |c.past.firsts| && !c.past.taken[i]
    ensures var r := c.past.firsts[i]; r !in c.past.retries && r !in c.past.outstanding && Retry(r) !in c.timers
  {
    var firsts := c.past.firsts;
    assert forall j :: 0 <= j < |firsts| && firsts[j] == firsts[i] ==> j == i;
  }

  /** An input on which stanzas are lost: on an idle stream the connector throws on the
      request that carries the packet. */
  lemma RefusedSendLoses(c: Conn, packet: Stanza)
    requires Sound(c) && !c.past.ended && c.body.None? && MaySend(c) && Refused(c)
    ensures var d := Send(c, packet); var n := |c.past.firsts|;
      && d.past.given == c.past.given + [packet] && d.body.None?
      && |d.past.firsts| == |d.past.taken| == n + 1 && !d.past.taken[n] && d.past.firsts[n].stanzas == [packet]
      && LostStanza(d.past.firsts, d.past.taken)
      && d.past.outstanding == c.past.outstanding && d.timers == c.timers && d.past.retries == c.past.retries
      && d.past.given != Flatten(Accepted(d.past.firsts, d.past.taken))
  {
    var d := Send(c, packet);
    DoSound(c, ApiSend(packet));
    var n := |c.past.firsts|;
    assert !d.past.taken[n] && d.past.firsts[n].stanzas == [packet];
    RefusalsLose(d.past.firsts, d.past.taken);
  }

  /** `disconnect` discards a queued body together with its rid: the terminating
      request continues the sequence of rids exactly when nothing was queued. */
  lemma TerminateRid(c: Conn)
    requires Sound(c) && !c.past.ended
    ensures var d := Disconnect(c); var n := |c.past.firsts|;
      && |d.past.firsts| == n + 1 && d.past.firsts[n].terminate
      && (d.past.firsts[n].rid == c.past.base + 1 + n <==> c.body.None?)
  {
  }

  /** An input on which a rid is skipped: a packet is queued when `disconnect` is called. */
  lemma DisconnectSkipsRid(c: Conn, rid: int, p: Stanza)
    requires Unused(c) && c.maxRequests == 1 && c.refusals == []
    ensures var es := [Call(ApiSend(p)), Call(ApiDisconnect)]; var d := After(Connect(c, rid), es);
      && IsRun(Connect(c, rid), es) && |d.past.firsts| == 2
      && d.past.firsts[0].rid == rid + 1 && d.past.firsts[1].rid == rid + 3 && d.past.firsts[1].terminate
  {
    Connected(c, rid);
    TwoEvents(Connect(c, rid), Call(ApiSend(p)), Call(ApiDisconnect));
  }

  // ---------------------------------------------------------------- no idle stall

  /** An active, established stream with nothing outstanding. */
  predicate IdleStream(c: Conn)
    requires c.stream.Some?
  {
    c.active && c.stream.value.sid.Some? && c.connections == 0
  }

  /** Events of an error-free run.  Handlers may call anything while an answer is
      dispatched; outside, `restartStream` is not called on an idle stream. */
  predicate Calm(c: Conn, e: Event)
    requires c.stream.Some?
  {
    match e
    case Call(a) => a.ApiRestart? ==> !IdleStream(c)
    case Response(status, answer, _) => (status == 200 || status == 0) && answer.Some?
    case Error(_) => false
    case Tick(_) => true
  }

  ghost predicate CalmRun(c: Conn, es: seq<Event>)
    requires IsRun(c, es)
    decreases |es|
  {
    es == [] || (Calm(c, es[0]) && CalmRun(React(c, es[0]), es[1..]))
  }

  /** The books of an error-free run are in order. */
  ghost predicate Accounted(c: Conn) {
    && c.stream.Some? && c.refusals == [] && c.maxRequests >= 1
    && (c.past.ended || (
          && c.errors == 0
          && c.connections == |c.past.outstanding|
          && (forall t :: t in c.timers ==> t.KeepAlive?)))
  }

  /** An idle, established stream has nothing queued and its keep-alive is armed. */
  ghost predicate Awake(c: Conn)
    requires c.stream.Some?
  {
    IdleStream(c) ==> c.body.None? && KeepAlive(c.stream.value.rid) in c.timers
  }

  ghost predicate Calmly(c: Conn) {
    Accounted(c) && (c.past.ended || (!c.collecting && Awake(c)))
  }

  lemma SendBodyAccounted(c: Conn, force: bool)
    requires c.body.Some? && Accounted(c)
    ensures Accounted(SendBody(c, force))
  {
  }

  lemma SendAccounted(c: Conn, p: Stanza)
    requires Accounted(c)
    ensures Accounted(Send(c, p)) && Send(c, p).past.ended == c.past.ended && Send(c, p).collecting == c.collecting
  {
  }

  lemma PauseAccounted(c: Conn)
    requires Accounted(c)
    ensures Accounted(Pause(c)) && Pause(c).past.ended == c.past.ended && Pause(c).collecting == c.collecting
  {
  }

  lemma DoAccounted(c: Conn, a: Api)
    requires Accounted(c)
    ensures Accounted(Do(c, a)) && (Do(c, a).past.ended || Do(c, a).collecting == c.collecting)
    ensures c.past.ended ==> Do(c, a).past.ended
  {
    match a
    case ApiSend(p) => SendAccounted(c, p);
    case ApiPause => PauseAccounted(c);
    case ApiRestart | ApiDisconnect | ApiConnect(_) =>
  }

  lemma {:induction false} DoAllAccounted(c: Conn, calls: seq<Api>)
    requires Accounted(c)
    ensures Accounted(DoAll(c, calls)) && (c.past.ended ==> DoAll(c, calls).past.ended)
    decreases |calls|
  {
    if calls != [] {
      DoAccounted(c, calls[0]);
      DoAllAccounted(Do(c, calls[0]), calls[1..]);
    }
  }

  lemma {:induction false} DispatchAccounted(c: Conn, stanzas: seq<seq<Api>>)
    requires Accounted(c)
    ensures Accounted(Dispatch(c, stanzas)) && (c.past.ended ==> Dispatch(c, stanzas).past.ended)
    decreases |stanzas|
  {
    if stanzas != [] {
      DoAllAccounted(c, stanzas[0]);
      DispatchAccounted(DoAll(c, stanzas[0]), stanzas[1..]);
    }
  }

  lemma ContinueWakes(c: Conn)
    requires Accounted(c) && !c.collecting
    ensures Calmly(Continue(c))
  {
    if c.connections == 0 && c.body.Some? {
      SendBodyAccounted(c, false);
    }
  }

  lemma HandleWakes(c: Conn, a: Answer)
    requires Accounted(c) && (c.past.ended || !c.collecting)
    ensures Calmly(Handle(c, a))
  {
    if !a.terminate {
      if c.stream.value.sid.None? {
        DoAllAccounted(c.(stream := Some(c.stream.value.(sid := a.sid))), a.onConnected);
      }
      var c1 := Established(c, a).(collecting := true);
      DispatchAccounted(c1, a.stanzas);
      ContinueWakes(Dispatch(c1, a.stanzas).(collecting := false));
    }
  }

  lemma ResponseWakes(c: Conn, status: int, answer: Option<Answer>, request: Body)
    requires Calmly(c) && request in c.past.outstanding
    requires (status == 200 || status == 0) && answer.Some?
    ensures Calmly(OnResponse(c, status, answer, request))
  {
    var c1 := Taken(c, request);
    assert Accounted(c1);
    if c.active {
      HandleWakes(c1, answer.value);
    }
  }

  lemma DoWakes(c: Conn, a: Api)
    requires Calmly(c) && (a.ApiRestart? ==> c.past.ended || !IdleStream(c))
    ensures Calmly(Do(c, a))
  {
    DoAccounted(c, a);
  }

  /** Main result on `restartStream`: outside dispatch it keeps the stream awake exactly
      when the stream is not idle. */
  lemma RestartKeepsCalm(c: Conn)
    requires Calmly(c) && !c.past.ended
    ensures Calmly(RestartStream(c)) <==> !IdleStream(c)
  {
  }

  /** A keep-alive that fires, with what is left of the timers. */
  lemma FireWakes(c: Conn, t: Timer)
    requires Accounted(c) && t.KeepAlive? && (c.past.ended || !c.collecting)
    requires c.past.ended || (IdleStream(c)
      ==> c.body.None? && (t.rid == c.stream.value.rid || KeepAlive(c.stream.value.rid) in c.timers))
    ensures Calmly(Fire(c, t))
  {
    if c.body.None? && c.stream.value.rid == t.rid {
      SendBodyAccounted(WithBody(c), false);
    }
  }

  lemma TickWakes(c: Conn, i: nat)
    requires Calmly(c) && i < |c.timers|
    ensures Calmly(React(c, Tick(i)))
  {
    var c1 := c.(timers := TimersWithout(c.timers, i));
    assert Accounted(c1);
    if c.timers[i].KeepAlive? {
      FireWakes(c1, c.timers[i]);
    }
  }

  lemma ReactWakes(c: Conn, e: Event)
    requires Calmly(c) && Possible(c, e) && Calm(c, e)
    ensures Calmly(React(c, e))
  {
    match e
    case Call(a) => DoWakes(c, a);
    case Response(status, answer, request) => ResponseWakes(c, status, answer, request);
    case Tick(i) => TickWakes(c, i);
  }

  /** Main result: in every error-free run an active, established stream without an
      outstanding request has no queued body, and a keep-alive armed for its rid. */
  lemma {:induction false} NoIdleStall(c: Conn, es: seq<Event>)
    requires Calmly(c) && IsRun(c, es) && CalmRun(c, es)
    ensures Calmly(After(c, es))
    decreases |es|
  {
    if es != [] {
      ReactWakes(c, es[0]);
      NoIdleStall(React(c, es[0]), es[1..]);
    }
  }

  lemma NoIdleStallFromConnect(c: Conn, rid: int, es: seq<Event>)
    requires Unused(c) && c.refusals == [] && c.maxRequests >= 1
    requires IsRun(Connect(c, rid), es) && CalmRun(Connect(c, rid), es)
    ensures var d := After(Connect(c, rid), es);
      d.stream.Some? && (
        d.past.ended || (
          (d.active && d.stream.value.sid.Some? && d.past.outstanding == multiset{}) ==>
            d.body.None? && KeepAlive(d.stream.value.rid) in d.timers))
  {
    NoIdleStall(Connect(c, rid), es);
  }

  /** The armed keep-alive does its work: when it fires, a new request goes out. */
  lemma KeepAliveSends(c: Conn, i: nat)
    requires Calmly(c) && !c.past.ended && c.active && c.stream.value.sid.Some? && c.connections == 0
    requires i < |c.timers| && c.timers[i] == KeepAlive(c.stream.value.rid)
    ensures var d := React(c, Tick(i));
      d.connections == 1 && d.past.firsts == c.past.firsts + [NewBody(c.stream.value.rid + 1, c.stream.value.sid)]
  {
  }

  /** What happens otherwise: called while the stream is idle, `restartStream` queues a
      body that no timer and no answer will ever flush. */
  lemma RestartWhileIdleStalls(c: Conn)
    requires Calmly(c) && !c.past.ended && IdleStream(c)
    requires c.timers == [KeepAlive(c.stream.value.rid)]
    ensures var d := After(c, [Call(ApiRestart), Tick(0)]);
      IsRun(c, [Call(ApiRestart), Tick(0)])
      && d.active && d.body.Some? && d.past.outstanding == multiset{} && d.timers == []
  {
    var c1 := React(c, Call(ApiRestart));
    assert [Call(ApiRestart), Tick(0)][1..] == [Tick(0)];
    var d := React(c1, Tick(0));
    assert After(c1, [Tick(0)]) == After(d, []);
  }

  // ---------------------------------------------------------------- the counter of connections

  /** How many transport errors a run has. */
  function Errors(es: seq<Event>): nat
    decreases |es|
  {
    if es == [] then 0 else (if es[0].Error? then 1 else 0) + Errors(es[1..])
  }

  /** The counter is `k` above the requests that can still be called back. */
  ghost predicate Counts(c: Conn, k: int) {
    c.stream.Some? && (c.past.ended || (c.connections == |c.past.outstanding| + k && Begun(c, k)))
  }

  /** Before the first transmission there is nothing to call back and nothing to retry. */
  ghost predicate Begun(c: Conn, k: int) {
    c.past.firsts == [] ==> k == 0 && c.past.outstanding == multiset{} && OnlyKeepAlives(c)
  }

  lemma TransmitCounts(c: Conn, request: Body, retry: bool, k: int)
    requires Counts(c, k) && (retry ==> c.past.ended || c.past.firsts != [])
    ensures Counts(Transmit(c, request, retry), k)
  {
  }

  lemma DoCounts(c: Conn, a: Api, k: int)
    requires Counts(c, k)
    ensures Counts(Do(c, a), k)
  {
    match a
    case ApiSend(p) =>
      var c1 := WithBody(c);
      var b := c1.body.value.(stanzas := c1.body.value.stanzas + [p]);
      TransmitCounts(c1.(body := None, past := c1.past.(given := c1.past.given + [p])), b, false, k);
    case ApiPause =>
      if c.stream.value.sid.Some? {
        var c1 := WithBody(c);
        TransmitCounts(c1.(body := None), c1.body.value.(pause := true), false, k);
      }
    case ApiRestart =>
    case ApiDisconnect =>
    case ApiConnect(rid) =>
      ConnectCounts(c, rid, k);
  }

  lemma ConnectCounts(c: Conn, rid: int, k: int)
    requires Counts(c, k)
    ensures Counts(Connect(c, rid), k)
  {
    if !c.active && !Restarted(c.past, rid).ended {
      var opening := NewBody(rid + 1, None).(opening := true);
      var d := c.(errors := 0, active := true, stream := Some(Stream(rid + 1, None)), connections := 0,
                  body := None, past := Restarted(c.past, rid));
      assert Counts(d, k);
      TransmitCounts(d, opening, false, k);
    }
  }

  lemma {:induction false} DoAllCounts(c: Conn, calls: seq<Api>, k: int)
    requires Counts(c, k)
    ensures Counts(DoAll(c, calls), k)
    decreases |calls|
  {
    if calls != [] {
      DoCounts(c, calls[0], k);
      DoAllCounts(Do(c, calls[0]), calls[1..], k);
    }
  }

  lemma {:induction false} DispatchCounts(c: Conn, stanzas: seq<seq<Api>>, k: int)
    requires Counts(c, k)
    ensures Counts(Dispatch(c, stanzas), k)
    decreases |stanzas|
  {
    if stanzas != [] {
      DoAllCounts(c, stanzas[0], k);
      DispatchCounts(DoAll(c, stanzas[0]), stanzas[1..], k);
    }
  }

  lemma HandleCounts(c: Conn, a: Answer, k: int)
    requires Counts(c, k)
    ensures Counts(Handle(c, a), k)
  {
    if !a.terminate {
      if c.stream.value.sid.None? {
        DoAllCounts(c.(stream := Some(c.stream.value.(sid := a.sid))), a.onConnected, k);
      }
      var c1 := Established(c, a).(collecting := true);
      DispatchCounts(c1, a.stanzas, k);
      var c2 := Dispatch(c1, a.stanzas).(collecting := false);
      if c2.body.Some? {
        TransmitCounts(c2.(body := None), c2.body.value, false, k);
      }
    }
  }

  lemma ResponseCounts(c: Conn, status: int, answer: Option<Answer>, request: Body, k: int)
    requires Counts(c, k) && request in c.past.outstanding
    ensures Counts(OnResponse(c, status, answer, request), k)
  {
    var c1 := Taken(c, request);
    assert c.past.ended || c.past.firsts != [];
    assert Counts(c1, k);
    if c.active && (status == 200 || status == 0) && answer.Some? {
      HandleCounts(c1, answer.value, k);
    }
  }

  lemma ReactCounts(c: Conn, e: Event, k: int)
    requires Counts(c, k) && Possible(c, e)
    ensures Counts(React(c, e), if e.Error? then k + 1 else k)
  {
    match e
    case Call(a) => DoCounts(c, a, k);
    case Response(status, answer, request) => ResponseCounts(c, status, answer, request, k);
    case Error(_) =>
    case Tick(i) => FireCounts(c, i, k);
  }

  lemma FireCounts(c: Conn, i: nat, k: int)
    requires Counts(c, k) && i < |c.timers|
    ensures Counts(React(c, Tick(i)), k)
  {
    var rest := TimersWithout(c.timers, i);
    assert c.timers[i] in c.timers;
    TickCounts(c.(timers := rest), c.timers[i], k);
  }

  lemma TickCounts(c: Conn, t: Timer, k: int)
    requires Counts(c, k) && (t.Retry? ==> c.past.ended || c.past.firsts != [])
    ensures Counts(Fire(c, t), k)
  {
    match t
    case Retry(request) => TransmitCounts(c, request, true, k);
    case KeepAlive(_) => TransmitCounts(WithBody(c).(body := None), WithBody(c).body.value, false, k);
  }

  lemma {:induction false} RunCounts(c: Conn, es: seq<Event>, k: int)
    requires Counts(c, k) && IsRun(c, es)
    ensures Counts(After(c, es), k + Errors(es))
    decreases |es|
  {
    if es != [] {
      ReactCounts(c, es[0], k);
      RunCounts(React(c, es[0]), es[1..], if es[0].Error? then k + 1 else k);
    }
  }

  /** Main result on the counter: over every run from `connect` to `disconnect`, refusals
      and retries included, it is above the requests that can still be called back by the
      number of transport errors, so it is right exactly when there was none. */
  lemma CounterCountsErrors(c: Conn, rid: int, es: seq<Event>)
    requires Unused(c) && IsRun(Connect(c, rid), es)
    ensures var d := After(Connect(c, rid), es);
      d.past.ended || (
        && d.connections == |d.past.outstanding| + Errors(es)
        && (d.connections == |d.past.outstanding| <==> forall i :: 0 <= i < |es| ==> !es[i].Error?))
  {
    RunCounts(Connect(c, rid), es, 0);
    NoErrors(es);
  }

  /** An input on which the counter is wrong: the transport of the opening request fails. */
  lemma ErrorMiscounts(c: Conn, rid: int)
    requires Unused(c) && c.maxRequests >= 1 && c.refusals == []
    ensures var es := [Error(Opener(rid))]; var d := After(Connect(c, rid), es);
      IsRun(Connect(c, rid), es) && !d.past.ended && d.connections == 1 && d.past.outstanding == multiset{}
  {
    Connected(c, rid);
    var c0 := Connect(c, rid);
    var e := Error(Opener(rid));
    assert [e][1..] == [];
    assert IsRun(React(c0, e), []) && After(React(c0, e), []) == React(c0, e);
  }

  lemma {:induction false} NoErrors(es: seq<Event>)
    ensures Errors(es) == 0 <==> forall i :: 0 <= i < |es| ==> !es[i].Error?
    decreases |es|
  {
    if es != [] {
      NoErrors(es[1..]);
      assert forall i :: 0 < i < |es| ==> es[i] == es[1..][i - 1];
    }
  }

  // ---------------------------------------------------------------- how many requests at once

  /** Calls that never force a request out. */
  predicate Polite(a: Api) {
    a.ApiSend? || a.ApiRestart?
  }

  predicate AllPolite(calls: seq<Api>) {
    forall i :: 0 <= i < |calls| ==> Polite(calls[i])
  }

  predicate PoliteAnswer(a: Answer) {
    !a.terminate && AllPolite(a.onConnected) && forall i :: 0 <= i < |a.stanzas| ==> AllPolite(a.stanzas[i])
  }

  /** From `c` to `d` some new requests went out, each counted, never above the limit. */
  ghost predicate Grew(c: Conn, d: Conn) {
    var p, q := c.past, d.past;
    && c.stream.Some? && d.stream.Some?
    && p.firsts <= q.firsts && q.base == p.base && q.ended == p.ended
    && d.connections == c.connections + |q.firsts| - |p.firsts|
    && q.outstanding == p.outstanding + multiset(q.firsts[|p.firsts|..])
    && (c.connections <= c.maxRequests ==> d.connections <= d.maxRequests)
    && d.maxRequests == c.maxRequests && d.errors == c.errors == 0 && d.refusals == c.refusals == []
    && d.collecting == c.collecting && d.active == c.active
  }

  lemma GrewTrans(c: Conn, d: Conn, e: Conn)
    requires Grew(c, d) && Grew(d, e)
    ensures Grew(c, e)
  {
    var a, b := |c.past.firsts|, |d.past.firsts|;
    assert e.past.firsts[a..] == d.past.firsts[a..] + e.past.firsts[b..];
  }

  predicate Ready(c: Conn) {
    c.stream.Some? && c.errors == 0 && c.refusals == []
  }

  lemma SendBodyGrew(c: Conn)
    requires c.body.Some? && Ready(c)
    ensures Grew(c, SendBody(c, false))
  {
    assert c.past.firsts[|c.past.firsts|..] == [];
    var f := c.past.firsts + [c.body.value];
    assert f[|c.past.firsts|..] == [c.body.value];
  }

  lemma DoGrew(c: Conn, a: Api)
    requires Ready(c) && Polite(a)
    ensures Grew(c, Do(c, a)) && Do(c, a).stream.value.sid == c.stream.value.sid
  {
    assert c.past.firsts[|c.past.firsts|..] == [];
    if a.ApiSend? {
      var c1 := WithBody(c);
      var b := c1.body.value;
      var c2 := c1.(body := Some(b.(stanzas := b.stanzas + [a.packet])),
        past := c1.past.(given := c1.past.given + [a.packet]));
      assert Grew(c, c2);
      SendBodyGrew(c2);
      GrewTrans(c, c2, SendBody(c2, false));
    }
  }

  lemma {:induction false} DoAllGrew(c: Conn, calls: seq<Api>)
    requires Ready(c) && AllPolite(calls)
    ensures Grew(c, DoAll(c, calls)) && DoAll(c, calls).stream.value.sid == c.stream.value.sid
    decreases |calls|
  {
    assert c.past.firsts[|c.past.firsts|..] == [];
    if calls != [] {
      var d := Do(c, calls[0]);
      DoGrew(c, calls[0]);
      DoAllGrew(d, calls[1..]);
      GrewTrans(c, d, DoAll(d, calls[1..]));
    }
  }

  lemma {:induction false} DispatchGrew(c: Conn, stanzas: seq<seq<Api>>)
    requires Ready(c) && forall i :: 0 <= i < |stanzas| ==> AllPolite(stanzas[i])
    ensures Grew(c, Dispatch(c, stanzas)) && Dispatch(c, stanzas).stream.value.sid == c.stream.value.sid
    decreases |stanzas|
  {
    assert c.past.firsts[|c.past.firsts|..] == [];
    if stanzas != [] {
      var d := DoAll(c, stanzas[0]);
      DoAllGrew(c, stanzas[0]);
      DispatchGrew(d, stanzas[1..]);
      GrewTrans(c, d, Dispatch(d, stanzas[1..]));
    }
  }

  lemma ContinueGrew(c: Conn)
    requires Ready(c)
    ensures Grew(c, Continue(c)) && Continue(c).stream.value.sid == c.stream.value.sid
  {
    assert c.past.firsts[|c.past.firsts|..] == [];
    if c.body.Some? {
      SendBodyGrew(c);
    }
  }

  lemma EstablishedGrew(c: Conn, a: Answer)
    requires Ready(c) && AllPolite(a.onConnected)
    ensures Grew(c, Established(c, a))
    ensures Established(c, a).stream.value.sid == if c.stream.value.sid.Some? then c.stream.value.sid else a.sid
  {
    assert c.past.firsts[|c.past.firsts|..] == [];
    if c.stream.value.sid.None? {
      var c0 := c.(stream := Some(c.stream.value.(sid := a.sid)));
      assert Grew(c, c0);
      DoAllGrew(c0, a.onConnected);
      GrewTrans(c, c0, DoAll(c0, a.onConnected));
    }
  }

  lemma HandleGrew(c: Conn, a: Answer)
    requires Ready(c) && PoliteAnswer(a) && !c.collecting
    ensures Grew(c, Handle(c, a))
    ensures Handle(c, a).stream.value.sid == if c.stream.value.sid.Some? then c.stream.value.sid else a.sid
  {
    EstablishedGrew(c, a);
    var c1 := Established(c, a);
    DispatchGrew(c1.(collecting := true), a.stanzas);
    var c2 := Dispatch(c1.(collecting := true), a.stanzas).(collecting := false);
    assert Grew(c1, c2);
    ContinueGrew(c2);
    GrewTrans(c, c1, c2);
    GrewTrans(c, c2, Continue(c2));
  }

  /** Polite handlers schedule nothing but keep-alives. */
  predicate OnlyKeepAlives(c: Conn) {
    forall t :: t in c.timers ==> t.KeepAlive?
  }

  lemma {:induction false} DoAllTimers(c: Conn, calls: seq<Api>)
    requires c.stream.Some? && AllPolite(calls)
    ensures DoAll(c, calls).timers == c.timers
    decreases |calls|
  {
    if calls != [] {
      assert Polite(calls[0]);
      DoAllTimers(Do(c, calls[0]), calls[1..]);
    }
  }

  lemma {:induction false} DispatchTimers(c: Conn, stanzas: seq<seq<Api>>)
    requires c.stream.Some? && forall i :: 0 <= i < |stanzas| ==> AllPolite(stanzas[i])
    ensures Dispatch(c, stanzas).timers == c.timers
    decreases |stanzas|
  {
    if stanzas != [] {
      DoAllTimers(c, stanzas[0]);
      DispatchTimers(DoAll(c, stanzas[0]), stanzas[1..]);
    }
  }

  lemma HandleTimers(c: Conn, a: Answer)
    requires c.stream.Some? && PoliteAnswer(a) && OnlyKeepAlives(c)
    ensures OnlyKeepAlives(Handle(c, a))
  {
    if c.stream.value.sid.None? {
      DoAllTimers(c.(stream := Some(c.stream.value.(sid := a.sid))), a.onConnected);
    }
    DispatchTimers(Established(c, a).(collecting := true), a.stanzas);
  }
}
