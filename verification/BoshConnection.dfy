/** `XmppBoshConnection` and `StreamSettings` as objects: every method updates
    the fields the way the program does and is proved to be the function of
    `BoshClient` of the same name on the value `View()`. */
module BoshConnection {
  import opened Options
  import B = BoshClient

  class StreamSettings {
    var rid: int
    var sid: Option<string>

    constructor (start: int)
      ensures rid == start && sid == None
    {
      rid, sid := start, None;
    }

    method GetNextRid() returns (r: int)
      modifies this
      ensures rid == old(rid) + 1 && r == rid && sid == old(sid)
    {
      rid := rid + 1;
      r := rid;
    }
  }

  class XmppBoshConnection {
    var active: bool
    var errors: nat
    var stream: StreamSettings?
    var currentBody: Option<B.Body>
    var activeConnections: int
    var shouldCollectResponses: bool
    const maxRequests: int
    // the services around the connection
    var timers: seq<B.Timer>
    var refusals: seq<bool>
    ghost var past: B.History

    ghost function View(): B.Conn
      reads this, stream
    {
      B.Conn(active, shouldCollectResponses, errors, activeConnections,
             if stream == null then None else Some(B.Stream(stream.rid, stream.sid)),
             currentBody, maxRequests, timers, refusals, past)
    }

    constructor (maxRequests: int, refusals: seq<bool>)
      ensures B.Unused(View()) && this.maxRequests == maxRequests && this.refusals == refusals
    {
      active, errors, stream, currentBody := false, 0, null, None;
      activeConnections, shouldCollectResponses := 0, false;
      this.maxRequests, this.refusals, timers := maxRequests, refusals, [];
      past := B.History(0, [], [], [], [], multiset{}, false);
    }

    // -------------------------------------------------------------- private methods

    method CreateBodyIfNeeded()
      requires stream != null
      modifies this, stream
      ensures View() == B.WithBody(old(View())) && stream == old(stream)
    {
      if currentBody.None? {
        var rid := stream.GetNextRid();
        currentBody := Some(B.NewBody(rid, stream.sid));
      }
    }

    /** send(String) */
    method SendRequest(request: B.Body, retry: bool)
      modifies this
      ensures View() == B.Transmit(old(View()), request, retry) && stream == old(stream)
    {
      var throws := refusals != [] && refusals[0];
      past := if retry then past.(retries := past.retries + [request])
              else past.(firsts := past.firsts + [request], taken := past.taken + [!throws]);
      activeConnections := activeConnections + 1;
      if refusals != [] {
        refusals := refusals[1..];
      }
      if throws {
        activeConnections := activeConnections - 1;
      } else {
        past := past.(outstanding := past.outstanding + multiset{request});
      }
    }

    method SendBody(force: bool)
      requires currentBody.Some?
      modifies this
      ensures View() == B.SendBody(old(View()), force) && stream == old(stream)
    {
      if force || (!shouldCollectResponses && active && activeConnections < maxRequests && errors == 0) {
        var request := currentBody.value;
        currentBody := None;
        SendRequest(request, false);
      }
    }

    method ContinueConnection()
      modifies this, stream
      ensures View() == B.Continue(old(View())) && stream == old(stream)
    {
      if stream != null && activeConnections == 0 {
        if currentBody.Some? {
          SendBody(false);
        } else {
          timers := timers + [B.KeepAlive(stream.rid)];
        }
      }
    }

    // -------------------------------------------------------------- public methods

    method Connect(rid: int)
      modifies this
      ensures View() == B.Connect(old(View()), rid)
      ensures old(active) || fresh(stream)
      ensures old(active) ==> stream == old(stream)
    {
      errors := 0;
      if !active {
        active := true;
        stream := new StreamSettings(rid);
        activeConnections := 0;
        var next := stream.GetNextRid();
        currentBody := Some(B.NewBody(next, None).(opening := true));
        past := B.Restarted(past, rid);
        SendBody(false);
      }
    }

    /** The handlers are those of the event that tells of the end of the connection. */
    method Disconnect(handlers: seq<B.Nested>)
      requires stream != null
      modifies this, stream
      ensures View() == B.DoAll(B.Disconnect(old(View())), B.Flat(handlers))
      ensures stream != null && (stream == old(stream) || fresh(stream))
      decreases handlers, 1
    {
      CloseStream();
      Fire(handlers);
    }

    /** `disconnect` up to its event. */
    method CloseStream()
      requires stream != null
      modifies this, stream
      ensures View() == B.Disconnect(old(View())) && stream == old(stream)
    {
      currentBody := None;
      CreateBodyIfNeeded();
      currentBody := Some(currentBody.value.(terminate := true));
      SendBody(true);
      active := false;
      stream.sid := None;
      past := past.(ended := true);
    }

    method Pause()
      modifies this, stream
      ensures View() == B.Pause(old(View())) && stream == old(stream)
    {
      if stream != null && stream.sid.Some? {
        CreateBodyIfNeeded();
        currentBody := Some(currentBody.value.(pause := true));
        SendBody(true);
      }
    }

    method RestartStream()
      requires stream != null
      modifies this, stream
      ensures View() == B.RestartStream(old(View())) && stream == old(stream)
    {
      CreateBodyIfNeeded();
      currentBody := Some(currentBody.value.(restart := true));
    }

    /** The handlers are those of the event that tells of the stanza sent. */
    method Send(packet: B.Stanza, handlers: seq<B.Nested>)
      requires stream != null
      modifies this, stream
      ensures View() == B.DoAll(B.Send(old(View()), packet), B.Flat(handlers))
      ensures stream != null && (stream == old(stream) || fresh(stream))
      decreases handlers, 1
    {
      AddAndFlush(packet);
      Fire(handlers);
    }

    /** `send` up to its event. */
    method AddAndFlush(packet: B.Stanza)
      requires stream != null
      modifies this, stream
      ensures View() == B.Send(old(View()), packet) && stream == old(stream)
    {
      CreateBodyIfNeeded();
      currentBody := Some(currentBody.value.(stanzas := currentBody.value.stanzas + [packet]));
      past := past.(given := past.given + [packet]);
      SendBody(false);
    }

    // -------------------------------------------------------------- callbacks

    /** One call made by an event handler, with the handlers that it calls in turn. */
    method Run(call: B.Nested)
      requires stream != null
      modifies this, stream
      ensures View() == B.DoAll(old(View()), B.FlatCall(call))
      ensures stream != null && (stream == old(stream) || fresh(stream))
      decreases call, 0
    {
      assert B.FlatCall(call)[0] == call.api;
      assert B.FlatCall(call)[1..] == if B.Fires(call.api) then B.Flat(call.handlers) else [];
      match call.api
      case ApiSend(p) => Send(p, call.handlers);
      case ApiRestart => RestartStream();
      case ApiPause => Pause();
      case ApiDisconnect => Disconnect(call.handlers);
      case ApiConnect(rid) => Connect(rid);
    }

    /** All handlers of one event. */
    method Fire(calls: seq<B.Nested>)
      requires stream != null
      modifies this, stream
      ensures View() == B.DoAll(old(View()), B.Flat(calls))
      ensures stream != null && (stream == old(stream) || fresh(stream))
      decreases calls, 0
    {
      var i := 0;
      while i < |calls|
        invariant 0 <= i <= |calls|
        invariant stream != null && (stream == old(stream) || fresh(stream))
        invariant B.DoAll(View(), B.Flat(calls[i..])) == B.DoAll(old(View()), B.Flat(calls))
      {
        assert calls[i..][1..] == calls[i + 1..];
        B.DoAllTogether(View(), B.FlatCall(calls[i]), B.Flat(calls[i + 1..]));
        Run(calls[i]);
        i := i + 1;
      }
    }

    /** The handlers of the end of the connection are called for a terminating answer. */
    method HandleResponse(reply: B.FullAnswer, onDisconnected: seq<B.Nested>)
      requires stream != null
      modifies this, stream
      ensures View() == B.Then(B.Handle(old(View()), B.Flattened(reply)), reply.terminate, onDisconnected)
      ensures stream != null && (stream == old(stream) || fresh(stream))
    {
      if reply.terminate {
        stream.sid := None;
        active := false;
        Fire(onDisconnected);
      } else {
        if stream.sid.None? {
          stream.sid := reply.sid;
          Fire(reply.onConnected);
        }
        shouldCollectResponses := true;
        DispatchAll(reply);
        shouldCollectResponses := false;
        ContinueConnection();
      }
    }

    /** The stanzas of an answer, one after the other, to their handlers. */
    method DispatchAll(reply: B.FullAnswer)
      requires stream != null
      modifies this, stream
      ensures View() == B.Dispatch(old(View()), B.Flattened(reply).stanzas)
      ensures stream != null && (stream == old(stream) || fresh(stream))
    {
      ghost var flat := B.Flattened(reply).stanzas;
      var i := 0;
      while i < |reply.stanzas|
        invariant 0 <= i <= |reply.stanzas| == |flat|
        invariant stream != null && (stream == old(stream) || fresh(stream))
        invariant B.Dispatch(View(), flat[i..]) == B.Dispatch(old(View()), flat)
      {
        assert flat[i..][1..] == flat[i + 1..] && flat[i] == B.Flat(reply.stanzas[i]);
        Fire(reply.stanzas[i]);
        i := i + 1;
      }
    }

    method CountError()
      modifies `errors
      ensures View() == old(View()).(errors := old(errors) + 1) && errors == old(errors) + 1
    {
      errors := errors + 1;
    }

    /** The body of onError, shared with onResponseReceived. */
    method Fail(request: B.Body, onDisconnected: seq<B.Nested>)
      requires stream != null
      modifies this, stream
      ensures View() == B.Then(B.Failed(old(View()), request), B.GivesUp(old(View())), onDisconnected)
      ensures stream != null && (stream == old(stream) || fresh(stream))
    {
      if active {
        CountError();
        if errors > B.MAX_RETRIES {
          Disconnect(onDisconnected);
        } else {
          timers := timers + [B.Retry(request)];
        }
      }
    }

    method OnError(request: B.Body, onDisconnected: seq<B.Nested>)
      requires stream != null
      modifies this, stream
      ensures View() == B.Then(B.OnError(old(View()), request), B.GivesUp(old(View())), onDisconnected)
      ensures stream != null && (stream == old(stream) || fresh(stream))
    {
      past := past.(outstanding := past.outstanding - multiset{request});
      Fail(request, onDisconnected);
    }

    method OnResponseReceived(status: int, reply: Option<B.FullAnswer>, request: B.Body, onDisconnected: seq<B.Nested>)
      requires stream != null
      modifies this, stream
      ensures var c, answer := old(View()), B.Parsed(reply);
        View() == B.Then(B.OnResponse(c, status, answer, request), B.Disconnects(c, status, answer), onDisconnected)
      ensures stream != null && (stream == old(stream) || fresh(stream))
    {
      CountDown(request);
      if active {
        OnActiveResponse(status, reply, request, onDisconnected);
      }
    }

    method CountDown(request: B.Body)
      modifies `past, `errors, `activeConnections
      ensures View() == B.Taken(old(View()), request)
    {
      past := past.(outstanding := past.outstanding - multiset{request});
      errors := 0;
      activeConnections := activeConnections - 1;
    }

    /** onResponseReceived on an active connection, whose errors were just cleared. */
    method OnActiveResponse(status: int, reply: Option<B.FullAnswer>, request: B.Body, onDisconnected: seq<B.Nested>)
      requires stream != null && active && errors == 0
      modifies this, stream
      ensures var c, answer := old(View()), B.Parsed(reply);
        View() == B.Then(B.Answered(c, status, answer, request), B.Disconnects(c, status, answer), onDisconnected)
      ensures stream != null && (stream == old(stream) || fresh(stream))
    {
      if status == 404 {
        Disconnect(onDisconnected);
      } else if status != 200 && status != 0 {
        Fail(request, onDisconnected);
      } else if reply.Some? {
        errors := 0;
        HandleResponse(reply.value, onDisconnected);
      } else {
        Fail(request, onDisconnected);
      }
    }

    /** A scheduled action runs. */
    method RunTimer(t: B.Timer)
      requires stream != null
      modifies this, stream
      ensures View() == B.Fire(old(View()), t) && stream == old(stream)
    {
      match t
      case Retry(request) => SendRequest(request, true);
      case KeepAlive(rid) =>
        if currentBody.None? && stream.rid == rid {
          CreateBodyIfNeeded();
          SendBody(false);
        }
    }
  }
}
