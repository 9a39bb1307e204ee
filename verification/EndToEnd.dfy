/** The whole system. */
module EndToEnd {
  // The emite client talking to the connection manager over a network that
  // reorders messages: what the XMPP server receives is, in order and without loss
  // or repetition, what the application passed to `send`.

  import opened Options
  import opened Collections
  import B = BoshServer
  import opened Network
  import opened BoshClient

  type Payload = seq<Stanza>

  datatype System = System(conn: Conn, net: Net)

  /** The client has called `connect`, with the positive rid its settings draw; the connection manager has created the
      session for the opening request and is about to answer it. */
  function Opened(conn: Conn, rid: int, hold: nat): System {
    System(Connect(conn, rid), Network.Start(rid + 1, hold))
  }

  datatype SysStep =
    | Packet(packet: Stanza)               // the application sends a stanza on an established stream
    | Timeout(i: nat)                      // a scheduled action runs
    | Reply(rid: int, answer: Answer)      // a response reaches the client
    | Elsewhere(st: NetStep)               // the network or a worker makes a step

  predicate WasSent(p: History, rid: int) {
    0 <= rid - p.base - 1 < |p.firsts|
  }

  /** The request that went out under a rid. */
  function BodyOf(p: History, rid: int): Body
    requires WasSent(p, rid)
  {
    p.firsts[rid - p.base - 1]
  }

  predicate Can(s: System, step: SysStep) {
    && s.conn.stream.Some?
    && match step
       case Packet(_) => s.conn.stream.value.sid.Some?
       case Timeout(i) => i < |s.conn.timers|
       case Reply(rid, answer) =>
         && rid in s.net.replies && WasSent(s.conn.past, rid) && BodyOf(s.conn.past, rid) in s.conn.past.outstanding
         && PoliteAnswer(answer) && answer.sid.Some?
       case Elsewhere(st) => !st.Issue? && !st.Receive? && CanStep(s.net, st)
  }

  function EventOf(s: System, step: SysStep): Event
    requires Can(s, step) && !step.Elsewhere?
  {
    match step
    case Packet(p) => Call(ApiSend(p))
    case Timeout(i) => Tick(i)
    case Reply(rid, answer) => Response(200, Some(answer), BodyOf(s.conn.past, rid))
  }

  /** The requests the client sent put on the network. */
  function IssueAll(n: Net, payloads: seq<Payload>): Net
    decreases |payloads|
  {
    if payloads == [] then n else IssueAll(Issued(n, payloads[0]), payloads[1..])
  }

  function Payloads(bodies: seq<Body>): seq<Payload> {
    seq(|bodies|, i requires 0 <= i < |bodies| => bodies[i].stanzas)
  }

  function Sent(c: Conn, d: Conn): seq<Payload>
  {
    if |c.past.firsts| <= |d.past.firsts| then Payloads(d.past.firsts[|c.past.firsts|..]) else []
  }

  function Advance(s: System, step: SysStep): System
    requires Can(s, step)
  {
    match step
    case Elsewhere(st) => s.(net := Next(s.net, st))
    case Reply(rid, answer) =>
      var d := React(s.conn, EventOf(s, step));
      System(d, IssueAll(Next(s.net, Receive(rid)), Sent(s.conn, d)))
    case _ =>
      var d := React(s.conn, EventOf(s, step));
      System(d, IssueAll(s.net, Sent(s.conn, d)))
  }

  // ---------------------------------------------------------------- the link

  /** The requests the client waits for are those under the open rids. */
  ghost predicate Booked(p: History, open: set<int>) {
    && (forall b :: b in p.outstanding ==>
          p.outstanding[b] == 1 && b.rid in open && WasSent(p, b.rid) && b == BodyOf(p, b.rid))
    && (forall r :: r in open ==> WasSent(p, r) && BodyOf(p, r) in p.outstanding)
  }

  /** What the client sent after the opening request is what the network was given. */
  ghost predicate SameRequests(p: History, n: Net) {
    && n.first == p.base + 1
    && |p.firsts| == |n.issued| + 1
    && p.firsts[0].stanzas == []
    && (forall i :: 0 <= i < |n.issued| ==> n.issued[i] == p.firsts[i + 1].stanzas)
  }

  ghost predicate Linked(c: Conn, n: Net) {
    SameRequests(c.past, n) && Booked(c.past, n.open) && c.connections == |n.open|
  }

  ghost predicate SystemInv(s: System) {
    && Sound(s.conn) && !s.conn.past.ended && Ready(s.conn) && !s.conn.collecting && s.conn.active
    && s.conn.connections <= s.conn.maxRequests <= 2
    && OnlyKeepAlives(s.conn)
    && NetOk(s.net) && Linked(s.conn, s.net)
  }

  /** `m` is the net after these requests were issued. */
  ghost predicate HasIssued(n: Net, payloads: seq<Payload>, m: Net) {
    && m.first == n.first && m.issued == n.issued + payloads && m.server == n.server
    && |m.open| == |n.open| + |payloads|
    && forall r :: r in m.open <==> r in n.open || Last(n) < r <= Last(n) + |payloads|
  }

  lemma IssueOne(n: Net, p: Payload)
    requires NetOk(n) && |n.open| < 2
    ensures NetOk(Issued(n, p)) && HasIssued(n, [p], Issued(n, p))
  {
    StepKeepsOk(n, Issue(p));
    OpensOne(n, p);
  }

  lemma OpensOne(n: Net, p: Payload)
    requires forall r :: r in n.open ==> r <= Last(n)
    ensures HasIssued(n, [p], Issued(n, p))
  {
    assert Last(n) + 1 !in n.open;
  }

  lemma HasIssuedNothing(n: Net)
    ensures HasIssued(n, [], n)
  {
    assert n.issued + [] == n.issued;
  }

  lemma HasIssuedBoth(n: Net, p: seq<Payload>, m: Net, q: seq<Payload>, l: Net)
    requires HasIssued(n, p, m) && HasIssued(m, q, l)
    ensures HasIssued(n, p + q, l)
  {
    assert n.issued + p + q == n.issued + (p + q);
  }

  lemma {:induction false} IssueAllKeeps(n: Net, payloads: seq<Payload>)
    requires NetOk(n) && |n.open| + |payloads| <= 2
    ensures NetOk(IssueAll(n, payloads)) && HasIssued(n, payloads, IssueAll(n, payloads))
    decreases |payloads|
  {
    if payloads == [] {
      HasIssuedNothing(n);
    } else {
      var m := Issued(n, payloads[0]);
      IssueOne(n, payloads[0]);
      IssueAllKeeps(m, payloads[1..]);
      HasIssuedBoth(n, [payloads[0]], m, payloads[1..], IssueAll(m, payloads[1..]));
      assert [payloads[0]] + payloads[1..] == payloads;
    }
  }

  lemma TickGrew(c: Conn, i: nat)
    requires Ready(c) && !c.collecting && c.active && i < |c.timers| && c.timers[i].KeepAlive?
    ensures Grew(c, React(c, Tick(i)))
    ensures forall t :: t in React(c, Tick(i)).timers ==> t in c.timers
  {
    var c1 := c.(timers := TimersWithout(c.timers, i));
    assert c.past.firsts[|c.past.firsts|..] == [];
    assert Grew(c, c1);
    if c.body.None? && c.stream.value.rid == c.timers[i].rid {
      var c2 := WithBody(c1);
      assert Grew(c1, c2);
      SendBodyGrew(c2);
      GrewTrans(c, c1, c2);
      GrewTrans(c, c2, SendBody(c2, false));
    }
  }

  lemma SentPayloads(c: Conn, d: Conn)
    requires c.past.firsts <= d.past.firsts
    ensures |Sent(c, d)| == |d.past.firsts| - |c.past.firsts|
    ensures forall i :: 0 <= i < |Sent(c, d)| ==> Sent(c, d)[i] == d.past.firsts[|c.past.firsts| + i].stanzas
  {
  }

  /** The requests added between two histories. */
  function Fresh(p: History, q: History): seq<Body>
    requires |p.firsts| <= |q.firsts|
  {
    q.firsts[|p.firsts|..]
  }

  ghost predicate Consecutive(p: History) {
    forall i :: 0 <= i < |p.firsts| ==> p.firsts[i].rid == p.base + 1 + i
  }

  lemma FreshRid(p: History, q: History, b: Body)
    requires Consecutive(q) && |p.firsts| <= |q.firsts| && p.base == q.base && b in Fresh(p, q)
    ensures p.base + |p.firsts| < b.rid <= q.base + |q.firsts| && b == BodyOf(q, b.rid)
  {
    var k :| 0 <= k < |Fresh(p, q)| && Fresh(p, q)[k] == b;
    assert b == q.firsts[|p.firsts| + k];
  }

  lemma FreshBody(p: History, q: History, r: int)
    requires |p.firsts| <= |q.firsts| && p.base == q.base && p.base + |p.firsts| < r <= q.base + |q.firsts|
    ensures BodyOf(q, r) in Fresh(p, q)
  {
    assert Fresh(p, q)[r - p.base - 1 - |p.firsts|] == BodyOf(q, r);
  }

  lemma FreshOnce(p: History, q: History, b: Body)
    requires Consecutive(q) && |p.firsts| <= |q.firsts|
    ensures multiset(Fresh(p, q))[b] == if b in Fresh(p, q) then 1 else 0
  {
    var f := Fresh(p, q);
    forall i, j | 0 <= i < j < |f|
      ensures f[i] != f[j]
    {
      assert f[i].rid != f[j].rid;
    }
    OccursOnce(f, b);
  }

  lemma WaitingGrows(p: History, q: History, open: set<int>, b: Body)
    requires Booked(p, open) && Consecutive(q) && p.firsts <= q.firsts && p.base == q.base
    requires b in p.outstanding || b in Fresh(p, q)
    ensures p.outstanding[b] + multiset(Fresh(p, q))[b] == 1
    ensures WasSent(q, b.rid) && b == BodyOf(q, b.rid)
    ensures b.rid in open || p.base + |p.firsts| < b.rid <= q.base + |q.firsts|
  {
    FreshOnce(p, q, b);
    if b in Fresh(p, q) {
      FreshRid(p, q, b);
      assert b in p.outstanding ==> b.rid <= p.base + |p.firsts|;
    }
  }

  lemma OpenGrows(p: History, q: History, open: set<int>, r: int)
    requires Booked(p, open) && Consecutive(q) && p.firsts <= q.firsts && p.base == q.base
    requires q.outstanding == p.outstanding + multiset(Fresh(p, q))
    requires r in open || p.base + |p.firsts| < r <= q.base + |q.firsts|
    ensures WasSent(q, r) && BodyOf(q, r) in q.outstanding
  {
    if r in open {
      assert BodyOf(q, r) == BodyOf(p, r);
    } else {
      FreshBody(p, q, r);
    }
  }

  lemma BookedGrows(p: History, q: History, open: set<int>, more: set<int>)
    requires Booked(p, open) && Consecutive(q) && p.firsts <= q.firsts && p.base == q.base
    requires q.outstanding == p.outstanding + multiset(Fresh(p, q))
    requires forall r :: r in more <==> r in open || p.base + |p.firsts| < r <= q.base + |q.firsts|
    ensures Booked(q, more)
  {
    forall b | b in q.outstanding
      ensures q.outstanding[b] == 1 && b.rid in more && WasSent(q, b.rid) && b == BodyOf(q, b.rid)
    {
      WaitingGrows(p, q, open, b);
    }
    forall r | r in more
      ensures WasSent(q, r) && BodyOf(q, r) in q.outstanding
    {
      OpenGrows(p, q, open, r);
    }
  }

  /** New requests of the client, put on the network, keep both sides in step. */
  lemma GrowthKeepsLink(c: Conn, d: Conn, n: Net)
    requires Grew(c, d) && RidInv(d) && NetOk(n) && Linked(c, n)
    requires c.connections <= c.maxRequests <= 2
    ensures NetOk(IssueAll(n, Sent(c, d))) && Linked(d, IssueAll(n, Sent(c, d)))
  {
    SentPayloads(c, d);
    IssueAllKeeps(n, Sent(c, d));
    var m := IssueAll(n, Sent(c, d));
    assert SameRequests(d.past, m);
    BookedGrows(c.past, d.past, n.open, m.open);
  }

  lemma BookedDrops(p: History, open: set<int>, rid: int)
    requires Booked(p, open) && rid in open && Consecutive(p)
    ensures Booked(p.(outstanding := p.outstanding - multiset{BodyOf(p, rid)}), open - {rid})
  {
    assert BodyOf(p, rid).rid == rid;
  }

  /** Taking a response off the network. */
  lemma ReplyKeepsLink(c: Conn, n: Net, rid: int)
    requires NetOk(n) && Linked(c, n) && RidInv(c) && rid in n.replies
    ensures NetOk(Next(n, Receive(rid))) && Linked(Taken(c, BodyOf(c.past, rid)), Next(n, Receive(rid)))
  {
    StepKeepsOk(n, Receive(rid));
    ReplyKeepsBooks(c, n, rid, Next(n, Receive(rid)));
  }

  lemma ReplyKeepsBooks(c: Conn, n: Net, rid: int, m: Net)
    requires Linked(c, n) && RidInv(c) && rid in n.open
    requires m.first == n.first && m.issued == n.issued && m.open == n.open - {rid}
    ensures Linked(Taken(c, BodyOf(c.past, rid)), m)
  {
    BookedDrops(c.past, n.open, rid);
  }

  // ---------------------------------------------------------------- whole system

  lemma PacketKeeps(s: System, packet: Stanza)
    requires SystemInv(s) && Can(s, Packet(packet))
    ensures SystemInv(Advance(s, Packet(packet)))
  {
    DoSound(s.conn, ApiSend(packet));
    DoGrew(s.conn, ApiSend(packet));
    GrowthKeepsLink(s.conn, Do(s.conn, ApiSend(packet)), s.net);
  }

  lemma TimeoutKeeps(s: System, i: nat)
    requires SystemInv(s) && Can(s, Timeout(i))
    ensures SystemInv(Advance(s, Timeout(i)))
  {
    ReactSound(s.conn, Tick(i));
    TickGrew(s.conn, i);
    GrowthKeepsLink(s.conn, React(s.conn, Tick(i)), s.net);
  }

  /** The client's share of a reply. */
  lemma ReplyToClient(c: Conn, b: Body, answer: BoshClient.Answer)
    requires Sound(c) && Ready(c) && !c.collecting && c.active && OnlyKeepAlives(c) && PoliteAnswer(answer)
    ensures OnResponse(c, 200, Some(answer), b) == Handle(Taken(c, b), answer)
    ensures Grew(Taken(c, b), Handle(Taken(c, b), answer)) && Sound(Handle(Taken(c, b), answer))
    ensures OnlyKeepAlives(Handle(Taken(c, b), answer))
  {
    var c1 := Taken(c, b);
    CalledBackSound(c, b);
    HandleGrew(c1, answer);
    HandleSound(c1, answer);
    HandleTimers(c1, answer);
  }

  lemma ReplyAdvances(s: System, rid: int, answer: BoshClient.Answer)
    requires SystemInv(s) && Can(s, Reply(rid, answer))
    ensures var c1 := Taken(s.conn, BodyOf(s.conn.past, rid)); var d := Handle(c1, answer);
      Advance(s, Reply(rid, answer)) == System(d, IssueAll(Next(s.net, Receive(rid)), Sent(c1, d)))
  {
    ReplyToClient(s.conn, BodyOf(s.conn.past, rid), answer);
  }

  lemma ReplyKeeps(s: System, rid: int, answer: BoshClient.Answer)
    requires SystemInv(s) && Can(s, Reply(rid, answer))
    ensures SystemInv(Advance(s, Reply(rid, answer)))
  {
    var b := BodyOf(s.conn.past, rid);
    var c1 := Taken(s.conn, b);
    var d := Handle(c1, answer);
    ReplyToClient(s.conn, b, answer);
    ReplyAdvances(s, rid, answer);
    ReplyKeepsLink(s.conn, s.net, rid);
    GrowthKeepsLink(c1, d, Next(s.net, Receive(rid)));
    Assemble(c1, d, IssueAll(Next(s.net, Receive(rid)), Sent(c1, d)));
  }

  lemma Assemble(c1: Conn, d: Conn, n: Net)
    requires !c1.past.ended && !c1.collecting && c1.active && c1.connections <= c1.maxRequests <= 2
    requires Grew(c1, d) && Sound(d) && OnlyKeepAlives(d) && NetOk(n) && Linked(d, n)
    ensures SystemInv(System(d, n))
  {
  }

  lemma ElsewhereKeeps(s: System, st: NetStep)
    requires SystemInv(s) && Can(s, Elsewhere(st))
    ensures SystemInv(Advance(s, Elsewhere(st)))
  {
    StepKeepsOk(s.net, st);
  }

  lemma AdvanceKeeps(s: System, step: SysStep)
    requires SystemInv(s) && Can(s, step)
    ensures SystemInv(Advance(s, step))
  {
    match step
    case Packet(p) => PacketKeeps(s, p);
    case Timeout(i) => TimeoutKeeps(s, i);
    case Reply(rid, answer) => ReplyKeeps(s, rid, answer);
    case Elsewhere(st) => ElsewhereKeeps(s, st);
  }

  // ---------------------------------------------------------------- nothing stays queued

  /** An idle stream is awake, and a stream without sid waits for its first answer. */
  ghost predicate Lively(s: System) {
    Calmly(s.conn) && (s.conn.stream.value.sid.None? ==> s.net.first in s.net.open)
  }

  lemma {:induction false} IssueAllOpens(n: Net, payloads: seq<Payload>)
    ensures n.open <= IssueAll(n, payloads).open && IssueAll(n, payloads).first == n.first
    decreases |payloads|
  {
    if payloads != [] {
      IssueAllOpens(Issued(n, payloads[0]), payloads[1..]);
    }
  }

  lemma ReplyLively(s: System, rid: int, answer: BoshClient.Answer)
    requires SystemInv(s) && Lively(s) && Can(s, Reply(rid, answer))
    ensures Lively(Advance(s, Reply(rid, answer)))
  {
    var b := BodyOf(s.conn.past, rid);
    ReplyToClient(s.conn, b, answer);
    HandleGrew(Taken(s.conn, b), answer);
    ResponseWakes(s.conn, 200, Some(answer), b);
  }

  lemma PacketLively(s: System, p: Stanza)
    requires SystemInv(s) && Lively(s) && Can(s, Packet(p))
    ensures Lively(Advance(s, Packet(p)))
  {
    DoWakes(s.conn, ApiSend(p));
    IssueAllOpens(s.net, Sent(s.conn, Do(s.conn, ApiSend(p))));
  }

  lemma TickKeepsSid(c: Conn, i: nat)
    requires c.stream.Some? && i < |c.timers|
    ensures React(c, Tick(i)).stream.Some? && React(c, Tick(i)).stream.value.sid == c.stream.value.sid
  {
  }

  lemma TimeoutLively(s: System, i: nat)
    requires SystemInv(s) && Lively(s) && Can(s, Timeout(i))
    ensures Lively(Advance(s, Timeout(i)))
  {
    var d := React(s.conn, Tick(i));
    TickWakes(s.conn, i);
    TickKeepsSid(s.conn, i);
    IssueAllOpens(s.net, Sent(s.conn, d));
    assert Advance(s, Timeout(i)) == System(d, IssueAll(s.net, Sent(s.conn, d)));
  }

  lemma ElsewhereLively(s: System, st: NetStep)
    requires Lively(s) && Can(s, Elsewhere(st))
    ensures Lively(Advance(s, Elsewhere(st)))
  {
  }

  lemma AdvanceLively(s: System, step: SysStep)
    requires SystemInv(s) && Lively(s) && Can(s, step)
    ensures Lively(Advance(s, step))
  {
    match step
    case Packet(p) => PacketLively(s, p);
    case Timeout(i) => TimeoutLively(s, i);
    case Reply(rid, answer) => ReplyLively(s, rid, answer);
    case Elsewhere(st) => ElsewhereLively(s, st);
  }

  lemma NothingQueued(s: System)
    requires SystemInv(s) && Lively(s) && s.net.open == {}
    ensures s.conn.body.None?
  {
  }

  /** The opening request is the one that both sides know of. */
  lemma OpenedIsLinked(conn: Conn, rid: int, hold: nat)
    requires Unused(conn) && conn.refusals == [] && 1 <= conn.maxRequests
    ensures Linked(Connect(conn, rid), Network.Start(rid + 1, hold))
  {
    var opening := NewBody(rid + 1, None).(opening := true);
    assert Connect(conn, rid).past == History(rid, [opening], [true], [], [], multiset{opening}, false);
  }

  lemma ConnectIsReady(conn: Conn, rid: int)
    requires Unused(conn) && conn.refusals == [] && 1 <= conn.maxRequests
    ensures var c := Connect(conn, rid);
      && Sound(c) && !c.past.ended && Ready(c) && !c.collecting && c.active && c.connections == 1
      && c.maxRequests == conn.maxRequests && OnlyKeepAlives(c) && Calmly(c)
  {
    ConnectSound(conn, rid);
  }

  lemma FineTogether(c: Conn, n: Net)
    requires Sound(c) && !c.past.ended && Ready(c) && !c.collecting && c.active && c.connections <= c.maxRequests <= 2
    requires OnlyKeepAlives(c) && Calmly(c) && NetOk(n) && Linked(c, n) && n.first in n.open
    ensures SystemInv(System(c, n)) && Lively(System(c, n))
  {
  }

  lemma OpenedIsFine(conn: Conn, rid: int, hold: nat)
    requires Unused(conn) && conn.refusals == [] && 1 <= conn.maxRequests <= 2 && rid >= 0
    ensures SystemInv(Opened(conn, rid, hold)) && Lively(Opened(conn, rid, hold))
  {
    var s := Opened(conn, rid, hold);
    ConnectIsReady(conn, rid);
    StartOfNet(rid + 1, hold);
    OpenedIsLinked(conn, rid, hold);
    FineTogether(s.conn, s.net);
    assert System(s.conn, s.net) == s;
  }

  ghost predicate IsSysRun(s: System, steps: seq<SysStep>)
    decreases |steps|
  {
    steps == [] || (Can(s, steps[0]) && IsSysRun(Advance(s, steps[0]), steps[1..]))
  }

  ghost function SysAfter(s: System, steps: seq<SysStep>): System
    requires IsSysRun(s, steps)
    decreases |steps|
  {
    if steps == [] then s else SysAfter(Advance(s, steps[0]), steps[1..])
  }

  lemma {:induction false} RunsKeepSystem(s: System, steps: seq<SysStep>)
    requires SystemInv(s) && Lively(s) && IsSysRun(s, steps)
    ensures SystemInv(SysAfter(s, steps)) && Lively(SysAfter(s, steps))
    decreases |steps|
  {
    if steps != [] {
      AdvanceKeeps(s, steps[0]);
      AdvanceLively(s, steps[0]);
      RunsKeepSystem(Advance(s, steps[0]), steps[1..]);
    }
  }

  /** Everything written to the XMPP server so far. */
  function Received(log: seq<(int, Payload)>): seq<Stanza> {
    if log == [] then [] else Received(log[..|log| - 1]) + log[|log| - 1].1
  }

  lemma {:induction false} FlattenPrefix(bodies: seq<Body>, k: nat)
    requires k <= |bodies|
    ensures Flatten(bodies[..k]) <= Flatten(bodies)
    decreases |bodies| - k
  {
    if k < |bodies| {
      assert bodies[..k + 1][..k] == bodies[..k];
      FlattenPrefix(bodies, k + 1);
    } else {
      assert bodies[..k] == bodies;
    }
  }

  lemma {:induction false} ReceivedIsFlat(bodies: seq<Body>, log: seq<(int, Payload)>)
    requires 0 < |bodies| && |log| < |bodies| && bodies[0].stanzas == []
    requires forall i :: 0 <= i < |log| ==> log[i].1 == bodies[i + 1].stanzas
    ensures Received(log) == Flatten(bodies[..|log| + 1])
  {
    var k := |log|;
    assert bodies[..k + 1][..k] == bodies[..k];
    if k > 0 {
      ReceivedIsFlat(bodies, log[..k - 1]);
    }
  }

  lemma InOrder(s: System)
    requires SystemInv(s) && Lively(s)
    ensures Received(s.net.server.line.log) <= s.conn.past.given
    ensures s.net.open == {} ==> Received(s.net.server.line.log) == s.conn.past.given
  {
    var log, bodies := s.net.server.line.log, s.conn.past.firsts;
    ReceivedIsFlat(bodies, log);
    FlattenPrefix(bodies, |log| + 1);
    if s.net.open == {} {
      AtRestAllForwarded(s.net);
      NothingQueued(s);
      assert bodies[..|bodies|] == bodies;
    }
  }

  /** In a polling session a worker finds an empty request too frequent. */
  predicate SysThrowsOut(step: SysStep) {
    step.Elsewhere? && ThrowsOut(step.st)
  }

  lemma {:induction false} IssueAllElsewhere(n: Net, payloads: seq<Payload>)
    ensures IssueAll(n, payloads).server == n.server
    decreases |payloads|
  {
    if payloads != [] {
      IssueAllElsewhere(Issued(n, payloads[0]), payloads[1..]);
    }
  }

  /** What the client does leaves the server alone. */
  lemma ServerAlone(s: System, step: SysStep)
    requires Can(s, step) && !step.Elsewhere?
    ensures Advance(s, step).net.server == s.net.server
  {
    match step
    case Packet(p) => IssueAllElsewhere(s.net, Sent(s.conn, React(s.conn, EventOf(s, step))));
    case Timeout(i) => IssueAllElsewhere(s.net, Sent(s.conn, React(s.conn, EventOf(s, step))));
    case Reply(rid, answer) =>
      IssueAllElsewhere(Next(s.net, Receive(rid)), Sent(s.conn, React(s.conn, EventOf(s, step))));
  }

  lemma AdvanceThrows(s: System, step: SysStep)
    requires SystemInv(s) && Can(s, step)
    ensures Advance(s, step).net.server.policy == s.net.server.policy
    ensures NetInv(Advance(s, step).net) <==> NetInv(s.net) && !SysThrowsOut(step)
  {
    if step.Elsewhere? {
      StepKeepsOk(s.net, step.st);
    } else {
      ServerAlone(s, step);
      AdvanceKeeps(s, step);
    }
  }

  predicate SomeoneThrown(steps: seq<SysStep>) {
    exists i :: 0 <= i < |steps| && SysThrowsOut(steps[i])
  }

  lemma SomeoneThrownOf(steps: seq<SysStep>)
    requires steps != []
    ensures SomeoneThrown(steps) <==> SysThrowsOut(steps[0]) || SomeoneThrown(steps[1..])
  {
    if SomeoneThrown(steps[1..]) {
      var i :| 0 <= i < |steps[1..]| && SysThrowsOut(steps[1..][i]);
      assert SysThrowsOut(steps[i + 1]);
    }
    if SomeoneThrown(steps) {
      var i :| 0 <= i < |steps| && SysThrowsOut(steps[i]);
      assert i > 0 ==> SysThrowsOut(steps[1..][i - 1]);
    }
  }

  /** The session lives on exactly in runs in which nobody is thrown out. */
  lemma {:induction false} AliveAfter(s: System, steps: seq<SysStep>)
    requires SystemInv(s) && IsSysRun(s, steps)
    ensures NetInv(SysAfter(s, steps).net) <==> NetInv(s.net) && !SomeoneThrown(steps)
    decreases |steps|
  {
    if steps != [] {
      AdvanceKeeps(s, steps[0]);
      AdvanceThrows(s, steps[0]);
      SomeoneThrownOf(steps);
      AliveAfter(Advance(s, steps[0]), steps[1..]);
    }
  }

  /** Nobody is thrown out of a session that is not a polling one. */
  lemma {:induction false} NotThrown(s: System, steps: seq<SysStep>)
    requires SystemInv(s) && IsSysRun(s, steps) && NetInv(s.net) && s.net.server.policy.hold > 0
    ensures !SomeoneThrown(steps)
    decreases |steps|
  {
    if steps != [] {
      if SysThrowsOut(steps[0]) {
        ThrowsOutWhen(s.net, steps[0].st);
      }
      AdvanceKeeps(s, steps[0]);
      AdvanceThrows(s, steps[0]);
      SomeoneThrownOf(steps);
      NotThrown(Advance(s, steps[0]), steps[1..]);
    }
  }

  /** Main result: in every run of client, network and connection manager, what has
      been written to the XMPP server is a prefix of what the application passed to
      `send`, in the same order; and no request is refused on the way, unless the client
      polls too frequently. */
  lemma EndToEndOrder(conn: Conn, rid: int, hold: nat, steps: seq<SysStep>)
    requires Unused(conn) && conn.refusals == [] && 1 <= conn.maxRequests <= 2 && rid >= 0
    requires IsSysRun(Opened(conn, rid, hold), steps)
    ensures var s := SysAfter(Opened(conn, rid, hold), steps);
      && Received(s.net.server.line.log) <= s.conn.past.given
      && (NetInv(s.net) <==> !SomeoneThrown(steps)) && (hold > 0 || Blanks(s.net.issued) <= 1 ==> NetInv(s.net))
  {
    OpenedIsFine(conn, rid, hold);
    StartOfNet(rid + 1, hold);
    RunsKeepSystem(Opened(conn, rid, hold), steps);
    AliveAfter(Opened(conn, rid, hold), steps);
    if hold > 0 {
      NotThrown(Opened(conn, rid, hold), steps);
    }
    InOrder(SysAfter(Opened(conn, rid, hold), steps));
  }

  /** Once no request is open the XMPP server has received exactly what was passed
      to `send`. */
  lemma EndToEndComplete(conn: Conn, rid: int, hold: nat, steps: seq<SysStep>)
    requires Unused(conn) && conn.refusals == [] && 1 <= conn.maxRequests <= 2 && rid >= 0
    requires IsSysRun(Opened(conn, rid, hold), steps)
    ensures var s := SysAfter(Opened(conn, rid, hold), steps);
      s.net.open == {} ==> Received(s.net.server.line.log) == s.conn.past.given
  {
    OpenedIsFine(conn, rid, hold);
    RunsKeepSystem(Opened(conn, rid, hold), steps);
    InOrder(SysAfter(Opened(conn, rid, hold), steps));
  }

  // ---------------------------------------------------------------- coming to rest

  /** The session lives and nobody has missed the bell. */
  ghost predicate Healthy(n: Net) {
    !n.server.life.closed && !Missed(n)
  }

  lemma SickIsOpen(n: Net)
    requires NetOk(n) && !Healthy(n)
    ensures n.open != {}
  {
    if Missed(n) && NetInv(n) {
      var w: nat :| w < |n.server.workers| && MissedAt(n, w);
      assert WorkerInv(n, w);
    }
  }

  /** The second request enters the monitor before the creator's mark, or the client is
      thrown out. */
  predicate Spoils(s: System, step: SysStep)
    requires Can(s, step)
  {
    step.Elsewhere? && (TooEarly(s.net, step.st) || ThrowsOut(step.st))
  }

  lemma AdvanceSpoils(s: System, step: SysStep)
    requires SystemInv(s) && Can(s, step)
    ensures Healthy(Advance(s, step).net) <==> Healthy(s.net) && !Spoils(s, step)
  {
    if step.Elsewhere? {
      StepSpoils(s.net, step.st);
    } else {
      ServerAlone(s, step);
      assert forall w :: 0 <= w < |s.net.server.workers|
               ==> (MissedAt(Advance(s, step).net, w) <==> MissedAt(s.net, w));
    }
  }

  lemma StepSpoils(n: Net, st: NetStep)
    requires NetOk(n) && CanStep(n, st)
    ensures Healthy(Next(n, st)) <==> Healthy(n) && !TooEarly(n, st) && !ThrowsOut(st)
  {
    StepKeepsOk(n, st);
    if NetInv(n) && !ThrowsOut(st) {
      MissedWhen(n, st);
    }
  }

  ghost predicate SomeSpoils(s: System, steps: seq<SysStep>)
    requires IsSysRun(s, steps)
    decreases |steps|
  {
    steps != [] && (Spoils(s, steps[0]) || SomeSpoils(Advance(s, steps[0]), steps[1..]))
  }

  lemma {:induction false} HealthyAfter(s: System, steps: seq<SysStep>)
    requires SystemInv(s) && Lively(s) && IsSysRun(s, steps)
    ensures Healthy(SysAfter(s, steps).net) <==> Healthy(s.net) && !SomeSpoils(s, steps)
    decreases |steps|
  {
    if steps != [] {
      AdvanceKeeps(s, steps[0]);
      AdvanceLively(s, steps[0]);
      AdvanceSpoils(s, steps[0]);
      HealthyAfter(Advance(s, steps[0]), steps[1..]);
    }
  }

  /** An answer that brings nothing. */
  const BARE: Answer := Answer(false, Some(""), [], [])

  function Queued(c: Conn): nat {
    if c.body.Some? then 1 else 0
  }

  /** A bare answer queues nothing, and sends something only if that was queued. */
  lemma BareAnswer(c: Conn)
    requires Ready(c) && !c.collecting && c.active && c.maxRequests >= 1
    ensures var d := Handle(c, BARE);
      && d.past.given == c.past.given && d.maxRequests == c.maxRequests
      && (Queued(d) < Queued(c) || (d.body == c.body && d.past.firsts == c.past.firsts))
  {
  }

  /** The answer to a request that was answered can be delivered, and leads nearer to rest. */
  lemma BareReply(s: System, rid: int)
    requires SystemInv(s) && Lively(s) && rid in s.net.replies && NetInv(s.net)
    ensures Can(s, Reply(rid, BARE))
    ensures var t := Advance(s, Reply(rid, BARE));
      && t.conn.past.given == s.conn.past.given
      && (Queued(t.conn) < Queued(s.conn) || (Queued(t.conn) == Queued(s.conn) && Closer(t.net, s.net)))
  {
    assert rid in s.net.open;
    var c1 := Taken(s.conn, BodyOf(s.conn.past, rid));
    ReplyAdvances(s, rid, BARE);
    BareAnswer(c1);
    StepIsCloser(s.net, Receive(rid));
  }

  /** What brings the system nearer to rest. */
  lemma Nearer(s: System) returns (step: SysStep)
    requires SystemInv(s) && Lively(s) && Healthy(s.net) && s.net.open != {}
    ensures Can(s, step) && !step.Packet? && !Spoils(s, step)
    ensures var t := Advance(s, step);
      && t.conn.past.given == s.conn.past.given
      && (Queued(t.conn) < Queued(s.conn) || (Queued(t.conn) == Queued(s.conn) && Closer(t.net, s.net)))
  {
    var st := LowestCanMove(s.net);
    if st.Receive? {
      step := Reply(st.rid, BARE);
      BareReply(s, st.rid);
    } else {
      step := Elsewhere(st);
      StepIsCloser(s.net, st);
    }
  }

  /** Without further packets everything open can be answered, and what was passed to
      `send` be received. */
  ghost predicate CanSettle(s: System) {
    exists steps :: IsSysRun(s, steps) && Settled(s, steps)
  }

  ghost predicate Settled(s: System, steps: seq<SysStep>)
    requires IsSysRun(s, steps)
  {
    var t := SysAfter(s, steps);
    && (forall i :: 0 <= i < |steps| ==> !steps[i].Packet?)
    && t.net.open == {} && t.conn.past.given == s.conn.past.given
      && Received(t.net.server.line.log) == s.conn.past.given
  }

  lemma SettledLater(s: System, step: SysStep, steps: seq<SysStep>)
    requires Can(s, step) && !step.Packet? && Advance(s, step).conn.past.given == s.conn.past.given
    requires IsSysRun(Advance(s, step), steps) && Settled(Advance(s, step), steps)
    ensures IsSysRun(s, [step] + steps) && Settled(s, [step] + steps)
  {
    assert ([step] + steps)[1..] == steps;
  }

  lemma {:induction false} Settles(s: System) returns (steps: seq<SysStep>)
    requires SystemInv(s) && Lively(s) && Healthy(s.net)
    ensures IsSysRun(s, steps) && Settled(s, steps)
    decreases Queued(s.conn), Last(s.net) - s.net.server.line.lastDone, Weight(s.net)
  {
    if s.net.open == {} {
      steps := [];
      InOrder(s);
    } else {
      var step := Nearer(s);
      AdvanceKeeps(s, step);
      AdvanceLively(s, step);
      AdvanceSpoils(s, step);
      var rest := Settles(Advance(s, step));
      SettledLater(s, step, rest);
      steps := [step] + rest;
    }
  }

  lemma NeverSettles(s: System)
    requires SystemInv(s) && Lively(s) && !Healthy(s.net)
    ensures !CanSettle(s)
  {
    forall steps | IsSysRun(s, steps)
      ensures SysAfter(s, steps).net.open != {}
    {
      RunsKeepSystem(s, steps);
      HealthyAfter(s, steps);
      SickIsOpen(SysAfter(s, steps).net);
    }
  }

  /** Main result on progress: after a run of the whole system, everything passed to `send`
      can come to be received, without further packets, if and only if in the run the second
      request did not enter the monitor before the creator's mark and no empty request was
      found too frequent. */
  lemma SettlesExactly(conn: Conn, rid: int, hold: nat, steps: seq<SysStep>)
    requires Unused(conn) && conn.refusals == [] && 1 <= conn.maxRequests <= 2 && rid >= 0
    requires IsSysRun(Opened(conn, rid, hold), steps)
    ensures CanSettle(SysAfter(Opened(conn, rid, hold), steps)) <==> !SomeSpoils(Opened(conn, rid, hold), steps)
  {
    var s := Opened(conn, rid, hold);
    OpenedIsFine(conn, rid, hold);
    StartOfNet(rid + 1, hold);
    RunsKeepSystem(s, steps);
    HealthyAfter(s, steps);
    if Healthy(SysAfter(s, steps).net) {
      var more := Settles(SysAfter(s, steps));
    } else {
      NeverSettles(SysAfter(s, steps));
    }
  }

  // ---------------------------------------------------------------- a client that polls

  function Elsewheres(steps: seq<NetStep>): seq<SysStep> {
    seq(|steps|, i requires 0 <= i < |steps| => Elsewhere(steps[i]))
  }

  /** Steps of network and workers are steps of the system. */
  lemma {:induction false} ElsewhereRun(s: System, steps: seq<NetStep>)
    requires IsNetRun(s.net, steps) && Inner(steps) && s.conn.stream.Some?
    ensures IsSysRun(s, Elsewheres(steps)) && SysAfter(s, Elsewheres(steps)) == s.(net := NetAfter(s.net, steps))
    decreases |steps|
  {
    if steps != [] {
      assert Elsewheres(steps)[1..] == Elsewheres(steps[1..]);
      ElsewhereRun(Advance(s, Elsewhere(steps[0])), steps[1..]);
    }
  }

  lemma {:induction false} SysTogether(s: System, a: seq<SysStep>, b: seq<SysStep>)
    requires IsSysRun(s, a) && IsSysRun(SysAfter(s, a), b)
    ensures IsSysRun(s, a + b) && SysAfter(s, a + b) == SysAfter(SysAfter(s, a), b)
    decreases |a|
  {
    if a == [] {
      assert a + b == b;
    } else {
      assert (a + b)[0] == a[0] && (a + b)[1..] == a[1..] + b;
      SysTogether(Advance(s, a[0]), a[1..], b);
    }
  }

  lemma OneSysStep(s: System, step: SysStep)
    requires Can(s, step)
    ensures IsSysRun(s, [step]) && SysAfter(s, [step]) == Advance(s, step)
  {
    assert [step][1..] == [];
    assert IsSysRun(Advance(s, step), []);
  }

  /** No packet is given and no answer brings anything. */
  predicate Uneventful(steps: seq<SysStep>) {
    forall i :: 0 <= i < |steps| ==> !steps[i].Packet? && (steps[i].Reply? ==> steps[i].answer == BARE)
  }

  ghost predicate AtRest(s: System) {
    SystemInv(s) && Lively(s) && NetInv(s.net) && Resting(s.net)
  }

  /** At rest the keep-alive of the client goes out as an empty request. */
  lemma KeepAliveGoesOut(s: System) returns (i: nat)
    requires AtRest(s)
    ensures Can(s, Timeout(i))
    ensures Advance(s, Timeout(i)).net == Issued(s.net, []) && Queued(Advance(s, Timeout(i)).conn) == 0
  {
    assert KeepAlive(s.conn.stream.value.rid) in s.conn.timers;
    i :| 0 <= i < |s.conn.timers| && s.conn.timers[i] == KeepAlive(s.conn.stream.value.rid);
    KeepAliveSends(s.conn, i);
    var d := React(s.conn, Tick(i));
    OnePayload(s.conn, d, NewBody(s.conn.stream.value.rid + 1, s.conn.stream.value.sid));
    IssuesOne(s.net, []);
  }

  lemma OnePayload(c: Conn, d: Conn, b: Body)
    requires d.past.firsts == c.past.firsts + [b]
    ensures Sent(c, d) == [b.stanzas]
  {
    assert d.past.firsts[|c.past.firsts|..] == [b];
  }

  lemma IssuesOne(n: Net, p: Payload)
    ensures IssueAll(n, [p]) == Issued(n, p)
  {
    assert [p][1..] == [];
    assert IssueAll(Issued(n, p), []) == Issued(n, p);
  }

  /** The keep-alive on its way to its turn. */
  lemma KeepAliveTravels(s: System) returns (steps: seq<SysStep>, w: nat)
    requires SystemInv(s) && Lively(s) && NetInv(s.net) && PollSent(s.net)
    ensures IsSysRun(s, steps) && Uneventful(steps)
    ensures var t := SysAfter(s, steps);
      && SystemInv(t) && Lively(t) && NetInv(t.net) && Polling(t.net, w, B.Forwarding) && SameSession(s.net, t.net)
      && t.conn == s.conn
  {
    var a;
    a, w := PollComesToTurn(s.net);
    ElsewhereRun(s, a);
    RunsKeepSystem(s, Elsewheres(a));
    steps := Elsewheres(a);
  }

  /** From rest, the keep-alive goes out. */
  lemma KeepAliveStarts(s: System) returns (steps: seq<SysStep>)
    requires AtRest(s)
    ensures IsSysRun(s, steps) && Uneventful(steps)
    ensures var t := SysAfter(s, steps);
      && SystemInv(t) && Lively(t) && NetInv(t.net) && PollSent(t.net) && SameSession(s.net, t.net)
      && Queued(t.conn) == 0
  {
    var i := KeepAliveGoesOut(s);
    AdvanceKeeps(s, Timeout(i));
    AdvanceLively(s, Timeout(i));
    PollGoesOut(s.net);
    OneSysStep(s, Timeout(i));
    steps := [Timeout(i)];
  }

  lemma KeepAliveComes(s: System) returns (steps: seq<SysStep>, w: nat)
    requires AtRest(s)
    ensures IsSysRun(s, steps) && Uneventful(steps)
    ensures var t := SysAfter(s, steps);
      && SystemInv(t) && Lively(t) && NetInv(t.net) && Polling(t.net, w, B.Forwarding) && SameSession(s.net, t.net)
      && Queued(t.conn) == 0
  {
    var a := KeepAliveStarts(s);
    var b;
    b, w := KeepAliveTravels(SysAfter(s, a));
    SysTogether(s, a, b);
    UneventfulTogether(a, b);
    steps := a + b;
  }

  lemma DoneIsReceived(s: System)
    requires SystemInv(s) && Lively(s) && NetInv(s.net) && PollDone(s.net) && Queued(s.conn) == 0
    ensures Can(s, Reply(Last(s.net), BARE)) && AtRest(Advance(s, Reply(Last(s.net), BARE)))
    ensures SameSession(s.net, Advance(s, Reply(Last(s.net), BARE)).net)
  {
    var rid := Last(s.net);
    BareReply(s, rid);
    AdvanceKeeps(s, Reply(rid, BARE));
    AdvanceLively(s, Reply(rid, BARE));
    PollIsReceived(s.net);
    var c1 := Taken(s.conn, BodyOf(s.conn.past, rid));
    ReplyAdvances(s, rid, BARE);
    BareAnswer(c1);
    assert Sent(c1, Handle(c1, BARE)) == [];
  }

  lemma UneventfulTogether(a: seq<SysStep>, b: seq<SysStep>)
    requires Uneventful(a) && Uneventful(b)
    ensures Uneventful(a + b)
  {
  }

  /** The keep-alive is let through and answered. */
  lemma KeepAliveAnswered(s: System, w: nat) returns (steps: seq<SysStep>)
    requires SystemInv(s) && Lively(s) && NetInv(s.net) && Polling(s.net, w, B.Forwarding) && Queued(s.conn) == 0
    ensures IsSysRun(s, steps) && Uneventful(steps)
    ensures var t := SysAfter(s, steps);
      && SystemInv(t) && Lively(t) && NetInv(t.net) && PollDone(t.net) && Queued(t.conn) == 0
      && t.net.server.polled && t.net.server.policy == s.net.server.policy
  {
    var a := PollIsAnswered(s.net, w);
    ElsewhereRun(s, a);
    RunsKeepSystem(s, Elsewheres(a));
    steps := Elsewheres(a);
  }

  lemma KeepAliveReceived(s: System) returns (steps: seq<SysStep>)
    requires SystemInv(s) && Lively(s) && NetInv(s.net) && PollDone(s.net) && Queued(s.conn) == 0
    ensures IsSysRun(s, steps) && Uneventful(steps)
    ensures AtRest(SysAfter(s, steps)) && SameSession(s.net, SysAfter(s, steps).net)
  {
    DoneIsReceived(s);
    OneSysStep(s, Reply(Last(s.net), BARE));
    steps := [Reply(Last(s.net), BARE)];
  }

  /** From rest to rest, with a keep-alive answered. */
  lemma KeepAliveRound(s: System) returns (steps: seq<SysStep>)
    requires AtRest(s)
    ensures IsSysRun(s, steps) && Uneventful(steps)
    ensures var t := SysAfter(s, steps);
      AtRest(t) && t.net.server.polled && t.net.server.policy == s.net.server.policy
  {
    var a, w := KeepAliveComes(s);
    var m := SysAfter(s, a);
    var b := KeepAliveAnswered(m, w);
    var l := SysAfter(m, b);
    var c := KeepAliveReceived(l);
    SysTogether(m, b, c);
    SysTogether(s, a, b + c);
    UneventfulTogether(b, c);
    UneventfulTogether(a, b + c);
    steps := a + (b + c);
  }

  lemma TurnFails(s: System, w: nat) returns (steps: seq<SysStep>)
    requires s.conn.stream.Some? && NetInv(s.net) && Polling(s.net, w, B.Forwarding)
    requires s.net.server.polled && s.net.server.policy.hold == 0
    ensures IsSysRun(s, steps) && Uneventful(steps) && Thrown(SysAfter(s, steps).net)
  {
    PollFails(s.net, w);
    OneSysStep(s, Elsewhere(Work(B.FailPoll(w))));
    steps := [Elsewhere(Work(B.FailPoll(w)))];
  }

  lemma KeepAliveFails(s: System) returns (steps: seq<SysStep>)
    requires AtRest(s) && s.net.server.polled && s.net.server.policy.hold == 0
    ensures IsSysRun(s, steps) && Uneventful(steps) && Thrown(SysAfter(s, steps).net)
  {
    var a, w := KeepAliveComes(s);
    var b := TurnFails(SysAfter(s, a), w);
    SysTogether(s, a, b);
    UneventfulTogether(a, b);
    steps := a + b;
  }

  lemma IsCreated(s: System) returns (steps: seq<SysStep>)
    requires SystemInv(s) && Lively(s) && NetInv(s.net) && Opening(s.net) && B.Free(s.net.server)
    ensures IsSysRun(s, steps) && Uneventful(steps)
    ensures var t := SysAfter(s, steps);
      && SystemInv(t) && Lively(t) && NetInv(t.net) && PollDone(t.net) && SameSession(s.net, t.net) && t.conn == s.conn
  {
    CreatedAndMarked(s.net);
    TwoSteps(s.net, Work(B.AnswerFirst), Work(B.MarkFirst));
    var a := [Work(B.AnswerFirst), Work(B.MarkFirst)];
    ElsewhereRun(s, a);
    RunsKeepSystem(s, Elsewheres(a));
    steps := Elsewheres(a);
  }

  /** The session is created, and the client has its first answer. */
  lemma ComesToRest(s: System) returns (steps: seq<SysStep>)
    requires SystemInv(s) && Lively(s) && NetInv(s.net) && Opening(s.net) && B.Free(s.net.server) && Queued(s.conn) == 0
    ensures IsSysRun(s, steps) && Uneventful(steps)
    ensures AtRest(SysAfter(s, steps)) && SysAfter(s, steps).net.server.policy == s.net.server.policy
  {
    var a := IsCreated(s);
    var b := KeepAliveReceived(SysAfter(s, a));
    SysTogether(s, a, b);
    UneventfulTogether(a, b);
    steps := a + b;
  }

  lemma OpeningAlone(conn: Conn, rid: int, hold: nat)
    requires Unused(conn) && conn.refusals == [] && 1 <= conn.maxRequests
    ensures var s := Opened(conn, rid, hold);
      && Opening(s.net) && B.Free(s.net.server) && Queued(s.conn) == 0 && s.net.server.policy == B.Policy(false, hold)
  {
    Connected(conn, rid);
  }

  /** Two keep-alives, one after the other, end a polling session. */
  lemma TwoKeepAlives(s: System) returns (steps: seq<SysStep>)
    requires AtRest(s) && s.net.server.policy.hold == 0
    ensures IsSysRun(s, steps) && Uneventful(steps) && Thrown(SysAfter(s, steps).net)
  {
    var a := KeepAliveRound(s);
    var b := KeepAliveFails(SysAfter(s, a));
    SysTogether(s, a, b);
    UneventfulTogether(a, b);
    steps := a + b;
  }

  lemma ThrownForGood(s: System, steps: seq<SysStep>)
    requires SystemInv(s) && Lively(s) && IsSysRun(s, steps) && Thrown(SysAfter(s, steps).net)
    ensures !CanSettle(SysAfter(s, steps))
  {
    RunsKeepSystem(s, steps);
    NeverSettles(SysAfter(s, steps));
  }

  /** The failing run of the whole system: the application sends nothing at all, and the
      keep-alives of the client end its polling session. */
  lemma KeepAlivesThrownOut(conn: Conn, rid: int) returns (steps: seq<SysStep>)
    requires Unused(conn) && conn.refusals == [] && 1 <= conn.maxRequests <= 2 && rid >= 0
    ensures IsSysRun(Opened(conn, rid, 0), steps) && Uneventful(steps)
    ensures Thrown(SysAfter(Opened(conn, rid, 0), steps).net) && !CanSettle(SysAfter(Opened(conn, rid, 0), steps))
  {
    var s := Opened(conn, rid, 0);
    OpenedIsFine(conn, rid, 0);
    StartOfNet(rid + 1, 0);
    OpeningAlone(conn, rid, 0);
    var a := ComesToRest(s);
    var b := TwoKeepAlives(SysAfter(s, a));
    SysTogether(s, a, b);
    UneventfulTogether(a, b);
    steps := a + b;
    ThrownForGood(s, steps);
  }

  // ---------------------------------------------------------------- requests without a session

  /** The connection manager can tell where the request belongs: it names its session, or
      it asks for one and says for which domain. */
  predicate Addressed(b: Body) {
    b.sid.Some? || b.opening
  }

  predicate AllAddressed(c: Conn) {
    (forall b :: b in c.past.firsts ==> Addressed(b)) && (c.body.Some? ==> Addressed(c.body.value))
  }

  /** Before the first answer nothing is queued or scheduled. */
  predicate Expecting(c: Conn) {
    c.stream.Some? && (c.stream.value.sid.None? ==> c.body.None? && c.timers == [])
  }

  lemma DoAddressed(c: Conn, a: Api)
    requires c.stream.Some? && c.stream.value.sid.Some? && AllAddressed(c) && Polite(a)
    ensures AllAddressed(Do(c, a)) && Do(c, a).stream.value.sid == c.stream.value.sid
  {
  }

  lemma {:induction false} DoAllAddressed(c: Conn, calls: seq<Api>)
    requires c.stream.Some? && c.stream.value.sid.Some? && AllAddressed(c) && AllPolite(calls)
    ensures AllAddressed(DoAll(c, calls)) && DoAll(c, calls).stream.value.sid == c.stream.value.sid
    decreases |calls|
  {
    if calls != [] {
      DoAddressed(c, calls[0]);
      DoAllAddressed(Do(c, calls[0]), calls[1..]);
    }
  }

  lemma {:induction false} DispatchAddressed(c: Conn, stanzas: seq<seq<Api>>)
    requires c.stream.Some? && c.stream.value.sid.Some? && AllAddressed(c)
    requires forall i :: 0 <= i < |stanzas| ==> AllPolite(stanzas[i])
    ensures AllAddressed(Dispatch(c, stanzas)) && Dispatch(c, stanzas).stream.value.sid == c.stream.value.sid
    decreases |stanzas|
  {
    if stanzas != [] {
      DoAllAddressed(c, stanzas[0]);
      DispatchAddressed(DoAll(c, stanzas[0]), stanzas[1..]);
    }
  }

  lemma HandleAddressed(c: Conn, a: BoshClient.Answer)
    requires Expecting(c) && AllAddressed(c) && PoliteAnswer(a) && a.sid.Some?
    ensures Expecting(Handle(c, a)) && AllAddressed(Handle(c, a))
  {
    if c.stream.value.sid.None? {
      DoAllAddressed(c.(stream := Some(c.stream.value.(sid := a.sid))), a.onConnected);
    }
    DispatchAddressed(Established(c, a).(collecting := true), a.stanzas);
  }

  lemma TickAddressed(c: Conn, i: nat)
    requires Expecting(c) && AllAddressed(c) && OnlyKeepAlives(c) && i < |c.timers|
    ensures Expecting(React(c, Tick(i))) && AllAddressed(React(c, Tick(i)))
  {
  }

  lemma AdvanceAddressed(s: System, step: SysStep)
    requires SystemInv(s) && Can(s, step) && Expecting(s.conn) && AllAddressed(s.conn)
    ensures Expecting(Advance(s, step).conn) && AllAddressed(Advance(s, step).conn)
  {
    match step
    case Packet(p) => DoAddressed(s.conn, ApiSend(p));
    case Timeout(i) => TickAddressed(s.conn, i);
    case Reply(rid, answer) =>
      ReplyAdvances(s, rid, answer);
      HandleAddressed(Taken(s.conn, BodyOf(s.conn.past, rid)), answer);
    case Elsewhere(_) =>
  }

  lemma {:induction false} RunsAddressed(s: System, steps: seq<SysStep>)
    requires SystemInv(s) && Expecting(s.conn) && AllAddressed(s.conn) && IsSysRun(s, steps)
    ensures Expecting(SysAfter(s, steps).conn) && AllAddressed(SysAfter(s, steps).conn)
    decreases |steps|
  {
    if steps != [] {
      AdvanceKeeps(s, steps[0]);
      AdvanceAddressed(s, steps[0]);
      RunsAddressed(Advance(s, steps[0]), steps[1..]);
    }
  }

  lemma PacketAddressed(c: Conn, p: Stanza)
    requires Expecting(c) && AllAddressed(c)
    ensures AllAddressed(Send(c, p)) <==> c.stream.value.sid.Some?
  {
    if c.stream.value.sid.None? {
      var b := NewBody(c.stream.value.rid + 1, None).(stanzas := [p]);
      var d := Send(c, p);
      assert [] + [p] == [p];
      assert if MaySend(c) then d.past.firsts == c.past.firsts + [b] else d.body == Some(b);
      assert MaySend(c) ==> d.past.firsts[|c.past.firsts|] == b && b in d.past.firsts;
      assert !Addressed(b);
    } else {
      DoAddressed(c, ApiSend(p));
    }
  }

  lemma OpenedAddressed(conn: Conn, rid: int)
    requires Unused(conn) && conn.refusals == [] && 1 <= conn.maxRequests
    ensures Expecting(Connect(conn, rid)) && AllAddressed(Connect(conn, rid))
  {
    Connected(conn, rid);
  }

  /** Main result on addresses: in every run the requests of the client name their session,
      and a packet given next goes into such a request if and only if the stream has got
      its sid, which is what `Can` asks of `Packet`. */
  lemma AddressedExactly(conn: Conn, rid: int, hold: nat, steps: seq<SysStep>, p: Stanza)
    requires Unused(conn) && conn.refusals == [] && 1 <= conn.maxRequests <= 2 && rid >= 0
    requires IsSysRun(Opened(conn, rid, hold), steps)
    ensures var c := SysAfter(Opened(conn, rid, hold), steps).conn;
      AllAddressed(c) && c.stream.Some? && (AllAddressed(Send(c, p)) <==> c.stream.value.sid.Some?)
  {
    OpenedIsFine(conn, rid, hold);
    OpenedAddressed(conn, rid);
    RunsAddressed(Opened(conn, rid, hold), steps);
    PacketAddressed(SysAfter(Opened(conn, rid, hold), steps).conn, p);
  }

  /** What `doPost` answers to a request without sid and `to`. */
  const IMPROPER_ADDRESSING: Answer := Answer(true, None, [], [])

  function EarlyPacket(rid: int, p: Stanza): seq<Event> {
    [Call(ApiSend(p)), Response(200, Some(IMPROPER_ADDRESSING), NewBody(rid + 2, None).(stanzas := [p]))]
  }

  /** An input on which the packet is lost: it is given to `send` before `connect` is
      answered.  The request goes out at once, and its answer ends the stream. */
  lemma EarlyPacketIsLost(conn: Conn, rid: int, p: Stanza)
    requires Unused(conn) && conn.refusals == [] && conn.maxRequests == 2
    ensures IsRun(Connect(conn, rid), EarlyPacket(rid, p))
    ensures var b := NewBody(rid + 2, None).(stanzas := [p]);
      var d := After(Connect(conn, rid), EarlyPacket(rid, p));
      && !Addressed(b) && d.past.firsts == [Opener(rid), b]
      && d.past.given == [p] && d.body.None? && !d.active && d.timers == []
  {
    Connected(conn, rid);
    var c := Connect(conn, rid);
    var b := NewBody(rid + 2, None).(stanzas := [p]);
    assert [] + [p] == [p];
    var d := Send(c, p);
    assert d.past.firsts == [Opener(rid)] + [b] && b in d.past.outstanding;
    TwoEvents(c, Call(ApiSend(p)), Response(200, Some(IMPROPER_ADDRESSING), b));
  }

  /** Nor does it help that other requests follow: the rid of that request never comes to
      the session, which therefore forwards nothing at all. */
  lemma NothingAfterEarlyPacket(rid: int, keyed: bool, hold: nat, steps: seq<B.Step>)
    requires rid >= 0 && B.IsRun(B.Init(rid + 1, keyed, hold), steps)
    requires forall i :: 0 <= i < |steps| && steps[i].Arrive? ==> B.RidOf(steps[i].req) != rid + 2
    ensures B.After(B.Init(rid + 1, keyed, hold), steps).line.log == []
  {
    B.NothingWithoutNext(rid + 1, keyed, hold, steps);
  }
}
