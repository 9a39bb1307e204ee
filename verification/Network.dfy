/** Client, network and workers. */
module Network {
  // A well-behaved client, a reordering network and the connection manager
  // together.  The client numbers its requests consecutively and keeps at most
  // two of them unanswered; the network delivers requests and responses in any
  // order; the workers interleave freely, admission included.

  import opened Collections
  import opened BoshSession
  import opened BoshServer
  import opened BoshAdmission

  datatype Net = Net(
    server: Server,
    first: int,                  // rid of the request that created the session
    issued: seq<seq<Stanza>>,    // payloads sent by the client; issued[i] has rid first + 1 + i
    transit: set<int>,           // requests on their way to the server
    replies: set<int>,           // responses on their way to the client
    open: set<int>)              // requests the client has no response to yet

  /** The session has been created; its first response is about to be sent. */
  function Start(first: int, hold: nat): Net {
    Net(Init(first, false, hold), first, [], {}, {}, {first})
  }

  datatype NetStep =
    | Issue(payload: seq<Stanza>)
    | Deliver(rid: int)
    | Work(step: Step)
    | Receive(rid: int)

  function Last(n: Net): int {
    n.first + |n.issued|
  }

  function RequestOf(n: Net, rid: int): Request
    requires n.first < rid <= Last(n)
  {
    Request(Number(rid), n.issued[rid - n.first - 1], false)
  }

  /** Worker steps of a session that nobody expires and whose stream stays up. */
  predicate Ordinary(step: Step) {
    !step.Arrive? && !step.ExpireTerm? && !step.ExpireClose? && !step.Break? && (step.Answer? ==> !step.streamEnd)
  }

  predicate CanStep(n: Net, st: NetStep) {
    match st
    case Issue(_) => |n.open| < MAX_REQUESTS
    case Deliver(rid) => rid in n.transit && n.first < rid <= Last(n)
    case Work(step) => Ordinary(step) && Enabled(n.server, step)
    case Receive(rid) => rid in n.replies
  }

  function Issued(n: Net, payload: seq<Stanza>): Net {
    n.(issued := n.issued + [payload], transit := n.transit + {Last(n) + 1}, open := n.open + {Last(n) + 1})
  }

  function Next(n: Net, st: NetStep): Net
    requires CanStep(n, st)
  {
    match st
    case Issue(payload) => Issued(n, payload)
    case Deliver(rid) =>
      n.(server := Apply(n.server, Arrive(RequestOf(n, rid))), transit := n.transit - {rid})
    case Work(step) =>
      n.(server := Apply(n.server, step),
         replies := if step.Answer? then n.replies + {n.server.workers[step.w].rid}
                    else if step.AnswerFirst? then n.replies + {n.first} else n.replies)
    case Receive(rid) =>
      n.(replies := n.replies - {rid}, open := n.open - {rid})
  }

  // ---------------------------------------------------------------- invariant

  predicate Unlisted(pc: Pc) {
    pc == Lookup || pc == Find || pc == Check || pc == Count || pc == Add
  }

  predicate Listed(pc: Pc) {
    pc == Gate || pc == Waiting || pc == Notified || Inside(pc) || pc == Exit(200)
  }

  /** The session is alive and without keys. */
  predicate Alive(s: Server) {
    !s.life.term && !s.life.closed && s.life.registered && !s.policy.keyed
  }

  ghost predicate ClientInv(n: Net) {
    && n.transit <= n.open && n.replies <= n.open && n.transit !! n.replies
    && (forall r :: r in n.open ==> n.first <= r <= Last(n))
    && n.first !in n.transit
    && (if n.server.birth.Unborn? then n.first in n.open && n.first !in n.replies
      else n.first in n.open ==> n.first in n.replies)
    && |n.open| <= MAX_REQUESTS
  }

  ghost predicate HasWorker(s: Server, rid: int) {
    exists w :: 0 <= w < |s.workers| && s.workers[w].rid == rid
  }

  /** Every request is on its way or has one worker. */
  ghost predicate WorkersInv(n: Net) {
    && (forall i, j :: 0 <= i < j < |n.server.workers| ==> n.server.workers[i].rid != n.server.workers[j].rid)
    && (forall i :: 0 <= i < |n.server.workers| ==> WorkerInv(n, i))
    && (forall r :: n.first < r <= Last(n) && r !in n.transit ==> HasWorker(n.server, r))
    && (forall r :: r in n.server.done ==> r < |n.server.workers|)
    && (forall r :: r in n.transit ==> Reached(n.server) < r)
  }

  ghost predicate WorkerInv(n: Net, i: int)
    requires 0 <= i < |n.server.workers|
  {
    var s := n.server;
    var wk := s.workers[i];
    && n.first < wk.rid <= Last(n) && wk.rid !in n.transit
    && wk.req == RequestOf(n, wk.rid)
    && (Unlisted(wk.pc) || Listed(wk.pc))
    && (i in s.done <==> wk.pc == Marking || wk.pc == Exit(200))
    && (wk.rid <= Reached(s) <==> wk.pc == Exit(200))
    && (i in s.done ==> wk.rid in n.replies || wk.rid !in n.open)
    && (i !in s.done ==> wk.rid in n.open && wk.rid !in n.replies)
  }

  /** The cache holds the two highest of the listed requests. */
  ghost predicate ListInv(n: Net) {
    var s := n.server;
    && 0 < |s.book.cache| <= 2
    && (n.first in s.book.cache || |s.book.cache| == 2)
    && (forall k :: k in s.book.cache ==> EntryInv(n, k))
    && (forall i :: 0 <= i < |s.workers| && Listed(s.workers[i].pc) ==> HighOrOut(s, s.workers[i].rid))
    && (|s.book.cache| == 1 ==> forall i :: 0 <= i < |s.workers| ==> !Listed(s.workers[i].pc))
  }

  ghost predicate EntryInv(n: Net, k: int)
    requires k in n.server.book.cache
  {
    var w := n.server.book.cache[k];
    if k == n.first then w == CREATOR
    else 0 <= w < |n.server.workers| && n.server.workers[w].rid == k && Listed(n.server.workers[w].pc)
  }

  ghost predicate HighOrOut(s: Server, r: int) {
    r in s.book.cache || forall k :: k in s.book.cache ==> r < k
  }

  /** What went to the XMPP server is what the client issued, in order. */
  ghost predicate InIssueOrder(log: seq<(int, seq<Stanza>)>, issued: seq<seq<Stanza>>) {
    |log| <= |issued| && forall i :: 0 <= i < |log| ==> log[i].1 == issued[i]
  }

  ghost predicate NetInv(n: Net) {
    && Alive(n.server) && (CREATOR in n.server.done <==> !n.server.birth.Unborn?)
    && n.first <= Reached(n.server) <= Last(n)
    && OrderInv(n.first, n.server)
    && ClientInv(n) && WorkersInv(n) && ListInv(n) && InIssueOrder(n.server.line.log, n.issued)
    && PollInv(n.server)
  }

  /** `lastPoll` is set by an empty request that was let through. */
  ghost predicate PollInv(s: Server) {
    s.polled ==> exists i :: 0 <= i < |s.line.log| && EmptyAt(s.line.log, i)
  }

  predicate EmptyAt(log: seq<(int, seq<Stanza>)>, i: int)
    requires 0 <= i < |log|
  {
    log[i].1 == []
  }

  // ---------------------------------------------------------------- nobody is rejected

  /** A request the server has not served yet is open. */
  lemma UnlistedIsOpen(n: Net, r: int)
    requires NetInv(n) && n.first < r <= Last(n)
    requires forall i :: 0 <= i < |n.server.workers| && n.server.workers[i].rid == r
               ==> Unlisted(n.server.workers[i].pc)
    ensures r in n.open
  {
    if r !in n.transit {
      var w :| 0 <= w < |n.server.workers| && n.server.workers[w].rid == r;
      assert WorkerInv(n, w);
    }
  }

  lemma NotCached(n: Net, w: nat)
    requires WorkersInv(n) && ListInv(n) && w < |n.server.workers| && Unlisted(n.server.workers[w].pc)
    ensures n.server.workers[w].rid !in n.server.book.cache
  {
    var rid := n.server.workers[w].rid;
    assert WorkerInv(n, w);
    assert rid in n.server.book.cache ==> EntryInv(n, rid);
  }

  lemma NotBelowWindow(n: Net, w: nat)
    requires NetInv(n) && w < |n.server.workers| && Unlisted(n.server.workers[w].pc)
    ensures FirstKey(n.server.book.cache.Keys) <= n.server.workers[w].rid
  {
    var keys := n.server.book.cache.Keys;
    var rid := n.server.workers[w].rid;
    if rid < FirstKey(keys) {
      assert WorkerInv(n, w);
      assert n.first !in keys;
      assert |keys| == |n.server.book.cache|;
      var a, b := PickTwo(keys);
      OpenAbove(n, w, a);
      OpenAbove(n, w, b);
      NoThree(n.open, rid, a, b);
    }
  }

  /** A cached request above one that is not listed yet cannot have been served. */
  lemma OpenAbove(n: Net, w: nat, k: int)
    requires NetInv(n) && w < |n.server.workers| && Unlisted(n.server.workers[w].pc)
    requires k in n.server.book.cache && n.server.workers[w].rid < k
    ensures k in n.open && n.server.workers[w].rid in n.open
  {
    var s := n.server;
    assert WorkerInv(n, w) && EntryInv(n, k);
    var v := s.book.cache[k];
    assert WorkerInv(n, v);
    if s.workers[v].pc == Marking {
      InsideAlone(s, v);
    }
  }

  lemma AboveHighest(n: Net, r: int)
    requires WorkersInv(n) && ListInv(n) && LastKey(n.server.book.cache.Keys) < r
    ensures forall i :: 0 <= i < |n.server.workers| && n.server.workers[i].rid == r ==> Unlisted(n.server.workers[i].pc)
  {
    forall i | 0 <= i < |n.server.workers| && n.server.workers[i].rid == r
      ensures Unlisted(n.server.workers[i].pc)
    {
      assert WorkerInv(n, i);
      assert Listed(n.server.workers[i].pc) ==> HighOrOut(n.server, r);
    }
  }

  lemma HighestFromFirst(n: Net)
    requires WorkersInv(n) && ListInv(n)
    ensures n.first <= LastKey(n.server.book.cache.Keys)
  {
    var high := LastKey(n.server.book.cache.Keys);
    assert EntryInv(n, high);
    if high != n.first {
      assert WorkerInv(n, n.server.book.cache[high]);
    }
  }

  lemma NotBeyondWindow(n: Net, w: nat)
    requires NetInv(n) && w < |n.server.workers| && Unlisted(n.server.workers[w].pc)
    ensures n.server.workers[w].rid <= LastKey(n.server.book.cache.Keys) + MAX_REQUESTS
  {
    var rid := n.server.workers[w].rid;
    var high := LastKey(n.server.book.cache.Keys);
    HighestFromFirst(n);
    if rid > high + 2 {
      assert WorkerInv(n, w);
      AboveHighest(n, high + 1);
      AboveHighest(n, high + 2);
      AboveHighest(n, rid);
      UnlistedIsOpen(n, high + 1);
      UnlistedIsOpen(n, high + 2);
      UnlistedIsOpen(n, rid);
      NoThree(n.open, high + 1, high + 2, rid);
    }
  }

  lemma PendingIsOpen(n: Net, k: int)
    requires NetInv(n) && k in PendingKeys(n.server.book.cache, n.server.done)
    ensures k in n.open
  {
    assert EntryInv(n, k);
    if k != n.first {
      assert WorkerInv(n, n.server.book.cache[k]);
    }
  }

  lemma NotTooMany(n: Net, w: nat)
    requires NetInv(n) && w < |n.server.workers| && Unlisted(n.server.workers[w].pc)
    ensures |PendingKeys(n.server.book.cache, n.server.done)| < MAX_REQUESTS
  {
    var pending := PendingKeys(n.server.book.cache, n.server.done);
    if |pending| >= MAX_REQUESTS {
      var a, b := PickTwo(pending);
      PendingIsOpen(n, a);
      PendingIsOpen(n, b);
      NotCached(n, w);
      assert WorkerInv(n, w);
      NoThree(n.open, a, b, n.server.workers[w].rid);
    }
  }

  /** Main result, safety half: in every reachable state every request still to
      be admitted passes the lookup, the window check and the pending check. */
  lemma NeverRejected(n: Net, w: nat)
    requires NetInv(n) && w < |n.server.workers| && Unlisted(n.server.workers[w].pc)
    ensures var s := n.server; var rid := s.workers[w].rid;
      && s.life.registered
      && rid !in s.book.cache
      && ValidRid(s.book.cache.Keys, rid)
      && |PendingKeys(s.book.cache, s.done)| < MAX_REQUESTS
  {
    NotCached(n, w);
    NotBelowWindow(n, w);
    NotBeyondWindow(n, w);
    NotTooMany(n, w);
  }

  // ---------------------------------------------------------------- every step keeps the invariant

  lemma ListStays(n: Net, m: Net, w: int)
    requires ListInv(n) && OthersStay(n.server, m.server, w)
    requires m.first == n.first && m.server.book == n.server.book
    requires 0 <= w < |n.server.workers| ==> (Listed(m.server.workers[w].pc) <==> Listed(n.server.workers[w].pc))
    ensures ListInv(m)
  {
    var s, t := n.server, m.server;
    forall k | k in t.book.cache
      ensures EntryInv(m, k)
    {
      assert EntryInv(n, k);
    }
    forall i | 0 <= i < |t.workers| && Listed(t.workers[i].pc)
      ensures HighOrOut(t, t.workers[i].rid)
    {
      assert HighOrOut(s, s.workers[i].rid);
    }
  }

  lemma WorkersStay(n: Net, m: Net, w: int)
    requires WorkersInv(n) && OthersStay(n.server, m.server, w)
    requires m.first == n.first && m.issued == n.issued && m.transit == n.transit
    requires forall i :: 0 <= i < |n.server.workers| ==> WorkerInv(m, i)
    requires m.server.done == n.server.done || (0 <= w < |n.server.workers| && m.server.done == n.server.done + {w})
    requires forall r :: r in m.transit ==> Reached(m.server) < r
    ensures WorkersInv(m)
  {
    forall r | m.first < r <= Last(m) && r !in m.transit
      ensures HasWorker(m.server, r)
    {
      var v :| 0 <= v < |n.server.workers| && n.server.workers[v].rid == r;
      assert m.server.workers[v].rid == r;
    }
  }

  lemma IssueKeepsWorkers(n: Net, payload: seq<Stanza>)
    requires ClientInv(n) && WorkersInv(n) && Reached(n.server) <= Last(n)
    ensures WorkersInv(Issued(n, payload))
  {
    var m := Issued(n, payload);
    forall i | 0 <= i < |m.server.workers|
      ensures WorkerInv(m, i)
    {
      assert WorkerInv(n, i);
    }
    forall r | m.first < r <= Last(m) && r !in m.transit
      ensures HasWorker(m.server, r)
    {
      assert HasWorker(n.server, r);
    }
  }

  lemma IssueKeeps(n: Net, payload: seq<Stanza>)
    requires NetInv(n) && |n.open| < MAX_REQUESTS
    ensures NetInv(Issued(n, payload))
  {
    IssueKeepsWorkers(n, payload);
    ListStays(n, Issued(n, payload), -1);
  }

  lemma ReceiveKeepsWorkers(n: Net, m: Net)
    requires WorkersInv(n) && m == n.(replies := m.replies, open := m.open)
    requires forall r :: r in n.open && r !in n.replies ==> r in m.open && r !in m.replies
    requires forall r :: r in n.replies || r !in n.open ==> r in m.replies || r !in m.open
    ensures WorkersInv(m)
  {
    forall i | 0 <= i < |m.server.workers|
      ensures WorkerInv(m, i)
    {
      assert WorkerInv(n, i);
    }
    WorkersStay(n, m, -1);
  }

  lemma ReceiveKeeps(n: Net, rid: int)
    requires NetInv(n) && rid in n.replies
    ensures NetInv(n.(replies := n.replies - {rid}, open := n.open - {rid}))
  {
    var m := n.(replies := n.replies - {rid}, open := n.open - {rid});
    SubsetCard(m.open, n.open);
    ReceiveKeepsWorkers(n, m);
    ListStays(n, m, -1);
  }

  /** The network after request `rid` reached the server. */
  function Delivered(n: Net, rid: int): Net
    requires n.first < rid <= Last(n)
  {
    n.(server := n.server.(workers := n.server.workers + [Worker(RequestOf(n, rid), rid, Lookup)]),
      transit := n.transit - {rid})
  }

  lemma DeliveredWorker(n: Net, rid: int, i: nat)
    requires ClientInv(n) && WorkersInv(n) && rid in n.transit && n.first < rid <= Last(n) && i <= |n.server.workers|
    ensures WorkerInv(Delivered(n, rid), i)
  {
    assert i < |n.server.workers| ==> WorkerInv(n, i);
  }

  lemma DeliverKeepsWorkers(n: Net, rid: int)
    requires ClientInv(n) && WorkersInv(n) && rid in n.transit && n.first < rid <= Last(n)
    ensures WorkersInv(Delivered(n, rid))
  {
    var m := Delivered(n, rid);
    var s, t := n.server, m.server;
    forall i | 0 <= i < |t.workers|
      ensures WorkerInv(m, i)
    {
      DeliveredWorker(n, rid, i);
    }
    forall i | 0 <= i < |s.workers|
      ensures s.workers[i].rid != rid
    {
      assert WorkerInv(n, i);
    }
    forall r | n.first < r <= Last(m) && r !in m.transit
      ensures HasWorker(t, r)
    {
      if r == rid {
        assert t.workers[|s.workers|].rid == r;
      } else {
        var w :| 0 <= w < |s.workers| && s.workers[w].rid == r;
        assert t.workers[w].rid == r;
      }
    }
  }

  lemma DeliverKeepsList(n: Net, rid: int)
    requires ListInv(n) && n.first < rid <= Last(n)
    ensures ListInv(Delivered(n, rid))
  {
    var m := Delivered(n, rid);
    var s, t := n.server, m.server;
    forall k | k in t.book.cache
      ensures EntryInv(m, k)
    {
      assert EntryInv(n, k);
    }
    forall i | 0 <= i < |t.workers| && Listed(t.workers[i].pc)
      ensures HighOrOut(t, t.workers[i].rid)
    {
      assert HighOrOut(s, s.workers[i].rid);
    }
  }

  lemma DeliverKeeps(n: Net, rid: int)
    requires NetInv(n) && CanStep(n, Deliver(rid))
    ensures NetInv(Next(n, Deliver(rid)))
  {
    var m := Delivered(n, rid);
    assert Next(n, Deliver(rid)) == m;
    DeliverKeepsWorkers(n, rid);
    DeliverKeepsList(n, rid);
    StepKeepsOrder(n.first, n.server, Arrive(RequestOf(n, rid)));
  }

  /** A worker moves on without entering the cache, answering or marking. */
  lemma MoveKeeps(n: Net, t: Server, w: nat)
    requires WorkersInv(n) && ListInv(n) && OthersStay(n.server, t, w) && w < |n.server.workers|
    requires t.book == n.server.book && t.done == n.server.done && Reached(t) == Reached(n.server)
    requires WorkerInv(n.(server := t), w)
    requires Listed(t.workers[w].pc) <==> Listed(n.server.workers[w].pc)
    ensures WorkersInv(n.(server := t)) && ListInv(n.(server := t))
  {
    var m := n.(server := t);
    forall i | 0 <= i < |t.workers|
      ensures WorkerInv(m, i)
    {
      assert WorkerInv(n, i);
    }
    ListStays(n, m, w);
    WorkersStay(n, m, w);
  }

  /** Entering the cache keeps the two highest there. */
  lemma ListKeeps(n: Net, w: nat)
    requires NetInv(n) && w < |n.server.workers| && Unlisted(n.server.workers[w].pc)
    ensures var m := n.(server := Cached(n.server, w)); WorkersInv(m) && ListInv(m)
  {
    var m := n.(server := Cached(n.server, w));
    NeverRejected(n, w);
    AddedKeys(n.server.book.cache, n.server.workers[w].rid, w);
    EnteringList(n, w);
    forall i | 0 <= i < |m.server.workers|
      ensures WorkerInv(m, i)
    {
      EnteringWorker(n, w, i);
    }
    WorkersStay(n, m, w);
  }

  lemma EnteringWorker(n: Net, w: nat, i: nat)
    requires WorkersInv(n) && w < |n.server.workers| && i < |n.server.workers| && Unlisted(n.server.workers[w].pc)
    ensures WorkerInv(n.(server := Cached(n.server, w)), i)
  {
    assert WorkerInv(n, i);
    assert WorkerInv(n, w);
  }

  lemma EnteringList(n: Net, w: nat)
    requires ListInv(n) && WorkersInv(n) && w < |n.server.workers| && Unlisted(n.server.workers[w].pc)
    requires n.server.workers[w].rid !in n.server.book.cache
    requires FirstKey(n.server.book.cache.Keys) <= n.server.workers[w].rid
    ensures ListInv(n.(server := Cached(n.server, w)))
  {
    var s, rid, m := n.server, n.server.workers[w].rid, n.(server := Cached(n.server, w));
    var t := m.server;
    AddedKeys(s.book.cache, rid, w);
    assert WorkerInv(n, w);
    forall k | k in t.book.cache
      ensures EntryInv(m, k)
    {
      assert k != rid ==> EntryInv(n, k);
    }
    forall i | 0 <= i < |t.workers| && Listed(t.workers[i].pc)
      ensures HighOrOut(t, t.workers[i].rid)
    {
      assert i != w ==> HighOrOut(s, s.workers[i].rid);
    }
  }

  function Replied(n: Net, w: nat): Net
    requires w < |n.server.workers|
  {
    n.(server := Answered(n.server, w, false), replies := n.replies + {n.server.workers[w].rid})
  }

  lemma AnswerKeepsWorker(n: Net, w: nat, i: nat)
    requires At(n.server, w, Reading) && i < |n.server.workers| && WorkerInv(n, i) && WorkerInv(n, w)
    requires i != w ==> n.server.workers[i].rid != n.server.workers[w].rid
    ensures WorkerInv(Replied(n, w), i)
  {
    var m := Replied(n, w);
    assert m.server.workers[i] == if i == w then n.server.workers[w].(pc := Marking) else n.server.workers[i];
  }

  lemma AnswerKeeps(n: Net, w: nat)
    requires WorkersInv(n) && ListInv(n) && ClientInv(n) && At(n.server, w, Reading)
    ensures WorkersInv(Replied(n, w)) && ListInv(Replied(n, w)) && ClientInv(Replied(n, w))
  {
    var m := Replied(n, w);
    assert WorkerInv(n, w);
    forall i | 0 <= i < |m.server.workers|
      ensures WorkerInv(m, i)
    {
      assert WorkerInv(n, i);
      AnswerKeepsWorker(n, w, i);
    }
    ListStays(n, m, w);
    WorkersStay(n, m, w);
  }

  /** Whoever is inside the monitor is there after the creator's mark, and has the lowest
      rid not done. */
  lemma InsideIsNext(n: Net, w: nat)
    requires NetInv(n) && w < |n.server.workers| && Inside(n.server.workers[w].pc)
    ensures n.server.birth.Over? && n.server.workers[w].rid == Reached(n.server) + 1
    ensures forall i :: 0 <= i < |n.server.workers| && i != w ==> !Inside(n.server.workers[i].pc)
  {
    InsideAlone(n.server, w);
    if !n.server.birth.Over? {
      NobodyInside(n.first, n.server, w);
    }
  }

  lemma MarkKeepsOwn(n: Net, w: nat)
    requires At(n.server, w, Marking) && n.server.birth.Over? && WorkerInv(n, w)
    ensures WorkerInv(n.(server := Marked(n.server, w)), w)
  {
    assert n.(server := Marked(n.server, w)).server.workers[w] == n.server.workers[w].(pc := Exit(200));
  }

  lemma MarkKeepsOther(n: Net, w: nat, i: nat)
    requires At(n.server, w, Marking) && n.server.birth.Over? && i < |n.server.workers| && i != w && WorkerInv(n, i)
    requires n.server.workers[i].rid != n.server.workers[w].rid == n.server.line.lastDone + 1
    ensures WorkerInv(n.(server := Marked(n.server, w)), i)
  {
    assert n.(server := Marked(n.server, w)).server.workers[i] == Woken(n.server.workers[i]);
  }

  lemma MarkKeepsWorkers(n: Net, m: Net, w: nat)
    requires WorkersInv(n) && w < |n.server.workers| && m == n.(server := m.server)
    requires OthersStay(n.server, m.server, w) && m.server.done == n.server.done
    requires Reached(m.server) == Reached(n.server) + 1 == n.server.workers[w].rid
    requires forall i :: 0 <= i < |n.server.workers| && WorkerInv(n, i) ==> WorkerInv(m, i)
    ensures WorkersInv(m)
  {
    assert WorkerInv(n, w);
    WorkersStay(n, m, w);
  }

  lemma MarkKeeps(n: Net, w: nat)
    requires WorkersInv(n) && ListInv(n) && At(n.server, w, Marking) && n.server.birth.Over?
    requires n.server.workers[w].rid == n.server.line.lastDone + 1
    ensures WorkersInv(n.(server := Marked(n.server, w))) && ListInv(n.(server := Marked(n.server, w)))
  {
    var m := n.(server := Marked(n.server, w));
    assert WorkerInv(n, w);
    forall i | 0 <= i < |n.server.workers| && WorkerInv(n, i)
      ensures WorkerInv(m, i)
    {
      if i == w {
        MarkKeepsOwn(n, w);
      } else {
        MarkKeepsOther(n, w, i);
      }
    }
    MarkKeepsWorkers(n, m, w);
    ListStays(n, m, w);
  }

  // ---- the worker steps one by one

  lemma Reassemble(n: Net, t: Server)
    requires NetInv(n) && OrderInv(n.first, t) && Alive(t) && t.birth == n.server.birth
    requires CREATOR in t.done <==> CREATOR in n.server.done
    requires n.first <= Reached(t) <= Last(n)
    requires WorkersInv(n.(server := t)) && ListInv(n.(server := t)) && InIssueOrder(t.line.log, n.issued)
    requires PollInv(t)
    ensures NetInv(n.(server := t))
  {
  }

  /** A step that changes only the place of its worker, the log, or who is in the monitor. */
  lemma MoveStepKeeps(n: Net, t: Server, w: nat, pc: Pc)
    requires NetInv(n) && OrderInv(n.first, t) && w < |n.server.workers|
    requires t == Moved(n.server.(line := t.line, polled := t.polled), w, pc)
      && t.line.lastDone == n.server.line.lastDone
    requires WorkerInv(n.(server := t), w)
    requires Listed(pc) <==> Listed(n.server.workers[w].pc)
    requires InIssueOrder(t.line.log, n.issued) && PollInv(t)
    ensures NetInv(n.(server := t))
  {
    MoveKeeps(n, t, w);
    Reassemble(n, t);
  }

  lemma Approach(n: Net, step: Step) returns (pc: Pc)
    requires NetInv(n) && Enabled(n.server, step)
    requires step.DoLookup? || step.DoFind? || step.DoCheck? || step.DoCount?
    ensures step.w < |n.server.workers| && Unlisted(n.server.workers[step.w].pc) && Unlisted(pc)
    ensures Apply(n.server, step) == Moved(n.server, step.w, pc) && Rank(pc) < Rank(n.server.workers[step.w].pc)
  {
    NeverRejected(n, step.w);
    assert WorkerInv(n, step.w);
    pc := if step.DoLookup? then Find else if step.DoFind? then Check else if step.DoCheck? then Count else Add;
  }

  lemma ApproachWorker(n: Net, w: nat, pc: Pc)
    requires w < |n.server.workers| && WorkerInv(n, w) && Unlisted(n.server.workers[w].pc) && Unlisted(pc)
    ensures WorkerInv(n.(server := Moved(n.server, w, pc)), w)
  {
  }

  /** A step towards the cache. */
  lemma ApproachKeeps(n: Net, step: Step)
    requires NetInv(n) && Enabled(n.server, step)
    requires step.DoLookup? || step.DoFind? || step.DoCheck? || step.DoCount?
    ensures NetInv(n.(server := Apply(n.server, step)))
  {
    var pc := Approach(n, step);
    ApproachWorker(n, step.w, pc);
    StepKeepsOrder(n.first, n.server, step);
    MoveStepKeeps(n, Moved(n.server, step.w, pc), step.w, pc);
  }

  lemma WaitsRight(n: Net, w: nat)
    requires WorkersInv(n) && (At(n.server, w, Gate) || At(n.server, w, Notified))
    ensures WorkerInv(n.(server := Moved(n.server, w, Waiting)), w)
  {
    assert WorkerInv(n, w);
  }

  /** Going to wait, or having waited, outside the monitor. */
  lemma WaitKeeps(n: Net, w: nat)
    requires NetInv(n) && Enabled(n.server, Enter(w)) && n.server.workers[w].rid != n.server.line.lastDone + 1
    ensures NetInv(n.(server := Moved(n.server, w, Waiting)))
      && Apply(n.server, Enter(w)) == Moved(n.server, w, Waiting)
  {
    WaitsRight(n, w);
    StepKeepsOrder(n.first, n.server, Enter(w));
    MoveStepKeeps(n, Moved(n.server, w, Waiting), w, Waiting);
  }

  lemma TurnKeeps(n: Net, w: nat)
    requires NetInv(n) && Enabled(n.server, Enter(w)) && n.server.workers[w].rid == n.server.line.lastDone + 1
    ensures NetInv(n.(server := Apply(n.server, Enter(w))))
  {
    assert WorkerInv(n, w);
    if !n.server.birth.Over? {
      NobodyInside(n.first, n.server, w);
    }
    var t := Moved(n.server.(line := n.server.line.(monitor := Held(w))), w, Forwarding);
    StepKeepsOrder(n.first, n.server, Enter(w));
    MoveStepKeeps(n, t, w, Forwarding);
  }

  lemma EnterKeeps(n: Net, w: nat)
    requires NetInv(n) && Enabled(n.server, Enter(w))
    ensures NetInv(n.(server := Apply(n.server, Enter(w))))
  {
    if n.server.workers[w].rid == n.server.line.lastDone + 1 {
      TurnKeeps(n, w);
    } else {
      WaitKeeps(n, w);
    }
  }

  lemma SentKeepsPoll(s: Server, w: nat)
    requires PollInv(s) && !s.life.closed && w < |s.workers|
    ensures PollInv(Sent(s, w))
  {
    var more := Sent(s, w).line.log;
    if s.polled {
      var i :| 0 <= i < |s.line.log| && EmptyAt(s.line.log, i);
      assert EmptyAt(more, i);
    } else if s.workers[w].req.payload == [] {
      assert EmptyAt(more, |s.line.log|);
    }
  }

  lemma ForwardIsOrdered(n: Net, w: nat)
    requires NetInv(n) && At(n.server, w, Forwarding)
    ensures Forwarded(n.server, w) == Moved(Sent(n.server, w), w, Reading)
    ensures WorkerInv(n.(server := Forwarded(n.server, w)), w)
    ensures InIssueOrder(Forwarded(n.server, w).line.log, n.issued)
  {
    InsideIsNext(n, w);
    assert WorkerInv(n, w);
  }

  lemma ForwardKeeps(n: Net, w: nat)
    requires NetInv(n) && At(n.server, w, Forwarding)
    ensures NetInv(n.(server := Forwarded(n.server, w)))
  {
    ForwardIsOrdered(n, w);
    SentKeepsPoll(n.server, w);
    StepKeepsOrder(n.first, n.server, Forward(w));
    MoveStepKeeps(n, Moved(Sent(n.server, w), w, Reading), w, Reading);
  }

  lemma EntryKeeps(n: Net, step: Step)
    requires NetInv(n) && Enabled(n.server, step) && (step.DoAdd? || step.Admit?)
    ensures NetInv(n.(server := Apply(n.server, step)))
  {
    NeverRejected(n, step.w);
    AdmitIsEntry(n.server, step);
    ListKeeps(n, step.w);
    StepKeepsOrder(n.first, n.server, step);
    Reassemble(n, Cached(n.server, step.w));
  }

  lemma AdmitIsEntry(s: Server, step: Step)
    requires Enabled(s, step) && (step.DoAdd? || step.Admit?)
    requires var rid := s.workers[step.w].rid;
      rid !in s.book.cache && ValidRid(s.book.cache.Keys, rid) && |PendingKeys(s.book.cache, s.done)| < MAX_REQUESTS
    ensures Apply(s, step) == Cached(s, step.w)
  {
    if step.Admit? {
      AdmitCases(s, step.w);
    }
  }

  lemma AnswerStepKeeps(n: Net, w: nat)
    requires NetInv(n) && At(n.server, w, Reading)
    ensures NetInv(Replied(n, w))
  {
    StepKeepsOrder(n.first, n.server, Answer(w, false));
    InsideIsNext(n, w);
    AnswerKeeps(n, w);
  }

  lemma MarkStepKeeps(n: Net, w: nat)
    requires NetInv(n) && At(n.server, w, Marking)
    ensures NetInv(n.(server := Marked(n.server, w)))
  {
    InsideIsNext(n, w);
    assert WorkerInv(n, w);
    MarkKeeps(n, w);
    StepKeepsOrder(n.first, n.server, Mark(w));
    Reassemble(n, Marked(n.server, w));
  }

  // ---- the worker that creates the session

  /** `m` is `n` after a step of the creator. */
  ghost predicate BirthStep(n: Net, m: Net) {
    && m == n.(server := m.server, replies := m.replies)
    && m.server.workers == n.server.workers && m.server.book == n.server.book
    && m.server.done - {CREATOR} == n.server.done - {CREATOR} && m.replies - {n.first} == n.replies - {n.first}
    && Reached(m.server) == Reached(n.server)
  }

  lemma BirthKeepsWorker(n: Net, m: Net, i: nat)
    requires BirthStep(n, m) && i < |n.server.workers| && WorkerInv(n, i)
    ensures WorkerInv(m, i)
  {
    var rid := n.server.workers[i].rid;
    assert i in m.server.done - {CREATOR} <==> i in n.server.done - {CREATOR};
    assert rid in m.replies - {n.first} <==> rid in n.replies - {n.first};
  }

  lemma BirthKeepsWorkers(n: Net, m: Net)
    requires NetInv(n) && BirthStep(n, m)
    ensures WorkersInv(m) && ListInv(m)
  {
    forall i | 0 <= i < |m.server.workers|
      ensures WorkerInv(m, i)
    {
      BirthKeepsWorker(n, m, i);
    }
    forall r | n.first < r <= Last(m) && r !in m.transit
      ensures HasWorker(m.server, r)
    {
      assert HasWorker(n.server, r);
    }
    forall r | r in m.server.done
      ensures r < |m.server.workers|
    {
      assert r != CREATOR ==> r in m.server.done - {CREATOR};
    }
    ListStays(n, m, -1);
  }

  lemma AnswerFirstKeeps(n: Net)
    requires NetInv(n) && n.server.birth.Unborn?
    ensures NetInv(Next(n, Work(AnswerFirst)))
  {
    StepKeepsOrder(n.first, n.server, AnswerFirst);
    BirthKeepsWorkers(n, Next(n, Work(AnswerFirst)));
  }

  lemma MarkFirstKeeps(n: Net)
    requires NetInv(n) && n.server.birth.Unmarked?
    ensures NetInv(Next(n, Work(MarkFirst)))
  {
    StepKeepsOrder(n.first, n.server, MarkFirst);
    BirthKeepsWorkers(n, Next(n, Work(MarkFirst)));
  }

  /** The steps of a rejected, resent or failing request never become possible. */
  lemma NeverPossible(n: Net, step: Step)
    requires NetInv(n)
    requires step.DoAbort? || step.Resend? || step.SetTerm? || step.Close? || step.FailKey? || step.Catch?
    ensures !Enabled(n.server, step)
  {
    assert step.w < |n.server.workers| ==> WorkerInv(n, step.w);
  }

  lemma WorkKeeps(n: Net, step: Step)
    requires NetInv(n) && Ordinary(step) && Enabled(n.server, step)
    requires !step.Answer? && !step.AnswerFirst? && !step.MarkFirst? && !step.FailPoll?
    ensures NetInv(n.(server := Apply(n.server, step)))
  {
    if step.DoLookup? || step.DoFind? || step.DoCheck? || step.DoCount? {
      ApproachKeeps(n, step);
    } else if step.DoAdd? || step.Admit? {
      EntryKeeps(n, step);
    } else if step.Enter? {
      EnterKeeps(n, step.w);
    } else if step.Forward? {
      ForwardKeeps(n, step.w);
    } else if step.Mark? {
      MarkStepKeeps(n, step.w);
    } else {
      NeverPossible(n, step);
    }
  }

  /** A worker finds an empty request of a polling session too frequent. */
  predicate ThrowsOut(st: NetStep) {
    st.Work? && st.step.FailPoll?
  }

  lemma StepKeepsNet(n: Net, st: NetStep)
    requires NetInv(n) && CanStep(n, st) && !ThrowsOut(st)
    ensures NetInv(Next(n, st))
  {
    match st
    case Issue(payload) => IssueKeeps(n, payload);
    case Deliver(rid) => DeliverKeeps(n, rid);
    case Receive(rid) => ReceiveKeeps(n, rid);
    case Work(step) =>
      if step.AnswerFirst? {
        AnswerFirstKeeps(n);
      } else if step.MarkFirst? {
        MarkFirstKeeps(n);
      } else if step.Answer? {
        AnswerStepKeeps(n, step.w);
      } else {
        WorkKeeps(n, step);
      }
  }

  // ---------------------------------------------------------------- polling sessions

  /** How many of the payloads are empty. */
  function Blanks(payloads: seq<seq<Stanza>>): nat {
    if payloads == [] then 0
    else Blanks(payloads[..|payloads| - 1]) + if payloads[|payloads| - 1] == [] then 1 else 0
  }

  lemma {:induction false} OneBlank(payloads: seq<seq<Stanza>>, i: nat)
    requires i < |payloads| && payloads[i] == []
    ensures Blanks(payloads) >= 1
  {
    if i < |payloads| - 1 {
      OneBlank(payloads[..|payloads| - 1], i);
    }
  }

  lemma {:induction false} TwoBlanks(payloads: seq<seq<Stanza>>, i: nat, j: nat)
    requires i < j < |payloads| && payloads[i] == [] && payloads[j] == []
    ensures Blanks(payloads) >= 2
  {
    if j < |payloads| - 1 {
      TwoBlanks(payloads[..|payloads| - 1], i, j);
    } else {
      OneBlank(payloads[..j], i);
    }
  }

  /** The polling session was closed on request `r`, which stays without an answer. */
  ghost predicate ThrownAt(n: Net, r: int) {
    r in n.open && r !in n.replies
  }

  /** The client was thrown out of its polling session, after two empty requests. */
  ghost predicate Thrown(n: Net) {
    && n.server.life.closed && n.server.birth.Over? && n.server.policy.hold == 0
    && n.transit <= n.open && n.replies <= n.open && n.transit !! n.replies && |n.open| <= MAX_REQUESTS
    && (forall r :: r in n.open ==> n.first <= r <= Last(n))
    && InIssueOrder(n.server.line.log, n.issued) && Blanks(n.issued) >= 2
    && exists r :: ThrownAt(n, r)
  }

  lemma KeepsPolicy(s: Server, step: Step)
    requires Enabled(s, step)
    ensures Apply(s, step).policy == s.policy && (s.birth.Over? ==> Apply(s, step).birth.Over?)
  {
  }

  /** It takes `hold` 0, an empty request, and another one let through before. */
  lemma ThrowsOutWhen(n: Net, st: NetStep)
    requires NetInv(n) && CanStep(n, st) && ThrowsOut(st)
    ensures n.server.policy.hold == 0 && Blanks(n.issued) >= 2 && Thrown(Next(n, st))
  {
    var w := st.step.w;
    InsideIsNext(n, w);
    assert WorkerInv(n, w);
    var rid := n.server.workers[w].rid;
    var i :| 0 <= i < |n.server.line.log| && EmptyAt(n.server.line.log, i);
    assert i < |n.server.line.log| == rid - n.first - 1;
    TwoBlanks(n.issued, i, rid - n.first - 1);
    assert ThrownAt(Next(n, st), rid);
  }

  lemma ThrownWorkStays(n: Net, step: Step, r: int)
    requires Thrown(n) && Ordinary(step) && Enabled(n.server, step) && ThrownAt(n, r)
    ensures Thrown(Next(n, Work(step)))
  {
    KeepsPolicy(n.server, step);
    LogGrows(n.server, step);
    assert ThrownAt(Next(n, Work(step)), r);
  }

  /** Whoever was thrown out stays out, one request unanswered. */
  lemma ThrownStays(n: Net, st: NetStep)
    requires Thrown(n) && CanStep(n, st)
    ensures Thrown(Next(n, st))
  {
    var m := Next(n, st);
    var r :| ThrownAt(n, r);
    match st
    case Work(step) => ThrownWorkStays(n, step, r);
    case Issue(payload) =>
      assert Last(n) + 1 !in n.open;
      assert m.issued[..|n.issued|] == n.issued;
      assert ThrownAt(m, r);
    case Deliver(_) => assert ThrownAt(m, r);
    case Receive(_) =>
      SubsetCard(m.open, n.open);
      assert ThrownAt(m, r);
  }

  /** The state of every run: the session lives, or the client was thrown out of it. */
  ghost predicate NetOk(n: Net) {
    NetInv(n) || Thrown(n)
  }

  lemma StepKeepsOk(n: Net, st: NetStep)
    requires NetOk(n) && CanStep(n, st)
    ensures NetOk(Next(n, st)) && Next(n, st).server.policy == n.server.policy
    ensures NetInv(Next(n, st)) <==> NetInv(n) && !ThrowsOut(st)
  {
    if st.Work? {
      KeepsPolicy(n.server, st.step);
    }
    if Thrown(n) {
      ThrownStays(n, st);
    } else if ThrowsOut(st) {
      ThrowsOutWhen(n, st);
    } else {
      StepKeepsNet(n, st);
    }
  }

  // ---------------------------------------------------------------- who misses the bell

  /** A worker waits although it is its turn, or will be once the creator has marked its
      rid: nobody is left to ring for it. */
  ghost predicate Missed(n: Net) {
    exists w :: 0 <= w < |n.server.workers| && MissedAt(n, w)
  }

  predicate MissedAt(n: Net, w: int)
    requires 0 <= w < |n.server.workers|
  {
    n.server.workers[w].pc == Waiting && n.server.workers[w].rid == Reached(n.server) + 1
  }

  /** The second request enters the monitor before the creator has called `setLastDoneRID`. */
  predicate TooEarly(n: Net, st: NetStep)
    requires CanStep(n, st)
  {
    && !n.server.birth.Over? && st.Work? && st.step.Enter?
    && n.server.workers[st.step.w].rid == n.first + 1
  }

  /** Nobody is woken, and nobody but the worker that enters starts to wait. */
  ghost predicate Silent(s: Server, t: Server, v: nat, entering: int) {
    && v < |s.workers| && v < |t.workers| && Reached(t) == Reached(s) && t.workers[v].rid == s.workers[v].rid
    && (s.workers[v].pc == Waiting ==> t.workers[v] == s.workers[v])
    && (t.workers[v].pc == Waiting && s.workers[v].pc != Waiting ==> entering == v)
  }

  lemma MoveIsSilent(s: Server, t: Server, w: nat, pc: Pc, v: nat)
    requires w < |s.workers| && v < |s.workers| && s.workers[w].pc != Waiting && pc != Waiting
    requires t == Moved(s.(book := t.book), w, pc)
    ensures Silent(s, t, v, -1)
  {
  }

  lemma AdmissionIsSilent(n: Net, step: Step, v: nat)
    requires NetInv(n) && Enabled(n.server, step) && v < |n.server.workers|
    requires step.DoLookup? || step.DoFind? || step.DoCheck? || step.DoCount? || step.DoAdd? || step.Admit?
    ensures Silent(n.server, Apply(n.server, step), v, -1)
  {
    if step.DoAdd? || step.Admit? {
      NeverRejected(n, step.w);
      AdmitIsEntry(n.server, step);
      MoveIsSilent(n.server, Cached(n.server, step.w), step.w, Gate, v);
    } else {
      var pc := Approach(n, step);
      MoveIsSilent(n.server, Moved(n.server, step.w, pc), step.w, pc, v);
    }
  }

  lemma TurnIsSilent(n: Net, step: Step, v: nat)
    requires NetInv(n) && Ordinary(step) && Enabled(n.server, step) && v < |n.server.workers|
    requires step.Enter? || step.Forward? || step.Answer?
    ensures Silent(n.server, Apply(n.server, step), v, if step.Enter? then step.w else -1)
  {
    assert WorkerInv(n, step.w);
  }

  /** Nobody rings but a worker that marks its rid. */
  lemma NoBell(n: Net, step: Step, v: nat)
    requires NetInv(n) && Ordinary(step) && Enabled(n.server, step) && v < |n.server.workers|
    requires !step.Mark? && !step.FailPoll?
    ensures Silent(n.server, Apply(n.server, step), v, if step.Enter? then step.w else -1)
  {
    if step.AnswerFirst? || step.MarkFirst? {
    } else if step.Enter? || step.Forward? || step.Answer? {
      TurnIsSilent(n, step, v);
    } else if step.DoLookup? || step.DoFind? || step.DoCheck? || step.DoCount? || step.DoAdd? || step.Admit? {
      AdmissionIsSilent(n, step, v);
    } else {
      NeverPossible(n, step);
    }
  }

  lemma WorkMisses(n: Net, step: Step, v: nat)
    requires NetInv(n) && Ordinary(step) && Enabled(n.server, step) && !step.FailPoll? && v < |n.server.workers|
    ensures var m := Next(n, Work(step));
      && v < |m.server.workers|
      && (MissedAt(n, v) ==> MissedAt(m, v) && m.server.workers[v] == n.server.workers[v])
      && (MissedAt(m, v) && !MissedAt(n, v) ==> step == Enter(v) && TooEarly(n, Work(step)))
  {
    if step.Mark? {
      InsideIsNext(n, step.w);
      assert WorkerInv(n, v);
    } else {
      NoBell(n, step, v);
    }
  }

  /** While somebody has missed the bell nobody is inside, so nobody is thrown out. */
  lemma MissedBarsTheWay(n: Net, st: NetStep, v: nat)
    requires NetInv(n) && CanStep(n, st) && v < |n.server.workers| && MissedAt(n, v)
    ensures !ThrowsOut(st)
  {
    if ThrowsOut(st) {
      InsideIsNext(n, st.step.w);
    }
  }

  /** Whoever misses the bell waits for ever, its request unanswered. */
  lemma StepMisses(n: Net, st: NetStep, v: nat)
    requires NetInv(n) && CanStep(n, st) && !ThrowsOut(st) && v < |n.server.workers|
    ensures var m := Next(n, st);
      && v < |m.server.workers|
      && (MissedAt(n, v) ==> MissedAt(m, v) && m.server.workers[v] == n.server.workers[v])
      && (MissedAt(m, v) && !MissedAt(n, v) ==> TooEarly(n, st))
  {
    if st.Work? {
      WorkMisses(n, st.step, v);
    }
  }

  lemma TooEarlyMisses(n: Net, st: NetStep)
    requires NetInv(n) && CanStep(n, st) && TooEarly(n, st)
    ensures Missed(Next(n, st))
  {
    NobodyInside(n.first, n.server, st.step.w);
    assert MissedAt(Next(n, st), st.step.w);
  }

  lemma SameWorkers(s: Server, step: Step)
    requires Enabled(s, step) && !step.Arrive?
    ensures |Apply(s, step).workers| == |s.workers|
  {
  }

  lemma NewcomersLookUp(n: Net, st: NetStep, v: nat)
    requires CanStep(n, st) && |n.server.workers| <= v < |Next(n, st).server.workers|
    ensures Next(n, st).server.workers[v].pc == Lookup
  {
    if st.Work? {
      SameWorkers(n.server, st.step);
    }
  }

  lemma OnlyTooEarlyMisses(n: Net, st: NetStep)
    requires NetInv(n) && CanStep(n, st) && !ThrowsOut(st) && Missed(Next(n, st)) && !Missed(n)
    ensures TooEarly(n, st)
  {
    var m := Next(n, st);
    var v: nat :| v < |m.server.workers| && MissedAt(m, v);
    if v < |n.server.workers| {
      StepMisses(n, st, v);
    } else {
      NewcomersLookUp(n, st, v);
    }
  }

  /** A step lets somebody miss the bell exactly when it enters the monitor too early. */
  lemma MissedWhen(n: Net, st: NetStep)
    requires NetInv(n) && CanStep(n, st) && !ThrowsOut(st)
    ensures Missed(Next(n, st)) <==> Missed(n) || TooEarly(n, st)
  {
    if Missed(n) {
      var v: nat :| v < |n.server.workers| && MissedAt(n, v);
      StepMisses(n, st, v);
    } else if TooEarly(n, st) {
      TooEarlyMisses(n, st);
    } else if Missed(Next(n, st)) {
      OnlyTooEarlyMisses(n, st);
    }
  }

  // ---------------------------------------------------------------- nobody is stuck

  /** Main result, progress half: while the client still waits for a response and nobody
      has missed the bell, either a response is on its way, or the session is still being
      created, or the lowest request not yet marked is in transit, or its worker has a
      step to take. */
  lemma LowestCanMove(n: Net) returns (st: NetStep)
    requires NetInv(n) && n.open != {} && !Missed(n)
    ensures CanStep(n, st) && !TooEarly(n, st) && !ThrowsOut(st)
    ensures st.Receive?
         || (st.Deliver? && st.rid == Reached(n.server) + 1)
         || (st.Work? && (st.step.AnswerFirst? || st.step.MarkFirst?))
         || (st.Work? && st.step.w < |n.server.workers| && n.server.workers[st.step.w].rid == Reached(n.server) + 1)
  {
    var s := n.server;
    var low := s.line.lastDone + 1;
    if n.replies != {} {
      var q := Pick(n.replies);
      st := Receive(q);
    } else if !s.birth.Over? {
      st := Work(if s.birth.Unborn? then AnswerFirst else MarkFirst);
    } else {
      var r := Pick(n.open);
      OpenMeansUnmarked(n, r);
      if low in n.transit {
        st := Deliver(low);
      } else {
        var w: nat :| w < |s.workers| && s.workers[w].rid == low;
        st := Work(NextOf(n, w));
        WorkerCanStep(n, w);
      }
    }
  }

  lemma OpenMeansUnmarked(n: Net, r: int)
    requires NetInv(n) && n.server.birth.Over? && n.replies == {} && r in n.open
    ensures n.server.line.lastDone < Last(n)
    ensures n.server.line.lastDone + 1 in n.transit || HasWorker(n.server, n.server.line.lastDone + 1)
  {
    if r !in n.transit {
      var w :| 0 <= w < |n.server.workers| && n.server.workers[w].rid == r;
      assert WorkerInv(n, w);
    }
  }

  /** The step a worker takes next when it is its turn. */
  function NextOf(n: Net, w: nat): Step
    requires w < |n.server.workers|
  {
    match n.server.workers[w].pc
    case Lookup => DoLookup(w)
    case Find => DoFind(w)
    case Check => DoCheck(w)
    case Count => DoCount(w)
    case Add => DoAdd(w)
    case Forwarding => Forward(w)
    case Reading => Answer(w, false)
    case Marking => Mark(w)
    case _ => Enter(w)
  }

  lemma WorkerCanStep(n: Net, w: nat)
    requires NetInv(n) && n.server.birth.Over? && !Missed(n)
    requires w < |n.server.workers| && n.server.workers[w].rid == n.server.line.lastDone + 1
    ensures CanStep(n, Work(NextOf(n, w))) && NextOf(n, w).w == w
  {
    assert WorkerInv(n, w);
    assert !MissedAt(n, w);
    assert forall i :: 0 <= i < |n.server.workers| && i != w ==> n.server.workers[i].rid != n.server.workers[w].rid;
  }

  // ---------------------------------------------------------------- every drain ends

  /** How far a worker is from the end; waiting counts less than being notified. */
  function Rank(pc: Pc): nat {
    match pc
    case Lookup => 22
    case Find => 20
    case Check => 18
    case Count => 16
    case Add => 14
    case Gate => 12
    case Notified => 10
    case Waiting => 8
    case Forwarding => 6
    case Reading => 4
    case Marking => 2
    case _ => 0
  }

  function Ranks(ws: seq<Worker>): nat {
    if ws == [] then 0 else Ranks(ws[..|ws| - 1]) + Rank(ws[|ws| - 1].pc)
  }

  lemma {:induction false} RanksUpdate(ws: seq<Worker>, w: nat, wk: Worker)
    requires w < |ws|
    ensures Ranks(ws[w := wk]) == Ranks(ws) - Rank(ws[w].pc) + Rank(wk.pc)
  {
    var n := |ws| - 1;
    if w == n {
      assert ws[w := wk][..n] == ws[..n];
    } else {
      RanksUpdate(ws[..n], w, wk);
      assert ws[w := wk][..n] == ws[..n][w := wk];
    }
  }

  function Weight(n: Net): nat {
    Ranks(n.server.workers) + 30 * |n.transit| + |n.replies| + (if n.server.birth.Unborn? then 2 else 0)
  }

  /** Unmarked requests first, then what is left to do for them. */
  ghost predicate Closer(m: Net, n: Net) {
    var a, b := Last(m) - m.server.line.lastDone, Last(n) - n.server.line.lastDone;
    0 <= a && (a < b || (a == b && Weight(m) < Weight(n)))
  }

  lemma MovedRanks(s: Server, w: nat, pc: Pc)
    requires w < |s.workers| && Rank(pc) < Rank(s.workers[w].pc)
    ensures Ranks(Moved(s, w, pc).workers) < Ranks(s.workers)
  {
    RanksUpdate(s.workers, w, s.workers[w].(pc := pc));
  }

  lemma EntryIsCloser(n: Net, step: Step)
    requires NetInv(n) && Enabled(n.server, step) && (step.DoAdd? || step.Admit?)
    ensures Apply(n.server, step).line.lastDone == n.server.line.lastDone
      && Apply(n.server, step).birth == n.server.birth
    ensures Ranks(Apply(n.server, step).workers) < Ranks(n.server.workers)
  {
    var s, w := n.server, step.w;
    NeverRejected(n, w);
    AdmitIsEntry(s, step);
    MovedRanks(s.(book := Entry(s.book, s.workers[w].rid, w)), w, Gate);
  }

  lemma TurnIsCloser(n: Net, step: Step)
    requires NetInv(n) && Enabled(n.server, step) && (step.Enter? || step.Forward?)
    ensures Apply(n.server, step).line.lastDone == n.server.line.lastDone
      && Apply(n.server, step).birth == n.server.birth
    ensures Ranks(Apply(n.server, step).workers) < Ranks(n.server.workers)
  {
    var s, w := n.server, step.w;
    assert WorkerInv(n, w);
    MovedRanks(s, w, if step.Forward? then Reading
                     else if s.workers[w].rid == s.line.lastDone + 1 then Forwarding else Waiting);
  }

  lemma ApproachIsCloser(n: Net, step: Step)
    requires NetInv(n) && Enabled(n.server, step)
    requires step.DoLookup? || step.DoFind? || step.DoCheck? || step.DoCount?
    ensures Apply(n.server, step).line.lastDone == n.server.line.lastDone
      && Apply(n.server, step).birth == n.server.birth
    ensures Ranks(Apply(n.server, step).workers) < Ranks(n.server.workers)
  {
    var pc := Approach(n, step);
    MovedRanks(n.server, step.w, pc);
  }

  lemma MoveIsCloser(n: Net, step: Step)
    requires NetInv(n) && Ordinary(step) && Enabled(n.server, step)
    requires !step.Answer? && !step.Mark? && !step.AnswerFirst? && !step.MarkFirst? && !step.FailPoll?
    ensures Apply(n.server, step).line.lastDone == n.server.line.lastDone
      && Apply(n.server, step).birth == n.server.birth
    ensures Ranks(Apply(n.server, step).workers) < Ranks(n.server.workers)
  {
    if step.DoLookup? || step.DoFind? || step.DoCheck? || step.DoCount? {
      ApproachIsCloser(n, step);
    } else if step.DoAdd? || step.Admit? {
      EntryIsCloser(n, step);
    } else if step.Enter? || step.Forward? {
      TurnIsCloser(n, step);
    } else {
      NeverPossible(n, step);
    }
  }

  lemma AnswerIsCloser(n: Net, w: nat)
    requires NetInv(n) && At(n.server, w, Reading)
    ensures Closer(Replied(n, w), n)
  {
    RanksUpdate(n.server.workers, w, n.server.workers[w].(pc := Marking));
  }

  lemma MarkIsCloser(n: Net, w: nat)
    requires NetInv(n) && At(n.server, w, Marking)
    ensures Closer(n.(server := Marked(n.server, w)), n)
  {
    InsideIsNext(n, w);
    assert WorkerInv(n, w);
  }

  lemma BirthIsCloser(n: Net, step: Step)
    requires NetInv(n) && Enabled(n.server, step) && (step.AnswerFirst? || step.MarkFirst?)
    ensures Closer(Next(n, Work(step)), n)
  {
  }

  lemma DeliverIsCloser(n: Net, rid: int)
    requires NetInv(n) && CanStep(n, Deliver(rid))
    ensures Closer(Delivered(n, rid), n)
  {
    var ws := Delivered(n, rid).server.workers;
    assert ws[..|ws| - 1] == n.server.workers;
  }

  /** Every step other than a new request brings the system closer to rest, or ends a
      polling session. */
  lemma StepIsCloser(n: Net, st: NetStep)
    requires NetInv(n) && CanStep(n, st) && !st.Issue? && !ThrowsOut(st)
    ensures Closer(Next(n, st), n)
  {
    match st
    case Deliver(rid) => DeliverIsCloser(n, rid);
    case Receive(rid) =>
    case Work(step) =>
      if step.AnswerFirst? || step.MarkFirst? {
        BirthIsCloser(n, step);
      } else if step.Answer? {
        AnswerIsCloser(n, step.w);
      } else if step.Mark? {
        MarkIsCloser(n, step.w);
      } else {
        MoveIsCloser(n, step);
      }
  }

  ghost predicate IsNetRun(n: Net, steps: seq<NetStep>)
    decreases |steps|
  {
    steps == [] || (CanStep(n, steps[0]) && IsNetRun(Next(n, steps[0]), steps[1..]))
  }

  ghost function NetAfter(n: Net, steps: seq<NetStep>): Net
    requires IsNetRun(n, steps)
    decreases |steps|
  {
    if steps == [] then n else NetAfter(Next(n, steps[0]), steps[1..])
  }

  lemma StartOfNet(first: int, hold: nat)
    requires first >= 1
    ensures NetInv(Start(first, hold)) && !Missed(Start(first, hold))
  {
    StartOfOrder(first, false, hold);
    assert map[first := CREATOR].Keys == {first};
  }

  /** In this run the client is thrown out of its polling session. */
  predicate SomeThrown(steps: seq<NetStep>) {
    exists i :: 0 <= i < |steps| && ThrowsOut(steps[i])
  }

  lemma SomeThrownOf(steps: seq<NetStep>)
    requires steps != []
    ensures SomeThrown(steps) <==> ThrowsOut(steps[0]) || SomeThrown(steps[1..])
  {
    if SomeThrown(steps[1..]) {
      var i :| 0 <= i < |steps[1..]| && ThrowsOut(steps[1..][i]);
      assert ThrowsOut(steps[i + 1]);
    }
    if SomeThrown(steps) {
      var i :| 0 <= i < |steps| && ThrowsOut(steps[i]);
      assert i > 0 ==> ThrowsOut(steps[1..][i - 1]);
    }
  }

  /** Over every run of client, network and workers the invariant holds until the client
      is thrown out, so `NeverRejected` and `LowestCanMove` apply in every state before. */
  lemma {:induction false} RunKeepsNet(n: Net, steps: seq<NetStep>)
    requires NetOk(n) && IsNetRun(n, steps)
    ensures NetOk(NetAfter(n, steps))
    ensures NetInv(NetAfter(n, steps)) <==> NetInv(n) && !SomeThrown(steps)
    ensures NetAfter(n, steps).first == n.first && n.issued <= NetAfter(n, steps).issued
    ensures NetAfter(n, steps).server.policy == n.server.policy
    decreases |steps|
  {
    if steps != [] {
      StepKeepsOk(n, steps[0]);
      SomeThrownOf(steps);
      RunKeepsNet(Next(n, steps[0]), steps[1..]);
    }
  }

  /** Every way on without new requests ends, by `StepIsCloser`; as long as nobody has
      missed the bell there is one to a state where nothing is open. */
  lemma {:induction false} Drains(n: Net) returns (steps: seq<NetStep>)
    requires NetInv(n) && !Missed(n)
    ensures IsNetRun(n, steps) && NetAfter(n, steps).open == {}
    ensures forall i :: 0 <= i < |steps| ==> !steps[i].Issue?
    decreases Last(n) - n.server.line.lastDone, Weight(n)
  {
    if n.open == {} {
      steps := [];
    } else {
      var st := LowestCanMove(n);
      StepIsCloser(n, st);
      StepKeepsNet(n, st);
      MissedWhen(n, st);
      var rest := Drains(Next(n, st));
      steps := [st] + rest;
      assert steps[1..] == rest;
    }
  }

  /** A request that has missed the bell stays open, whatever happens. */
  lemma {:induction false} MissedForEver(n: Net, steps: seq<NetStep>, w: nat)
    requires NetInv(n) && IsNetRun(n, steps) && w < |n.server.workers| && MissedAt(n, w)
    ensures Missed(NetAfter(n, steps)) && n.server.workers[w].rid in NetAfter(n, steps).open
    decreases |steps|
  {
    if steps == [] {
      assert WorkerInv(n, w);
    } else {
      MissedBarsTheWay(n, steps[0], w);
      StepKeepsNet(n, steps[0]);
      StepMisses(n, steps[0], w);
      MissedForEver(Next(n, steps[0]), steps[1..], w);
    }
  }

  ghost predicate CanDrain(n: Net) {
    exists steps :: IsNetRun(n, steps) && NetAfter(n, steps).open == {}
  }

  /** No deadlock, with its exact condition: the open requests can be brought to their
      answers if and only if nobody has missed the bell. */
  lemma DrainsUnlessMissed(n: Net)
    requires NetInv(n)
    ensures CanDrain(n) <==> !Missed(n)
  {
    if Missed(n) {
      var w: nat :| w < |n.server.workers| && MissedAt(n, w);
      forall steps | IsNetRun(n, steps)
        ensures NetAfter(n, steps).open != {}
      {
        MissedForEver(n, steps, w);
      }
    } else {
      var steps := Drains(n);
    }
  }

  /** In this run the second request enters the monitor before the creator's mark. */
  ghost predicate SomeTooEarly(n: Net, steps: seq<NetStep>)
    requires IsNetRun(n, steps)
    decreases |steps|
  {
    steps != [] && (TooEarly(n, steps[0]) || SomeTooEarly(Next(n, steps[0]), steps[1..]))
  }

  lemma {:induction false} MissedAfter(n: Net, steps: seq<NetStep>)
    requires NetInv(n) && IsNetRun(n, steps) && !SomeThrown(steps)
    ensures Missed(NetAfter(n, steps)) <==> Missed(n) || SomeTooEarly(n, steps)
    decreases |steps|
  {
    if steps != [] {
      SomeThrownOf(steps);
      StepKeepsNet(n, steps[0]);
      MissedWhen(n, steps[0]);
      MissedAfter(Next(n, steps[0]), steps[1..]);
    }
  }

  lemma {:induction false} ThrownForEver(n: Net, steps: seq<NetStep>)
    requires Thrown(n) && IsNetRun(n, steps)
    ensures Thrown(NetAfter(n, steps)) && NetAfter(n, steps).open != {}
    decreases |steps|
  {
    if steps != [] {
      ThrownStays(n, steps[0]);
      ThrownForEver(Next(n, steps[0]), steps[1..]);
    }
  }

  lemma NoWayBack(n: Net)
    requires Thrown(n)
    ensures !CanDrain(n)
  {
    forall steps | IsNetRun(n, steps)
      ensures NetAfter(n, steps).open != {}
    {
      ThrownForEver(n, steps);
    }
  }

  /** Main result on deadlock: from the creation of the session on, a run can be brought
      to an end with everything answered if and only if in it the second request did not
      enter the monitor before the creator had marked its own, and no empty request was
      found too frequent. */
  lemma DeadlockExactly(first: int, hold: nat, steps: seq<NetStep>)
    requires first >= 1 && IsNetRun(Start(first, hold), steps)
    ensures CanDrain(NetAfter(Start(first, hold), steps))
      <==> !SomeTooEarly(Start(first, hold), steps) && !SomeThrown(steps)
  {
    StartOfNet(first, hold);
    RunKeepsNet(Start(first, hold), steps);
    if SomeThrown(steps) {
      NoWayBack(NetAfter(Start(first, hold), steps));
    } else {
      MissedAfter(Start(first, hold), steps);
      DrainsUnlessMissed(NetAfter(Start(first, hold), steps));
    }
  }

  // ---------------------------------------------------------------- who is thrown out

  /** How many empty requests the client sends in a run. */
  function Polls(steps: seq<NetStep>): nat
    decreases |steps|
  {
    if steps == [] then 0 else (if steps[0] == Issue([]) then 1 else 0) + Polls(steps[1..])
  }

  lemma {:induction false} PollsAreIssued(n: Net, steps: seq<NetStep>)
    requires IsNetRun(n, steps)
    ensures Blanks(NetAfter(n, steps).issued) == Blanks(n.issued) + Polls(steps)
    decreases |steps|
  {
    if steps != [] {
      var m := Next(n, steps[0]);
      if steps[0].Issue? {
        assert m.issued[..|n.issued|] == n.issued;
      }
      PollsAreIssued(m, steps[1..]);
    }
  }

  lemma {:induction false} ThrownNotHolding(n: Net, steps: seq<NetStep>)
    requires NetInv(n) && IsNetRun(n, steps) && SomeThrown(steps)
    ensures n.server.policy.hold == 0
    decreases |steps|
  {
    SomeThrownOf(steps);
    if ThrowsOut(steps[0]) {
      ThrowsOutWhen(n, steps[0]);
    } else {
      StepKeepsOk(n, steps[0]);
      ThrownNotHolding(Next(n, steps[0]), steps[1..]);
    }
  }

  /** With `hold` above 0, or with at most one empty request, every run keeps the session
      alive. */
  lemma AliveWithFewPolls(first: int, hold: nat, steps: seq<NetStep>)
    requires first >= 1 && IsNetRun(Start(first, hold), steps) && (hold > 0 || Polls(steps) <= 1)
    ensures NetInv(NetAfter(Start(first, hold), steps)) && !NetAfter(Start(first, hold), steps).server.life.closed
  {
    StartOfNet(first, hold);
    RunKeepsNet(Start(first, hold), steps);
    PollsAreIssued(Start(first, hold), steps);
    if SomeThrown(steps) {
      ThrownNotHolding(Start(first, hold), steps);
    }
  }

  /** The failing run: the answer to the first request travels, the client sends the next
      one, whose worker finds `lastDoneRID` unset and waits; the mark then rings nobody. */
  function LostBell(first: int, payload: seq<Stanza>): seq<NetStep> {
    [Work(AnswerFirst), Receive(first)] + ([Issue(payload), Deliver(first + 1)] + EarlyBird())
  }

  /** The worker of the second request goes through admission to the gate while the
      creator has still to mark its rid. */
  function EarlyBird(): seq<NetStep> {
    [Work(DoLookup(0)), Work(Admit(0))] + [Work(Enter(0)), Work(MarkFirst)]
  }

  lemma RunsOn(n: Net, st: NetStep, st': NetStep, steps: seq<NetStep>)
    requires CanStep(n, st) && CanStep(Next(n, st), st') && IsNetRun(Next(Next(n, st), st'), steps)
    ensures IsNetRun(n, [st, st'] + steps)
    ensures NetAfter(n, [st, st'] + steps) == NetAfter(Next(Next(n, st), st'), steps)
  {
    assert ([st'] + steps)[1..] == steps;
    assert ([st, st'] + steps)[1..] == [st'] + steps;
  }

  lemma TwoOnwards(n: Net, st: NetStep, st': NetStep, steps: seq<NetStep>)
    requires CanStep(n, st) && CanStep(Next(n, st), st') && IsNetRun(Next(Next(n, st), st'), steps)
    ensures IsNetRun(n, [st, st'] + steps)
    ensures SomeTooEarly(Next(Next(n, st), st'), steps) || TooEarly(n, st) ==> SomeTooEarly(n, [st, st'] + steps)
  {
    assert ([st'] + steps)[1..] == steps;
    assert ([st, st'] + steps)[1..] == [st'] + steps;
  }

  predicate Lone(n: Net, pc: Pc) {
    |n.server.workers| == 1 && n.server.workers[0].pc == pc && n.server.workers[0].rid == n.first + 1
  }

  lemma LookUpAlone(n: Net)
    requires NetInv(n) && Lone(n, Lookup)
    ensures CanStep(n, Work(DoLookup(0)))
    ensures var m := Next(n, Work(DoLookup(0)));
      NetInv(m) && Lone(m, Find) && m.server == Moved(n.server, 0, Find)
  {
    NeverRejected(n, 0);
    assert WorkerInv(n, 0);
    StepKeepsNet(n, Work(DoLookup(0)));
  }

  lemma AdmitAlone(n: Net)
    requires NetInv(n) && Lone(n, Find)
    ensures CanStep(n, Work(Admit(0)))
    ensures var m := Next(n, Work(Admit(0)));
      NetInv(m) && Lone(m, Gate) && m.server == Moved(n.server.(book := m.server.book), 0, Gate)
  {
    NeverRejected(n, 0);
    AdmitIsEntry(n.server, Admit(0));
    StepKeepsNet(n, Work(Admit(0)));
  }

  lemma EnterAlone(n: Net)
    requires NetInv(n) && n.server.birth.Unmarked? && Lone(n, Gate)
    ensures IsNetRun(n, [Work(Enter(0)), Work(MarkFirst)]) && SomeTooEarly(n, [Work(Enter(0)), Work(MarkFirst)])
  {
    StepKeepsNet(n, Work(Enter(0)));
    TwoOnwards(n, Work(Enter(0)), Work(MarkFirst), []);
    assert [Work(Enter(0)), Work(MarkFirst)] + [] == [Work(Enter(0)), Work(MarkFirst)];
  }

  lemma ArrivesTooEarly(n: Net)
    requires NetInv(n) && n.server.birth.Unmarked? && Lone(n, Lookup)
    ensures IsNetRun(n, EarlyBird()) && SomeTooEarly(n, EarlyBird())
  {
    LookUpAlone(n);
    var m := Next(n, Work(DoLookup(0)));
    AdmitAlone(m);
    EnterAlone(Next(m, Work(Admit(0))));
    TwoOnwards(n, Work(DoLookup(0)), Work(Admit(0)), [Work(Enter(0)), Work(MarkFirst)]);
  }

  /** The second request on its way, the first one answered and received. */
  lemma SecondArrives(n: Net, payload: seq<Stanza>)
    requires NetInv(n) && n.issued == [] && n.server.workers == [] && n.open == {}
    ensures CanStep(n, Issue(payload)) && CanStep(Next(n, Issue(payload)), Deliver(n.first + 1))
    ensures var m := Next(Next(n, Issue(payload)), Deliver(n.first + 1));
      && NetInv(m) && m.server == n.server.(workers := m.server.workers)
      && Lone(m, Lookup) && m.server.workers[0].req.payload == payload
  {
    var m := Next(n, Issue(payload));
    StepKeepsNet(n, Issue(payload));
    StepKeepsNet(m, Deliver(n.first + 1));
  }

  predicate Opening(n: Net) {
    n.issued == [] && n.server.workers == [] && n.server.birth.Unborn? && n.open == {n.first}
  }

  lemma AnsweredFirst(n: Net)
    requires NetInv(n) && Opening(n)
    ensures CanStep(n, Work(AnswerFirst)) && CanStep(Next(n, Work(AnswerFirst)), Receive(n.first))
    ensures NetInv(Next(n, Work(AnswerFirst)))
    ensures var m := Next(Next(n, Work(AnswerFirst)), Receive(n.first));
      && NetInv(m) && m.issued == [] && m.server.workers == [] && m.server.birth.Unmarked? && m.open == {}
      && m.first == n.first && m.server.policy == n.server.policy
  {
    StepKeepsNet(n, Work(AnswerFirst));
    StepKeepsNet(Next(n, Work(AnswerFirst)), Receive(n.first));
  }

  lemma IssuesTooEarly(n: Net, payload: seq<Stanza>)
    requires NetInv(n) && n.issued == [] && n.server.workers == [] && n.server.birth.Unmarked? && n.open == {}
    ensures var steps := [Issue(payload), Deliver(n.first + 1)] + EarlyBird();
      IsNetRun(n, steps) && SomeTooEarly(n, steps)
  {
    SecondArrives(n, payload);
    ArrivesTooEarly(Next(Next(n, Issue(payload)), Deliver(n.first + 1)));
    TwoOnwards(n, Issue(payload), Deliver(n.first + 1), EarlyBird());
  }

  lemma OpensTooEarly(n: Net, payload: seq<Stanza>)
    requires NetInv(n) && Opening(n)
    ensures IsNetRun(n, LostBell(n.first, payload)) && SomeTooEarly(n, LostBell(n.first, payload))
  {
    AnsweredFirst(n);
    var m := Next(Next(n, Work(AnswerFirst)), Receive(n.first));
    IssuesTooEarly(m, payload);
    TwoOnwards(n, Work(AnswerFirst), Receive(n.first), [Issue(payload), Deliver(n.first + 1)] + EarlyBird());
  }

  lemma LostBellDeadlocks(first: int, hold: nat, payload: seq<Stanza>)
    requires first >= 1
    ensures IsNetRun(Start(first, hold), LostBell(first, payload))
    ensures !CanDrain(NetAfter(Start(first, hold), LostBell(first, payload)))
  {
    StartOfNet(first, hold);
    OpensTooEarly(Start(first, hold), payload);
    DeadlockExactly(first, hold, LostBell(first, payload));
  }

  // ---- the failing run of a polling session

  /** Everything is answered and received. */
  predicate Resting(n: Net) {
    && n.open == {} && n.server.birth.Over? && n.server.line.lastDone == Last(n) && Free(n.server)
  }

  /** The last request is an empty one, and its worker stands there; all others are done. */
  predicate Polling(n: Net, w: nat, pc: Pc) {
    && At(n.server, w, pc) && n.server.workers[w].rid == Last(n) == n.server.line.lastDone + 1
    && n.server.workers[w].req.payload == [] && n.server.birth.Over? && n.open == {Last(n)}
  }

  /** `m` differs from `n` only in what workers and network do. */
  predicate SameSession(n: Net, m: Net) {
    m.first == n.first && m.server.policy == n.server.policy && m.server.polled == n.server.polled
  }

  /** An empty request is on its way, all others are done. */
  predicate PollSent(n: Net) {
    && n.open == {Last(n)} && Last(n) in n.transit && n.server.birth.Over?
    && n.server.line.lastDone + 1 == Last(n) && Free(n.server)
    && n.issued != [] && n.issued[|n.issued| - 1] == []
  }

  /** All requests are done, the last one has still to be received. */
  predicate PollDone(n: Net) {
    && n.open == {Last(n)} && Last(n) in n.replies && n.server.birth.Over?
    && n.server.line.lastDone == Last(n) && Free(n.server)
  }

  /** Steps of network and workers alone. */
  predicate Inner(steps: seq<NetStep>) {
    forall i :: 0 <= i < |steps| ==> !steps[i].Issue? && !steps[i].Receive?
  }

  lemma PollGoesOut(n: Net)
    requires NetInv(n) && Resting(n)
    ensures CanStep(n, Issue([])) && NetInv(Issued(n, [])) && PollSent(Issued(n, []))
  {
    StepKeepsNet(n, Issue([]));
  }

  lemma PollArrives(n: Net)
    requires NetInv(n) && PollSent(n)
    ensures CanStep(n, Deliver(Last(n)))
    ensures var m := Next(n, Deliver(Last(n)));
      NetInv(m) && Polling(m, |n.server.workers|, Lookup) && Free(m.server) && SameSession(n, m) && m.issued == n.issued
  {
    StepKeepsNet(n, Deliver(Last(n)));
  }

  lemma PollLooksUp(n: Net, w: nat)
    requires NetInv(n) && Polling(n, w, Lookup) && Free(n.server)
    ensures CanStep(n, Work(DoLookup(w)))
    ensures var m := Next(n, Work(DoLookup(w)));
      NetInv(m) && Polling(m, w, Find) && Free(m.server) && SameSession(n, m) && m.issued == n.issued
  {
    NeverRejected(n, w);
    assert WorkerInv(n, w);
    StepKeepsNet(n, Work(DoLookup(w)));
  }

  lemma PollIsAdmitted(n: Net, w: nat)
    requires NetInv(n) && Polling(n, w, Find) && Free(n.server)
    ensures CanStep(n, Work(Admit(w)))
    ensures var m := Next(n, Work(Admit(w)));
      NetInv(m) && Polling(m, w, Gate) && Free(m.server) && SameSession(n, m) && m.issued == n.issued
  {
    NeverRejected(n, w);
    AdmitIsEntry(n.server, Admit(w));
    StepKeepsNet(n, Work(Admit(w)));
  }

  lemma PollEnters(n: Net, w: nat)
    requires NetInv(n) && Polling(n, w, Gate) && Free(n.server)
    ensures CanStep(n, Work(Enter(w)))
    ensures var m := Next(n, Work(Enter(w)));
      NetInv(m) && Polling(m, w, Forwarding) && SameSession(n, m) && m.issued == n.issued
  {
    StepKeepsNet(n, Work(Enter(w)));
  }

  lemma TwoSteps(n: Net, st: NetStep, st': NetStep)
    requires CanStep(n, st) && CanStep(Next(n, st), st')
    ensures IsNetRun(n, [st, st']) && NetAfter(n, [st, st']) == Next(Next(n, st), st')
  {
    OneOnwards(Next(n, st), st');
    assert [st, st'][1..] == [st'];
  }

  lemma PollIsFound(n: Net) returns (steps: seq<NetStep>, w: nat)
    requires NetInv(n) && PollSent(n)
    ensures IsNetRun(n, steps) && Inner(steps)
    ensures var m := NetAfter(n, steps);
      NetInv(m) && Polling(m, w, Find) && Free(m.server) && SameSession(n, m) && m.issued == n.issued
  {
    w := |n.server.workers|;
    var st := Deliver(Last(n));
    PollArrives(n);
    OneOnwards(n, st);
    var m := Next(n, st);
    PollLooksUp(m, w);
    OneOnwards(m, Work(DoLookup(w)));
    RunsTogether(n, [st], [Work(DoLookup(w))]);
    steps := [st] + [Work(DoLookup(w))];
  }

  lemma PollGetsThere(n: Net, w: nat) returns (steps: seq<NetStep>)
    requires NetInv(n) && Polling(n, w, Find) && Free(n.server)
    ensures IsNetRun(n, steps) && Inner(steps)
    ensures var m := NetAfter(n, steps);
      NetInv(m) && Polling(m, w, Forwarding) && SameSession(n, m) && m.issued == n.issued
  {
    PollIsAdmitted(n, w);
    PollEnters(Next(n, Work(Admit(w))), w);
    TwoSteps(n, Work(Admit(w)), Work(Enter(w)));
    steps := [Work(Admit(w)), Work(Enter(w))];
  }

  /** The way of an empty request to its turn. */
  lemma PollComesToTurn(n: Net) returns (steps: seq<NetStep>, w: nat)
    requires NetInv(n) && PollSent(n)
    ensures IsNetRun(n, steps) && Inner(steps)
    ensures var m := NetAfter(n, steps);
      NetInv(m) && Polling(m, w, Forwarding) && SameSession(n, m) && m.issued == n.issued
  {
    var a, b;
    a, w := PollIsFound(n);
    b := PollGetsThere(NetAfter(n, a), w);
    RunsTogether(n, a, b);
    steps := a + b;
  }

  lemma OneOnwards(n: Net, st: NetStep)
    requires CanStep(n, st)
    ensures IsNetRun(n, [st]) && NetAfter(n, [st]) == Next(n, st)
  {
    assert [st][1..] == [];
    assert IsNetRun(Next(n, st), []);
  }

  lemma PollIsForwarded(n: Net, w: nat)
    requires NetInv(n) && Polling(n, w, Forwarding)
    ensures CanStep(n, Work(Forward(w)))
    ensures var m := Next(n, Work(Forward(w)));
      && NetInv(m) && Polling(m, w, Reading) && m.server.polled
      && m.first == n.first && m.server.policy == n.server.policy && m.issued == n.issued
  {
    assert WorkerInv(n, w);
    StepKeepsNet(n, Work(Forward(w)));
  }

  lemma PollIsReplied(n: Net, w: nat)
    requires NetInv(n) && Polling(n, w, Reading)
    ensures CanStep(n, Work(Answer(w, false)))
    ensures var m := Next(n, Work(Answer(w, false)));
      NetInv(m) && Polling(m, w, Marking) && Last(m) in m.replies && SameSession(n, m) && m.issued == n.issued
  {
    StepKeepsNet(n, Work(Answer(w, false)));
  }

  lemma PollIsMarked(n: Net, w: nat)
    requires NetInv(n) && Polling(n, w, Marking) && Last(n) in n.replies
    ensures CanStep(n, Work(Mark(w)))
    ensures var m := Next(n, Work(Mark(w))); NetInv(m) && PollDone(m) && SameSession(n, m) && m.issued == n.issued
  {
    StepKeepsNet(n, Work(Mark(w)));
  }

  lemma PollIsReceived(n: Net)
    requires NetInv(n) && PollDone(n)
    ensures CanStep(n, Receive(Last(n)))
    ensures var m := Next(n, Receive(Last(n))); NetInv(m) && Resting(m) && SameSession(n, m) && m.issued == n.issued
  {
    StepKeepsNet(n, Receive(Last(n)));
  }

  lemma PollGetsAnswer(n: Net, w: nat) returns (steps: seq<NetStep>)
    requires NetInv(n) && Polling(n, w, Forwarding)
    ensures IsNetRun(n, steps) && Inner(steps)
    ensures var m := NetAfter(n, steps);
      && NetInv(m) && Polling(m, w, Marking) && Last(m) in m.replies && m.server.polled && m.issued == n.issued
      && m.first == n.first && m.server.policy == n.server.policy
  {
    PollIsForwarded(n, w);
    PollIsReplied(Next(n, Work(Forward(w))), w);
    TwoSteps(n, Work(Forward(w)), Work(Answer(w, false)));
    steps := [Work(Forward(w)), Work(Answer(w, false))];
  }

  /** The way of an empty request that is let through. */
  lemma PollIsAnswered(n: Net, w: nat) returns (steps: seq<NetStep>)
    requires NetInv(n) && Polling(n, w, Forwarding)
    ensures IsNetRun(n, steps) && Inner(steps)
    ensures var m := NetAfter(n, steps);
      && NetInv(m) && PollDone(m) && m.server.polled && m.issued == n.issued
      && m.first == n.first && m.server.policy == n.server.policy
  {
    var a := PollGetsAnswer(n, w);
    var m := NetAfter(n, a);
    PollIsMarked(m, w);
    OneOnwards(m, Work(Mark(w)));
    RunsTogether(n, a, [Work(Mark(w))]);
    steps := a + [Work(Mark(w))];
  }

  lemma PollFails(n: Net, w: nat)
    requires NetInv(n) && Polling(n, w, Forwarding) && n.server.policy.hold == 0 && n.server.polled
    ensures CanStep(n, Work(FailPoll(w)))
    ensures Thrown(Next(n, Work(FailPoll(w)))) && Next(n, Work(FailPoll(w))).issued == n.issued
  {
    ThrowsOutWhen(n, Work(FailPoll(w)));
  }

  lemma {:induction false} RunsTogether(n: Net, a: seq<NetStep>, b: seq<NetStep>)
    requires IsNetRun(n, a) && IsNetRun(NetAfter(n, a), b)
    ensures IsNetRun(n, a + b) && NetAfter(n, a + b) == NetAfter(NetAfter(n, a), b)
    decreases |a|
  {
    if a == [] {
      assert a + b == b;
    } else {
      var m := Next(n, a[0]);
      assert (a + b)[0] == a[0] && (a + b)[1..] == a[1..] + b;
      RunsTogether(m, a[1..], b);
    }
  }

  /** From rest, an empty request on its way to its turn. */
  lemma PollFromRest(n: Net) returns (steps: seq<NetStep>, w: nat)
    requires NetInv(n) && Resting(n)
    ensures IsNetRun(n, steps)
    ensures var m := NetAfter(n, steps);
      NetInv(m) && Polling(m, w, Forwarding) && SameSession(n, m) && m.issued == n.issued + [[]]
  {
    PollGoesOut(n);
    var a;
    a, w := PollComesToTurn(Issued(n, []));
    OneOnwards(n, Issue([]));
    RunsTogether(n, [Issue([])], a);
    steps := [Issue([])] + a;
  }

  /** From rest to rest, with an empty request answered. */
  lemma PollRound(n: Net) returns (steps: seq<NetStep>)
    requires NetInv(n) && Resting(n)
    ensures IsNetRun(n, steps)
    ensures var m := NetAfter(n, steps);
      && NetInv(m) && Resting(m) && m.server.polled && m.issued == n.issued + [[]]
      && m.first == n.first && m.server.policy == n.server.policy
  {
    var a, w := PollFromRest(n);
    var m := NetAfter(n, a);
    var b := PollIsAnswered(m, w);
    RunsTogether(n, a, b);
    var l := NetAfter(m, b);
    PollIsReceived(l);
    OneOnwards(l, Receive(Last(l)));
    RunsTogether(n, a + b, [Receive(Last(l))]);
    steps := a + b + [Receive(Last(l))];
  }

  /** Two empty requests one after the other, the second found too frequent. */
  lemma TwoPolls(n: Net) returns (steps: seq<NetStep>)
    requires NetInv(n) && Resting(n) && n.server.policy.hold == 0
    ensures IsNetRun(n, steps) && Thrown(NetAfter(n, steps))
    ensures NetAfter(n, steps).issued == n.issued + [[]] + [[]]
  {
    var a := PollRound(n);
    var m := NetAfter(n, a);
    var b, w := PollFromRest(m);
    RunsTogether(n, a, b);
    var l := NetAfter(m, b);
    PollFails(l, w);
    OneOnwards(l, Work(FailPoll(w)));
    RunsTogether(n, a + b, [Work(FailPoll(w))]);
    steps := a + b + [Work(FailPoll(w))];
  }

  lemma CreatedAndMarked(n: Net)
    requires NetInv(n) && Opening(n)
    ensures CanStep(n, Work(AnswerFirst)) && CanStep(Next(n, Work(AnswerFirst)), Work(MarkFirst))
    ensures var m := Next(Next(n, Work(AnswerFirst)), Work(MarkFirst));
      && NetInv(m) && m.issued == [] && m.open == {m.first} && m.first in m.replies && SameSession(n, m)
      && m.server.line.monitor == n.server.line.monitor && m.server.birth.Over? && m.server.line.lastDone == m.first
  {
    StepKeepsNet(n, Work(AnswerFirst));
    StepKeepsNet(Next(n, Work(AnswerFirst)), Work(MarkFirst));
  }

  lemma FirstReceived(n: Net)
    requires NetInv(n) && n.issued == [] && n.open == {n.first} && n.first in n.replies
    requires n.server.birth.Over? && n.server.line.lastDone == n.first && Free(n.server)
    ensures CanStep(n, Receive(n.first))
    ensures var m := Next(n, Receive(n.first)); NetInv(m) && Resting(m) && m.issued == [] && SameSession(n, m)
  {
    StepKeepsNet(n, Receive(n.first));
  }

  lemma ReceivesAndPolls(n: Net) returns (steps: seq<NetStep>)
    requires NetInv(n) && n.issued == [] && n.open == {n.first} && n.first in n.replies && Free(n.server)
    requires n.server.birth.Over? && n.server.line.lastDone == n.first && n.server.policy.hold == 0
    ensures IsNetRun(n, steps) && Thrown(NetAfter(n, steps)) && NetAfter(n, steps).issued == [[], []]
  {
    FirstReceived(n);
    var rest := TwoPolls(Next(n, Receive(n.first)));
    steps := [Receive(n.first)] + rest;
    assert steps[1..] == rest;
    var none: seq<seq<Stanza>> := [];
    assert none + [[]] + [[]] == [[], []];
  }

  /** The failing run of every polling session: the session is created, an empty request is
      answered, and the next one comes too soon. */
  lemma QuickPollIsThrownOut(first: int) returns (steps: seq<NetStep>)
    requires first >= 1
    ensures IsNetRun(Start(first, 0), steps) && Polls(steps) == 2
    ensures var n := NetAfter(Start(first, 0), steps); Thrown(n) && n.server.life.closed && !CanDrain(n)
  {
    var n := Start(first, 0);
    StartOfNet(first, 0);
    CreatedAndMarked(n);
    var rest := ReceivesAndPolls(Next(Next(n, Work(AnswerFirst)), Work(MarkFirst)));
    RunsOn(n, Work(AnswerFirst), Work(MarkFirst), rest);
    steps := [Work(AnswerFirst), Work(MarkFirst)] + rest;
    PollsAreIssued(n, steps);
    BlanksOfTwo();
    NoWayBack(NetAfter(n, steps));
  }

  lemma BlanksOfTwo()
    ensures Blanks([[], []]) == 2
  {
    var two: seq<seq<Stanza>> := [[], []];
    assert two[..1] == [[]];
    assert Blanks([[]]) == 1;
  }

  /** Nobody is thrown out in a run with at most `m` empty requests. */
  ghost predicate NeverThrownOut(first: int, hold: nat, m: nat) {
    forall steps :: IsNetRun(Start(first, hold), steps) && Polls(steps) <= m ==>
      !NetAfter(Start(first, hold), steps).server.life.closed
  }

  /** Main result on polling: every run of a well-behaved client with at most `m` empty
      requests keeps its session alive if and only if the session is not a polling one, or
      `m` is at most 1. */
  lemma AliveUnlessPolling(first: int, hold: nat, m: nat)
    requires first >= 1
    ensures NeverThrownOut(first, hold, m) <==> hold > 0 || m <= 1
  {
    if hold > 0 || m <= 1 {
      FewPollsAreFine(first, hold, m);
    } else {
      var steps := QuickPollIsThrownOut(first);
    }
  }

  lemma FewPollsAreFine(first: int, hold: nat, m: nat)
    requires first >= 1 && (hold > 0 || m <= 1)
    ensures NeverThrownOut(first, hold, m)
  {
    forall steps | IsNetRun(Start(first, hold), steps) && Polls(steps) <= m
      ensures !NetAfter(Start(first, hold), steps).server.life.closed
    {
      AliveWithFewPolls(first, hold, steps);
    }
  }

  /** At rest, everything issued has been forwarded, in order. */
  lemma AtRestAllForwarded(n: Net)
    requires NetInv(n) && n.open == {}
    ensures |n.server.line.log| == |n.issued|
    ensures forall i :: 0 <= i < |n.issued| ==> n.server.line.log[i] == (n.first + 1 + i, n.issued[i])
  {
    var r := Last(n);
    if n.first < r {
      assert HasWorker(n.server, r);
      var w :| 0 <= w < |n.server.workers| && n.server.workers[w].rid == r;
      assert WorkerInv(n, w);
      if n.server.workers[w].pc == Marking {
        InsideAlone(n.server, w);
      }
    }
  }
}
