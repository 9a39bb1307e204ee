/** The workers of a session. */
module BoshServer {
  // The BOSH connection manager as a state machine over the atomic steps of its
  // request workers (`JHBServlet.doPost`, branch for an existing session).
  //
  // Every request is served by its own worker.  Steps that Java runs inside one
  // `synchronized` method of `Session`, or while holding the monitor `sess.sock`
  // without giving it up, are one step here; everything else interleaves freely.
  // Which packets the XMPP server sends, and when, is left to the `Answer` step.

  import opened BoshSession

  type Stanza = string

  /** The `rid` attribute of a request: absent, not an int, or a number. */
  datatype RidAttr = Missing | Malformed | Number(n: int)

  datatype Request = Request(rid: RidAttr, payload: seq<Stanza>, terminate: bool)

  /** Where a worker stands in `doPost`. */
  datatype Pc =
    | Lookup                                   // about to look the session up
    | Find                                     // about to call getResponse
    | Check                                    // about to call checkValidRID
    | Count                                    // about to call numPendingRequests
    | Add                                      // about to call addResponse
    | Aborting(response: int)                  // resend: about to call setAborted
    | Resending(response: int)                 // resend: about to call send
    | Rejecting(code: int, missing: bool)      // terminate(): about to set the status
    | Closing(code: int, missing: bool)        // terminate(): about to close the socket
    | Gate                                     // about to enter the monitor
    | Waiting                                  // in sock.wait
    | Notified                                 // notified, about to re-enter the monitor
    | Forwarding                               // its turn, in the monitor: key and poll checks come next
    | Reading                                  // payload sent, in the monitor: in checkInQ
    | Marking                                  // response sent, in the monitor
    | Catching                                 // left the monitor by an IOException
    | Exit(code: int)

  datatype Worker = Worker(req: Request, rid: int, pc: Pc)

  /** The response made for the request that created the session; every other
      response is named by the index of its worker. */
  const CREATOR := -1

  datatype Monitor = Vacant | Held(worker: int)

  /** The response cache with the history of what entered it. */
  datatype Book = Book(
    cache: map<int, int>,        // Session.responses: rid to response
    admitted: seq<int>,          // history: rids passed to addResponse, in order
    owner: map<int, int>)        // history: the last response added for each rid

  /** The in-order gate with the history of what passed it. */
  datatype Line = Line(
    lastDone: int,               // Session.lastDoneRID
    monitor: Monitor,            // who is inside synchronized (sess.sock)
    log: seq<(int, seq<Stanza>)>)// history: what was written to the XMPP server

  datatype Life = Life(
    term: bool,                  // status == SESS_TERM
    closed: bool,                // sock.isClosed()
    registered: bool)            // still in Session.sessions

  datatype Policy = Policy(
    keyed: bool,                 // a key sequence is in force
    hold: nat)                   // Session.hold; 0 for a polling session

  /** The worker that creates the session: it answers, which tells the client the sid,
      and only then marks its rid as done, outside the monitor and without ringing. */
  datatype Birth =
    | Unborn(rid: int)                         // about to send the response
    | Unmarked(rid: int)                       // response sent, about to call setLastDoneRID
    | Over

  datatype Server = Server(
    birth: Birth,
    book: Book,
    done: set<int>,              // the responses whose status is "done"
    aborted: set<int>,
    line: Line,
    polled: bool,                // Session.lastPoll was set: an empty request was let through
    life: Life,
    policy: Policy,
    workers: seq<Worker>)

  /** The session when the branch for new sessions has put the creating request into
      the cache; `lastDoneRID` still has its initial value. */
  function Init(rid: int, keyed: bool, hold: nat): Server {
    Server(Unborn(rid), Book(map[rid := CREATOR], [rid], map[rid := CREATOR]), {}, {}, Line(0, Vacant, []),
           false, Life(false, false, true), Policy(keyed, hold), [])
  }

  datatype Step =
    | AnswerFirst | MarkFirst                  // the worker that creates the session
    | Arrive(req: Request)
    | DoLookup(w: nat)
    | DoFind(w: nat) | DoCheck(w: nat) | DoCount(w: nat) | DoAdd(w: nat)
    | Admit(w: nat)                            // the four above without interruption
    | DoAbort(w: nat) | Resend(w: nat)
    | SetTerm(w: nat) | Close(w: nat)
    | Enter(w: nat)
    | FailKey(w: nat) | FailPoll(w: nat)
    | Forward(w: nat)
    | Answer(w: nat, streamEnd: bool)
    | Mark(w: nat)
    | Break(w: nat) | Catch(w: nat)
    | ExpireTerm | ExpireClose                 // terminate() by the janitor

  predicate At(s: Server, w: nat, pc: Pc) {
    w < |s.workers| && s.workers[w].pc == pc
  }

  predicate Free(s: Server) {
    s.line.monitor == Vacant
  }

  predicate Enabled(s: Server, step: Step) {
    match step
    case AnswerFirst => s.birth.Unborn?
    case MarkFirst => s.birth.Unmarked?
    case Arrive(_) => true
    case DoLookup(w) => At(s, w, Lookup)
    case DoFind(w) => At(s, w, Find)
    case DoCheck(w) => At(s, w, Check)
    case DoCount(w) => At(s, w, Count)
    case DoAdd(w) => At(s, w, Add)
    case Admit(w) => At(s, w, Find)
    case DoAbort(w) => w < |s.workers| && s.workers[w].pc.Aborting?
    case Resend(w) => w < |s.workers| && s.workers[w].pc.Resending?
    case SetTerm(w) => w < |s.workers| && s.workers[w].pc.Rejecting?
    case Close(w) => w < |s.workers| && s.workers[w].pc.Closing? && Free(s)
    case Enter(w) => (At(s, w, Gate) || At(s, w, Notified)) && Free(s)
    case FailKey(w) => At(s, w, Forwarding) && s.policy.keyed
    case FailPoll(w) => At(s, w, Forwarding) && s.policy.hold == 0 && s.workers[w].req.payload == [] && s.polled
    case Forward(w) => At(s, w, Forwarding)
    case Answer(w, _) => At(s, w, Reading) && !s.life.closed
    case Mark(w) => At(s, w, Marking)
    case Break(w) => At(s, w, Reading)
    case Catch(w) => At(s, w, Catching) && Free(s)
    case ExpireTerm => true
    case ExpireClose => s.life.term && Free(s)
  }

  function Woken(w: Worker): Worker {
    if w.pc == Waiting then w.(pc := Notified) else w
  }

  /** `sock.notifyAll()`. */
  function NotifyAll(ws: seq<Worker>): (r: seq<Worker>)
    ensures |r| == |ws| && forall i :: 0 <= i < |ws| ==> r[i] == Woken(ws[i])
  {
    seq(|ws|, i requires 0 <= i < |ws| => Woken(ws[i]))
  }

  function Moved(s: Server, w: nat, pc: Pc): Server
    requires w < |s.workers|
  {
    s.(workers := s.workers[w := s.workers[w].(pc := pc)])
  }

  /** The first half of `Session.terminate`: only the status. */
  function Expired(s: Server): Server {
    s.(life := s.life.(term := true))
  }

  /** The session marked as terminated by the worker that gives the monitor up. */
  function Left(s: Server): Server {
    s.(life := s.life.(term := true), line := s.line.(monitor := Vacant))
  }

  /** `addResponse` with its history. */
  function Entry(b: Book, rid: int, r: int): Book {
    Book(Added(b.cache, rid, r), b.admitted + [rid], b.owner[rid := r])
  }

  /** The second half of `Session.terminate`: close, wake everybody, unregister. */
  function Closed(s: Server): Server {
    s.(life := s.life.(closed := true, registered := false), workers := NotifyAll(s.workers))
  }

  /** `terminate()` by the worker inside the monitor, which then leaves it. */
  function Terminated(s: Server, w: nat, code: int): Server
    requires w < |s.workers|
  {
    Moved(Closed(Left(s)), w, Exit(code))
  }

  function Found(s: Server, w: nat): Server
    requires w < |s.workers|
  {
    var rid := s.workers[w].rid;
    Moved(s, w, if rid in s.book.cache then Aborting(s.book.cache[rid]) else Check)
  }

  function Checked(s: Server, w: nat): Server
    requires w < |s.workers|
  {
    Moved(s, w, if ValidRid(s.book.cache.Keys, s.workers[w].rid) then Count else Rejecting(404, false))
  }

  function Counted(s: Server, w: nat): Server
    requires w < |s.workers|
  {
    Moved(s, w, if |PendingKeys(s.book.cache, s.done)| >= MAX_REQUESTS then Rejecting(403, false) else Add)
  }

  function Cached(s: Server, w: nat): Server
    requires w < |s.workers|
  {
    var rid := s.workers[w].rid;
    Moved(s.(book := Entry(s.book, rid, w)), w, Gate)
  }

  function Admitted(s: Server, w: nat): Server
    requires w < |s.workers|
  {
    var s1 := Found(s, w);
    if s1.workers[w].pc != Check then s1 else
    var s2 := Checked(s1, w);
    if s2.workers[w].pc != Count then s2 else
    var s3 := Counted(s2, w);
    if s3.workers[w].pc != Add then s3 else
    Cached(s3, w)
  }

  function LookedUp(s: Server, w: nat): Server
    requires w < |s.workers|
  {
    if !s.life.registered then Moved(s, w, Exit(404)) else
    match s.workers[w].req.rid
    case Missing => Moved(s, w, Rejecting(404, true))
    case Malformed => Moved(s, w, Exit(400))
    case Number(n) => Moved(s, w, Find)
  }

  function Entered(s: Server, w: nat): Server
    requires w < |s.workers|
  {
    if s.workers[w].rid == s.line.lastDone + 1 then Moved(s.(line := s.line.(monitor := Held(w))), w, Forwarding)
    else if s.life.term then Moved(s.(workers := NotifyAll(s.workers)), w, Exit(404))
    else Moved(s, w, Waiting)
  }

  /** Writing to a closed socket fails silently, as in `sendNodes`. An empty request sets
      the time of the last poll; how long ago that is when the next one comes is left open,
      so that one may be found too frequent, but not the first. */
  function Sent(s: Server, w: nat): Server
    requires w < |s.workers|
  {
    var s1 := s.(polled := s.polled || s.workers[w].req.payload == []);
    if s.life.closed then s1
    else s1.(line := s.line.(log := s.line.log + [(s.workers[w].rid, s.workers[w].req.payload)]))
  }

  function Forwarded(s: Server, w: nat): Server
    requires w < |s.workers|
  {
    var s1 := Sent(s, w);
    if s.workers[w].req.terminate then Terminated(s1, w, 200).(done := s1.done + {w})
    else Moved(s1, w, Reading)
  }

  function Answered(s: Server, w: nat, streamEnd: bool): Server
    requires w < |s.workers|
  {
    var s1 := if streamEnd then Closed(Expired(s)) else s;
    Moved(s1, w, Marking).(done := s.done + {w})
  }

  function Marked(s: Server, w: nat): Server
    requires w < |s.workers|
  {
    Moved(s.(line := s.line.(lastDone := s.workers[w].rid, monitor := Vacant), workers := NotifyAll(s.workers)), w,
      Exit(200))
  }

  function Apply(s: Server, step: Step): Server
    requires Enabled(s, step)
  {
    match step
    case AnswerFirst => s.(birth := Unmarked(s.birth.rid), done := s.done + {CREATOR})
    case MarkFirst => s.(birth := Over, line := s.line.(lastDone := s.birth.rid))
    case Arrive(req) =>
      s.(workers := s.workers + [Worker(req, if req.rid.Number? then req.rid.n else 0, Lookup)])
    case DoLookup(w) => LookedUp(s, w)
    case DoFind(w) => Found(s, w)
    case DoCheck(w) => Checked(s, w)
    case DoCount(w) => Counted(s, w)
    case DoAdd(w) => Cached(s, w)
    case Admit(w) => Admitted(s, w)
    case DoAbort(w) =>
      var r := s.workers[w].pc.response;
      Moved(s, w, Resending(r)).(aborted := s.aborted + {r})
    case Resend(w) => Moved(s, w, Exit(200)).(done := s.done + {s.workers[w].pc.response})
    case SetTerm(w) => Moved(Expired(s), w, Closing(s.workers[w].pc.code, s.workers[w].pc.missing))
    case Close(w) =>
      var pc := s.workers[w].pc;
      Moved(Closed(s), w, if pc.missing then Count else Exit(pc.code))
    case Enter(w) => Entered(s, w)
    case FailKey(w) => Terminated(s, w, 404)
    case FailPoll(w) => Terminated(s, w, 403)
    case Forward(w) => Forwarded(s, w)
    case Answer(w, streamEnd) => Answered(s, w, streamEnd)
    case Mark(w) => Marked(s, w)
    case Break(w) => Moved(Closed(Left(s)), w, Catching)
    case Catch(w) => Moved(Closed(s), w, Exit(200)).(done := s.done + {w})
    case ExpireTerm => Expired(s)
    case ExpireClose => Closed(s)
  }

  /** Everybody but `w` stays where it is, or is woken. */
  ghost predicate OthersStay(s: Server, t: Server, w: int) {
    && |t.workers| == |s.workers|
    && (forall i :: 0 <= i < |s.workers| && i != w
          ==> t.workers[i] == s.workers[i] || t.workers[i] == Woken(s.workers[i]))
    && (0 <= w < |s.workers| ==> t.workers[w].rid == s.workers[w].rid && t.workers[w].req == s.workers[w].req)
  }

  /** `steps` can be taken from `s`, one after the other. */
  ghost predicate IsRun(s: Server, steps: seq<Step>)
    decreases |steps|
  {
    steps == [] || (Enabled(s, steps[0]) && IsRun(Apply(s, steps[0]), steps[1..]))
  }

  ghost function After(s: Server, steps: seq<Step>): Server
    requires IsRun(s, steps)
    decreases |steps|
  {
    if steps == [] then s else After(Apply(s, steps[0]), steps[1..])
  }

  // ------------------------------------------------ forwarding order (any interleaving)

  predicate Inside(pc: Pc) {
    pc == Forwarding || pc == Reading || pc == Marking
  }

  /** Exactly the worker named by the monitor is inside, and it is its turn. */
  ghost predicate MonitorInv(s: Server) {
    && (s.line.monitor.Held? ==>
          0 <= s.line.monitor.worker < |s.workers| && Inside(s.workers[s.line.monitor.worker].pc)
            && s.workers[s.line.monitor.worker].rid == s.line.lastDone + 1)
    && (forall i :: 0 <= i < |s.workers| && Inside(s.workers[i].pc) ==> s.line.monitor == Held(i))
  }

  /** The highest rid that is done, counting the creating request from the start. */
  function Reached(s: Server): int {
    if s.birth.Over? then s.line.lastDone else s.birth.rid
  }

  ghost predicate LogOrdered(first: int, log: seq<(int, seq<Stanza>)>) {
    forall i :: 0 <= i < |log| ==> log[i].0 == first + 1 + i
  }

  /** How many rids after the first one have been forwarded: all that are done, and the
      one a worker has already sent but not yet marked. */
  ghost predicate LogInv(first: int, s: Server)
    requires MonitorInv(s)
  {
    && LogOrdered(first, s.line.log)
    && (!s.life.closed ==>
          first + |s.line.log|
          == Reached(s) + (if s.line.monitor.Held? && s.workers[s.line.monitor.worker].pc != Forwarding then 1 else 0))
  }

  ghost predicate TurnInv(first: int, s: Server) {
    MonitorInv(s) && LogInv(first, s)
  }

  /** Places behind the window check. */
  predicate PastCheck(pc: Pc) {
    pc == Count || pc == Add || pc == Gate || pc == Waiting || pc == Notified
  }

  /** Nobody passes the gate before the creating request is marked, since whoever passed
      the window check has a rid above the first. */
  ghost predicate FloorInv(first: int, s: Server) {
    s.birth.Over? || (
      && s.birth.rid == first >= 1 && s.line.lastDone == 0 && s.line.monitor == Vacant
      && s.book.cache != map[] && (forall k :: k in s.book.cache ==> first <= k)
      && (forall i :: 0 <= i < |s.workers| ==> FloorOf(first, s.book.cache, s.workers[i])))
  }

  ghost predicate FloorOf(first: int, cache: map<int, int>, wk: Worker) {
    && !Inside(wk.pc)
    && (PastCheck(wk.pc) ==> first < wk.rid)
    && (wk.pc == Check && wk.rid == first ==> first !in cache)
  }

  ghost predicate OrderInv(first: int, s: Server) {
    LogOrdered(first, s.line.log) && (s.life.closed || (TurnInv(first, s) && FloorInv(first, s)))
  }

  /** A step that leaves the monitor, the log and everybody inside alone. */
  ghost predicate Outside(s: Server, t: Server) {
    && t.line == s.line && Reached(t) == Reached(s)
    && (s.life.closed ==> t.life.closed)
    && |s.workers| <= |t.workers|
    && (forall i :: 0 <= i < |s.workers| ==>
          if Inside(s.workers[i].pc) then t.workers[i] == s.workers[i] else !Inside(t.workers[i].pc))
    && (forall i :: |s.workers| <= i < |t.workers| ==> !Inside(t.workers[i].pc))
  }

  lemma OutsideKeepsTurn(first: int, s: Server, t: Server)
    requires TurnInv(first, s) && Outside(s, t)
    ensures TurnInv(first, t)
  {
  }

  predicate InsideStep(s: Server, step: Step)
    requires Enabled(s, step)
  {
    match step
    case Enter(w) => s.workers[w].rid == s.line.lastDone + 1
    case FailKey(_) | FailPoll(_) | Forward(_) | Answer(_, _) | Mark(_) | Break(_) | MarkFirst => true
    case _ => false
  }

  /** A worker outside the monitor moves to a place outside the monitor. */
  lemma MoveOutside(s: Server, t: Server, w: nat, pc: Pc)
    requires w < |s.workers| && !Inside(s.workers[w].pc) && !Inside(pc)
    requires t.line == s.line && t.birth == s.birth
    requires s.life.closed ==> t.life.closed
    requires t.workers == s.workers || t.workers == NotifyAll(s.workers)
    ensures Outside(s, Moved(t, w, pc))
  {
  }

  lemma OutsideTrans(s: Server, t: Server, u: Server)
    requires Outside(s, t) && Outside(t, u)
    ensures Outside(s, u)
  {
  }

  lemma CachedOutside(s: Server, w: nat)
    requires w < |s.workers| && !Inside(s.workers[w].pc)
    ensures Outside(s, Cached(s, w))
  {
    var rid := s.workers[w].rid;
    MoveOutside(s, s.(book := Entry(s.book, rid, w)), w, Gate);
  }

  lemma AdmitOutside(s: Server, w: nat)
    requires w < |s.workers| && s.workers[w].pc == Find
    ensures Outside(s, Admitted(s, w))
  {
    var s1 := Found(s, w);
    MoveOutside(s, s, w, s1.workers[w].pc);
    if s1.workers[w].pc == Check {
      var s2 := Checked(s1, w);
      MoveOutside(s1, s1, w, s2.workers[w].pc);
      OutsideTrans(s, s1, s2);
      if s2.workers[w].pc == Count {
        var s3 := Counted(s2, w);
        MoveOutside(s2, s2, w, s3.workers[w].pc);
        OutsideTrans(s, s2, s3);
        if s3.workers[w].pc == Add {
          CachedOutside(s3, w);
          OutsideTrans(s, s3, Cached(s3, w));
        }
      }
    }
  }

  lemma EnterOutside(s: Server, w: nat)
    requires Enabled(s, Enter(w)) && s.workers[w].rid != s.line.lastDone + 1
    ensures Outside(s, Entered(s, w))
  {
  }

  lemma ResendOutside(s: Server, step: Step)
    requires Enabled(s, step)
    requires step.DoAbort? || step.Resend? || step.SetTerm?
    ensures Outside(s, Apply(s, step))
  {
  }

  lemma CloseOutside(s: Server, step: Step)
    requires Enabled(s, step)
    requires step.Close? || step.Catch? || step.ExpireTerm? || step.ExpireClose?
    ensures Outside(s, Apply(s, step))
  {
  }

  lemma AdmissionOutside(s: Server, step: Step)
    requires Enabled(s, step)
    requires step.DoLookup? || step.DoFind? || step.DoCheck? || step.DoCount?
    ensures Outside(s, Apply(s, step))
  {
    match step
    case DoLookup(w) => MoveOutside(s, s, w, LookedUp(s, w).workers[w].pc);
    case DoFind(w) => MoveOutside(s, s, w, Found(s, w).workers[w].pc);
    case DoCheck(w) => MoveOutside(s, s, w, Checked(s, w).workers[w].pc);
    case DoCount(w) => MoveOutside(s, s, w, Counted(s, w).workers[w].pc);
  }

  lemma OutsideSteps(s: Server, step: Step)
    requires Enabled(s, step) && !InsideStep(s, step)
    ensures Outside(s, Apply(s, step))
  {
    match step
    case AnswerFirst =>
    case Arrive(_) =>
    case DoLookup(_) | DoFind(_) | DoCheck(_) | DoCount(_) => AdmissionOutside(s, step);
    case DoAdd(w) => CachedOutside(s, w);
    case Admit(w) => AdmitOutside(s, w);
    case Enter(w) => EnterOutside(s, w);
    case DoAbort(_) | Resend(_) | SetTerm(_) => ResendOutside(s, step);
    case Close(_) | Catch(_) | ExpireTerm | ExpireClose => CloseOutside(s, step);
  }

  /** The worker inside is the only one there. */
  lemma InsideAlone(s: Server, w: nat)
    requires MonitorInv(s) && w < |s.workers| && Inside(s.workers[w].pc)
    ensures s.line.monitor == Held(w) && s.workers[w].rid == s.line.lastDone + 1
    ensures forall i :: 0 <= i < |s.workers| && i != w ==> !Inside(s.workers[i].pc)
  {
  }

  lemma EnterKeepsTurn(first: int, s: Server, w: nat)
    requires Enabled(s, Enter(w)) && TurnInv(first, s) && s.workers[w].rid == s.line.lastDone + 1
    ensures TurnInv(first, Apply(s, Enter(w)))
  {
    var t := Apply(s, Enter(w));
    assert t.workers[w].rid == s.line.lastDone + 1;
  }

  /** Leaving the monitor with the session closed, or with the rid just sent marked as done. */
  lemma LeaveKeepsTurn(first: int, s: Server, w: nat, pc: Pc, t: Server)
    requires TurnInv(first, s) && w < |s.workers| && Inside(s.workers[w].pc) && !Inside(pc)
    requires t.line.monitor == Vacant && t.workers == NotifyAll(s.workers)
    requires LogOrdered(first, t.line.log)
    requires t.life.closed || (first + |t.line.log| == Reached(t))
    ensures TurnInv(first, Moved(t, w, pc))
  {
    InsideAlone(s, w);
    var u := Moved(t, w, pc);
    assert forall i :: 0 <= i < |u.workers| && i != w ==> u.workers[i] == Woken(s.workers[i]);
  }

  lemma InsideLeaves(first: int, s: Server, step: Step)
    requires Enabled(s, step) && TurnInv(first, s)
    requires step.FailKey? || step.FailPoll? || (step.Mark? && s.birth.Over?) || step.Break?
    ensures TurnInv(first, Apply(s, step))
  {
    InsideAlone(s, step.w);
    match step
    case FailKey(w) => LeaveKeepsTurn(first, s, w, Exit(404), Closed(Left(s)));
    case FailPoll(w) => LeaveKeepsTurn(first, s, w, Exit(403), Closed(Left(s)));
    case Break(w) => LeaveKeepsTurn(first, s, w, Catching, Closed(Left(s)));
    case Mark(w) =>
      LeaveKeepsTurn(first, s, w, Exit(200),
                      s.(line := s.line.(lastDone := s.workers[w].rid, monitor := Vacant),
                        workers := NotifyAll(s.workers)));
  }

  lemma ForwardKeepsTurn(first: int, s: Server, w: nat)
    requires At(s, w, Forwarding) && TurnInv(first, s) && s.birth.Over?
    ensures TurnInv(first, Forwarded(s, w))
  {
    InsideAlone(s, w);
    var s1 := Sent(s, w);
    assert LogOrdered(first, s1.line.log);
    if s.workers[w].req.terminate {
      LeaveKeepsTurn(first, s, w, Exit(200), Closed(Left(s1)));
    } else {
      var t := Moved(s1, w, Reading);
      assert forall i :: 0 <= i < |t.workers| && i != w ==> t.workers[i] == s.workers[i];
    }
  }

  lemma AnswerKeepsTurn(first: int, s: Server, w: nat, streamEnd: bool)
    requires At(s, w, Reading) && !s.life.closed && TurnInv(first, s)
    ensures TurnInv(first, Answered(s, w, streamEnd))
  {
    InsideAlone(s, w);
    var t := Answered(s, w, streamEnd);
    assert forall i :: 0 <= i < |t.workers| && i != w
             ==> t.workers[i] == s.workers[i] || t.workers[i] == Woken(s.workers[i]);
  }

  lemma LogGrows(s: Server, step: Step)
    requires Enabled(s, step)
    ensures s.line.log <= Apply(s, step).line.log
    ensures s.life.closed ==> Apply(s, step).life.closed && Apply(s, step).line.log == s.line.log
  {
    if !InsideStep(s, step) {
      OutsideSteps(s, step);
    }
  }

  /** The creator's mark goes by itself as long as nobody is inside. */
  lemma MarkFirstKeepsTurn(first: int, s: Server)
    requires s.birth.Unmarked? && TurnInv(first, s) && s.line.monitor == Vacant
    ensures TurnInv(first, Apply(s, MarkFirst))
  {
  }

  lemma StepKeepsTurn(first: int, s: Server, step: Step)
    requires Enabled(s, step) && TurnInv(first, s)
    requires step.MarkFirst? ==> s.line.monitor == Vacant
    requires step.Mark? || step.Forward? ==> s.birth.Over?
    ensures TurnInv(first, Apply(s, step))
  {
    if !InsideStep(s, step) {
      OutsideSteps(s, step);
      OutsideKeepsTurn(first, s, Apply(s, step));
    } else {
      match step
      case Enter(w) => EnterKeepsTurn(first, s, w);
      case Forward(w) => ForwardKeepsTurn(first, s, w);
      case Answer(w, e) => AnswerKeepsTurn(first, s, w, e);
      case MarkFirst => MarkFirstKeepsTurn(first, s);
      case FailKey(_) | FailPoll(_) | Mark(_) | Break(_) => InsideLeaves(first, s, step);
    }
  }

  // ------------------------------------------------ before the creator's mark

  /** `t` is `s` with worker `w` at another place, the others at theirs or woken. */
  lemma MoveKeepsFloor(first: int, s: Server, t: Server, w: int)
    requires FloorInv(first, s) && !s.birth.Over? && OthersStay(s, t, w)
    requires !t.birth.Over? && t.birth.rid == s.birth.rid && t.line == s.line && t.book == s.book
    requires 0 <= w < |s.workers| ==> FloorOf(first, t.book.cache, t.workers[w])
    ensures FloorInv(first, t)
  {
    forall i | 0 <= i < |t.workers|
      ensures FloorOf(first, t.book.cache, t.workers[i])
    {
      assert FloorOf(first, s.book.cache, s.workers[i]);
    }
  }

  lemma CheckKeepsFloor(first: int, s: Server, w: nat)
    requires FloorInv(first, s) && !s.birth.Over? && At(s, w, Check)
    ensures FloorInv(first, Checked(s, w))
  {
    CheckIsAbove(first, s, w);
    MoveKeepsFloor(first, s, Checked(s, w), w);
  }

  lemma CheckIsAbove(first: int, s: Server, w: nat)
    requires FloorInv(first, s) && !s.birth.Over? && At(s, w, Check)
    ensures FloorOf(first, s.book.cache, Checked(s, w).workers[w])
  {
    assert FloorOf(first, s.book.cache, s.workers[w]);
    if ValidRid(s.book.cache.Keys, s.workers[w].rid) {
      assert FirstKey(s.book.cache.Keys) in s.book.cache;
    }
  }

  lemma AddKeepsFloor(first: int, s: Server, w: nat)
    requires FloorInv(first, s) && !s.birth.Over? && At(s, w, Add)
    ensures FloorInv(first, Cached(s, w))
  {
    var t := Cached(s, w);
    assert FloorOf(first, s.book.cache, s.workers[w]);
    assert s.workers[w].rid in t.book.cache;
    forall i | 0 <= i < |t.workers|
      ensures FloorOf(first, t.book.cache, t.workers[i])
    {
      assert FloorOf(first, s.book.cache, s.workers[i]);
    }
  }

  lemma AdmitKeepsFloor(first: int, s: Server, w: nat)
    requires FloorInv(first, s) && !s.birth.Over? && At(s, w, Find)
    ensures FloorInv(first, Found(s, w)) && FloorInv(first, Admitted(s, w))
  {
    var s1 := Found(s, w);
    assert FloorOf(first, s.book.cache, s.workers[w]);
    MoveKeepsFloor(first, s, s1, w);
    if s1.workers[w].pc == Check {
      var s2 := Checked(s1, w);
      CheckKeepsFloor(first, s1, w);
      if s2.workers[w].pc == Count {
        var s3 := Counted(s2, w);
        assert FloorOf(first, s2.book.cache, s2.workers[w]);
        MoveKeepsFloor(first, s2, s3, w);
        if s3.workers[w].pc == Add {
          AddKeepsFloor(first, s3, w);
        }
      }
    }
  }

  /** Before the mark nobody is inside, and whoever enters the monitor has to wait. */
  lemma NobodyInside(first: int, s: Server, w: nat)
    requires FloorInv(first, s) && !s.birth.Over? && w < |s.workers|
    ensures !Inside(s.workers[w].pc)
    ensures (At(s, w, Gate) || At(s, w, Notified)) ==> s.workers[w].rid != s.line.lastDone + 1
  {
    assert FloorOf(first, s.book.cache, s.workers[w]);
  }

  lemma ArriveKeepsFloor(first: int, s: Server, req: Request)
    requires FloorInv(first, s) && !s.birth.Over?
    ensures FloorInv(first, Apply(s, Arrive(req)))
  {
    var t := Apply(s, Arrive(req));
    forall i | 0 <= i < |t.workers|
      ensures FloorOf(first, t.book.cache, t.workers[i])
    {
      assert i < |s.workers| ==> FloorOf(first, s.book.cache, s.workers[i]);
    }
  }

  /** `t` is `s` with worker `w` elsewhere, and no nearer to the gate than it was. */
  ghost predicate NoNearer(s: Server, t: Server, w: nat) {
    && w < |s.workers| && OthersStay(s, t, w) && t.birth == s.birth && t.line == s.line && t.book == s.book
    && (PastCheck(t.workers[w].pc) ==> PastCheck(s.workers[w].pc))
    && t.workers[w].pc != Check && !Inside(t.workers[w].pc)
  }

  lemma LookupMoves(s: Server, step: Step)
    requires Enabled(s, step) && (step.DoLookup? || step.DoCount?)
    ensures NoNearer(s, Apply(s, step), step.w)
  {
  }

  lemma ResendMoves(s: Server, step: Step)
    requires Enabled(s, step) && (step.DoAbort? || step.Resend? || step.SetTerm?)
    ensures NoNearer(s, Apply(s, step), step.w)
  {
  }

  lemma OtherKeepsFloor(first: int, s: Server, step: Step)
    requires Enabled(s, step) && FloorInv(first, s) && !s.birth.Over?
    requires step.DoLookup? || step.DoCount? || step.DoAbort? || step.Resend? || step.SetTerm?
    ensures FloorInv(first, Apply(s, step))
  {
    if step.DoLookup? || step.DoCount? {
      LookupMoves(s, step);
    } else {
      ResendMoves(s, step);
    }
    assert FloorOf(first, s.book.cache, s.workers[step.w]);
    MoveKeepsFloor(first, s, Apply(s, step), step.w);
  }

  lemma EnterKeepsFloor(first: int, s: Server, w: nat)
    requires Enabled(s, Enter(w)) && FloorInv(first, s) && !s.birth.Over?
    ensures FloorInv(first, Entered(s, w))
  {
    NobodyInside(first, s, w);
    assert FloorOf(first, s.book.cache, s.workers[w]);
    MoveKeepsFloor(first, s, Entered(s, w), w);
  }

  lemma StepKeepsFloor(first: int, s: Server, step: Step)
    requires Enabled(s, step) && FloorInv(first, s)
    ensures Apply(s, step).life.closed || FloorInv(first, Apply(s, step))
  {
    if s.birth.Over? || step.MarkFirst? {
    } else {
      match step
      case AnswerFirst | ExpireTerm => MoveKeepsFloor(first, s, Apply(s, step), -1);
      case MarkFirst =>
      case Arrive(req) => ArriveKeepsFloor(first, s, req);
      case DoFind(w) => AdmitKeepsFloor(first, s, w);
      case Admit(w) => AdmitKeepsFloor(first, s, w);
      case DoCheck(w) => CheckKeepsFloor(first, s, w);
      case DoAdd(w) => AddKeepsFloor(first, s, w);
      case DoLookup(_) | DoCount(_) | DoAbort(_) | Resend(_) | SetTerm(_) => OtherKeepsFloor(first, s, step);
      case Enter(w) => EnterKeepsFloor(first, s, w);
      case Close(_) | Catch(_) | ExpireClose =>
      case FailKey(w) => NobodyInside(first, s, w);
      case FailPoll(w) => NobodyInside(first, s, w);
      case Forward(w) => NobodyInside(first, s, w);
      case Answer(w, _) => NobodyInside(first, s, w);
      case Mark(w) => NobodyInside(first, s, w);
      case Break(w) => NobodyInside(first, s, w);
    }
  }

  // ------------------------------------------------ the order of forwarding

  lemma StepKeepsOrder(first: int, s: Server, step: Step)
    requires Enabled(s, step) && OrderInv(first, s)
    ensures OrderInv(first, Apply(s, step))
    ensures s.line.log <= Apply(s, step).line.log
    ensures s.life.closed ==> Apply(s, step).life.closed && Apply(s, step).line.log == s.line.log
  {
    LogGrows(s, step);
    if !s.life.closed {
      if (step.Mark? || step.Forward?) && !s.birth.Over? {
        NobodyInside(first, s, step.w);
      }
      StepKeepsFloor(first, s, step);
      StepKeepsTurn(first, s, step);
    }
  }

  /** Main result: whatever the interleaving, duplicated or malformed requests
      included, the rids written to the XMPP server are first+1, first+2, ...
      without gap, repeat or swap, and nothing is written once the socket is closed. */
  lemma {:induction false} ForwardedInOrder(first: int, s: Server, steps: seq<Step>)
    requires IsRun(s, steps) && OrderInv(first, s)
    ensures OrderInv(first, After(s, steps))
    ensures s.line.log <= After(s, steps).line.log
    ensures s.life.closed ==> After(s, steps).line.log == s.line.log
    decreases |steps|
  {
    if steps != [] {
      StepKeepsOrder(first, s, steps[0]);
      ForwardedInOrder(first, Apply(s, steps[0]), steps[1..]);
    }
  }

  lemma StartOfOrder(first: int, keyed: bool, hold: nat)
    requires first >= 1
    ensures TurnInv(first, Init(first, keyed, hold)) && FloorInv(first, Init(first, keyed, hold))
    ensures OrderInv(first, Init(first, keyed, hold))
  {
    assert first in Init(first, keyed, hold).book.cache;
  }

  /** From the creation of the session on, whose rid is positive. */
  lemma ForwardedFromStart(first: int, keyed: bool, hold: nat, steps: seq<Step>)
    requires IsRun(Init(first, keyed, hold), steps) && first >= 1
    ensures LogOrdered(first, After(Init(first, keyed, hold), steps).line.log)
  {
    StartOfOrder(first, keyed, hold);
    ForwardedInOrder(first, Init(first, keyed, hold), steps);
  }


  // ------------------------------------------------ what a missing rid stops

  function RidOf(req: Request): int {
    if req.rid.Number? then req.rid.n else 0
  }

  /** No worker serves the rid, and none has. */
  ghost predicate Absent(s: Server, r: int) {
    && (forall i :: 0 <= i < |s.workers| ==> s.workers[i].rid != r)
    && (forall i :: 0 <= i < |s.line.log| ==> s.line.log[i].0 != r)
  }

  lemma ArrivalKeepsAbsent(s: Server, req: Request, r: int)
    requires Absent(s, r) && RidOf(req) != r
    ensures Absent(Apply(s, Arrive(req)), r)
  {
  }

  /** No step but an arrival changes who serves which rid. */
  ghost predicate SameRids(s: Server, t: Server) {
    |t.workers| == |s.workers| && forall i :: 0 <= i < |s.workers| ==> t.workers[i].rid == s.workers[i].rid
  }

  predicate Admitting(step: Step) {
    step.DoLookup? || step.DoFind? || step.DoCheck? || step.DoCount? || step.DoAdd? || step.Admit?
  }

  lemma AdmittingSameRids(s: Server, step: Step)
    requires Enabled(s, step) && Admitting(step)
    ensures SameRids(s, Apply(s, step))
  {
  }

  lemma OtherSameRids(s: Server, step: Step)
    requires Enabled(s, step) && !InsideStep(s, step) && !step.Arrive? && !Admitting(step)
    ensures SameRids(s, Apply(s, step))
  {
  }

  lemma OutsideSameRids(s: Server, step: Step)
    requires Enabled(s, step) && !InsideStep(s, step) && !step.Arrive?
    ensures SameRids(s, Apply(s, step))
  {
    if Admitting(step) {
      AdmittingSameRids(s, step);
    } else {
      OtherSameRids(s, step);
    }
  }

  lemma InsideSameRids(s: Server, step: Step)
    requires Enabled(s, step) && InsideStep(s, step)
    ensures SameRids(s, Apply(s, step))
  {
  }

  lemma InsideLogs(s: Server, step: Step, r: int)
    requires Enabled(s, step) && InsideStep(s, step) && Absent(s, r)
    ensures forall i :: 0 <= i < |Apply(s, step).line.log| ==> Apply(s, step).line.log[i].0 != r
  {
  }

  lemma StepKeepsAbsent(s: Server, step: Step, r: int)
    requires Enabled(s, step) && Absent(s, r) && (step.Arrive? ==> RidOf(step.req) != r)
    ensures Absent(Apply(s, step), r)
  {
    if step.Arrive? {
      ArrivalKeepsAbsent(s, step.req, r);
    } else if InsideStep(s, step) {
      InsideSameRids(s, step);
      InsideLogs(s, step, r);
    } else {
      OutsideSameRids(s, step);
      OutsideSteps(s, step);
    }
  }

  lemma {:induction false} RunKeepsAbsent(s: Server, steps: seq<Step>, r: int)
    requires IsRun(s, steps) && Absent(s, r)
    requires forall i :: 0 <= i < |steps| && steps[i].Arrive? ==> RidOf(steps[i].req) != r
    ensures Absent(After(s, steps), r)
    decreases |steps|
  {
    if steps != [] {
      StepKeepsAbsent(s, steps[0], r);
      RunKeepsAbsent(Apply(s, steps[0]), steps[1..], r);
    }
  }

  /** Main result on gaps: as long as no request with rid `r` arrives, nothing from a later
      request is forwarded. */
  lemma NothingBeyondGap(first: int, keyed: bool, hold: nat, steps: seq<Step>, r: int)
    requires IsRun(Init(first, keyed, hold), steps) && 1 <= first < r
    requires forall i :: 0 <= i < |steps| && steps[i].Arrive? ==> RidOf(steps[i].req) != r
    ensures forall i :: 0 <= i < |After(Init(first, keyed, hold), steps).line.log| ==>
      After(Init(first, keyed, hold), steps).line.log[i].0 < r
  {
    var log := After(Init(first, keyed, hold), steps).line.log;
    ForwardedFromStart(first, keyed, hold, steps);
    var k := r - first - 1;
    assert k < |log| ==> log[k].0 == r;
    RunKeepsAbsent(Init(first, keyed, hold), steps, r);
  }

  /** If it is the rid after the first one, nothing at all is. */
  lemma NothingWithoutNext(first: int, keyed: bool, hold: nat, steps: seq<Step>)
    requires IsRun(Init(first, keyed, hold), steps) && 1 <= first
    requires forall i :: 0 <= i < |steps| && steps[i].Arrive? ==> RidOf(steps[i].req) != first + 1
    ensures After(Init(first, keyed, hold), steps).line.log == []
  {
    var log := After(Init(first, keyed, hold), steps).line.log;
    ForwardedFromStart(first, keyed, hold, steps);
    assert log != [] ==> log[0].0 == first + 1;
    NothingBeyondGap(first, keyed, hold, steps, first + 1);
  }
}
