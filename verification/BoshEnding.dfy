/** How a BOSH session ends. */
module BoshEnding {
  // Which steps of the workers and of the janitor end a session, and what the end does:
  // nothing is written any more, everybody who waits is woken, whoever looks the session
  // up later is told 404, and every worker can finish.

  import opened Collections
  import opened BoshSession
  import opened BoshServer
  import opened BoshAdmission

  /** The steps that close the socket. */
  predicate Ending(s: Server, step: Step)
    requires Enabled(s, step)
  {
    match step
    case Close(_) | Catch(_) | ExpireClose | FailKey(_) | FailPoll(_) | Break(_) => true
    case Forward(w) => s.workers[w].req.terminate
    case Answer(_, streamEnd) => streamEnd
    case _ => false
  }

  /** Steps that set the status and leave the rest to a later one. */
  predicate OnlyMarks(step: Step) {
    step.SetTerm? || step.ExpireTerm?
  }

  predicate NobodyWaits(s: Server) {
    forall i :: 0 <= i < |s.workers| ==> s.workers[i].pc != Waiting
  }

  /** The session has ended. */
  predicate Gone(s: Server) {
    s.life == Life(true, true, false) && NobodyWaits(s)
  }

  /** About to look the session up, or told that it is not there. */
  predicate Misses(pc: Pc) {
    pc == Lookup || pc == Exit(404)
  }

  /** From `s` to `t` nothing was written, whoever was finished stays so, and whoever had
      not looked the session up yet has not found it. */
  ghost predicate Fades(s: Server, t: Server) {
    && t.line.log == s.line.log && |s.workers| <= |t.workers|
    && (forall i :: 0 <= i < |s.workers| && s.workers[i].pc.Exit? ==> t.workers[i] == s.workers[i])
    && (forall i :: 0 <= i < |s.workers| && s.workers[i].pc == Lookup ==> Misses(t.workers[i].pc))
    && (forall i :: |s.workers| <= i < |t.workers| ==> Misses(t.workers[i].pc))
  }

  lemma FadesOn(s: Server, t: Server, u: Server)
    requires Fades(s, t) && Fades(t, u)
    ensures Fades(s, u)
  {
  }

  // ---------------------------------------------------------------- which steps end it

  lemma AdmissionEndsNothing(s: Server, step: Step)
    requires Enabled(s, step) && (step.DoFind? || step.DoCheck? || step.DoCount? || step.DoAdd? || step.Admit?)
    ensures Apply(s, step).life == s.life
  {
  }

  lemma QuietEndsNothing(s: Server, step: Step)
    requires Enabled(s, step)
    requires step.AnswerFirst? || step.MarkFirst? || step.Arrive? || step.DoLookup? || step.DoAbort? || step.Resend?
    ensures Apply(s, step).life == s.life
  {
  }

  lemma GateEndsNothing(s: Server, step: Step)
    requires Enabled(s, step) && !Ending(s, step)
    requires step.Enter? || step.Mark? || step.Forward? || step.Answer?
    ensures Apply(s, step).life == s.life
  {
  }

  lemma OthersEndNothing(s: Server, step: Step)
    requires Enabled(s, step) && !Ending(s, step) && !OnlyMarks(step)
    ensures Apply(s, step).life == s.life
  {
    if step.Enter? || step.Mark? || step.Forward? || step.Answer? {
      GateEndsNothing(s, step);
    } else if step.DoFind? || step.DoCheck? || step.DoCount? || step.DoAdd? || step.Admit? {
      AdmissionEndsNothing(s, step);
    } else {
      QuietEndsNothing(s, step);
    }
  }

  lemma StatusOnly(s: Server, step: Step)
    requires Enabled(s, step) && OnlyMarks(step)
    ensures Apply(s, step).life == s.life.(term := true)
  {
  }

  /** Ends at the hands of a worker inside the monitor. */
  predicate FromInside(step: Step) {
    step.FailKey? || step.FailPoll? || step.Break? || step.Forward? || step.Answer?
  }

  lemma InsideEnds(s: Server, step: Step)
    requires Enabled(s, step) && Ending(s, step) && FromInside(step)
    ensures Gone(Apply(s, step))
  {
  }

  lemma OutsideEnds(s: Server, step: Step)
    requires Enabled(s, step) && (step.Close? || step.Catch? || step.ExpireClose?)
    ensures Apply(s, step).life == Life(s.life.term, true, false) && NobodyWaits(Apply(s, step))
  {
  }

  lemma AllEnds(s: Server, step: Step)
    requires Enabled(s, step) && Ending(s, step)
    ensures NobodyWaits(Apply(s, step))
    ensures Apply(s, step).life == Life(s.life.term || FromInside(step), true, false)
  {
    if FromInside(step) {
      InsideEnds(s, step);
    } else {
      OutsideEnds(s, step);
    }
  }

  /** The socket is closed and the session unregistered by exactly those steps, and whoever
      waits is woken by them. */
  lemma EndsExactly(s: Server, step: Step)
    requires Enabled(s, step)
    ensures var t := Apply(s, step);
      && (t.life.closed <==> s.life.closed || Ending(s, step))
      && (t.life.registered <==> s.life.registered && !Ending(s, step))
      && (t.life.term <==> s.life.term || OnlyMarks(step) || (Ending(s, step) && FromInside(step)))
      && (Ending(s, step) ==> NobodyWaits(t))
  {
    if Ending(s, step) {
      AllEnds(s, step);
    } else if OnlyMarks(step) {
      StatusOnly(s, step);
    } else {
      OthersEndNothing(s, step);
    }
  }

  /** A run contains such a step. */
  ghost predicate HasEnding(s: Server, steps: seq<Step>)
    requires IsRun(s, steps)
    decreases |steps|
  {
    steps != [] && (Ending(s, steps[0]) || HasEnding(Apply(s, steps[0]), steps[1..]))
  }

  // ---------------------------------------------------------------- where its workers stand

  /** What the place of a worker says about the session and about its request: one whose rid
      is not an int gets no further than the look-up. */
  predicate PlaceTells(s: Server, wk: Worker) {
    && CodeTells(s, wk)
    && (wk.req.rid.Malformed? ==> wk.pc == Lookup || wk.pc == Exit(400) || wk.pc == Exit(404))
    && (wk.req.rid.Missing? ==> wk.pc == Lookup || wk.pc == Rejecting(404, true) || s.life.term)
  }

  predicate CodeTells(s: Server, wk: Worker) {
    match wk.pc
    case Rejecting(code, _) => code == 403 || code == 404
    case Closing(code, _) => (code == 403 || code == 404) && s.life.term
    case Waiting => !s.life.closed
    case Catching => s.life.closed
    case Exit(code) =>
      code == 200 || (code == 400 && wk.req.rid == Malformed) || (code == 403 && s.life.closed)
        || (code == 404 && s.life.term)
    case _ => true
  }

  /** A session is registered until its socket is closed, and it is terminated by then. */
  ghost predicate EndInv(s: Server) {
    && s.life.registered == !s.life.closed
    && (s.life.closed ==> s.life.term)
    && (forall i :: 0 <= i < |s.workers| ==> PlaceTells(s, s.workers[i]))
  }

  /** One worker moves, and the session does not come back to life. */
  lemma OneTells(s: Server, t: Server, w: int)
    requires EndInv(s) && OthersStay(s, t, w)
    requires t.life.registered == !t.life.closed && (t.life.closed ==> t.life.term)
    requires (s.life.closed ==> t.life.closed) && (s.life.term ==> t.life.term)
    requires t.life.closed && !s.life.closed ==> NobodyWaits(t)
    requires 0 <= w < |s.workers| ==> PlaceTells(t, t.workers[w])
    ensures EndInv(t)
  {
    forall i | 0 <= i < |t.workers|
      ensures PlaceTells(t, t.workers[i])
    {
      assert PlaceTells(s, s.workers[i]);
    }
  }

  lemma ArrivalTells(s: Server, req: Request)
    requires EndInv(s)
    ensures EndInv(Apply(s, Arrive(req)))
  {
    var t := Apply(s, Arrive(req));
    forall i | 0 <= i < |t.workers|
      ensures PlaceTells(t, t.workers[i])
    {
      assert i < |s.workers| ==> PlaceTells(s, s.workers[i]);
    }
  }

  /** `t` is `s` with worker `w` elsewhere, at a place that tells the truth. */
  ghost predicate Moves(s: Server, t: Server, w: nat) {
    OthersStay(s, t, w) && w < |t.workers| && PlaceTells(t, t.workers[w])
  }

  lemma AdmissionTells(s: Server, step: Step)
    requires Enabled(s, step) && EndInv(s) && (step.DoFind? || step.DoCheck? || step.DoCount?)
    ensures Moves(s, Apply(s, step), step.w)
  {
    assert PlaceTells(s, s.workers[step.w]);
  }

  lemma AddTells(s: Server, w: nat)
    requires Enabled(s, DoAdd(w)) && EndInv(s)
    ensures Moves(s, Cached(s, w), w)
  {
    assert PlaceTells(s, s.workers[w]);
  }

  lemma AdmitPlaces(s: Server, w: nat)
    requires Enabled(s, Admit(w))
    ensures var t := Apply(s, Admit(w)); var pc := t.workers[w].pc;
      && OthersStay(s, t, w) && t.life == s.life
      && (pc == Gate || pc.Aborting? || pc == Rejecting(403, false) || pc == Rejecting(404, false))
  {
    AdmitCases(s, w);
    var s1 := Found(s, w);
    if s1.workers[w].pc == Check {
      var s2 := Checked(s1, w);
      if s2.workers[w].pc == Count {
        var s3 := Counted(s2, w);
      }
    }
  }

  lemma AdmitTells(s: Server, w: nat)
    requires Enabled(s, Admit(w)) && EndInv(s)
    ensures Moves(s, Apply(s, Admit(w)), w)
  {
    assert PlaceTells(s, s.workers[w]);
    AdmitPlaces(s, w);
  }

  lemma LookupTells(s: Server, step: Step)
    requires Enabled(s, step) && EndInv(s) && (step.DoLookup? || step.DoAbort? || step.Resend? || step.SetTerm?)
    ensures Moves(s, Apply(s, step), step.w)
  {
    assert PlaceTells(s, s.workers[step.w]);
  }

  lemma CloseTells(s: Server, step: Step)
    requires Enabled(s, step) && EndInv(s) && (step.Close? || step.Catch?)
    ensures Moves(s, Apply(s, step), step.w)
  {
    assert PlaceTells(s, s.workers[step.w]);
  }

  lemma EnterTells(s: Server, step: Step)
    requires Enabled(s, step) && EndInv(s) && (step.Enter? || step.Mark?)
    ensures Moves(s, Apply(s, step), step.w)
  {
    assert PlaceTells(s, s.workers[step.w]);
  }

  lemma FailureTells(s: Server, step: Step)
    requires Enabled(s, step) && EndInv(s) && (step.FailKey? || step.FailPoll? || step.Break?)
    ensures Moves(s, Apply(s, step), step.w)
  {
    assert PlaceTells(s, s.workers[step.w]);
  }

  lemma ForwardTells(s: Server, w: nat)
    requires Enabled(s, Forward(w)) && EndInv(s)
    ensures Moves(s, Apply(s, Forward(w)), w)
  {
    assert PlaceTells(s, s.workers[w]);
  }

  lemma AnswerTells(s: Server, step: Step)
    requires Enabled(s, step) && EndInv(s) && step.Answer?
    ensures Moves(s, Apply(s, step), step.w)
  {
    assert PlaceTells(s, s.workers[step.w]);
  }

  lemma WorkTells(s: Server, step: Step)
    requires Enabled(s, step) && EndInv(s) && !step.Arrive?
    requires !step.AnswerFirst? && !step.MarkFirst? && !step.ExpireTerm? && !step.ExpireClose?
    ensures Moves(s, Apply(s, step), step.w)
  {
    match step
    case DoLookup(_) | DoAbort(_) | Resend(_) | SetTerm(_) => LookupTells(s, step);
    case DoFind(_) | DoCheck(_) | DoCount(_) => AdmissionTells(s, step);
    case DoAdd(w) => AddTells(s, w);
    case Admit(w) => AdmitTells(s, w);
    case Close(_) | Catch(_) => CloseTells(s, step);
    case Enter(_) | Mark(_) => EnterTells(s, step);
    case FailKey(_) | FailPoll(_) | Break(_) => FailureTells(s, step);
    case Forward(w) => ForwardTells(s, w);
    case Answer(_, _) => AnswerTells(s, step);
  }

  lemma StepTells(s: Server, step: Step)
    requires Enabled(s, step) && EndInv(s)
    ensures EndInv(Apply(s, step))
  {
    EndsExactly(s, step);
    if step.Arrive? {
      ArrivalTells(s, step.req);
    } else if step.AnswerFirst? || step.MarkFirst? || step.ExpireTerm? || step.ExpireClose? {
      OneTells(s, Apply(s, step), -1);
    } else {
      WorkTells(s, step);
      OneTells(s, Apply(s, step), step.w);
    }
  }

  lemma StartTells(first: int, keyed: bool, hold: nat)
    ensures EndInv(Init(first, keyed, hold))
  {
  }

  /** Main result on the end: in every run the session is closed and unregistered exactly
      when one of those steps was taken; nobody waits then, and whoever was told 404 or 403
      was told so by a session that is terminated. */
  lemma {:induction false} EndsInRuns(s: Server, steps: seq<Step>)
    requires IsRun(s, steps) && EndInv(s)
    ensures var t := After(s, steps);
      && (t.life.closed <==> s.life.closed || HasEnding(s, steps))
      && t.life.registered == !t.life.closed && (t.life.closed ==> Gone(t))
      && (forall i :: 0 <= i < |t.workers| && t.workers[i].pc.Exit? && !t.life.term ==>
            t.workers[i].pc.code == if t.workers[i].req.rid.Malformed? then 400 else 200)
      && EndInv(t)
    decreases |steps|
  {
    if steps == [] {
      assert forall i :: 0 <= i < |s.workers| ==> PlaceTells(s, s.workers[i]);
    } else {
      EndsExactly(s, steps[0]);
      StepTells(s, steps[0]);
      EndsInRuns(Apply(s, steps[0]), steps[1..]);
    }
  }

  // ---------------------------------------------------------------- what the end does

  /** A worker of a session that is gone moves. */
  lemma OneFades(s: Server, t: Server, w: nat)
    requires Gone(s) && OthersStay(s, t, w) && t.life == s.life && t.line.log == s.line.log
    requires w < |s.workers| && !s.workers[w].pc.Exit? && t.workers[w].pc != Waiting
    requires s.workers[w].pc == Lookup ==> t.workers[w].pc == Exit(404)
    ensures Gone(t) && Fades(s, t)
  {
  }

  lemma AdmitFades(s: Server, w: nat)
    requires Gone(s) && Enabled(s, Admit(w))
    ensures Gone(Admitted(s, w)) && Fades(s, Admitted(s, w))
  {
    AdmitCases(s, w);
    OneFades(s, Admitted(s, w), w);
  }

  lemma EarlyFades(s: Server, step: Step)
    requires Gone(s) && Enabled(s, step)
    requires step.DoLookup? || step.DoFind? || step.DoCheck? || step.DoCount? || step.DoAdd?
    ensures Gone(Apply(s, step)) && Fades(s, Apply(s, step))
  {
  }

  lemma RefusalFades(s: Server, step: Step)
    requires Gone(s) && Enabled(s, step)
    requires step.DoAbort? || step.Resend? || step.SetTerm? || step.Close?
    ensures Gone(Apply(s, step)) && Fades(s, Apply(s, step))
  {
  }

  lemma GateFades(s: Server, step: Step)
    requires Gone(s) && Enabled(s, step) && (step.Enter? || step.Mark?)
    ensures Gone(Apply(s, step)) && Fades(s, Apply(s, step))
  {
  }

  lemma FailureFades(s: Server, step: Step)
    requires Gone(s) && Enabled(s, step) && (step.FailKey? || step.FailPoll?)
    ensures Gone(Apply(s, step)) && Fades(s, Apply(s, step))
  {
  }

  lemma BreakFades(s: Server, step: Step)
    requires Gone(s) && Enabled(s, step) && (step.Break? || step.Catch?)
    ensures Gone(Apply(s, step)) && Fades(s, Apply(s, step))
  {
  }

  lemma ForwardFades(s: Server, w: nat)
    requires Gone(s) && Enabled(s, Forward(w))
    ensures Gone(Forwarded(s, w)) && Fades(s, Forwarded(s, w))
  {
  }

  lemma StepFades(s: Server, step: Step)
    requires Gone(s) && Enabled(s, step)
    ensures Gone(Apply(s, step)) && Fades(s, Apply(s, step))
  {
    match step
    case AnswerFirst | MarkFirst | Arrive(_) | ExpireTerm | ExpireClose =>
    case DoLookup(_) | DoFind(_) | DoCheck(_) | DoCount(_) | DoAdd(_) => EarlyFades(s, step);
    case Admit(w) => AdmitFades(s, w);
    case DoAbort(_) | Resend(_) | SetTerm(_) | Close(_) => RefusalFades(s, step);
    case Enter(_) | Mark(_) => GateFades(s, step);
    case FailKey(_) | FailPoll(_) => FailureFades(s, step);
    case Break(_) | Catch(_) => BreakFades(s, step);
    case Forward(w) => ForwardFades(s, w);
  }

  lemma {:induction false} RunFades(s: Server, steps: seq<Step>)
    requires Gone(s) && IsRun(s, steps)
    ensures Gone(After(s, steps)) && Fades(s, After(s, steps))
    decreases |steps|
  {
    if steps != [] {
      StepFades(s, steps[0]);
      RunFades(Apply(s, steps[0]), steps[1..]);
      FadesOn(s, Apply(s, steps[0]), After(s, steps));
    }
  }

  lemma TerminateForwards(s: Server, w: nat)
    requires Enabled(s, Forward(w)) && s.workers[w].req.terminate
    ensures var t := Apply(s, Forward(w));
      && Gone(t) && t.line.monitor == Vacant && w in t.done && t.workers[w].pc == Exit(200)
      && t.line.log == s.line.log + if s.life.closed then [] else [(s.workers[w].rid, s.workers[w].req.payload)]
  {
  }

  /** Main result on termination: when the turn of a terminating request comes its payload is
      written, and is the last that ever is; the session is terminated, closed and
      unregistered, the monitor free, nobody waits, and the request is answered.  In every
      continuation it stays so, and whoever comes later is told 404 when it looks it up. */
  lemma TerminateIsLast(s: Server, w: nat, steps: seq<Step>)
    requires Enabled(s, Forward(w)) && s.workers[w].req.terminate && IsRun(Apply(s, Forward(w)), steps)
    ensures var t := Apply(s, Forward(w)); var e := After(t, steps);
      && t.life == e.life == Life(true, true, false) && t.line.monitor == Vacant
      && w in t.done && t.workers[w].pc == Exit(200) && w < |e.workers| && e.workers[w].pc == Exit(200)
      && (forall i :: 0 <= i < |t.workers| ==> t.workers[i].pc != Waiting)
      && e.line.log == t.line.log
        == s.line.log + (if s.life.closed then [] else [(s.workers[w].rid, s.workers[w].req.payload)])
      && (forall i :: |t.workers| <= i < |e.workers| ==> e.workers[i].pc == Lookup || e.workers[i].pc == Exit(404))
      && (forall i :: 0 <= i < |e.workers| ==> e.workers[i].pc != Waiting)
  {
    TerminateForwards(s, w);
    RunFades(Apply(s, Forward(w)), steps);
  }

  lemma StreamEndAnswers(s: Server, w: nat)
    requires Enabled(s, Answer(w, true))
    ensures var t := Apply(s, Answer(w, true));
      Gone(t) && t.line == s.line && w in t.done && t.workers[w].pc == Marking
  {
  }

  /** The same for the answer during which the XMPP server closes the stream: the worker has
      still to mark its rid. */
  lemma StreamEndIsLast(s: Server, w: nat, steps: seq<Step>)
    requires Enabled(s, Answer(w, true)) && IsRun(Apply(s, Answer(w, true)), steps)
    ensures var t := Apply(s, Answer(w, true)); var e := After(t, steps);
      && t.life == e.life == Life(true, true, false) && t.line == s.line
      && w in t.done && t.workers[w].pc == Marking && e.line.log == s.line.log
      && (forall i :: 0 <= i < |s.workers| && s.workers[i].pc == Waiting ==> t.workers[i].pc == Notified)
      && (forall i :: |t.workers| <= i < |e.workers| ==> e.workers[i].pc == Lookup || e.workers[i].pc == Exit(404))
      && (forall i :: 0 <= i < |e.workers| ==> e.workers[i].pc != Waiting)
  {
    StreamEndAnswers(s, w);
    RunFades(Apply(s, Answer(w, true)), steps);
  }

  lemma ThrownOutLeaves(s: Server, step: Step)
    requires Enabled(s, step) && (step.FailKey? || step.FailPoll?)
    ensures var t := Apply(s, step);
      && Gone(t) && t.line == s.line.(monitor := Vacant) && t.done == s.done
      && t.workers[step.w].pc == Exit(if step.FailKey? then 404 else 403)
  {
  }

  /** A wrong key, or an empty request too soon, ends the session with nothing written. */
  lemma ThrownOutIsLast(s: Server, step: Step, steps: seq<Step>)
    requires Enabled(s, step) && (step.FailKey? || step.FailPoll?) && IsRun(Apply(s, step), steps)
    ensures var t := Apply(s, step); var e := After(t, steps); var code := if step.FailKey? then 404 else 403;
      && t.life == e.life == Life(true, true, false) && t.line.monitor == Vacant && e.line.log == s.line.log
      && t.done == s.done && step.w < |e.workers| && e.workers[step.w].pc == Exit(code)
      && (forall i :: |t.workers| <= i < |e.workers| ==> e.workers[i].pc == Lookup || e.workers[i].pc == Exit(404))
      && (forall i :: 0 <= i < |e.workers| ==> e.workers[i].pc != Waiting)
  {
    ThrownOutLeaves(s, step);
    RunFades(Apply(s, step), steps);
  }

  // ---------------------------------------------------------------- refused requests

  /** On the way out with that code, and the session is gone when it is out. */
  predicate Leaving(s: Server, w: nat, code: int) {
    && w < |s.workers|
    && (s.workers[w].pc == Rejecting(code, false)
        || (s.workers[w].pc == Closing(code, false) && s.life.term)
        || (s.workers[w].pc == Exit(code) && s.life.term && s.life.closed && !s.life.registered))
  }

  lemma LeavingGoesOn(s: Server, step: Step, w: nat, code: int)
    requires Enabled(s, step) && Leaving(s, w, code)
    requires (step.SetTerm? || step.Close?) && step.w == w
    ensures Leaving(Apply(s, step), w, code)
  {
  }

  /** A step of another worker, or of nobody, leaves this one where it is. */
  lemma OthersWait(s: Server, t: Server, v: int, w: nat, code: int)
    requires Leaving(s, w, code) && OthersStay(s, t, v) && v != w
    requires (s.life.term ==> t.life.term) && (s.life.closed ==> t.life.closed)
    requires !s.life.registered ==> !t.life.registered
    ensures Leaving(t, w, code)
  {
  }

  lemma StepKeepsLeaving(s: Server, step: Step, w: nat, code: int)
    requires Enabled(s, step) && EndInv(s) && Leaving(s, w, code)
    ensures Leaving(Apply(s, step), w, code)
  {
    EndsExactly(s, step);
    if step.Arrive? {
    } else if step.AnswerFirst? || step.MarkFirst? || step.ExpireTerm? || step.ExpireClose? {
      OthersWait(s, Apply(s, step), -1, w, code);
    } else if step.w == w {
      LeavingGoesOn(s, step, w, code);
    } else {
      WorkTells(s, step);
      OthersWait(s, Apply(s, step), step.w, w, code);
    }
  }

  lemma {:induction false} RunKeepsLeaving(s: Server, steps: seq<Step>, w: nat, code: int)
    requires IsRun(s, steps) && EndInv(s) && Leaving(s, w, code)
    ensures Leaving(After(s, steps), w, code)
    decreases |steps|
  {
    if steps != [] {
      StepKeepsLeaving(s, steps[0], w, code);
      StepTells(s, steps[0]);
      RunKeepsLeaving(Apply(s, steps[0]), steps[1..], w, code);
    }
  }

  /** A request whose rid is in the cache is answered again, whatever the window and the
      pending requests: the response made for it is marked as aborted and sent. */
  lemma RepeatIsResent(s: Server, w: nat)
    requires At(s, w, Find) && s.workers[w].rid in s.book.cache
    ensures var steps := [Admit(w), DoAbort(w), Resend(w)]; var r := s.book.cache[s.workers[w].rid];
      IsRun(s, steps) && After(s, steps) == s.(aborted := s.aborted + {r}, done := s.done + {r},
        workers := s.workers[w := s.workers[w].(pc := Exit(200))])
  {
    ThreeSteps(s, Admit(w), DoAbort(w), Resend(w));
    var t := Apply(Apply(Apply(s, Admit(w)), DoAbort(w)), Resend(w));
    assert t.workers == s.workers[w := s.workers[w].(pc := Exit(200))];
  }

  lemma ThreeSteps(s: Server, a: Step, b: Step, c: Step)
    requires Enabled(s, a) && Enabled(Apply(s, a), b) && Enabled(Apply(Apply(s, a), b), c)
    ensures IsRun(s, [a, b, c]) && After(s, [a, b, c]) == Apply(Apply(Apply(s, a), b), c)
  {
    var s1, s2 := Apply(s, a), Apply(Apply(s, a), b);
    assert [a, b, c][1..] == [b, c] && [b, c][1..] == [c] && [c][1..] == [];
    assert IsRun(s2, [c]) && After(s2, [c]) == Apply(s2, c);
    assert IsRun(s1, [b, c]) && After(s1, [b, c]) == After(s2, [c]);
  }

  // ---------------------------------------------------------------- a broken connection

  /** On the way out after the XMPP connection broke, and answered when it is out. */
  predicate Caught(s: Server, w: nat) {
    w < |s.workers| && (s.workers[w].pc == Catching || (s.workers[w].pc == Exit(200) && w in s.done))
  }

  lemma DoneGrows(s: Server, step: Step)
    requires Enabled(s, step)
    ensures s.done <= Apply(s, step).done
  {
    match step
    case AnswerFirst | MarkFirst | Arrive(_) | ExpireTerm | ExpireClose =>
    case DoLookup(_) | DoFind(_) | DoCheck(_) | DoCount(_) | DoAdd(_) | DoAbort(_) | SetTerm(_) | Close(_) =>
    case Admit(w) => AdmitCases(s, w);
    case Enter(_) | FailKey(_) | FailPoll(_) | Break(_) | Mark(_) =>
    case Resend(_) | Catch(_) | Forward(_) | Answer(_, _) =>
  }

  lemma OnlyCatches(s: Server, step: Step, w: nat)
    requires Enabled(s, step) && Caught(s, w) && !step.Arrive?
    requires !step.AnswerFirst? && !step.MarkFirst? && !step.ExpireTerm? && !step.ExpireClose?
    ensures step.w == w ==> step == Catch(w)
  {
  }

  lemma StepKeepsCaught(s: Server, step: Step, w: nat)
    requires Enabled(s, step) && EndInv(s) && Caught(s, w)
    ensures Caught(Apply(s, step), w)
  {
    DoneGrows(s, step);
    if step.Arrive? || step.AnswerFirst? || step.MarkFirst? || step.ExpireTerm? || step.ExpireClose? {
    } else {
      OnlyCatches(s, step, w);
      if step.w != w {
        WorkTells(s, step);
      }
    }
  }

  lemma {:induction false} RunKeepsCaught(s: Server, steps: seq<Step>, w: nat)
    requires IsRun(s, steps) && EndInv(s) && Caught(s, w)
    ensures Caught(After(s, steps), w)
    decreases |steps|
  {
    if steps != [] {
      StepKeepsCaught(s, steps[0], w);
      StepTells(s, steps[0]);
      RunKeepsCaught(Apply(s, steps[0]), steps[1..], w);
    }
  }

  lemma BreakLeaves(s: Server, w: nat)
    requires Enabled(s, Break(w))
    ensures var t := Apply(s, Break(w));
      Gone(t) && t.line == s.line.(monitor := Vacant) && t.workers[w].pc == Catching
  {
  }

  /** An IOException while reading ends the session too; its worker gives the monitor up
      and answers all the same. */
  lemma BreakIsLast(s: Server, w: nat, steps: seq<Step>)
    requires Enabled(s, Break(w)) && EndInv(s) && IsRun(Apply(s, Break(w)), steps)
    ensures var t := Apply(s, Break(w)); var e := After(t, steps);
      && t.life == e.life == Life(true, true, false) && t.line.monitor == Vacant && e.line.log == s.line.log
      && w < |e.workers| && (e.workers[w].pc == Catching || (e.workers[w].pc == Exit(200) && w in e.done))
      && (forall i :: |t.workers| <= i < |e.workers| ==> e.workers[i].pc == Lookup || e.workers[i].pc == Exit(404))
      && (forall i :: 0 <= i < |e.workers| ==> e.workers[i].pc != Waiting)
  {
    BreakLeaves(s, w);
    StepTells(s, Break(w));
    RunFades(Apply(s, Break(w)), steps);
    RunKeepsCaught(Apply(s, Break(w)), steps, w);
  }

  /** What the gate decides about a worker that enters it: its turn has come, or the session
      is terminated, which it tells everybody who waits, or it waits itself. */
  lemma GateDecides(s: Server, w: nat)
    requires Enabled(s, Enter(w))
    ensures var t := Apply(s, Enter(w)); var turn := s.workers[w].rid == s.line.lastDone + 1;
      && t.life == s.life && t.book == s.book && t.done == s.done && OthersStay(s, t, w)
      && t.line == s.line.(monitor := if turn then Held(w) else Vacant)
      && t.workers[w].pc == (if turn then Forwarding else if s.life.term then Exit(404) else Waiting)
      && (forall i :: 0 <= i < |s.workers| && i != w ==>
        t.workers[i].pc == if s.workers[i].pc == Waiting && !turn && s.life.term then Notified else s.workers[i].pc)
  {
  }

  // ---------------------------------------------------------------- everybody gets out

  /** The monitor is held by the worker inside, and by nobody else. */
  ghost predicate Exclusive(s: Server) {
    && (s.line.monitor.Held? ==>
          0 <= s.line.monitor.worker < |s.workers| && Inside(s.workers[s.line.monitor.worker].pc))
    && (forall i :: 0 <= i < |s.workers| && Inside(s.workers[i].pc) ==> s.line.monitor == Held(i))
  }

  lemma EnterKeepsExclusive(s: Server, w: nat)
    requires Enabled(s, Enter(w)) && Exclusive(s)
    ensures Exclusive(Entered(s, w))
  {
  }

  lemma LeaveKeepsExclusive(s: Server, step: Step)
    requires Enabled(s, step) && Exclusive(s) && (step.FailKey? || step.FailPoll? || step.Break?)
    ensures Exclusive(Apply(s, step))
  {
  }

  lemma MarkKeepsExclusive(s: Server, w: nat)
    requires Enabled(s, Mark(w)) && Exclusive(s)
    ensures Exclusive(Marked(s, w))
  {
  }

  lemma ForwardKeepsExclusive(s: Server, w: nat)
    requires Enabled(s, Forward(w)) && Exclusive(s)
    ensures Exclusive(Forwarded(s, w))
  {
  }

  lemma StayKeepsExclusive(s: Server, step: Step)
    requires Enabled(s, step) && Exclusive(s) && (step.Answer? || step.MarkFirst?)
    ensures Exclusive(Apply(s, step))
  {
  }

  lemma StepKeepsExclusive(s: Server, step: Step)
    requires Enabled(s, step) && Exclusive(s)
    ensures Exclusive(Apply(s, step))
  {
    match step
    case Enter(w) => EnterKeepsExclusive(s, w);
    case FailKey(_) | FailPoll(_) | Break(_) => LeaveKeepsExclusive(s, step);
    case Mark(w) => MarkKeepsExclusive(s, w);
    case Forward(w) => ForwardKeepsExclusive(s, w);
    case Answer(_, _) | MarkFirst => StayKeepsExclusive(s, step);
    case _ => OutsideSteps(s, step);
  }

  /** How far a worker of a session that is gone is from its end. */
  function Distance(pc: Pc): nat {
    match pc
    case Lookup => 20
    case Rejecting(_, missing) => if missing then 19 else 12
    case Closing(_, missing) => if missing then 18 else 11
    case Find => 17
    case Check => 16
    case Count => 15
    case Add => 14
    case Aborting(_) => 2
    case Resending(_) => 1
    case Gate | Waiting | Notified => 10
    case Forwarding => 9
    case Reading => 8
    case Catching => 7
    case Marking => 1
    case Exit(_) => 0
  }

  function Distances(ws: seq<Worker>): nat {
    if ws == [] then 0 else Distance(ws[0].pc) + Distances(ws[1..])
  }

  lemma {:induction false} Nearer(ws: seq<Worker>, vs: seq<Worker>, w: nat)
    requires |ws| == |vs| && w < |ws| && Distance(vs[w].pc) < Distance(ws[w].pc)
    requires forall i :: 0 <= i < |ws| ==> Distance(vs[i].pc) <= Distance(ws[i].pc)
    ensures Distances(vs) < Distances(ws)
    decreases |ws|
  {
    NoFarther(ws[1..], vs[1..]);
    if w > 0 {
      Nearer(ws[1..], vs[1..], w - 1);
    }
  }

  lemma {:induction false} NoFarther(ws: seq<Worker>, vs: seq<Worker>)
    requires |ws| == |vs| && forall i :: 0 <= i < |ws| ==> Distance(vs[i].pc) <= Distance(ws[i].pc)
    ensures Distances(vs) <= Distances(ws)
    decreases |ws|
  {
    if ws != [] {
      NoFarther(ws[1..], vs[1..]);
    }
  }

  predicate Finished(s: Server) {
    forall i :: 0 <= i < |s.workers| ==> s.workers[i].pc.Exit?
  }

  /** The step worker `w` would take next in a session that is gone. */
  function NextStep(pc: Pc, w: nat): Step
    requires !pc.Exit? && pc != Waiting
  {
    match pc
    case Lookup => DoLookup(w)
    case Find => DoFind(w)
    case Check => DoCheck(w)
    case Count => DoCount(w)
    case Add => DoAdd(w)
    case Aborting(_) => DoAbort(w)
    case Resending(_) => Resend(w)
    case Rejecting(_, _) => SetTerm(w)
    case Closing(_, _) => Close(w)
    case Gate | Notified => Enter(w)
    case Forwarding => Forward(w)
    case Reading => Break(w)
    case Marking => Mark(w)
    case Catching => Catch(w)
  }

  ghost predicate Advances(s: Server, step: Step, w: nat) {
    && w < |s.workers| && Enabled(s, step) && OthersStay(s, Apply(s, step), w)
    && Distance(Apply(s, step).workers[w].pc) < Distance(s.workers[w].pc)
  }

  lemma NextEarly(s: Server, w: nat)
    requires Gone(s) && w < |s.workers|
    requires s.workers[w].pc == Lookup || s.workers[w].pc == Find || s.workers[w].pc == Check
    ensures Advances(s, NextStep(s.workers[w].pc, w), w)
  {
  }

  lemma NextAdmission(s: Server, w: nat)
    requires Gone(s) && w < |s.workers| && (s.workers[w].pc == Count || s.workers[w].pc == Add)
    ensures Advances(s, NextStep(s.workers[w].pc, w), w)
  {
  }

  lemma NextRefusal(s: Server, w: nat)
    requires Gone(s) && w < |s.workers|
    requires s.workers[w].pc.Aborting? || s.workers[w].pc.Resending? || s.workers[w].pc.Rejecting?
    ensures Advances(s, NextStep(s.workers[w].pc, w), w)
  {
  }

  lemma NextClosing(s: Server, w: nat)
    requires Gone(s) && w < |s.workers| && s.line.monitor == Vacant
    requires s.workers[w].pc.Closing? || s.workers[w].pc == Catching
    ensures Advances(s, NextStep(s.workers[w].pc, w), w)
  {
  }

  lemma NextGate(s: Server, w: nat)
    requires Gone(s) && w < |s.workers| && s.line.monitor == Vacant
    requires s.workers[w].pc == Gate || s.workers[w].pc == Notified
    ensures Advances(s, NextStep(s.workers[w].pc, w), w)
  {
  }

  lemma NextInside(s: Server, w: nat)
    requires Gone(s) && w < |s.workers| && Inside(s.workers[w].pc)
    ensures Advances(s, NextStep(s.workers[w].pc, w), w)
  {
  }

  lemma NextOutside(s: Server, w: nat)
    requires Gone(s) && s.line.monitor == Vacant && w < |s.workers|
    requires !s.workers[w].pc.Exit? && !Inside(s.workers[w].pc)
    ensures Advances(s, NextStep(s.workers[w].pc, w), w)
  {
    match s.workers[w].pc
    case Lookup | Find | Check => NextEarly(s, w);
    case Count | Add => NextAdmission(s, w);
    case Aborting(_) | Resending(_) | Rejecting(_, _) => NextRefusal(s, w);
    case Closing(_, _) | Catching => NextClosing(s, w);
    case Gate | Notified => NextGate(s, w);
  }

  lemma SomebodyMoves(s: Server) returns (w: nat)
    requires Gone(s) && Exclusive(s) && !Finished(s)
    ensures w < |s.workers| && !s.workers[w].pc.Exit? && s.workers[w].pc != Waiting
    ensures var step := NextStep(s.workers[w].pc, w);
      Enabled(s, step) && |Apply(s, step).workers| == |s.workers|
      && Distances(Apply(s, step).workers) < Distances(s.workers)
  {
    if s.line.monitor.Held? {
      w := s.line.monitor.worker;
      NextInside(s, w);
    } else {
      w :| w < |s.workers| && !s.workers[w].pc.Exit?;
      NextOutside(s, w);
    }
    var t := Apply(s, NextStep(s.workers[w].pc, w));
    Nearer(s.workers, t.workers, w);
  }

  /** Main result on the workers left: once the session is gone, they can all come to an end
      without anybody new arriving. */
  lemma {:induction false} EverybodyLeaves(s: Server) returns (steps: seq<Step>)
    requires Gone(s) && Exclusive(s)
    ensures IsRun(s, steps) && Finished(After(s, steps)) && |After(s, steps).workers| == |s.workers|
    decreases Distances(s.workers)
  {
    if Finished(s) {
      steps := [];
    } else {
      var w := SomebodyMoves(s);
      var step := NextStep(s.workers[w].pc, w);
      StepFades(s, step);
      StepKeepsExclusive(s, step);
      var rest := EverybodyLeaves(Apply(s, step));
      steps := [step] + rest;
      assert steps[1..] == rest;
    }
  }

  lemma {:induction false} RunKeepsExclusive(s: Server, steps: seq<Step>)
    requires IsRun(s, steps) && Exclusive(s)
    ensures Exclusive(After(s, steps))
    decreases |steps|
  {
    if steps != [] {
      StepKeepsExclusive(s, steps[0]);
      RunKeepsExclusive(Apply(s, steps[0]), steps[1..]);
    }
  }

  /** From the creation of the session on: whatever run ended it, its workers can finish. */
  lemma EndedCanFinish(first: int, keyed: bool, hold: nat, steps: seq<Step>) returns (rest: seq<Step>)
    requires IsRun(Init(first, keyed, hold), steps) && HasEnding(Init(first, keyed, hold), steps)
    ensures var s := After(Init(first, keyed, hold), steps);
      && IsRun(s, rest) && |After(s, rest).workers| == |s.workers| && After(s, rest).line.log == s.line.log
      && forall i :: 0 <= i < |s.workers| ==> After(s, rest).workers[i].pc.Exit?
  {
    var s := After(Init(first, keyed, hold), steps);
    StartTells(first, keyed, hold);
    EndsInRuns(Init(first, keyed, hold), steps);
    RunKeepsExclusive(Init(first, keyed, hold), steps);
    rest := EverybodyLeaves(s);
    RunFades(s, rest);
  }
}
