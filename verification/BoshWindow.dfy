/** The window on request ids. */
module BoshWindow {
  // Which rids a session takes: what `checkValidRID` lets through in every state, what the
  // history of the admitted rids looks like in every run, and what becomes of a request that
  // is too far ahead.

  import opened Collections
  import opened BoshSession
  import opened BoshServer
  import opened BoshAdmission
  import opened BoshEnding

  /** Not below every cached rid, and at most two above one of them. */
  ghost predicate InWindow(cache: map<int, int>, rid: int) {
    (exists k :: k in cache && k <= rid) && (exists k :: k in cache && rid <= k + 2)
  }

  /** The window check goes on exactly inside the window; whoever is outside is told 404. */
  lemma WindowCheck(s: Server, w: nat)
    requires Enabled(s, DoCheck(w))
    ensures var t := Apply(s, DoCheck(w)); var cache, rid := s.book.cache, s.workers[w].rid;
      && t.book == s.book && t.life == s.life && w < |t.workers|
      && t.workers[w].pc == if (exists k :: k in cache && k <= rid) && (exists k :: k in cache && rid <= k + 2)
                            then Count else Rejecting(404, false)
  {
    WindowIsValid(s.book.cache, s.workers[w].rid);
  }

  lemma WindowIsValid(cache: map<int, int>, rid: int)
    ensures ValidRid(cache.Keys, rid) <==> InWindow(cache, rid)
  {
    if cache.Keys != {} {
      assert FirstKey(cache.Keys) in cache && LastKey(cache.Keys) in cache;
    }
  }

  /** Two different cached requests are not answered yet. */
  ghost predicate TwoPending(s: Server) {
    exists j, k :: j in s.book.cache && k in s.book.cache && j != k
      && s.book.cache[j] !in s.done && s.book.cache[k] !in s.done
  }

  lemma TwoPendingCount(s: Server)
    ensures TwoPending(s) <==> |PendingKeys(s.book.cache, s.done)| >= 2
  {
    var keys := PendingKeys(s.book.cache, s.done);
    if |keys| >= 2 {
      var j, k := PickTwo(keys);
      assert j in s.book.cache && k in s.book.cache;
    }
    if TwoPending(s) {
      var j, k :| j in s.book.cache && k in s.book.cache && j != k
        && s.book.cache[j] !in s.done && s.book.cache[k] !in s.done;
      SubsetCard({j, k}, keys);
    }
  }

  /** Main result on admission in one step, for every state: a rid in the cache is answered
      again, one outside the window is refused with 404, a third pending one with 403, and
      every other one is added. */
  lemma AdmitsExactly(s: Server, w: nat)
    requires Enabled(s, Admit(w))
    ensures var t := Apply(s, Admit(w)); var rid := s.workers[w].rid; var cache := s.book.cache;
      && t.life == s.life && t.line == s.line && t.done == s.done && w < |t.workers|
      && t.workers[w].pc == (if rid in cache then Aborting(cache[rid])
                             else if !InWindow(cache, rid) then Rejecting(404, false)
                             else if TwoPending(s) then Rejecting(403, false) else Gate)
      && if t.workers[w].pc != Gate then t.book == s.book
         else t.book.admitted == s.book.admitted + [rid] && rid in t.book.cache && t.book.cache[rid] == w
  {
    AdmitCases(s, w);
    WindowIsValid(s.book.cache, s.workers[w].rid);
    TwoPendingCount(s);
    AdmitGoesTo(s, w);
  }

  lemma AdmitGoesTo(s: Server, w: nat)
    requires Enabled(s, Admit(w))
    ensures var pc := Admitted(s, w).workers[w].pc; var rid := s.workers[w].rid; var cache := s.book.cache;
      pc == (if rid in cache then Aborting(cache[rid])
             else if !ValidRid(cache.Keys, rid) then Rejecting(404, false)
             else if |PendingKeys(cache, s.done)| >= 2 then Rejecting(403, false) else Gate)
  {
    var s1 := Found(s, w);
    if s1.workers[w].pc == Check {
      var s2 := Checked(s1, w);
      if s2.workers[w].pc == Count {
        var s3 := Counted(s2, w);
      }
    }
  }

  // ---------------------------------------------------------------- too far ahead

  /** Main result on the upper bound: a request more than two above every cached rid is not
      admitted, whatever else happens; its worker is on its way out with 404, and when it is
      out the session is terminated, closed and unregistered. */
  lemma TooFarAheadEnds(s: Server, w: nat, steps: seq<Step>)
    requires EndInv(s) && Enabled(s, Admit(w)) && IsRun(Apply(s, Admit(w)), steps)
    requires forall k :: k in s.book.cache ==> k + 2 < s.workers[w].rid
    ensures Apply(s, Admit(w)).book == s.book
    ensures var e := After(Apply(s, Admit(w)), steps);
      && w < |e.workers|
      && (e.workers[w].pc == Rejecting(404, false) || e.workers[w].pc == Closing(404, false)
          || e.workers[w].pc == Exit(404))
      && (e.workers[w].pc.Closing? ==> e.life.term)
      && (e.workers[w].pc.Exit? ==> e.life == Life(true, true, false))
  {
    AdmitsExactly(s, w);
    StepTells(s, Admit(w));
    RunKeepsLeaving(Apply(s, Admit(w)), steps, w, 404);
  }

  /** Nothing keeps that worker: when the monitor is free it goes all the way. */
  lemma TooFarAheadGoes(s: Server, w: nat)
    requires Enabled(s, Admit(w)) && Free(s) && forall k :: k in s.book.cache ==> k + 2 < s.workers[w].rid
    ensures var steps := [Admit(w), SetTerm(w), Close(w)];
      IsRun(s, steps) && Gone(After(s, steps))
      && w < |After(s, steps).workers| && After(s, steps).workers[w].pc == Exit(404)
      && After(s, steps).book == s.book && After(s, steps).line == s.line
  {
    AdmitsExactly(s, w);
    AdmitCases(s, w);
    RejectionGoes(Admitted(s, w), w, 404);
    ThreeSteps(s, Admit(w), SetTerm(w), Close(w));
  }

  lemma RejectionGoes(s: Server, w: nat, code: int)
    requires w < |s.workers| && s.workers[w].pc == Rejecting(code, false) && Free(s)
    ensures Enabled(s, SetTerm(w)) && Enabled(Apply(s, SetTerm(w)), Close(w))
    ensures var t := Apply(Apply(s, SetTerm(w)), Close(w));
      Gone(t) && w < |t.workers| && t.workers[w].pc == Exit(code) && t.book == s.book && t.line == s.line
  {
  }

  // ---------------------------------------------------------------- the history of the window

  /** At most two above something admitted. */
  ghost predicate Within(admitted: seq<int>, rid: int) {
    exists j :: 0 <= j < |admitted| && rid <= admitted[j] + 2
  }

  /** Behind the window check, or past it for want of a rid. */
  predicate PastWindow(pc: Pc) {
    pc == Count || pc == Add || (pc.Rejecting? && pc.missing) || (pc.Closing? && pc.missing)
  }

  ghost predicate WorkerWithin(b: Book, wk: Worker) {
    PastWindow(wk.pc) || wk.req.rid.Missing? ==> Within(b.admitted, wk.rid)
  }

  ghost predicate BookWithin(first: int, b: Book) {
    && |b.admitted| > 0 && b.admitted[0] == first
    && (forall k :: k in b.cache ==> k in b.admitted)
    && (forall i :: 0 < i < |b.admitted| ==> Within(b.admitted[..i], b.admitted[i]))
  }

  ghost predicate AheadInv(first: int, s: Server) {
    BookWithin(first, s.book) && forall i :: 0 <= i < |s.workers| ==> WorkerWithin(s.book, s.workers[i])
  }

  lemma WithinMore(a: seq<int>, b: seq<int>, rid: int)
    requires Within(a, rid)
    ensures Within(a + b, rid)
  {
    var j :| 0 <= j < |a| && rid <= a[j] + 2;
    assert (a + b)[j] == a[j];
  }

  lemma EntryWithin(first: int, b: Book, rid: int, w: int)
    requires BookWithin(first, b) && Within(b.admitted, rid)
    ensures BookWithin(first, Entry(b, rid, w))
  {
    var d := Entry(b, rid, w);
    assert d.admitted[|b.admitted|] == rid && d.admitted[..|b.admitted|] == b.admitted;
    forall i | 0 < i < |d.admitted|
      ensures Within(d.admitted[..i], d.admitted[i])
    {
      if i < |b.admitted| {
        assert d.admitted[..i] == b.admitted[..i];
      }
    }
    forall k | k in d.cache
      ensures k in d.admitted
    {
      if k != rid {
        assert k in b.cache;
      }
    }
  }

  /** A worker moves to a place where the window is kept. */
  lemma MoveWithin(first: int, s: Server, t: Server, w: int)
    requires AheadInv(first, s) && OthersStay(s, t, w) && t.book == s.book
    requires 0 <= w < |s.workers| ==> WorkerWithin(t.book, t.workers[w])
    ensures AheadInv(first, t)
  {
    forall i | 0 <= i < |t.workers|
      ensures WorkerWithin(t.book, t.workers[i])
    {
      assert WorkerWithin(s.book, s.workers[i]);
    }
  }

  lemma AddWithin(first: int, s: Server, w: nat)
    requires AheadInv(first, s) && w < |s.workers| && Within(s.book.admitted, s.workers[w].rid)
    ensures AheadInv(first, Cached(s, w))
  {
    var t := Cached(s, w);
    EntryWithin(first, s.book, s.workers[w].rid, w);
    forall i | 0 <= i < |t.workers|
      ensures WorkerWithin(t.book, t.workers[i])
    {
      assert WorkerWithin(s.book, s.workers[i]);
      if Within(s.book.admitted, s.workers[i].rid) {
        WithinMore(s.book.admitted, [s.workers[w].rid], s.workers[i].rid);
      }
    }
  }

  /** Whoever passes the window check is within. */
  lemma CheckedWithin(first: int, b: Book, rid: int)
    requires BookWithin(first, b) && InWindow(b.cache, rid)
    ensures Within(b.admitted, rid)
  {
    var k :| k in b.cache && rid <= k + 2;
    var j :| 0 <= j < |b.admitted| && b.admitted[j] == k;
  }

  lemma CheckWithin(first: int, s: Server, w: nat)
    requires AheadInv(first, s) && Enabled(s, DoCheck(w))
    ensures AheadInv(first, Checked(s, w))
  {
    assert WorkerWithin(s.book, s.workers[w]);
    WindowIsValid(s.book.cache, s.workers[w].rid);
    if InWindow(s.book.cache, s.workers[w].rid) {
      CheckedWithin(first, s.book, s.workers[w].rid);
    }
    MoveWithin(first, s, Checked(s, w), w);
  }

  lemma AdmitWithin(first: int, s: Server, w: nat)
    requires AheadInv(first, s) && Enabled(s, Admit(w))
    ensures AheadInv(first, Admitted(s, w))
  {
    AdmitCases(s, w);
    AdmitsExactly(s, w);
    assert WorkerWithin(s.book, s.workers[w]);
    if Admitted(s, w).workers[w].pc == Gate {
      CheckedWithin(first, s.book, s.workers[w].rid);
      AddWithin(first, s, w);
    } else {
      MoveWithin(first, s, Admitted(s, w), w);
    }
  }

  lemma ArrivalWithin(first: int, s: Server, req: Request)
    requires AheadInv(first, s) && (req.rid.Missing? ==> first >= -2)
    ensures AheadInv(first, Apply(s, Arrive(req)))
  {
    var t := Apply(s, Arrive(req));
    forall i | 0 <= i < |t.workers|
      ensures WorkerWithin(t.book, t.workers[i])
    {
      assert i < |s.workers| ==> WorkerWithin(s.book, s.workers[i]);
      assert 0 <= first + 2 == s.book.admitted[0] + 2 || !req.rid.Missing?;
    }
  }

  lemma EarlyWithin(s: Server, step: Step)
    requires Enabled(s, step) && WorkersWithin(s)
    requires step.DoLookup? || step.DoFind? || step.DoCount?
    ensures StaysWithin(s, Apply(s, step), step.w)
  {
    assert WorkerWithin(s.book, s.workers[step.w]);
  }

  lemma RefusalWithin(s: Server, step: Step)
    requires Enabled(s, step) && WorkersWithin(s)
    requires step.DoAbort? || step.Resend? || step.SetTerm? || step.Close?
    ensures StaysWithin(s, Apply(s, step), step.w)
  {
    assert WorkerWithin(s.book, s.workers[step.w]);
  }

  lemma GateWithin(s: Server, step: Step)
    requires Enabled(s, step) && WorkersWithin(s)
    requires step.Enter? || step.Mark? || step.Catch?
    ensures StaysWithin(s, Apply(s, step), step.w)
  {
    assert WorkerWithin(s.book, s.workers[step.w]);
  }

  lemma InsideWithin(s: Server, step: Step)
    requires Enabled(s, step) && WorkersWithin(s)
    requires step.FailKey? || step.FailPoll? || step.Break?
    ensures StaysWithin(s, Apply(s, step), step.w)
  {
    assert WorkerWithin(s.book, s.workers[step.w]);
  }

  lemma ForwardWithin(s: Server, w: nat)
    requires Enabled(s, Forward(w)) && WorkersWithin(s)
    ensures StaysWithin(s, Forwarded(s, w), w)
  {
    assert WorkerWithin(s.book, s.workers[w]);
  }

  lemma AnswerWithin(s: Server, step: Step)
    requires Enabled(s, step) && WorkersWithin(s) && step.Answer?
    ensures StaysWithin(s, Apply(s, step), step.w)
  {
    assert WorkerWithin(s.book, s.workers[step.w]);
  }

  ghost predicate WorkersWithin(s: Server) {
    forall i :: 0 <= i < |s.workers| ==> WorkerWithin(s.book, s.workers[i])
  }

  ghost predicate StaysWithin(s: Server, t: Server, w: nat) {
    OthersStay(s, t, w) && t.book == s.book && w < |t.workers| && WorkerWithin(t.book, t.workers[w])
  }

  lemma OtherWithin(first: int, s: Server, step: Step)
    requires Enabled(s, step) && AheadInv(first, s)
    requires !step.Arrive? && !step.DoCheck? && !step.DoAdd? && !step.Admit?
    ensures AheadInv(first, Apply(s, step))
  {
    if step.AnswerFirst? || step.MarkFirst? || step.ExpireTerm? || step.ExpireClose? {
      MoveWithin(first, s, Apply(s, step), -1);
    } else {
      match step {
        case DoLookup(_) | DoFind(_) | DoCount(_) => EarlyWithin(s, step);
        case DoAbort(_) | Resend(_) | SetTerm(_) | Close(_) => RefusalWithin(s, step);
        case Enter(_) | Mark(_) | Catch(_) => GateWithin(s, step);
        case FailKey(_) | FailPoll(_) | Break(_) => InsideWithin(s, step);
        case Forward(w) => ForwardWithin(s, w);
        case Answer(_, _) => AnswerWithin(s, step);
      }
      MoveWithin(first, s, Apply(s, step), step.w);
    }
  }

  lemma StepWithin(first: int, s: Server, step: Step)
    requires Enabled(s, step) && AheadInv(first, s)
    requires step.Arrive? && step.req.rid.Missing? ==> first >= -2
    ensures AheadInv(first, Apply(s, step))
  {
    if step.Arrive? {
      ArrivalWithin(first, s, step.req);
    } else if step.DoCheck? {
      CheckWithin(first, s, step.w);
    } else if step.DoAdd? {
      assert WorkerWithin(s.book, s.workers[step.w]);
      AddWithin(first, s, step.w);
    } else if step.Admit? {
      AdmitWithin(first, s, step.w);
    } else {
      OtherWithin(first, s, step);
    }
  }

  lemma {:induction false} RunWithin(first: int, s: Server, steps: seq<Step>)
    requires IsRun(s, steps) && AheadInv(first, s)
    requires first >= -2 || forall i :: 0 <= i < |steps| && steps[i].Arrive? ==> !steps[i].req.rid.Missing?
    ensures AheadInv(first, After(s, steps))
    decreases |steps|
  {
    if steps != [] {
      StepWithin(first, s, steps[0]);
      RunWithin(first, Apply(s, steps[0]), steps[1..]);
    }
  }

  /** Main result on the window: in every run, however the calls of admission interleave, a
      rid admitted after the first is at most two above one admitted before it. */
  lemma AtMostTwoAhead(first: int, keyed: bool, hold: nat, steps: seq<Step>, i: nat)
    requires IsRun(Init(first, keyed, hold), steps)
    requires first >= -2 || forall j :: 0 <= j < |steps| && steps[j].Arrive? ==> !steps[j].req.rid.Missing?
    ensures var a := After(Init(first, keyed, hold), steps).book.admitted;
      |a| > 0 && a[0] == first && (0 < i < |a| ==> exists j :: 0 <= j < i && a[i] <= a[j] + 2)
  {
    var s := Init(first, keyed, hold);
    RunWithin(first, s, steps);
    var a := After(s, steps).book.admitted;
    if 0 < i < |a| {
      assert Within(a[..i], a[i]);
      var j :| 0 <= j < i && a[i] <= a[..i][j] + 2;
      assert a[i] <= a[j] + 2;
    }
  }

  // ---------------------------------------------------------------- the lower bound

  /** Of two rids admitted before it at least one is below. */
  ghost predicate OneBelow(a: seq<int>) {
    forall i, j, k :: 0 <= i < j < k < |a| ==> a[i] < a[k] || a[j] < a[k]
  }

  lemma NotBothAbove(cache: map<int, int>, owner: map<int, int>, rid: int, x: int, y: int)
    requires |cache| <= 2 && rid !in cache && InWindow(cache, rid)
    requires forall r, k :: r in owner && r !in cache && k in cache ==> r < k
    requires x in owner && y in owner && x != y
    ensures x < rid || y < rid
  {
    var low :| low in cache && low <= rid;
    if x in cache && y in cache && rid <= x && rid <= y {
      NoThree(cache.Keys, low, x, y);
    }
  }

  lemma EntryAbove(first: int, b: Book, rid: int)
    requires CacheInv(first, b) && OneBelow(b.admitted) && rid !in b.cache && InWindow(b.cache, rid)
    ensures OneBelow(b.admitted + [rid])
  {
    var a := b.admitted;
    forall i, j | 0 <= i < j < |a|
      ensures a[i] < rid || a[j] < rid
    {
      NotBothAbove(b.cache, b.owner, rid, a[i], a[j]);
    }
    OneBelowMore(a, rid);
  }

  lemma OneBelowMore(a: seq<int>, rid: int)
    requires OneBelow(a) && forall i, j :: 0 <= i < j < |a| ==> a[i] < rid || a[j] < rid
    ensures OneBelow(a + [rid])
  {
  }

  lemma StepAbove(first: int, s: Server, step: Step)
    requires Enabled(s, step) && Orderly(step) && CacheInv(first, s.book) && OneBelow(s.book.admitted)
    ensures OneBelow(Apply(s, step).book.admitted)
  {
    if step.Admit? {
      AdmitCases(s, step.w);
      AdmitsExactly(s, step.w);
      if !Refused(s, s.workers[step.w].rid) {
        EntryAbove(first, s.book, s.workers[step.w].rid);
      }
    } else {
      OnlyAdmitAdds(s, step);
    }
  }

  lemma {:induction false} RunAbove(first: int, s: Server, steps: seq<Step>)
    requires IsRun(s, steps) && CacheInv(first, s.book) && OneBelow(s.book.admitted)
    requires forall i :: 0 <= i < |steps| ==> Orderly(steps[i])
    ensures OneBelow(After(s, steps).book.admitted)
    decreases |steps|
  {
    if steps != [] {
      StepKeepsCache(first, s, steps[0]);
      StepAbove(first, s, steps[0]);
      RunAbove(first, Apply(s, steps[0]), steps[1..]);
    }
  }

  /** With admission in one step a rid is also never the third from the top: of the rids
      admitted before it at most one is higher, and none is the same. */
  lemma AtMostOneBehind(first: int, keyed: bool, hold: nat, steps: seq<Step>, i: nat, j: nat, k: nat)
    requires IsRun(Init(first, keyed, hold), steps) && forall i :: 0 <= i < |steps| ==> Orderly(steps[i])
    ensures var a := After(Init(first, keyed, hold), steps).book.admitted;
      i < j < k < |a| ==> (a[i] < a[k] || a[j] < a[k]) && a[i] != a[k] && a[j] != a[k]
  {
    StartOfBook(first);
    assert Init(first, keyed, hold).book == Init(first, false, 0).book;
    RunAbove(first, Init(first, keyed, hold), steps);
    CacheOverRuns(first, Init(first, keyed, hold), steps);
  }
}
