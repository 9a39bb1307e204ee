/** What the response cache keeps. */
module BoshAdmission {
  // What the response cache guarantees when admission (look up, window check,
  // pending check, insertion) runs as one step per request.

  import opened Collections
  import opened BoshSession
  import opened BoshServer

  /** Steps of runs in which admission is not interrupted and every request has a rid. */
  predicate Orderly(step: Step) {
    && !step.DoFind? && !step.DoCheck? && !step.DoCount? && !step.DoAdd?
    && (step.Arrive? ==> !step.req.rid.Missing?)
  }

  /** The cache holds the at most two highest rids ever admitted, no rid was
      admitted twice, and each cached response is the one made for that rid. */
  ghost predicate CacheInv(first: int, b: Book) {
    && 0 < |b.cache| <= MAX_REQUESTS
    && first in b.owner
    && (|b.cache| == 1 ==> b.owner.Keys == {first})
    && (forall k :: k in b.cache ==> k in b.owner && b.owner[k] == b.cache[k])
    && (forall r :: r in b.owner ==> first <= r)
    && (forall r, k :: r in b.owner && r !in b.cache && k in b.cache ==> r < k)
    && AdmittedOnce(b)
  }

  ghost predicate AdmittedOnce(b: Book) {
    && (forall i, j :: 0 <= i < j < |b.admitted| ==> b.admitted[i] != b.admitted[j])
    && (forall i :: 0 <= i < |b.admitted| ==> b.admitted[i] in b.owner)
  }

  predicate Queued(pc: Pc) {
    pc == Gate || pc == Waiting || pc == Notified || Inside(pc) || pc == Catching
  }

  /** Every response ever added belongs to the worker of its rid, and responses
      are finished in the order of their rids. */
  ghost predicate DoneInv(first: int, s: Server) {
    && (forall r :: r in s.book.owner ==> OwnerInv(first, s, r))
    && (forall r :: first <= r <= Reached(s) ==> r in s.book.owner)
  }

  ghost predicate OwnerInv(first: int, s: Server, r: int)
    requires r in s.book.owner
  {
    var w := s.book.owner[r];
    && w < |s.workers|
    && (if r == first then w == CREATOR else 0 <= w && s.workers[w].rid == r)
    && (w in s.done ==> r <= Reached(s) + 1)
    && (r <= Reached(s) ==> w in s.done || s.birth.Unborn?)
  }

  ghost predicate QueueInv(s: Server) {
    && (forall i :: 0 <= i < |s.workers| ==> PlaceInv(s, i))
    && (forall r :: r in s.done ==> r < |s.workers|)
  }

  ghost predicate PlaceInv(s: Server, i: int)
    requires 0 <= i < |s.workers|
  {
    var wk := s.workers[i];
    && (Queued(wk.pc) ==> wk.rid in s.book.owner && s.book.owner[wk.rid] == i)
    && (wk.pc == Catching ==> wk.rid <= Reached(s) + 1)
    && (wk.pc == Marking ==> i in s.done)
    && (i in s.done ==> wk.pc == Marking || wk.pc.Exit?)
  }

  /** Before the creating request is marked nobody has been inside the monitor. */
  ghost predicate BirthInv(first: int, s: Server) {
    s.birth.Over? || (
      && s.birth.rid == first >= 1 && s.line.lastDone == 0 && s.line.monitor == Vacant
      && s.done == (if s.birth.Unborn? then {} else {CREATOR})
      && (forall i :: 0 <= i < |s.workers| ==> !Inside(s.workers[i].pc) && s.workers[i].pc != Catching))
  }

  ghost predicate FinishInv(first: int, s: Server) {
    MonitorInv(s) && CacheInv(first, s.book) && DoneInv(first, s) && QueueInv(s) && BirthInv(first, s)
  }

  // ------------------------------------------------ the cache

  ghost predicate Refused(s: Server, rid: int) {
    rid in s.book.cache || !ValidRid(s.book.cache.Keys, rid) || |PendingKeys(s.book.cache, s.done)| >= MAX_REQUESTS
  }

  /** What `Admit` does: it adds the rid, or leaves everything but the worker alone. */
  lemma AdmitCases(s: Server, w: nat)
    requires w < |s.workers| && s.workers[w].pc == Find
    ensures var t := Admitted(s, w); var wk := s.workers[w];
      && t == Moved(s.(book := t.book), w, t.workers[w].pc)
      && t.book == (if Refused(s, wk.rid) then s.book else Entry(s.book, wk.rid, w))
      && (if Refused(s, wk.rid) then t.workers[w].pc.Aborting?
        || (t.workers[w].pc.Rejecting? && !t.workers[w].pc.missing)
          else t.workers[w].pc == Gate)
  {
    var s1 := Found(s, w);
    if s1.workers[w].pc == Check {
      var s2 := Checked(s1, w);
      assert s2 == Moved(s, w, s2.workers[w].pc);
      if s2.workers[w].pc == Count {
        var s3 := Counted(s2, w);
        assert s3 == Moved(s, w, s3.workers[w].pc);
      }
    }
  }

  /** Steps taken outside the monitor other than `Admit`. */
  predicate Early(step: Step) {
    step.AnswerFirst? || step.MarkFirst? || step.Arrive? || step.DoLookup? || step.DoAbort? || step.Resend?
      || step.SetTerm? || step.Close?
    || step.ExpireTerm? || step.ExpireClose?
  }

  lemma OnlyAdmitAdds(s: Server, step: Step)
    requires Enabled(s, step) && Orderly(step) && !step.Admit?
    ensures Apply(s, step).book == s.book
  {
    if Early(step) {
      EarlyKeepsBook(s, step);
    } else {
      LateKeepsBook(s, step);
    }
  }

  lemma EarlyKeepsBook(s: Server, step: Step)
    requires Enabled(s, step) && Early(step)
    ensures Apply(s, step).book == s.book
  {
  }

  lemma LateKeepsBook(s: Server, step: Step)
    requires Enabled(s, step) && Orderly(step) && !Early(step) && !step.Admit?
    ensures Apply(s, step).book == s.book
  {
  }

  lemma EntryKeepsCache(first: int, b: Book, rid: int, r: int)
    requires CacheInv(first, b) && rid !in b.cache && ValidRid(b.cache.Keys, rid)
    ensures rid !in b.owner && first <= rid
    ensures CacheInv(first, Entry(b, rid, r))
    ensures FirstKey(b.cache.Keys) <= FirstKey(Entry(b, rid, r).cache.Keys)
  {
    var low := FirstKey(b.cache.Keys);
    assert low in b.owner;
    AddedKeys(b.cache, rid, r);
    var t := Entry(b, rid, r);
    forall q, k | q in t.owner && q !in t.cache && k in t.cache
      ensures q < k
    {
      assert q in b.owner && q != rid;
      assert q <= low;
    }
  }

  lemma StepKeepsCache(first: int, s: Server, step: Step)
    requires Enabled(s, step) && Orderly(step) && CacheInv(first, s.book)
    ensures CacheInv(first, Apply(s, step).book)
    ensures FirstKey(s.book.cache.Keys) <= FirstKey(Apply(s, step).book.cache.Keys)
  {
    if step.Admit? {
      AdmitCases(s, step.w);
      if !Refused(s, s.workers[step.w].rid) {
        EntryKeepsCache(first, s.book, s.workers[step.w].rid, step.w);
      }
    } else {
      OnlyAdmitAdds(s, step);
    }
  }

  // ------------------------------------------------ who is finished

  /** A step of worker `w` that finishes nothing. */
  lemma MovedKeepsFinish(first: int, s: Server, t: Server, w: int)
    requires FinishInv(first, s) && OthersStay(s, t, w)
    requires t.book == s.book && t.done == s.done && t.line.lastDone == s.line.lastDone && t.birth == s.birth
    requires 0 <= w < |s.workers| ==> PlaceInv(t, w)
    ensures DoneInv(first, t) && QueueInv(t)
  {
    forall r | r in t.book.owner
      ensures OwnerInv(first, t, r)
    {
      assert OwnerInv(first, s, r);
    }
    forall i | 0 <= i < |t.workers|
      ensures PlaceInv(t, i)
    {
      assert PlaceInv(s, i);
    }
  }

  /** A step of worker `w`, whose turn it is or was, that finishes its response. */
  lemma FinishedKeepsFinish(first: int, s: Server, t: Server, w: nat)
    requires FinishInv(first, s) && OthersStay(s, t, w) && w < |s.workers|
    requires t.book == s.book && t.done == s.done + {w} && t.line.lastDone == s.line.lastDone && t.birth == s.birth
    requires s.workers[w].rid <= Reached(s) + 1
    requires t.workers[w].pc == Marking || t.workers[w].pc.Exit?
    requires Queued(s.workers[w].pc)
    ensures DoneInv(first, t) && QueueInv(t)
  {
    forall r | r in t.book.owner
      ensures OwnerInv(first, t, r)
    {
      assert OwnerInv(first, s, r);
    }
    forall i | 0 <= i < |t.workers|
      ensures PlaceInv(t, i)
    {
      assert PlaceInv(s, i);
    }
  }

  lemma AdmitKeepsFinish(first: int, s: Server, w: nat)
    requires FinishInv(first, s) && At(s, w, Find)
    ensures DoneInv(first, Admitted(s, w)) && QueueInv(Admitted(s, w))
  {
    AdmitCases(s, w);
    var t := Admitted(s, w);
    assert PlaceInv(s, w);
    if Refused(s, s.workers[w].rid) {
      MovedKeepsFinish(first, s, t, w);
    } else {
      EntryKeepsFinish(first, s, t, w);
    }
  }

  lemma EntryKeepsFinish(first: int, s: Server, t: Server, w: nat)
    requires FinishInv(first, s) && At(s, w, Find) && !Refused(s, s.workers[w].rid)
    requires t == Moved(s.(book := Entry(s.book, s.workers[w].rid, w)), w, Gate)
    ensures DoneInv(first, t) && QueueInv(t)
  {
    EntryKeepsCache(first, s.book, s.workers[w].rid, w);
    EntryKeepsOwners(first, s, t, w);
    EntryKeepsPlaces(s, t, w);
  }

  lemma EntryKeepsOwners(first: int, s: Server, t: Server, w: nat)
    requires DoneInv(first, s) && QueueInv(s) && At(s, w, Find)
    requires first in s.book.owner && s.workers[w].rid !in s.book.owner && first <= s.workers[w].rid
    requires t == Moved(s.(book := Entry(s.book, s.workers[w].rid, w)), w, Gate)
    ensures DoneInv(first, t)
  {
    assert PlaceInv(s, w);
    forall r | r in t.book.owner
      ensures OwnerInv(first, t, r)
    {
      if r != s.workers[w].rid {
        assert OwnerInv(first, s, r);
      }
    }
  }

  lemma EntryKeepsPlaces(s: Server, t: Server, w: nat)
    requires QueueInv(s) && At(s, w, Find) && s.workers[w].rid !in s.book.owner
    requires t == Moved(s.(book := Entry(s.book, s.workers[w].rid, w)), w, Gate)
    ensures QueueInv(t)
  {
    forall i | 0 <= i < |t.workers|
      ensures PlaceInv(t, i)
    {
      assert PlaceInv(s, i);
    }
  }

  lemma MarkKeepsFinish(first: int, s: Server, w: nat)
    requires FinishInv(first, s) && At(s, w, Marking)
    ensures DoneInv(first, Marked(s, w)) && QueueInv(Marked(s, w))
  {
    var t := Marked(s, w);
    InsideAlone(s, w);
    assert PlaceInv(s, w);
    forall r | r in t.book.owner
      ensures OwnerInv(first, t, r)
    {
      assert OwnerInv(first, s, r);
    }
    forall i | 0 <= i < |t.workers|
      ensures PlaceInv(t, i)
    {
      assert PlaceInv(s, i);
    }
  }

  /** Steps that finish no response and move no rid on. */
  predicate Idle(s: Server, step: Step)
    requires Enabled(s, step)
  {
    match step
    case Admit(_) | Answer(_, _) | Mark(_) | Catch(_) => false
    case Forward(w) => !s.workers[w].req.terminate
    case _ => true
  }

  lemma ArriveKeepsFinish(first: int, s: Server, req: Request)
    requires FinishInv(first, s) && !req.rid.Missing?
    ensures DoneInv(first, Apply(s, Arrive(req))) && QueueInv(Apply(s, Arrive(req)))
  {
    var t := Apply(s, Arrive(req));
    forall i | 0 <= i < |t.workers|
      ensures PlaceInv(t, i)
    {
      if i < |s.workers| {
        assert PlaceInv(s, i);
      }
    }
    forall r | r in t.book.owner
      ensures OwnerInv(first, t, r)
    {
      assert OwnerInv(first, s, r);
    }
  }

  lemma BirthKeepsFinish(first: int, s: Server, step: Step)
    requires FinishInv(first, s) && Enabled(s, step) && (step.AnswerFirst? || step.MarkFirst?)
    ensures DoneInv(first, Apply(s, step)) && QueueInv(Apply(s, step))
  {
    var t := Apply(s, step);
    forall r | r in t.book.owner
      ensures OwnerInv(first, t, r)
    {
      assert OwnerInv(first, s, r);
    }
    forall i | 0 <= i < |t.workers|
      ensures PlaceInv(t, i)
    {
      assert PlaceInv(s, i);
    }
  }

  lemma EarlyIdle(first: int, s: Server, step: Step)
    requires Enabled(s, step) && FinishInv(first, s)
    requires step.DoLookup? || step.DoAbort? || step.SetTerm? || step.Close?
    ensures DoneInv(first, Apply(s, step)) && QueueInv(Apply(s, step))
  {
    EarlyStays(s, step);
    EarlyPlace(s, step);
    MovedKeepsFinish(first, s, Apply(s, step), step.w);
  }

  lemma EarlyStays(s: Server, step: Step)
    requires Enabled(s, step)
    requires step.DoLookup? || step.DoAbort? || step.SetTerm? || step.Close?
    ensures var t := Apply(s, step);
      && t.book == s.book && t.done == s.done && t.line == s.line && t.birth == s.birth && OthersStay(s, t, step.w)
  {
  }

  lemma EarlyPlace(s: Server, step: Step)
    requires Enabled(s, step) && QueueInv(s)
    requires step.DoLookup? || step.DoAbort? || step.SetTerm? || step.Close?
    ensures step.w < |Apply(s, step).workers| && PlaceInv(Apply(s, step), step.w)
  {
    assert PlaceInv(s, step.w);
  }

  lemma LateIdle(first: int, s: Server, step: Step)
    requires Enabled(s, step) && Orderly(step) && Idle(s, step) && !Early(step) && FinishInv(first, s)
    ensures DoneInv(first, Apply(s, step)) && QueueInv(Apply(s, step))
  {
    var t := Apply(s, step);
    assert PlaceInv(s, step.w) && OthersStay(s, t, step.w);
    if Inside(s.workers[step.w].pc) {
      InsideAlone(s, step.w);
    }
    MovedKeepsFinish(first, s, t, step.w);
  }

  lemma StepKeepsFinish(first: int, s: Server, step: Step)
    requires Enabled(s, step) && Orderly(step) && !step.Resend?
    requires TurnInv(first, s) && FinishInv(first, s)
    ensures TurnInv(first, Apply(s, step)) && FinishInv(first, Apply(s, step))
  {
    StepKeepsBirth(first, s, step);
    StepKeepsTurn(first, s, step);
    StepKeepsCache(first, s, step);
    StepKeepsDone(first, s, step);
  }

  /** Nobody comes to stand inside the monitor before the mark. */
  lemma StepKeepsBirth(first: int, s: Server, step: Step)
    requires Enabled(s, step) && Orderly(step) && !step.Resend? && FinishInv(first, s)
    ensures BirthInv(first, Apply(s, step))
    ensures step.MarkFirst? ==> s.line.monitor == Vacant
    ensures step.Mark? || step.Forward? ==> s.birth.Over?
  {
    if !s.birth.Over? && !step.AnswerFirst? && !step.MarkFirst? && !step.Arrive? && !step.ExpireTerm?
      && !step.ExpireClose? {
      WorkKeepsBirth(first, s, step);
    }
  }

  lemma WorkKeepsBirth(first: int, s: Server, step: Step)
    requires Enabled(s, step) && Orderly(step) && !step.Resend? && FinishInv(first, s) && !s.birth.Over?
    requires !step.AnswerFirst? && !step.MarkFirst? && !step.Arrive? && !step.ExpireTerm? && !step.ExpireClose?
    ensures BirthInv(first, Apply(s, step)) && !step.Mark? && !step.Forward?
  {
    if step.Enter? {
      EnterKeepsBirth(first, s, step.w);
    } else if step.Admit? {
      AdmitKeepsBirth(first, s, step.w);
    } else if step.DoLookup? || step.DoAbort? || step.SetTerm? || step.Close? {
      EarlyKeepsBirth(first, s, step);
    } else {
      NothingInsideYet(first, s, step);
    }
  }

  lemma AdmitKeepsBirth(first: int, s: Server, w: nat)
    requires At(s, w, Find) && BirthInv(first, s) && !s.birth.Over?
    ensures BirthInv(first, Admitted(s, w))
  {
    AdmitCases(s, w);
  }

  lemma NothingInsideYet(first: int, s: Server, step: Step)
    requires BirthInv(first, s) && !s.birth.Over?
    requires step.FailKey? || step.FailPoll? || step.Forward? || step.Answer? || step.Mark? || step.Break?
      || step.Catch?
    ensures !Enabled(s, step)
  {
  }

  lemma EarlyKeepsBirth(first: int, s: Server, step: Step)
    requires Enabled(s, step) && BirthInv(first, s) && !s.birth.Over?
    requires step.DoLookup? || step.DoAbort? || step.SetTerm? || step.Close?
    ensures BirthInv(first, Apply(s, step))
  {
  }

  /** Whoever comes to the gate before the mark has to wait. */
  lemma EnterKeepsBirth(first: int, s: Server, w: nat)
    requires Enabled(s, Enter(w)) && FinishInv(first, s) && !s.birth.Over?
    ensures BirthInv(first, Apply(s, Enter(w)))
  {
    assert PlaceInv(s, w);
    assert OwnerInv(first, s, s.workers[w].rid);
    assert first < s.workers[w].rid;
  }

  lemma FinishingStep(first: int, s: Server, step: Step)
    requires Enabled(s, step) && FinishInv(first, s)
    requires step.Answer? || step.Catch? || (step.Forward? && s.workers[step.w].req.terminate)
    ensures DoneInv(first, Apply(s, step)) && QueueInv(Apply(s, step))
  {
    assert PlaceInv(s, step.w);
    if Inside(s.workers[step.w].pc) {
      InsideAlone(s, step.w);
    }
    FinishedKeepsFinish(first, s, Apply(s, step), step.w);
  }

  lemma StepKeepsDone(first: int, s: Server, step: Step)
    requires Enabled(s, step) && Orderly(step) && !step.Resend? && FinishInv(first, s)
    ensures DoneInv(first, Apply(s, step)) && QueueInv(Apply(s, step))
  {
    match step
    case AnswerFirst | MarkFirst => BirthKeepsFinish(first, s, step);
    case Admit(w) => AdmitKeepsFinish(first, s, w);
    case Mark(w) => MarkKeepsFinish(first, s, w);
    case Answer(_, _) | Catch(_) => FinishingStep(first, s, step);
    case Forward(w) =>
      if s.workers[w].req.terminate {
        FinishingStep(first, s, step);
      } else {
        LateIdle(first, s, step);
      }
    case Arrive(req) => ArriveKeepsFinish(first, s, req);
    case ExpireTerm | ExpireClose => MovedKeepsFinish(first, s, Apply(s, step), -1);
    case DoLookup(_) | DoAbort(_) | SetTerm(_) | Close(_) => EarlyIdle(first, s, step);
    case Enter(_) | FailKey(_) | FailPoll(_) | Break(_) => LateIdle(first, s, step);
  }

  /** Without resends, what insertion pushes out of the cache was already answered. */
  lemma EvictedIsDone(first: int, s: Server, w: nat, k: int)
    requires FinishInv(first, s) && At(s, w, Find)
    ensures k in s.book.cache && k !in Admitted(s, w).book.cache ==> s.book.cache[k] in s.done
  {
    AdmitCases(s, w);
    if k in s.book.cache && k !in Admitted(s, w).book.cache {
      EvictedWasDone(first, s, s.workers[w].rid, w, k);
    }
  }

  lemma EvictedWasDone(first: int, s: Server, rid: int, w: nat, k: int)
    requires FinishInv(first, s) && !Refused(s, rid)
    requires k in s.book.cache && k !in Entry(s.book, rid, w).cache
    ensures s.book.cache[k] in s.done
  {
    AddedKeys(s.book.cache, rid, w);
    var other := Pick(s.book.cache.Keys - {k});
    assert OwnerInv(first, s, k) && OwnerInv(first, s, other) && k < other;
    if s.book.cache[k] !in s.done && s.book.cache[other] !in s.done {
      SubsetCard({k, other}, PendingKeys(s.book.cache, s.done));
    }
  }

  /** Main result on the cache: over every orderly run it holds the two highest
      rids admitted, no rid is admitted twice, and its lowest key never goes down. */
  lemma {:induction false} CacheOverRuns(first: int, s: Server, steps: seq<Step>)
    requires IsRun(s, steps) && CacheInv(first, s.book)
    requires forall i :: 0 <= i < |steps| ==> Orderly(steps[i])
    ensures CacheInv(first, After(s, steps).book)
    ensures FirstKey(s.book.cache.Keys) <= FirstKey(After(s, steps).book.cache.Keys)
    decreases |steps|
  {
    if steps != [] {
      StepKeepsCache(first, s, steps[0]);
      CacheOverRuns(first, Apply(s, steps[0]), steps[1..]);
    }
  }

  /** Main result on eviction: in every orderly run without resends, an admission
      after it drops only responses that were already answered. */
  lemma {:induction false} EvictionOverRuns(first: int, s: Server, steps: seq<Step>, w: nat, k: int)
    requires IsRun(s, steps) && TurnInv(first, s) && FinishInv(first, s)
    requires forall i :: 0 <= i < |steps| ==> Orderly(steps[i]) && !steps[i].Resend?
    ensures var e := After(s, steps);
      At(e, w, Find) && k in e.book.cache && k !in Admitted(e, w).book.cache ==> e.book.cache[k] in e.done
    decreases |steps|
  {
    if steps == [] {
      if At(s, w, Find) {
        EvictedIsDone(first, s, w, k);
      }
    } else {
      StepKeepsFinish(first, s, steps[0]);
      EvictionOverRuns(first, Apply(s, steps[0]), steps[1..], w, k);
    }
  }

  lemma StartOfBook(first: int)
    ensures CacheInv(first, Init(first, false, 0).book)
  {
    assert map[first := CREATOR].Keys == {first};
  }

  lemma StartIsFine(first: int, keyed: bool, hold: nat)
    requires first >= 1
    ensures TurnInv(first, Init(first, keyed, hold)) && FinishInv(first, Init(first, keyed, hold))
  {
    StartOfBook(first);
  }
}
