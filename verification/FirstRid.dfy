/** Why the first rid is positive. */
module FirstRid {
  // Why the order of forwarding needs a positive first rid: until the creating request is
  // marked, `lastDoneRID` is 0, so a request with rid 1 passes the gate.

  import opened Collections
  import opened BoshSession
  import opened BoshServer
  import opened BoshAdmission

  /** The creating request is answered and not marked; the highest rid admitted is `k`, and
      all cached responses are done. */
  ghost predicate Climbed(s: Server, first: int, k: int) {
    && s.birth == Unmarked(first) && s.line == Line(0, Vacant, []) && s.life == Life(false, false, true)
    && 0 < |s.book.cache| <= 2 && LastKey(s.book.cache.Keys) == k
    && forall j :: j in s.book.cache ==> s.book.cache[j] in s.done
  }

  /** A request with that payload. */
  function Plain(rid: int, p: seq<Stanza>): Request {
    Request(Number(rid), p, false)
  }

  function Joined(s: Server, rid: int, p: seq<Stanza>, pc: Pc): Server {
    s.(workers := s.workers + [Worker(Plain(rid, p), rid, pc)])
  }

  lemma OnwardRun(s: Server, step: Step, steps: seq<Step>)
    requires Enabled(s, step) && IsRun(Apply(s, step), steps)
    ensures IsRun(s, [step] + steps) && After(s, [step] + steps) == After(Apply(s, step), steps)
  {
    assert ([step] + steps)[1..] == steps;
  }

  lemma {:induction false} Together(s: Server, a: seq<Step>, b: seq<Step>)
    requires IsRun(s, a) && IsRun(After(s, a), b)
    ensures IsRun(s, a + b) && After(s, a + b) == After(After(s, a), b)
    decreases |a|
  {
    if a == [] {
      assert a + b == b;
    } else {
      Together(Apply(s, a[0]), a[1..], b);
      OnwardRun(s, a[0], a[1..] + b);
      assert [a[0]] + (a[1..] + b) == a + b;
    }
  }

  /** A request arrives and finds the session. */
  lemma Arrives(s: Server, rid: int, p: seq<Stanza>) returns (steps: seq<Step>)
    requires s.life.registered
    ensures IsRun(s, steps)
    ensures After(s, steps) == Joined(s, rid, p, Find)
  {
    var n := |s.workers|;
    steps := [Arrive(Plain(rid, p)), DoLookup(n)];
    var s1 := Apply(s, Arrive(Plain(rid, p)));
    var s2 := Apply(s1, DoLookup(n));
    assert s2.workers == s.workers + [Worker(Plain(rid, p), rid, Find)];
    assert After(s2, []) == s2;
    OnwardRun(s1, DoLookup(n), []);
    OnwardRun(s, Arrive(Plain(rid, p)), [DoLookup(n)]);
    assert [DoLookup(n)] + [] == [DoLookup(n)] && [Arrive(Plain(rid, p))] + [DoLookup(n)] == steps;
  }

  lemma OneStep(s: Server, step: Step)
    requires Enabled(s, step)
    ensures IsRun(s, [step]) && After(s, [step]) == Apply(s, step)
  {
    assert IsRun(Apply(s, step), []);
    OnwardRun(s, step, []);
    assert [step] + [] == [step];
  }

  // ---------------------------------------------------------------- climbing to rid 0

  lemma AboveIsFree(s: Server, first: int, k: int)
    requires Climbed(s, first, k)
    ensures k + 1 !in s.book.cache && ValidRid(s.book.cache.Keys, k + 1) && PendingKeys(s.book.cache, s.done) == {}
  {
  }

  /** The next rid is admitted: its worker comes to the gate. */
  lemma NextAdmitted(s: Server, first: int, k: int, p: seq<Stanza>)
    requires Climbed(s, first, k)
    ensures var n := |s.workers|; var b := s.book;
      Enabled(Joined(s, k + 1, p, Find), Admit(n))
      && Apply(Joined(s, k + 1, p, Find), Admit(n)) == Joined(s, k + 1, p, Gate).(book := Entry(b, k + 1, n))
  {
    AboveIsFree(s, first, k);
    var j := Joined(s, k + 1, p, Find);
    AdmitCases(j, |s.workers|);
    assert j.workers[|s.workers| := Worker(Plain(k + 1, p), k + 1, Gate)] == Joined(s, k + 1, p, Gate).workers;
  }

  lemma NextIsHighest(cache: map<int, int>, k: int, r: int)
    requires 0 < |cache| <= 2 && LastKey(cache.Keys) == k
    ensures var more := Added(cache, k + 1, r);
      && 0 < |more| <= 2 && LastKey(more.Keys) == k + 1 && more[k + 1] == r
      && forall j :: j in more && j != k + 1 ==> j in cache && more[j] == cache[j]
  {
    AddedKeys(cache, k + 1, r);
    assert IsGreatest(k + 1, Added(cache, k + 1, r).Keys);
  }

  /** The same rid again is answered at once, and the response it repeats counts as done. */
  lemma Repeated(s: Server, rid: int, p: seq<Stanza>) returns (steps: seq<Step>)
    requires s.life.registered && rid in s.book.cache
    ensures IsRun(s, steps)
    ensures var t := After(s, steps);
      && t.birth == s.birth && t.line == s.line && t.life == s.life && t.book == s.book
      && t.done == s.done + {s.book.cache[rid]}
  {
    var n, r := |s.workers|, s.book.cache[rid];
    var s1 := Joined(s, rid, p, Find);
    var first := Arrives(s, rid, p);
    var s2 := Apply(s1, DoFind(n));
    var s3 := Apply(s2, DoAbort(n));
    OneStep(s3, Resend(n));
    OnwardRun(s2, DoAbort(n), [Resend(n)]);
    OnwardRun(s1, DoFind(n), [DoAbort(n)] + [Resend(n)]);
    steps := first + ([DoFind(n)] + ([DoAbort(n)] + [Resend(n)]));
    Together(s, first, [DoFind(n)] + ([DoAbort(n)] + [Resend(n)]));
  }

  /** One rid up. */
  lemma Climb(s: Server, first: int, k: int, p: seq<Stanza>) returns (steps: seq<Step>)
    requires Climbed(s, first, k)
    ensures IsRun(s, steps) && Climbed(After(s, steps), first, k + 1)
  {
    var n := |s.workers|;
    var a := Arrives(s, k + 1, p);
    NextAdmitted(s, first, k, p);
    NextIsHighest(s.book.cache, k, n);
    OneStep(Joined(s, k + 1, p, Find), Admit(n));
    Together(s, a, [Admit(n)]);
    var s1 := After(s, a + [Admit(n)]);
    var b := Repeated(s1, k + 1, p);
    Together(s, a + [Admit(n)], b);
    steps := a + [Admit(n)] + b;
  }

  lemma {:induction false} ClimbTo(s: Server, first: int, k: int, p: seq<Stanza>) returns (steps: seq<Step>)
    requires Climbed(s, first, k) && k <= 0
    ensures IsRun(s, steps) && Climbed(After(s, steps), first, 0)
    decreases -k
  {
    if k == 0 {
      steps := [];
    } else {
      var a := Climb(s, first, k, p);
      var b := ClimbTo(After(s, a), first, k + 1, p);
      Together(s, a, b);
      steps := a + b;
    }
  }

  lemma StartOfClimb(first: int, keyed: bool, hold: nat)
    ensures var s := Init(first, keyed, hold); Enabled(s, AnswerFirst) && Climbed(Apply(s, AnswerFirst), first, first)
  {
    assert map[first := CREATOR].Keys == {first};
  }

  // ---------------------------------------------------------------- two workers for rid 1

  /** Two workers with rid 1, at those places; nobody is inside. */
  predicate Twins(s: Server, w: nat, v: nat, p: seq<Stanza>, pcw: Pc, pcv: Pc) {
    && w < |s.workers| && v < |s.workers| && w != v
    && s.workers[w] == Worker(Plain(1, p), 1, pcw) && s.workers[v] == Worker(Plain(1, p), 1, pcv)
  }

  /** Admission calls taken one by one, up to the insertion. */
  lemma UpToAdd(s: Server, w: nat, p: seq<Stanza>) returns (steps: seq<Step>)
    requires w < |s.workers| && s.workers[w] == Worker(Plain(1, p), 1, Find)
    requires 1 !in s.book.cache && ValidRid(s.book.cache.Keys, 1) && PendingKeys(s.book.cache, s.done) == {}
    ensures IsRun(s, steps) && After(s, steps) == Moved(s, w, Add)
  {
    var s1 := Moved(s, w, Check);
    var s2 := Moved(s1, w, Count);
    assert Moved(s1, w, Count) == Moved(s, w, Count);
    OneStep(s2, DoCount(w));
    OnwardRun(s1, DoCheck(w), [DoCount(w)]);
    OnwardRun(s, DoFind(w), [DoCheck(w)] + [DoCount(w)]);
    steps := [DoFind(w)] + ([DoCheck(w)] + [DoCount(w)]);
  }

  /** Both pass the checks before either is in the cache. */
  lemma BothAdmitted(s: Server, first: int, p: seq<Stanza>) returns (steps: seq<Step>, w: nat, v: nat)
    requires Climbed(s, first, 0)
    ensures IsRun(s, steps)
    ensures var t := After(s, steps);
      Twins(t, w, v, p, Gate, Gate) && t.birth == s.birth && t.line == s.line && t.life == s.life
  {
    AboveIsFree(s, first, 0);
    w, v := |s.workers|, |s.workers| + 1;
    var a := Arrives(s, 1, p);
    var s1 := Joined(s, 1, p, Find);
    var b := Arrives(s1, 1, p);
    Together(s, a, b);
    var s2 := Joined(s1, 1, p, Find);
    var c := UpToAdd(s2, w, p);
    Together(s, a + b, c);
    var s3 := Moved(s2, w, Add);
    var d := UpToAdd(s3, v, p);
    Together(s, a + b + c, d);
    var s4 := Moved(s3, v, Add);
    var s5 := Cached(s4, w);
    OneStep(s5, DoAdd(v));
    OnwardRun(s4, DoAdd(w), [DoAdd(v)]);
    Together(s, a + b + c + d, [DoAdd(w)] + [DoAdd(v)]);
    steps := a + b + c + d + ([DoAdd(w)] + [DoAdd(v)]);
  }

  /** The gate lets rid 1 pass while `lastDoneRID` is 0. */
  lemma PassesGate(s: Server, w: nat, p: seq<Stanza>) returns (steps: seq<Step>)
    requires w < |s.workers| && s.workers[w] == Worker(Plain(1, p), 1, Gate)
    requires s.line.lastDone == 0 && s.line.monitor == Vacant && !s.life.closed
    ensures IsRun(s, steps)
    ensures After(s, steps)
      == Moved(s, w, Reading).(line := Line(0, Held(w), s.line.log + [(1, p)]), polled := s.polled || p == [])
  {
    var s1 := Apply(s, Enter(w));
    OneStep(s1, Forward(w));
    OnwardRun(s, Enter(w), [Forward(w)]);
    steps := [Enter(w)] + [Forward(w)];
    assert s1.workers[w := s1.workers[w].(pc := Reading)] == s.workers[w := s.workers[w].(pc := Reading)];
  }

  /** The worker inside finishes, and then the creator marks its rid: `lastDoneRID` goes
      down again. */
  lemma Resets(s: Server, w: nat, v: nat, p: seq<Stanza>) returns (steps: seq<Step>)
    requires Twins(s, w, v, p, Reading, Gate) && s.birth == Unmarked(0) && !s.life.closed
    ensures IsRun(s, steps)
    ensures var t := After(s, steps);
      v < |t.workers| && t.workers[v] == s.workers[v] && t.line == Line(0, Vacant, s.line.log) && t.life == s.life
  {
    var s1 := Answered(s, w, false);
    var s2 := Marked(s1, w);
    OneStep(s2, MarkFirst);
    OnwardRun(s1, Mark(w), [MarkFirst]);
    OnwardRun(s, Answer(w, false), [Mark(w)] + [MarkFirst]);
    steps := [Answer(w, false)] + ([Mark(w)] + [MarkFirst]);
  }

  lemma RidOneTwice(s: Server, first: int, p: seq<Stanza>) returns (steps: seq<Step>)
    requires Climbed(s, first, 0) && first <= 0
    ensures IsRun(s, steps) && !LogOrdered(first, After(s, steps).line.log)
    ensures forall i :: 0 <= i < |After(s, steps).line.log| ==> After(s, steps).line.log[i] == (1, p)
  {
    var a, w, v := BothAdmitted(s, first, p);
    var s1 := After(s, a);
    var b := PassesGate(s1, w, p);
    Together(s, a, b);
    steps := a + b;
    var s2 := After(s1, b);
    assert s2.line.log == [(1, p)] && s2.line.log[0].0 == 1;
    if first == 0 {
      var c := Resets(s2, w, v, p);
      Together(s, a + b, c);
      var s3 := After(s2, c);
      var d := PassesGate(s3, v, p);
      Together(s, a + b + c, d);
      steps := a + b + c + d;
      assert After(s, steps).line.log == [(1, p)] + [(1, p)];
      assert After(s, steps).line.log[1].0 == 1;
    }
  }

  ghost predicate AlwaysOrdered(first: int) {
    forall keyed: bool, hold: nat, steps: seq<Step> :: IsRun(Init(first, keyed, hold), steps)
      ==> LogOrdered(first, After(Init(first, keyed, hold), steps).line.log)
  }

  /** The failing runs, for every first rid that is not positive and whatever the requests
      carry: what was sent with rid 1 is written out of its turn. */
  lemma OutOfOrder(first: int, keyed: bool, hold: nat, p: seq<Stanza>) returns (steps: seq<Step>)
    requires first <= 0
    ensures IsRun(Init(first, keyed, hold), steps)
    ensures var log := After(Init(first, keyed, hold), steps).line.log;
      !LogOrdered(first, log) && forall i :: 0 <= i < |log| ==> log[i] == (1, p)
  {
    var s := Init(first, keyed, hold);
    StartOfClimb(first, keyed, hold);
    var s1 := Apply(s, AnswerFirst);
    var a := ClimbTo(s1, first, first, p);
    var b := RidOneTwice(After(s1, a), first, p);
    Together(s1, a, b);
    OnwardRun(s, AnswerFirst, a + b);
    steps := [AnswerFirst] + (a + b);
  }

  /** Main result on the first rid: every run forwards in order exactly when it is positive. */
  lemma OrderedIfPositive(first: int)
    ensures AlwaysOrdered(first) <==> first >= 1
  {
    if first >= 1 {
      forall keyed: bool, hold: nat, steps: seq<Step> | IsRun(Init(first, keyed, hold), steps)
        ensures LogOrdered(first, After(Init(first, keyed, hold), steps).line.log)
      {
        ForwardedFromStart(first, keyed, hold, steps);
      }
    } else {
      var steps := OutOfOrder(first, false, 1, []);
    }
  }
}
