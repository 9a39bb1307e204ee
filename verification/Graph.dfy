/** The graph and its traversal. */
module Graph {
  // The graph of the radial and hyperbolic views: loading a tree into symmetric
  // adjacency lists, and the breadth-first traversal `GraphUtil.eachBFS`.

  type Id = string

  /** The adjacency lists of a graph, by node. */
  type Adjacency = map<Id, seq<Id>>

  /** One call of the traversal's action. */
  datatype Visit = Visit(id: Id, depth: int)

  predicate WellFormed(adj: Adjacency) {
    forall x, y :: x in adj && y in adj[x] ==> y in adj
  }

  predicate NoDup(s: seq<Id>) {
    forall i, j :: 0 <= i < j < |s| ==> s[i] != s[j]
  }

  // ---------------------------------------------------------------- the traversal

  /** A moment of the traversal. The queue may hold a node several times, and
      also nodes already flagged. */
  datatype Traversal = Traversal(flagged: set<Id>, depth: map<Id, int>, queue: seq<Id>, visits: seq<Visit>)

  function Unflagged(ids: seq<Id>, flagged: set<Id>): (open: seq<Id>)
    ensures forall x :: x in open <==> x in ids && x !in flagged
  {
    if ids == [] then []
    else Unflagged(ids[..|ids| - 1], flagged) + if ids[|ids| - 1] in flagged then [] else [ids[|ids| - 1]]
  }

  predicate Fits(adj: Adjacency, s: Traversal) {
    s.flagged <= adj.Keys && s.depth.Keys == adj.Keys && forall x :: x in s.queue ==> x in adj
  }

  /** Every neighbour of a flagged node is flagged, or waits in the queue. */
  predicate Closed(adj: Adjacency, s: Traversal)
    requires Fits(adj, s)
  {
    forall x, y :: x in s.flagged && y in adj[x] ==> y in s.flagged || y in s.queue
  }

  function Start(depth: map<Id, int>, root: Id): Traversal {
    Traversal({}, depth, [root], [])
  }

  function Deepened(depth: map<Id, int>, ids: seq<Id>, d: int): (deeper: map<Id, int>)
    ensures deeper.Keys == depth.Keys
    ensures forall x :: x in depth ==> deeper[x] == if x in ids then d else depth[x]
  {
    map x | x in depth :: if x in ids then d else depth[x]
  }

  /** One turn of the loop: the first node is flagged and visited, and its unflagged
      neighbours get their depth and join the queue. */
  function Step(adj: Adjacency, s: Traversal): (t: Traversal)
    requires WellFormed(adj) && Fits(adj, s) && s.queue != []
    ensures Fits(adj, t)
  {
    var x := s.queue[0];
    var flagged := s.flagged + {x};
    var open := Unflagged(adj[x], flagged);
    Traversal(flagged, Deepened(s.depth, open, s.depth[x] + 1), s.queue[1..] + open, s.visits + [Visit(x, s.depth[x])])
  }

  /** How many flagged nodes head the queue. */
  function Stale(queue: seq<Id>, flagged: set<Id>): nat {
    if queue == [] || queue[0] !in flagged then 0 else 1 + Stale(queue[1..], flagged)
  }

  lemma StepKeepsClosed(adj: Adjacency, s: Traversal)
    requires WellFormed(adj) && Fits(adj, s) && Closed(adj, s) && s.queue != []
    ensures Closed(adj, Step(adj, s))
  {
    var t := Step(adj, s);
    forall x, y | x in t.flagged && y in adj[x]
      ensures y in t.flagged || y in t.queue
    {
      if x in s.flagged && y in s.queue && y != s.queue[0] {
        assert y in s.queue[1..];
      }
    }
  }

  lemma {:induction false} StaleOfLonger(queue: seq<Id>, more: seq<Id>, flagged: set<Id>)
    requires more == [] || exists x :: x in queue && x !in flagged
    ensures Stale(queue + more, flagged) == Stale(queue, flagged)
  {
    if more == [] {
      assert queue + more == queue;
    } else if queue[0] in flagged {
      assert (queue + more)[1..] == queue[1..] + more;
      var x :| x in queue && x !in flagged;
      assert x in queue[1..];
      StaleOfLonger(queue[1..], more, flagged);
    }
  }

  /** Why the traversal ends, even though a node can be queued many times: each turn
      flags a new node, or shortens the run of flagged nodes at the head of the queue. */
  lemma StepIsCloser(adj: Adjacency, s: Traversal)
    requires WellFormed(adj) && Fits(adj, s) && Closed(adj, s) && s.queue != []
    ensures var t := Step(adj, s);
      || |adj.Keys - t.flagged| < |adj.Keys - s.flagged|
      || (t.flagged == s.flagged && Stale(t.queue, t.flagged) < Stale(s.queue, s.flagged))
  {
    var x, t := s.queue[0], Step(adj, s);
    if x in s.flagged {
      assert t.flagged == s.flagged;
      var open := Unflagged(adj[x], t.flagged);
      if open != [] {
        assert open[0] in open;
        assert open[0] in s.queue[1..];
      }
      StaleOfLonger(s.queue[1..], open, s.flagged);
    } else {
      assert adj.Keys - t.flagged == adj.Keys - s.flagged - {x};
    }
  }

  /** The whole loop. */
  function Run(adj: Adjacency, s: Traversal): (t: Traversal)
    requires WellFormed(adj) && Fits(adj, s) && Closed(adj, s)
    ensures Fits(adj, t) && Closed(adj, t) && t.queue == []
    decreases |adj.Keys - s.flagged|, Stale(s.queue, s.flagged)
  {
    if s.queue == [] then s else
    StepKeepsClosed(adj, s);
    StepIsCloser(adj, s);
    Run(adj, Step(adj, s))
  }

  /** eachBFS, on the depths it finds. */
  function Traverse(adj: Adjacency, depth: map<Id, int>, root: Id): (t: Traversal)
    requires WellFormed(adj) && depth.Keys == adj.Keys && root in adj
    ensures Fits(adj, t) && Closed(adj, t) && t.queue == []
  {
    Run(adj, Start(depth, root))
  }

  // ---------------------------------------------------------------- what it reaches

  ghost predicate IsWalk(adj: Adjacency, walk: seq<Id>, from: Id, to: Id) {
    && walk != [] && walk[0] == from && walk[|walk| - 1] == to
    && (forall i :: 0 <= i < |walk| ==> walk[i] in adj)
    && (forall i :: 0 <= i < |walk| - 1 ==> walk[i + 1] in adj[walk[i]])
  }

  ghost predicate Connected(adj: Adjacency, from: Id, to: Id) {
    exists walk :: IsWalk(adj, walk, from, to)
  }

  lemma Onward(adj: Adjacency, root: Id, x: Id, y: Id)
    requires Connected(adj, root, x) && x in adj && y in adj[x] && y in adj
    ensures Connected(adj, root, y)
  {
    var walk :| IsWalk(adj, walk, root, x);
    assert IsWalk(adj, walk + [y], root, y);
  }

  function VisitedIds(visits: seq<Visit>): set<Id> {
    set v | v in visits :: v.id
  }

  ghost predicate ReachInv(adj: Adjacency, root: Id, s: Traversal) {
    && (root in s.flagged || root in s.queue)
    && (forall x :: x in s.flagged || x in s.queue ==> Connected(adj, root, x))
    && VisitedIds(s.visits) == s.flagged
  }

  lemma StepKeepsReach(adj: Adjacency, root: Id, s: Traversal)
    requires WellFormed(adj) && Fits(adj, s) && s.queue != [] && ReachInv(adj, root, s)
    ensures ReachInv(adj, root, Step(adj, s))
  {
    var x, t := s.queue[0], Step(adj, s);
    forall y | y in t.flagged || y in t.queue
      ensures Connected(adj, root, y)
    {
      if y !in s.queue && y !in s.flagged {
        Onward(adj, root, x, y);
      }
    }
    assert t.visits == s.visits + [Visit(x, s.depth[x])];
    assert VisitedIds(t.visits) == VisitedIds(s.visits) + {x} by {
      assert Visit(x, s.depth[x]) in t.visits;
    }
  }

  lemma {:induction false} RunKeepsReach(adj: Adjacency, root: Id, s: Traversal)
    requires WellFormed(adj) && Fits(adj, s) && Closed(adj, s) && ReachInv(adj, root, s)
    ensures ReachInv(adj, root, Run(adj, s))
    decreases |adj.Keys - s.flagged|, Stale(s.queue, s.flagged)
  {
    if s.queue != [] {
      StepKeepsClosed(adj, s);
      StepIsCloser(adj, s);
      StepKeepsReach(adj, root, s);
      RunKeepsReach(adj, root, Step(adj, s));
    }
  }

  lemma {:induction false} ClosedReaches(adj: Adjacency, s: Traversal, walk: seq<Id>, root: Id, x: Id)
    requires Fits(adj, s) && Closed(adj, s) && s.queue == [] && root in s.flagged
    requires IsWalk(adj, walk, root, x)
    ensures x in s.flagged
    decreases |walk|
  {
    if |walk| > 1 {
      var init := walk[..|walk| - 1];
      assert IsWalk(adj, init, root, init[|init| - 1]);
      ClosedReaches(adj, s, init, root, init[|init| - 1]);
      assert walk[|walk| - 2 + 1] in adj[walk[|walk| - 2]];
    }
  }

  /** Main result for every graph: the traversal visits exactly the connected nodes. */
  lemma VisitsTheConnected(adj: Adjacency, depth: map<Id, int>, root: Id, x: Id)
    requires WellFormed(adj) && depth.Keys == adj.Keys && root in adj
    ensures x in VisitedIds(Traverse(adj, depth, root).visits) <==> Connected(adj, root, x)
  {
    var s := Start(depth, root);
    assert IsWalk(adj, [root], root, root);
    RunKeepsReach(adj, root, s);
    var t := Run(adj, s);
    if Connected(adj, root, x) {
      var walk :| IsWalk(adj, walk, root, x);
      ClosedReaches(adj, t, walk, root, x);
    }
  }

  // ---------------------------------------------------------------- trees

  /** The graph is a tree hanging from `root`: `up` leads one step towards it, `d`
      counts these steps, and every edge is such a step. */
  ghost predicate Rooted(adj: Adjacency, root: Id, d: map<Id, nat>, up: map<Id, Id>) {
    && WellFormed(adj) && root in adj && d.Keys == adj.Keys && up.Keys == adj.Keys
    && (forall x :: x in adj ==> NoDup(adj[x]))
    && Oriented(adj, root, up) && Climbing(adj, root, d, up)
  }

  ghost predicate Oriented(adj: Adjacency, root: Id, up: map<Id, Id>)
    requires WellFormed(adj) && up.Keys == adj.Keys
  {
    forall x, y :: x in adj && y in adj[x] ==> x in adj[y] && ((x != root && up[x] == y) || (y != root && up[y] == x))
  }

  ghost predicate Climbing(adj: Adjacency, root: Id, d: map<Id, nat>, up: map<Id, Id>)
    requires WellFormed(adj) && up.Keys == adj.Keys && d.Keys == adj.Keys && root in adj
  {
    d[root] == 0 && forall x {:trigger Hangs(adj, d, up, x)} :: x in adj && x != root ==> Hangs(adj, d, up, x)
  }

  /** The node has the neighbour above it one step nearer to the root. */
  ghost predicate Hangs(adj: Adjacency, d: map<Id, nat>, up: map<Id, Id>, x: Id)
    requires WellFormed(adj) && up.Keys == adj.Keys && d.Keys == adj.Keys && x in adj
  {
    up[x] in adj[x] && d[x] == d[up[x]] + 1
  }

  /** Nodes are queued once, when they are reached from the node above them. */
  ghost predicate Frontier(adj: Adjacency, root: Id, up: map<Id, Id>, flagged: set<Id>, queue: seq<Id>)
    requires up.Keys == adj.Keys && flagged <= adj.Keys
  {
    && NoDup(queue)
    && (forall x :: x in flagged ==> x !in queue)
    && (forall x :: x in flagged && x != root ==> up[x] in flagged)
    && (forall x :: x in adj && x !in flagged ==> (x in queue <==> x == root || up[x] in flagged))
  }

  ghost predicate TreeInv(adj: Adjacency, root: Id, d: map<Id, nat>, up: map<Id, Id>, base: int, s: Traversal)
    requires Rooted(adj, root, d, up)
  {
    && Fits(adj, s) && Frontier(adj, root, up, s.flagged, s.queue)
    && (forall x :: x in s.flagged || x in s.queue ==> s.depth[x] == base + d[x])
  }

  ghost predicate VisitsInv(adj: Adjacency, d: map<Id, nat>, base: int, s: Traversal)
    requires d.Keys == adj.Keys
  {
    && VisitedIds(s.visits) == s.flagged && s.flagged <= adj.Keys
    && (forall v :: v in s.visits ==> v.id in d && v.depth == base + d[v.id])
    && (forall i, j :: 0 <= i < j < |s.visits| ==> s.visits[i].id != s.visits[j].id)
  }

  /** The neighbours queued after a node are the nodes hanging from it. */
  lemma OpenAreBelow(adj: Adjacency, root: Id, d: map<Id, nat>, up: map<Id, Id>, base: int, s: Traversal, y: Id)
    requires Rooted(adj, root, d, up) && TreeInv(adj, root, d, up, base, s) && s.queue != []
    ensures var x := s.queue[0];
      y in Unflagged(adj[x], s.flagged + {x}) <==> y in adj && y != root && up[y] == x
  {
    var x := s.queue[0];
    assert x in s.queue && x !in s.flagged;
    if y in adj && y != root && up[y] == x {
      assert Hangs(adj, d, up, y);
      assert x in adj[y];
    }
  }

  lemma {:induction false} UnflaggedNoDup(ids: seq<Id>, flagged: set<Id>)
    requires NoDup(ids)
    ensures NoDup(Unflagged(ids, flagged))
  {
    if ids != [] {
      UnflaggedNoDup(ids[..|ids| - 1], flagged);
    }
  }

  lemma Joined(queue: seq<Id>, open: seq<Id>)
    requires NoDup(queue) && NoDup(open) && queue != [] && forall y :: y in open ==> y !in queue
    ensures NoDup(queue[1..] + open) && queue[0] !in queue[1..] + open
    ensures forall y :: y in queue[1..] + open <==> (y in queue && y != queue[0]) || y in open
  {
    assert queue == [queue[0]] + queue[1..];
    assert forall i :: 0 <= i < |open| ==> open[i] in open;
    assert forall i :: 0 <= i < |queue| ==> queue[i] in queue;
  }

  lemma StepKeepsFrontier(adj: Adjacency, root: Id, up: map<Id, Id>, flagged: set<Id>, queue: seq<Id>, open: seq<Id>)
    requires up.Keys == adj.Keys && flagged <= adj.Keys && queue != [] && queue[0] in adj
    requires Frontier(adj, root, up, flagged, queue) && NoDup(open)
    requires forall y :: y in open <==> y in adj && y != root && up[y] == queue[0]
    ensures Frontier(adj, root, up, flagged + {queue[0]}, queue[1..] + open)
  {
    var x := queue[0];
    assert x in queue && x !in flagged;
    Joined(queue, open);
  }

  lemma StepKeepsTree(adj: Adjacency, root: Id, d: map<Id, nat>, up: map<Id, Id>, base: int, s: Traversal)
    requires Rooted(adj, root, d, up) && TreeInv(adj, root, d, up, base, s) && s.queue != []
    ensures TreeInv(adj, root, d, up, base, Step(adj, s))
  {
    var x, t := s.queue[0], Step(adj, s);
    var open := Unflagged(adj[x], t.flagged);
    assert x in s.queue && x !in s.flagged;
    UnflaggedNoDup(adj[x], t.flagged);
    forall y
      ensures y in open <==> y in adj && y != root && up[y] == x
    {
      OpenAreBelow(adj, root, d, up, base, s, y);
    }
    StepKeepsFrontier(adj, root, up, s.flagged, s.queue, open);
    forall y | y in t.flagged || y in t.queue
      ensures t.depth[y] == base + d[y]
    {
      if y in open {
        assert Hangs(adj, d, up, y);
      } else {
        assert y in s.flagged || y in s.queue;
      }
    }
  }

  lemma StepKeepsVisits(adj: Adjacency, d: map<Id, nat>, base: int, s: Traversal)
    requires WellFormed(adj) && Fits(adj, s) && s.queue != [] && d.Keys == adj.Keys && VisitsInv(adj, d, base, s)
    requires s.queue[0] !in s.flagged && s.depth[s.queue[0]] == base + d[s.queue[0]]
    ensures VisitsInv(adj, d, base, Step(adj, s))
  {
    var x, t := s.queue[0], Step(adj, s);
    var last := Visit(x, s.depth[x]);
    VisitedMore(s.visits, last);
    forall i | 0 <= i < |s.visits|
      ensures s.visits[i].id != x
    {
      assert s.visits[i] in s.visits;
      assert s.visits[i].id in VisitedIds(s.visits);
    }
  }

  lemma VisitedMore(visits: seq<Visit>, last: Visit)
    ensures VisitedIds(visits + [last]) == VisitedIds(visits) + {last.id}
  {
    assert last in visits + [last];
    forall x | x in VisitedIds(visits)
      ensures x in VisitedIds(visits + [last])
    {
      var v :| v in visits && v.id == x;
      assert v in visits + [last];
    }
  }

  lemma {:induction false} RunKeepsTree(adj: Adjacency, root: Id, d: map<Id, nat>, up: map<Id, Id>, base: int,
                                        s: Traversal)
    requires Rooted(adj, root, d, up) && TreeInv(adj, root, d, up, base, s) && Closed(adj, s)
    requires VisitsInv(adj, d, base, s)
    ensures TreeInv(adj, root, d, up, base, Run(adj, s)) && VisitsInv(adj, d, base, Run(adj, s))
    decreases |adj.Keys - s.flagged|, Stale(s.queue, s.flagged)
  {
    if s.queue != [] {
      StepKeepsClosed(adj, s);
      StepIsCloser(adj, s);
      StepKeepsTree(adj, root, d, up, base, s);
      assert s.queue[0] in s.queue;
      StepKeepsVisits(adj, d, base, s);
      RunKeepsTree(adj, root, d, up, base, Step(adj, s));
    }
  }

  /** An empty queue leaves no node of the tree out. */
  lemma {:induction false} NothingLeft(adj: Adjacency, root: Id, d: map<Id, nat>, up: map<Id, Id>, base: int,
                                       s: Traversal, x: Id)
    requires Rooted(adj, root, d, up) && TreeInv(adj, root, d, up, base, s) && s.queue == [] && x in adj
    ensures x in s.flagged
    decreases d[x]
  {
    if x != root {
      assert Hangs(adj, d, up, x);
      NothingLeft(adj, root, d, up, base, s, up[x]);
    }
  }

  lemma AllFlagged(adj: Adjacency, root: Id, d: map<Id, nat>, up: map<Id, Id>, base: int, t: Traversal)
    requires Rooted(adj, root, d, up) && TreeInv(adj, root, d, up, base, t) && t.queue == []
    ensures t.flagged == adj.Keys
  {
    forall x | x in adj
      ensures x in t.flagged
    {
      NothingLeft(adj, root, d, up, base, t, x);
    }
  }

  ghost predicate IsDistance(adj: Adjacency, from: Id, to: Id, n: nat) {
    && (exists walk :: IsWalk(adj, walk, from, to) && |walk| == n + 1)
    && (forall walk :: IsWalk(adj, walk, from, to) ==> |walk| >= n + 1)
  }

  lemma {:induction false} NoShortcut(adj: Adjacency, root: Id, d: map<Id, nat>, up: map<Id, Id>, walk: seq<Id>, x: Id)
    requires Rooted(adj, root, d, up) && IsWalk(adj, walk, root, x)
    ensures |walk| >= d[x] + 1
    decreases |walk|
  {
    if |walk| > 1 {
      var init := walk[..|walk| - 1];
      var y := init[|init| - 1];
      assert IsWalk(adj, init, root, y);
      NoShortcut(adj, root, d, up, init, y);
      assert walk[|walk| - 2 + 1] in adj[walk[|walk| - 2]];
      assert x != root ==> Hangs(adj, d, up, x);
      assert y != root ==> Hangs(adj, d, up, y);
    }
  }

  lemma {:induction false} WalkDown(adj: Adjacency, root: Id, d: map<Id, nat>, up: map<Id, Id>, x: Id)
    returns (walk: seq<Id>)
    requires Rooted(adj, root, d, up) && x in adj
    ensures IsWalk(adj, walk, root, x) && |walk| == d[x] + 1
    decreases d[x]
  {
    if x == root {
      walk := [root];
    } else {
      assert Hangs(adj, d, up, x);
      var init := WalkDown(adj, root, d, up, up[x]);
      walk := init + [x];
    }
  }

  lemma DepthIsDistance(adj: Adjacency, root: Id, d: map<Id, nat>, up: map<Id, Id>, x: Id)
    requires Rooted(adj, root, d, up) && x in adj
    ensures IsDistance(adj, root, x, d[x])
  {
    var walk := WalkDown(adj, root, d, up, x);
    forall w | IsWalk(adj, w, root, x)
      ensures |w| >= d[x] + 1
    {
      NoShortcut(adj, root, d, up, w, x);
    }
  }

  ghost predicate CanHang(adj: Adjacency, root: Id) {
    exists d, up :: Rooted(adj, root, d, up)
  }

  ghost predicate IsTree(adj: Adjacency) {
    WellFormed(adj) && forall root {:trigger CanHang(adj, root)} :: root in adj ==> CanHang(adj, root)
  }

  /** Each node is visited once, and its depth is its distance from the root. */
  ghost predicate VisitedOnceByDistance(adj: Adjacency, root: Id, base: int, t: Traversal) {
    && VisitedIds(t.visits) == adj.Keys
    && (forall i, j :: 0 <= i < j < |t.visits| ==> t.visits[i].id != t.visits[j].id)
    && (forall v :: v in t.visits ==> v.depth >= base && IsDistance(adj, root, v.id, v.depth - base))
    && t.depth.Keys == adj.Keys
    && (forall x :: x in adj ==> t.depth[x] >= base && IsDistance(adj, root, x, t.depth[x] - base))
  }

  lemma FinishedTree(adj: Adjacency, root: Id, d: map<Id, nat>, up: map<Id, Id>, base: int, t: Traversal)
    requires Rooted(adj, root, d, up) && TreeInv(adj, root, d, up, base, t) && VisitsInv(adj, d, base, t)
      && t.queue == []
    ensures VisitedOnceByDistance(adj, root, base, t)
  {
    AllFlagged(adj, root, d, up, base, t);
    forall x | x in adj
      ensures IsDistance(adj, root, x, d[x])
    {
      DepthIsDistance(adj, root, d, up, x);
    }
    AllByDistance(adj, root, d, base, t);
  }

  lemma AllByDistance(adj: Adjacency, root: Id, d: map<Id, nat>, base: int, t: Traversal)
    requires d.Keys == adj.Keys && VisitsInv(adj, d, base, t) && t.flagged == adj.Keys && t.depth.Keys == adj.Keys
    requires forall x :: x in adj ==> IsDistance(adj, root, x, d[x])
    requires forall x :: x in adj ==> t.depth[x] == base + d[x]
    ensures VisitedOnceByDistance(adj, root, base, t)
  {
    forall v | v in t.visits
      ensures v.depth >= base && IsDistance(adj, root, v.id, v.depth - base)
    {
      assert v.depth - base == d[v.id];
    }
    forall x | x in adj
      ensures t.depth[x] >= base && IsDistance(adj, root, x, t.depth[x] - base)
    {
      assert t.depth[x] - base == d[x];
    }
  }

  /** The node above a visited node is visited before it. */
  ghost predicate ParentsFirst(root: Id, up: map<Id, Id>, visits: seq<Visit>) {
    forall j :: 0 <= j < |visits| && visits[j].id != root && visits[j].id in up
      ==> SeenBefore(visits, j, up[visits[j].id])
  }

  ghost predicate SeenBefore(visits: seq<Visit>, j: int, x: Id)
    requires 0 <= j <= |visits|
  {
    exists i :: 0 <= i < j && visits[i].id == x
  }

  lemma AnotherVisit(root: Id, up: map<Id, Id>, visits: seq<Visit>, last: Visit)
    requires ParentsFirst(root, up, visits)
    requires last.id in up && (last.id == root || up[last.id] in VisitedIds(visits))
    ensures ParentsFirst(root, up, visits + [last])
  {
    var all := visits + [last];
    forall j | 0 <= j < |all| && all[j].id != root && all[j].id in up
      ensures SeenBefore(all, j, up[all[j].id])
    {
      if j < |visits| {
        assert SeenBefore(visits, j, up[visits[j].id]);
        var i :| 0 <= i < j && visits[i].id == up[visits[j].id];
        assert all[i] == visits[i];
      } else {
        var v :| v in visits && v.id == up[last.id];
        var i :| 0 <= i < |visits| && visits[i] == v;
        assert all[i] == v;
      }
    }
  }

  lemma {:induction false} RunKeepsParents(adj: Adjacency, root: Id, d: map<Id, nat>, up: map<Id, Id>, base: int,
                                           s: Traversal)
    requires Rooted(adj, root, d, up) && TreeInv(adj, root, d, up, base, s) && Closed(adj, s)
    requires VisitsInv(adj, d, base, s) && ParentsFirst(root, up, s.visits)
    ensures ParentsFirst(root, up, Run(adj, s).visits)
    decreases |adj.Keys - s.flagged|, Stale(s.queue, s.flagged)
  {
    if s.queue != [] {
      StepKeepsClosed(adj, s);
      StepIsCloser(adj, s);
      StepKeepsTree(adj, root, d, up, base, s);
      assert s.queue[0] in s.queue;
      StepKeepsVisits(adj, d, base, s);
      AnotherVisit(root, up, s.visits, Visit(s.queue[0], s.depth[s.queue[0]]));
      RunKeepsParents(adj, root, d, up, base, Step(adj, s));
    }
  }

  lemma StartOfTree(adj: Adjacency, depth: map<Id, int>, root: Id, d: map<Id, nat>, up: map<Id, Id>)
    requires Rooted(adj, root, d, up) && depth.Keys == adj.Keys
    ensures TreeInv(adj, root, d, up, depth[root], Start(depth, root))
    ensures VisitsInv(adj, d, depth[root], Start(depth, root))
  {
  }

  /** On a tree, whatever node is chosen as the root. */
  lemma TraversalOfTree(adj: Adjacency, depth: map<Id, int>, root: Id)
    requires IsTree(adj) && depth.Keys == adj.Keys && root in adj
    ensures VisitedOnceByDistance(adj, root, depth[root], Traverse(adj, depth, root))
  {
    assert CanHang(adj, root);
    var d, up :| Rooted(adj, root, d, up);
    StartOfTree(adj, depth, root, d, up);
    RunKeepsTree(adj, root, d, up, depth[root], Start(depth, root));
    FinishedTree(adj, root, d, up, depth[root], Traverse(adj, depth, root));
  }

  // ---------------------------------------------------------------- loading a tree

  datatype Tree = Tree(id: Id, children: seq<Tree>)

  function AddedNode(adj: Adjacency, x: Id): Adjacency {
    if x in adj then adj else adj[x := []]
  }

  function Linked(adj: Adjacency, x: Id, y: Id): Adjacency
    requires x in adj
  {
    if y in adj[x] then adj else adj[x := adj[x] + [y]]
  }

  function AddedEdge(adj: Adjacency, x: Id, y: Id): Adjacency {
    Linked(Linked(AddedNode(AddedNode(adj, x), y), x, y), y, x)
  }

  /** loadTree */
  function Loaded(adj: Adjacency, t: Tree): Adjacency
    decreases t
  {
    LoadedAll(adj, t.id, t.children)
  }

  function LoadedAll(adj: Adjacency, id: Id, children: seq<Tree>): Adjacency
    decreases children
  {
    if children == [] then adj
    else LoadedAll(Loaded(AddedEdge(adj, id, children[0].id), children[0]), id, children[1..])
  }

  /** The identifiers below a node, in preorder. */
  function Below(children: seq<Tree>): seq<Id>
    decreases children
  {
    if children == [] then [] else [children[0].id] + Below(children[0].children) + Below(children[1..])
  }

  function Range(s: seq<Id>): set<Id> {
    set x | x in s
  }

  function Edges(id: Id, children: seq<Tree>): set<(Id, Id)>
    decreases children
  {
    if children == [] then {}
    else {(id, children[0].id)} + Edges(children[0].id, children[0].children) + Edges(id, children[1..])
  }

  predicate Adjacent(adj: Adjacency, x: Id, y: Id) {
    x in adj && y in adj[x]
  }

  /** The graph of a tree has an edge, both ways, for each child and its parent. */
  lemma {:induction false} LoadedEdges(adj: Adjacency, id: Id, children: seq<Tree>, x: Id, y: Id)
    ensures Adjacent(LoadedAll(adj, id, children), x, y)
      <==> Adjacent(adj, x, y) || (x, y) in Edges(id, children) || (y, x) in Edges(id, children)
    decreases children
  {
    if children != [] {
      var first := children[0];
      var next := AddedEdge(adj, id, first.id);
      LoadedEdges(next, first.id, first.children, x, y);
      LoadedEdges(Loaded(next, first), id, children[1..], x, y);
    }
  }

  lemma SingleNode(x: Id)
    ensures IsTree(map[x := []])
  {
    assert Rooted(map[x := []], x, map[x := 0], map[x := x]);
  }

  /** `more` is the graph with the new node `c` linked to `p`. */
  predicate LeafAdded(adj: Adjacency, p: Id, c: Id, more: Adjacency) {
    && WellFormed(adj) && p in adj && c !in adj && more.Keys == adj.Keys + {c}
    && more[c] == [p] && more[p] == adj[p] + [c]
    && forall x :: x in adj && x != p ==> more[x] == adj[x]
  }

  lemma LeafShape(adj: Adjacency, p: Id, c: Id)
    requires WellFormed(adj) && p in adj && c !in adj
    ensures LeafAdded(adj, p, c, AddedEdge(adj, p, c))
  {
    assert c !in adj[p];
    var two := adj[c := []][p := adj[p] + [c]];
    assert two[c] + [p] == [p];
    assert AddedEdge(adj, p, c) == two[c := [p]];
  }

  lemma LeafNeighbours(adj: Adjacency, p: Id, c: Id, more: Adjacency)
    requires LeafAdded(adj, p, c, more)
    ensures WellFormed(more)
    ensures forall x, y :: x in more && y in more[x]
              <==> (x in adj && y in adj[x]) || (x == p && y == c) || (x == c && y == p)
    ensures (forall x :: x in adj ==> NoDup(adj[x])) ==> forall x :: x in more ==> NoDup(more[x])
  {
    if forall x :: x in adj ==> NoDup(adj[x]) {
      forall x | x in more
        ensures NoDup(more[x])
      {
        if x == p {
          assert forall i :: 0 <= i < |adj[p]| ==> adj[p][i] in adj[p];
        }
      }
    }
  }

  /** The old root stays a root when a leaf is added. */
  lemma LeafBelow(adj: Adjacency, p: Id, c: Id, more: Adjacency, root: Id, d: map<Id, nat>, up: map<Id, Id>)
    requires LeafAdded(adj, p, c, more) && Rooted(adj, root, d, up)
    ensures CanHang(more, root)
  {
    LeafNeighbours(adj, p, c, more);
    var d', up' := d[c := d[p] + 1], up[c := p];
    LeafBelowClimbs(adj, p, c, more, root, d, up);
    LeafBelowOriented(adj, p, c, more, root, up);
    assert Rooted(more, root, d', up');
  }

  lemma LeafBelowClimbs(adj: Adjacency, p: Id, c: Id, more: Adjacency, root: Id, d: map<Id, nat>, up: map<Id, Id>)
    requires LeafAdded(adj, p, c, more) && WellFormed(more) && root in adj && d.Keys == up.Keys == adj.Keys
    requires Climbing(adj, root, d, up)
    ensures Climbing(more, root, d[c := d[p] + 1], up[c := p])
  {
    forall x | x in more && x != root
      ensures Hangs(more, d[c := d[p] + 1], up[c := p], x)
    {
      assert x != c ==> Hangs(adj, d, up, x);
    }
  }

  lemma LeafBelowOriented(adj: Adjacency, p: Id, c: Id, more: Adjacency, root: Id, up: map<Id, Id>)
    requires LeafAdded(adj, p, c, more) && WellFormed(more) && root in adj && up.Keys == adj.Keys
      && Oriented(adj, root, up)
    ensures Oriented(more, root, up[c := p])
  {
    LeafNeighbours(adj, p, c, more);
  }

  /** The leaf itself can be the root: everything hangs from it through its neighbour. */
  lemma LeafOnTop(adj: Adjacency, p: Id, c: Id, more: Adjacency, d: map<Id, nat>, up: map<Id, Id>)
    requires LeafAdded(adj, p, c, more) && Rooted(adj, p, d, up)
    ensures CanHang(more, c)
  {
    LeafNeighbours(adj, p, c, more);
    var deeper: map<Id, nat> := map x | x in more :: if x == c then 0 else d[x] + 1;
    LeafOnTopClimbs(adj, p, c, more, d, up, deeper);
    LeafOnTopOriented(adj, p, c, more, up);
    assert Rooted(more, c, deeper, up[p := c][c := c]);
  }

  lemma LeafOnTopClimbs(adj: Adjacency, p: Id, c: Id, more: Adjacency, d: map<Id, nat>, up: map<Id, Id>,
                        deeper: map<Id, nat>)
    requires LeafAdded(adj, p, c, more) && WellFormed(more) && d.Keys == up.Keys == adj.Keys
    requires Climbing(adj, p, d, up)
    requires deeper.Keys == more.Keys && deeper[c] == 0 && forall x :: x in adj ==> deeper[x] == d[x] + 1
    ensures Climbing(more, c, deeper, up[p := c][c := c])
  {
    forall x | x in more && x != c
      ensures Hangs(more, deeper, up[p := c][c := c], x)
    {
      assert x != p ==> Hangs(adj, d, up, x);
    }
  }

  lemma LeafOnTopOriented(adj: Adjacency, p: Id, c: Id, more: Adjacency, up: map<Id, Id>)
    requires LeafAdded(adj, p, c, more) && WellFormed(more) && up.Keys == adj.Keys && Oriented(adj, p, up)
    ensures Oriented(more, c, up[p := c][c := c])
  {
    LeafNeighbours(adj, p, c, more);
  }

  lemma AddLeaf(adj: Adjacency, p: Id, c: Id)
    requires IsTree(adj) && p in adj && c !in adj
    ensures IsTree(AddedEdge(adj, p, c)) && AddedEdge(adj, p, c).Keys == adj.Keys + {c}
  {
    LeafShape(adj, p, c);
    LeafIsTree(adj, p, c, AddedEdge(adj, p, c));
  }

  lemma LeafIsTree(adj: Adjacency, p: Id, c: Id, more: Adjacency)
    requires IsTree(adj) && LeafAdded(adj, p, c, more)
    ensures IsTree(more)
  {
    LeafNeighbours(adj, p, c, more);
    forall root | root in more
      ensures CanHang(more, root)
    {
      LeafRoots(adj, p, c, more, root);
    }
  }

  lemma LeafRoots(adj: Adjacency, p: Id, c: Id, more: Adjacency, root: Id)
    requires LeafAdded(adj, p, c, more) && root in more && CanHang(adj, if root == c then p else root)
    ensures CanHang(more, root)
  {
    var d, up :| Rooted(adj, if root == c then p else root, d, up);
    if root == c {
      LeafOnTop(adj, p, c, more, d, up);
    } else {
      LeafBelow(adj, p, c, more, root, d, up);
    }
  }

  lemma {:induction false} LoadedIsTree(adj: Adjacency, id: Id, children: seq<Tree>)
    requires IsTree(adj) && id in adj && NoDup(Below(children)) && Range(Below(children)) !! adj.Keys
    ensures IsTree(LoadedAll(adj, id, children))
    ensures LoadedAll(adj, id, children).Keys == adj.Keys + Range(Below(children))
    decreases children
  {
    if children != [] {
      var first, inner, others := children[0], Below(children[0].children), Below(children[1..]);
      SplitBelow(first.id, inner, others, adj.Keys);
      AddLeaf(adj, id, first.id);
      var next := AddedEdge(adj, id, first.id);
      LoadedIsTree(next, first.id, first.children);
      LoadedIsTree(Loaded(next, first), id, children[1..]);
    }
  }

  lemma SplitBelow(x: Id, inner: seq<Id>, others: seq<Id>, seen: set<Id>)
    requires NoDup([x] + inner + others) && Range([x] + inner + others) !! seen
    ensures NoDup(inner) && NoDup(others) && x !in seen
    ensures Range(inner) !! seen + {x}
    ensures Range(others) !! seen + {x} + Range(inner)
    ensures Range([x] + inner + others) == {x} + Range(inner) + Range(others)
  {
    SplitRange([x] + inner, others);
    SplitRange([x], inner);
    assert Range([x]) == {x};
    SplitNoDup([x] + inner, others);
    SplitNoDup([x], inner);
  }

  lemma SplitRange(a: seq<Id>, b: seq<Id>)
    ensures Range(a + b) == Range(a) + Range(b)
  {
  }

  lemma SplitNoDup(a: seq<Id>, b: seq<Id>)
    requires NoDup(a + b)
    ensures NoDup(a) && NoDup(b) && Range(a) !! Range(b)
  {
    var c := a + b;
    assert forall i :: 0 <= i < |a| ==> c[i] == a[i];
    assert forall i :: 0 <= i < |b| ==> c[|a| + i] == b[i];
  }

  /** Main result on trees: in the graph loaded from a tree with distinct identifiers,
      from any root, the traversal visits every node once, and sets its depth to its
      distance from that root. */
  lemma TraversalOfLoadedTree(t: Tree, depth: map<Id, int>, root: Id)
    requires NoDup([t.id] + Below(t.children)) && t.children != []
    requires depth.Keys == Loaded(map[], t).Keys && root in Range([t.id] + Below(t.children))
    ensures var adj := Loaded(map[], t);
      && adj.Keys == Range([t.id] + Below(t.children)) && WellFormed(adj)
      && VisitedOnceByDistance(adj, root, depth[root], Traverse(adj, depth, root))
  {
    var one: Adjacency := map[t.id := []];
    SingleNode(t.id);
    SplitBelow(t.id, Below(t.children), [], {});
    assert [t.id] + Below(t.children) + [] == [t.id] + Below(t.children);
    FirstEdge(t.id, t.children);
    LoadedIsTree(one, t.id, t.children);
    TraversalOfTree(Loaded(map[], t), depth, root);
  }

  lemma FirstEdge(id: Id, children: seq<Tree>)
    requires children != []
    ensures LoadedAll(map[], id, children) == LoadedAll(map[id := []], id, children)
  {
    assert AddedEdge(map[], id, children[0].id) == AddedEdge(map[id := []], id, children[0].id);
  }

  /** A tree without children leaves the graph without its root. */
  lemma LonelyRoot(id: Id)
    ensures Loaded(map[], Tree(id, [])).Keys == {}
  {
  }
}
