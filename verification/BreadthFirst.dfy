/** Exact conditions on eachBFS. */
module BreadthFirst {
  // When the traversal of the graph views visits each node once, and when the depths it
  // leaves are distances: exact conditions for every graph the views can hold.

  import opened Graph

  /** What `addAdjacence` keeps: neighbours know each other, and each is listed once. */
  ghost predicate Undirected(adj: Adjacency) {
    && WellFormed(adj)
    && (forall x :: x in adj ==> NoDup(adj[x]))
    && (forall x, y :: x in adj && y in adj[x] ==> x in adj[y])
  }

  lemma EdgeKeepsUndirected(adj: Adjacency, x: Id, y: Id)
    requires Undirected(adj)
    ensures Undirected(AddedEdge(adj, x, y))
  {
    var nodes := AddedNode(AddedNode(adj, x), y);
    assert Undirected(nodes);
    var one := Linked(nodes, x, y);
    LinkKeepsNoDup(nodes, x, y);
    LinkKeepsNoDup(one, y, x);
    forall a, b | a in AddedEdge(adj, x, y) && b in AddedEdge(adj, x, y)[a]
      ensures b in AddedEdge(adj, x, y) && a in AddedEdge(adj, x, y)[b]
    {
      assert b in nodes[a] || (a == x && b == y) || (a == y && b == x);
    }
  }

  lemma LinkKeepsNoDup(adj: Adjacency, x: Id, y: Id)
    requires x in adj && forall a :: a in adj ==> NoDup(adj[a])
    ensures forall a :: a in Linked(adj, x, y) ==> NoDup(Linked(adj, x, y)[a])
  {
    if y !in adj[x] {
      assert forall i :: 0 <= i < |adj[x]| ==> adj[x][i] in adj[x];
    }
  }

  /** Whatever tree is loaded, identifiers repeated or not. */
  lemma {:induction false} LoadedIsUndirected(adj: Adjacency, id: Id, children: seq<Tree>)
    requires Undirected(adj)
    ensures Undirected(LoadedAll(adj, id, children))
    decreases children
  {
    if children != [] {
      var next := AddedEdge(adj, id, children[0].id);
      EdgeKeepsUndirected(adj, id, children[0].id);
      LoadedIsUndirected(next, children[0].id, children[0].children);
      LoadedIsUndirected(Loaded(next, children[0]), id, children[1..]);
    }
  }

  // ---------------------------------------------------------------- the component of the root

  /** The nodes connected to the root, without the loops at single nodes. */
  ghost function Component(adj: Adjacency, root: Id): Adjacency {
    map x | x in adj && Connected(adj, root, x) :: Unflagged(adj[x], {x})
  }

  lemma ComponentEdge(adj: Adjacency, root: Id, x: Id, y: Id)
    requires Undirected(adj) && x in Component(adj, root) && y in Component(adj, root)[x]
    ensures y != x && y in Component(adj, root) && x in Component(adj, root)[y]
  {
    Onward(adj, root, x, y);
  }

  lemma ComponentNoDup(adj: Adjacency, root: Id, x: Id)
    requires Undirected(adj) && x in Component(adj, root)
    ensures NoDup(Component(adj, root)[x])
  {
    UnflaggedNoDup(adj[x], {x});
  }

  predicate NoLoops(adj: Adjacency) {
    forall x :: x in adj ==> x !in adj[x]
  }

  lemma RootIsConnected(adj: Adjacency, root: Id)
    requires root in adj
    ensures Connected(adj, root, root)
  {
    assert IsWalk(adj, [root], root, root);
  }

  /** The node is a neighbour of its neighbours, not of itself. */
  ghost predicate Fair(adj: Adjacency, x: Id)
    requires x in adj
  {
    NoDup(adj[x]) && forall y :: y in adj[x] ==> y != x && y in adj && x in adj[y]
  }

  lemma FairIsUndirected(adj: Adjacency)
    requires forall x {:trigger Fair(adj, x)} :: x in adj ==> Fair(adj, x)
    ensures Undirected(adj) && NoLoops(adj)
  {
    assert forall x :: x in adj ==> Fair(adj, x);
  }

  lemma ComponentIsUndirected(adj: Adjacency, root: Id)
    requires Undirected(adj) && root in adj
    ensures Undirected(Component(adj, root)) && root in Component(adj, root) && NoLoops(Component(adj, root))
  {
    RootIsConnected(adj, root);
    var part := Component(adj, root);
    forall x | x in part
      ensures Fair(part, x)
    {
      ComponentNoDup(adj, root, x);
      forall y | y in part[x]
        ensures y != x && y in part && x in part[y]
      {
        ComponentEdge(adj, root, x, y);
      }
    }
    FairIsUndirected(part);
  }

  lemma {:induction false} UnflaggedTwice(ids: seq<Id>, x: Id, flagged: set<Id>)
    requires x in flagged
    ensures Unflagged(Unflagged(ids, {x}), flagged) == Unflagged(ids, flagged)
  {
    if ids != [] {
      var n := |ids| - 1;
      UnflaggedTwice(ids[..n], x, flagged);
      if ids[n] != x {
        var less := Unflagged(ids[..n], {x});
        assert (less + [ids[n]])[..|less|] == less;
      } else {
        assert Unflagged(ids[..n], {x}) + [] == Unflagged(ids[..n], {x});
        assert Unflagged(ids[..n], flagged) + [] == Unflagged(ids[..n], flagged);
      }
    }
  }

  /** `t` is `s` on fewer nodes. */
  ghost predicate Within(s: Traversal, t: Traversal) {
    && t.flagged == s.flagged && t.queue == s.queue && t.visits == s.visits
    && t.depth.Keys <= s.depth.Keys && forall x :: x in t.depth ==> t.depth[x] == s.depth[x]
  }

  ghost predicate IsPart(adj: Adjacency, part: Adjacency) {
    && WellFormed(adj) && WellFormed(part) && part.Keys <= adj.Keys
    && forall x :: x in part ==> part[x] == Unflagged(adj[x], {x})
  }

  lemma StepWithin(adj: Adjacency, part: Adjacency, s: Traversal, t: Traversal)
    requires IsPart(adj, part) && Fits(adj, s) && Fits(part, t) && Within(s, t) && s.queue != []
    ensures Within(Step(adj, s), Step(part, t))
  {
    var x := s.queue[0];
    UnflaggedTwice(adj[x], x, s.flagged + {x});
  }

  /** The traversal does not notice what is not connected, nor loops. */
  lemma {:induction false} RunWithin(adj: Adjacency, part: Adjacency, s: Traversal, t: Traversal)
    requires IsPart(adj, part) && Fits(adj, s) && Fits(part, t) && Closed(adj, s) && Closed(part, t) && Within(s, t)
    ensures Within(Run(adj, s), Run(part, t))
    decreases |adj.Keys - s.flagged|, Stale(s.queue, s.flagged)
  {
    if s.queue != [] {
      StepKeepsClosed(adj, s);
      StepKeepsClosed(part, t);
      StepIsCloser(adj, s);
      StepWithin(adj, part, s, t);
      RunWithin(adj, part, Step(adj, s), Step(part, t));
    }
  }

  ghost function Restricted(depth: map<Id, int>, part: Adjacency): map<Id, int> {
    map x | x in depth && x in part :: depth[x]
  }

  lemma ComponentIsPart(adj: Adjacency, root: Id)
    requires Undirected(adj) && root in adj
    ensures IsPart(adj, Component(adj, root))
  {
    ComponentIsUndirected(adj, root);
  }

  lemma TraverseWithin(adj: Adjacency, depth: map<Id, int>, root: Id)
    requires Undirected(adj) && root in adj && depth.Keys == adj.Keys && IsPart(adj, Component(adj, root))
    requires root in Component(adj, root)
    ensures var part := Component(adj, root); var less := Restricted(depth, part);
      && less.Keys == part.Keys
      && Traverse(part, less, root).visits == Traverse(adj, depth, root).visits
      && Traverse(part, less, root).flagged == Traverse(adj, depth, root).flagged
  {
    var less := Restricted(depth, Component(adj, root));
    RunWithin(adj, Component(adj, root), Start(depth, root), Start(less, root));
  }

  lemma FlaggedIsConnected(adj: Adjacency, depth: map<Id, int>, root: Id)
    requires WellFormed(adj) && root in adj && depth.Keys == adj.Keys
    ensures Traverse(adj, depth, root).flagged == Component(adj, root).Keys
  {
    var t := Traverse(adj, depth, root);
    RootIsConnected(adj, root);
    RunKeepsReach(adj, root, Start(depth, root));
    forall x
      ensures x in t.flagged <==> x in Component(adj, root)
    {
      VisitsTheConnected(adj, depth, root, x);
    }
  }

  // ---------------------------------------------------------------- visited once

  function Ids(visits: seq<Visit>): (ids: seq<Id>)
    ensures |ids| == |visits| && forall i :: 0 <= i < |ids| ==> ids[i] == visits[i].id
  {
    seq(|visits|, i requires 0 <= i < |visits| => visits[i].id)
  }

  /** No node is visited twice. */
  predicate VisitsOnce(visits: seq<Visit>) {
    NoDup(Ids(visits))
  }

  lemma IdsMore(visits: seq<Visit>, last: Visit)
    ensures Ids(visits + [last]) == Ids(visits) + [last.id]
  {
  }

  /** A turn moves the head of the queue to the visits and queues its neighbours. */
  lemma TurnMoves(ids: seq<Id>, queue: seq<Id>, open: seq<Id>)
    requires queue != []
    ensures multiset(ids + queue) <= multiset(ids + [queue[0]] + (queue[1..] + open))
  {
    assert queue == [queue[0]] + queue[1..];
    assert ids + [queue[0]] + (queue[1..] + open) == ids + queue + open;
  }

  /** Whatever is queued will be visited, as often as it is queued. */
  lemma {:induction false} QueuedIsVisited(adj: Adjacency, s: Traversal)
    requires WellFormed(adj) && Fits(adj, s) && Closed(adj, s)
    ensures multiset(Ids(s.visits) + s.queue) <= multiset(Ids(Run(adj, s).visits))
    decreases |adj.Keys - s.flagged|, Stale(s.queue, s.flagged)
  {
    if s.queue == [] {
      assert Ids(s.visits) + [] == Ids(s.visits);
    } else {
      StepKeepsClosed(adj, s);
      StepIsCloser(adj, s);
      QueuedIsVisited(adj, Step(adj, s));
      var x := s.queue[0];
      IdsMore(s.visits, Visit(x, s.depth[x]));
      TurnMoves(Ids(s.visits), s.queue, Unflagged(adj[x], s.flagged + {x}));
    }
  }

  lemma {:induction false} OnceMeansNoDup(s: seq<Id>)
    requires forall x :: multiset(s)[x] <= 1
    ensures NoDup(s)
  {
    if s != [] {
      var init, last := s[..|s| - 1], s[|s| - 1];
      assert s == init + [last];
      forall x
        ensures multiset(init)[x] <= 1
      {
        assert multiset(init)[x] <= multiset(s)[x];
      }
      OnceMeansNoDup(init);
      assert multiset(s)[last] == multiset(init)[last] + 1;
      assert last !in init;
    }
  }

  lemma {:induction false} NoDupMeansOnce(s: seq<Id>, x: Id)
    requires NoDup(s)
    ensures multiset(s)[x] <= 1
  {
    if s != [] {
      var init, last := s[..|s| - 1], s[|s| - 1];
      assert s == init + [last];
      NoDupMeansOnce(init, x);
      if x == last {
        assert last !in init;
      }
    }
  }

  lemma QueuedOnce(adj: Adjacency, s: Traversal)
    requires WellFormed(adj) && Fits(adj, s) && Closed(adj, s) && VisitsOnce(Run(adj, s).visits)
    ensures NoDup(Ids(s.visits) + s.queue)
  {
    QueuedIsVisited(adj, s);
    forall x
      ensures multiset(Ids(s.visits) + s.queue)[x] <= 1
    {
      NoDupMeansOnce(Ids(Run(adj, s).visits), x);
    }
    OnceMeansNoDup(Ids(s.visits) + s.queue);
  }

  /** The edge is the one by which one of its ends was queued from the other. */
  predicate Known(root: Id, up: map<Id, Id>, x: Id, y: Id) {
    x in up && y in up && ((x != root && up[x] == y) || (y != root && up[y] == x))
  }

  predicate HungFrom(adj: Adjacency, flagged: set<Id>, d: map<Id, nat>, up: map<Id, Id>, x: Id)
    requires x in adj
  {
    x in up && x in d && up[x] in d && up[x] in flagged && up[x] in adj[x] && d[x] == d[up[x]] + 1
  }

  /** What is reached so far hangs from the root by the node it was queued from. */
  ghost predicate Hanging(adj: Adjacency, root: Id, d: map<Id, nat>, up: map<Id, Id>, s: Traversal) {
    && Fits(adj, s) && d.Keys == up.Keys && up.Keys <= adj.Keys
    && (forall x :: x in up <==> x in s.flagged || x in s.queue)
    && root in d && d[root] == 0
    && (forall x :: x in up && x != root ==> HungFrom(adj, s.flagged, d, up, x))
    && (forall x, y :: x in s.flagged && y in adj[x] ==> Known(root, up, x, y))
  }

  /** The nodes queued by a turn hang from its node. */
  ghost function MoreDepths(d: map<Id, nat>, open: seq<Id>, x: Id): (more: map<Id, nat>)
    requires x in d
    ensures forall y :: y in more <==> y in d || y in open
    ensures forall y :: y in more ==> more[y] == if y in open then d[x] + 1 else d[y]
  {
    d + map y | y in open :: d[x] + 1
  }

  ghost function MoreUps(up: map<Id, Id>, open: seq<Id>, x: Id): (more: map<Id, Id>)
    ensures forall y :: y in more <==> y in up || y in open
    ensures forall y :: y in more ==> more[y] == if y in open then x else up[y]
  {
    up + map y | y in open :: x
  }

  lemma StepKeepsKnown(adj: Adjacency, root: Id, d: map<Id, nat>, up: map<Id, Id>, s: Traversal, a: Id, b: Id)
    requires Undirected(adj) && NoLoops(adj) && Hanging(adj, root, d, up, s) && s.queue != []
      && s.queue[0] !in s.flagged
    requires forall y :: y in Unflagged(adj[s.queue[0]], s.flagged + {s.queue[0]}) ==> y !in up
    requires a in Step(adj, s).flagged && b in adj[a]
    ensures var x := s.queue[0]; Known(root, MoreUps(up, Unflagged(adj[x], s.flagged + {x}), x), a, b)
  {
    var x := s.queue[0];
    assert x in s.queue;
    if a in s.flagged {
      assert Known(root, up, a, b);
    } else if b in s.flagged {
      assert Known(root, up, b, a);
    }
  }

  lemma StepKeepsHung(adj: Adjacency, root: Id, d: map<Id, nat>, up: map<Id, Id>, s: Traversal, y: Id)
    requires Undirected(adj) && Hanging(adj, root, d, up, s) && s.queue != []
    requires forall y :: y in Unflagged(adj[s.queue[0]], s.flagged + {s.queue[0]}) ==> y !in up
    requires y != root && (y in up || y in Unflagged(adj[s.queue[0]], s.flagged + {s.queue[0]}))
    ensures var x := s.queue[0]; var open := Unflagged(adj[x], s.flagged + {x});
      x in d && y in adj && HungFrom(adj, s.flagged + {x}, MoreDepths(d, open, x), MoreUps(up, open, x), y)
  {
    assert s.queue[0] in s.queue;
    assert y in up ==> HungFrom(adj, s.flagged, d, up, y);
  }

  lemma TurnReaches(adj: Adjacency, s: Traversal, y: Id)
    requires WellFormed(adj) && Fits(adj, s) && s.queue != []
    ensures var t := Step(adj, s); var x := s.queue[0];
      y in t.flagged || y in t.queue <==> y in s.flagged || y in s.queue || y in Unflagged(adj[x], s.flagged + {x})
  {
    assert s.queue == [s.queue[0]] + s.queue[1..];
  }

  lemma StepKeepsHanging(adj: Adjacency, root: Id, d: map<Id, nat>, up: map<Id, Id>, s: Traversal)
    requires Undirected(adj) && NoLoops(adj) && Hanging(adj, root, d, up, s) && s.queue != []
      && s.queue[0] !in s.flagged
    requires forall y :: y in Unflagged(adj[s.queue[0]], s.flagged + {s.queue[0]}) ==> y !in up
    ensures var x := s.queue[0]; var open := Unflagged(adj[x], s.flagged + {x});
      x in d && Hanging(adj, root, MoreDepths(d, open, x), MoreUps(up, open, x), Step(adj, s))
  {
    var x, t := s.queue[0], Step(adj, s);
    assert x in s.queue;
    var open := Unflagged(adj[x], t.flagged);
    var d', up' := MoreDepths(d, open, x), MoreUps(up, open, x);
    forall y
      ensures y in up' <==> y in t.flagged || y in t.queue
      ensures y in up' && y != root ==> y in adj && HungFrom(adj, t.flagged, d', up', y)
    {
      TurnReaches(adj, s, y);
      if y in up' && y != root {
        StepKeepsHung(adj, root, d, up, s, y);
      }
    }
    forall a, b | a in t.flagged && b in adj[a]
      ensures Known(root, up', a, b)
    {
      StepKeepsKnown(adj, root, d, up, s, a, b);
    }
    Hung(adj, root, d', up', t);
  }

  lemma Hung(adj: Adjacency, root: Id, d: map<Id, nat>, up: map<Id, Id>, s: Traversal)
    requires Fits(adj, s) && d.Keys == up.Keys && root in d && d[root] == 0
    requires forall x :: x in up <==> x in s.flagged || x in s.queue
    requires forall x :: x in up && x != root ==> x in adj && HungFrom(adj, s.flagged, d, up, x)
    requires forall x, y :: x in s.flagged && y in adj[x] ==> Known(root, up, x, y)
    ensures Hanging(adj, root, d, up, s)
  {
  }

  lemma {:induction false} OnceHangs(adj: Adjacency, root: Id, d: map<Id, nat>, up: map<Id, Id>, s: Traversal)
    returns (d': map<Id, nat>, up': map<Id, Id>)
    requires Undirected(adj) && NoLoops(adj)
    requires Hanging(adj, root, d, up, s) && Closed(adj, s) && VisitedIds(s.visits) == s.flagged
    requires VisitsOnce(Run(adj, s).visits)
    ensures Hanging(adj, root, d', up', Run(adj, s))
    decreases |adj.Keys - s.flagged|, Stale(s.queue, s.flagged)
  {
    if s.queue == [] {
      d', up' := d, up;
    } else {
      var x, t := s.queue[0], Step(adj, s);
      var open := Unflagged(adj[x], t.flagged);
      StepKeepsClosed(adj, s);
      StepIsCloser(adj, s);
      NewInQueue(adj, s);
      StepKeepsHanging(adj, root, d, up, s);
      VisitedMore(s.visits, Visit(x, s.depth[x]));
      d', up' := OnceHangs(adj, root, MoreDepths(d, open, x), MoreUps(up, open, x), t);
    }
  }

  /** When nothing is visited twice, a turn queues only nodes that were not queued yet. */
  lemma NewInQueue(adj: Adjacency, s: Traversal)
    requires WellFormed(adj) && Fits(adj, s) && Closed(adj, s) && s.queue != [] && VisitedIds(s.visits) == s.flagged
    requires VisitsOnce(Run(adj, s).visits)
    ensures s.queue[0] !in s.flagged
    ensures forall y :: y in Unflagged(adj[s.queue[0]], s.flagged + {s.queue[0]}) ==> y !in s.flagged && y !in s.queue
  {
    var x, t := s.queue[0], Step(adj, s);
    StepKeepsClosed(adj, s);
    QueuedOnce(adj, s);
    SplitNoDup(Ids(s.visits), s.queue);
    assert x in Range(s.queue);
    if x in s.flagged {
      VisitedIsListed(s.visits, x);
    }
    QueuedOnce(adj, t);
    var open := Unflagged(adj[x], t.flagged);
    SplitNoDup(Ids(t.visits), s.queue[1..] + open);
    SplitNoDup(s.queue[1..], open);
    assert s.queue == [x] + s.queue[1..];
    assert forall y :: y in open ==> y in Range(open) && y !in Range(s.queue[1..]);
  }

  lemma VisitedIsListed(visits: seq<Visit>, x: Id)
    requires x in VisitedIds(visits)
    ensures x in Range(Ids(visits))
  {
    var v :| v in visits && v.id == x;
    var i :| 0 <= i < |visits| && visits[i] == v;
    assert Ids(visits)[i] == x;
  }

  /** What hangs when the queue is empty is a tree. */
  lemma HangingIsTree(adj: Adjacency, root: Id, d: map<Id, nat>, up: map<Id, Id>, t: Traversal)
    requires Undirected(adj) && root in adj && Hanging(adj, root, d, up, t) && t.queue == [] && t.flagged == adj.Keys
    ensures CanHang(adj, root)
  {
    forall x | x in adj && x != root
      ensures Hangs(adj, d, up, x)
    {
      assert HungFrom(adj, t.flagged, d, up, x);
    }
    forall x, y | x in adj && y in adj[x]
      ensures x in adj[y] && ((x != root && up[x] == y) || (y != root && up[y] == x))
    {
      assert Known(root, up, x, y);
    }
    assert Rooted(adj, root, d, up);
  }

  lemma OnceIsTree(adj: Adjacency, depth: map<Id, int>, root: Id)
    requires Undirected(adj) && NoLoops(adj) && root in adj && depth.Keys == adj.Keys
    requires Traverse(adj, depth, root).flagged == adj.Keys && VisitsOnce(Traverse(adj, depth, root).visits)
    ensures CanHang(adj, root)
  {
    var s := Start(depth, root);
    assert Hanging(adj, root, map[root := 0], map[root := root], s);
    var d, up := OnceHangs(adj, root, map[root := 0], map[root := root], s);
    HangingIsTree(adj, root, d, up, Traverse(adj, depth, root));
  }

  lemma TreeIsOnce(adj: Adjacency, depth: map<Id, int>, root: Id)
    requires WellFormed(adj) && root in adj && depth.Keys == adj.Keys && CanHang(adj, root)
    ensures VisitsOnce(Traverse(adj, depth, root).visits)
  {
    var d, up :| Rooted(adj, root, d, up);
    StartOfTree(adj, depth, root, d, up);
    RunKeepsTree(adj, root, d, up, depth[root], Start(depth, root));
  }

  /** Main result on visits: on every graph, no node is visited twice exactly when the
      nodes connected to the root form a tree. */
  lemma VisitsOnceOnTrees(adj: Adjacency, depth: map<Id, int>, root: Id)
    requires Undirected(adj) && root in adj && depth.Keys == adj.Keys
    ensures VisitsOnce(Traverse(adj, depth, root).visits) <==> CanHang(Component(adj, root), root)
  {
    ComponentIsUndirected(adj, root);
    ComponentIsPart(adj, root);
    TraverseWithin(adj, depth, root);
    FlaggedIsConnected(adj, depth, root);
    var part := Component(adj, root);
    if CanHang(part, root) {
      TreeIsOnce(part, Restricted(depth, part), root);
    }
    if VisitsOnce(Traverse(adj, depth, root).visits) {
      OnceIsTree(part, Restricted(depth, part), root);
    }
  }

  // ---------------------------------------------------------------- distances

  lemma {:induction false} ShortestWalk(adj: Adjacency, root: Id, x: Id, walk: seq<Id>)
    requires IsWalk(adj, walk, root, x)
    ensures exists n: nat :: IsDistance(adj, root, x, n)
    decreases |walk|
  {
    if shorter :| IsWalk(adj, shorter, root, x) && |shorter| < |walk| {
      ShortestWalk(adj, root, x, shorter);
    } else {
      assert IsDistance(adj, root, x, |walk| - 1);
    }
  }

  /** The distance of every node connected to the root. */
  ghost predicate Distances(adj: Adjacency, root: Id, dist: map<Id, nat>) {
    && dist.Keys <= adj.Keys
    && (forall x :: x in adj ==> (x in dist <==> Connected(adj, root, x)))
    && (forall x :: x in dist ==> IsDistance(adj, root, x, dist[x]))
  }

  ghost function Distance(adj: Adjacency, root: Id, x: Id): (n: nat)
    requires Connected(adj, root, x)
    ensures IsDistance(adj, root, x, n)
  {
    var walk :| IsWalk(adj, walk, root, x);
    ShortestWalk(adj, root, x, walk);
    var n: nat :| IsDistance(adj, root, x, n);
    n
  }

  lemma DistancesExist(adj: Adjacency, root: Id) returns (dist: map<Id, nat>)
    ensures Distances(adj, root, dist)
  {
    dist := map x | x in adj && Connected(adj, root, x) :: Distance(adj, root, x);
  }

  lemma OneDistance(adj: Adjacency, root: Id, x: Id, m: nat, n: nat)
    requires IsDistance(adj, root, x, m) && IsDistance(adj, root, x, n)
    ensures m == n
  {
    var a :| IsWalk(adj, a, root, x) && |a| == m + 1;
    var b :| IsWalk(adj, b, root, x) && |b| == n + 1;
  }

  /** The numbers are levels: the root is at 0, neighbours differ by at most one, and every
      other node has a neighbour one level up. */
  ghost predicate Levels(adj: Adjacency, root: Id, level: map<Id, nat>) {
    && level.Keys <= adj.Keys && root in level && level[root] == 0
    && (forall x :: x in level ==> OneDown(adj, level, x))
    && (forall x :: x in level && x != root ==> HasParent(adj, level, x))
  }

  ghost predicate OneDown(adj: Adjacency, level: map<Id, nat>, x: Id)
    requires level.Keys <= adj.Keys && x in level
  {
    forall y :: y in adj[x] ==> y in level && level[y] <= level[x] + 1
  }

  ghost predicate HasParent(adj: Adjacency, level: map<Id, nat>, x: Id)
    requires level.Keys <= adj.Keys && x in level
  {
    exists p :: p in level && x in adj[p] && level[x] == level[p] + 1
  }

  lemma NeighbourDistance(adj: Adjacency, root: Id, dist: map<Id, nat>, x: Id, y: Id)
    requires WellFormed(adj) && Distances(adj, root, dist) && x in dist && y in adj[x]
    ensures y in dist && dist[y] <= dist[x] + 1
  {
    Onward(adj, root, x, y);
    var walk :| IsWalk(adj, walk, root, x) && |walk| == dist[x] + 1;
    assert IsWalk(adj, walk + [y], root, y);
  }

  lemma ParentByDistance(adj: Adjacency, root: Id, dist: map<Id, nat>, x: Id)
    requires WellFormed(adj) && Distances(adj, root, dist) && x in dist && x != root
    ensures HasParent(adj, dist, x)
  {
    var walk :| IsWalk(adj, walk, root, x) && |walk| == dist[x] + 1;
    var init := walk[..|walk| - 1];
    var p := init[|init| - 1];
    assert IsWalk(adj, init, root, p);
    assert walk[|walk| - 2 + 1] in adj[walk[|walk| - 2]];
    NeighbourDistance(adj, root, dist, p, x);
  }

  lemma RootAtZero(adj: Adjacency, root: Id, dist: map<Id, nat>)
    requires root in adj && Distances(adj, root, dist)
    ensures root in dist && dist[root] == 0
  {
    RootIsConnected(adj, root);
    assert IsWalk(adj, [root], root, root);
  }

  lemma NeighboursByDistance(adj: Adjacency, root: Id, dist: map<Id, nat>, x: Id)
    requires WellFormed(adj) && Distances(adj, root, dist) && x in dist
    ensures OneDown(adj, dist, x)
  {
    forall y | y in adj[x]
      ensures y in dist && dist[y] <= dist[x] + 1
    {
      NeighbourDistance(adj, root, dist, x, y);
    }
  }

  lemma DistancesAreLevels(adj: Adjacency, root: Id, dist: map<Id, nat>)
    requires WellFormed(adj) && root in adj && Distances(adj, root, dist)
    ensures Levels(adj, root, dist)
  {
    RootAtZero(adj, root, dist);
    forall x | x in dist
      ensures OneDown(adj, dist, x) && (x != root ==> HasParent(adj, dist, x))
    {
      NeighboursByDistance(adj, root, dist, x);
      if x != root {
        ParentByDistance(adj, root, dist, x);
      }
    }
  }

  // ---------------------------------------------------------------- level by level

  /** The depths set so far are the levels. */
  ghost predicate SetByLevel(level: map<Id, nat>, base: int, s: Traversal) {
    forall x :: x in s.flagged || x in s.queue ==> x in level && x in s.depth && s.depth[x] == base + level[x]
  }

  /** The rest of a level, and then some of the next. */
  ghost predicate InOrder(level: map<Id, nat>, queue: seq<Id>) {
    && (forall x :: x in queue ==> x in level)
    && (forall i, j :: 0 <= i <= j < |queue| ==> level[queue[i]] <= level[queue[j]] <= level[queue[0]] + 1)
  }

  /** All levels before that of the queue are flagged. */
  ghost predicate DoneBefore(level: map<Id, nat>, queue: seq<Id>, flagged: set<Id>) {
    queue != [] && queue[0] in level ==> forall x :: x in level && level[x] < level[queue[0]] ==> x in flagged
  }

  ghost predicate ByLevel(adj: Adjacency, level: map<Id, nat>, base: int, s: Traversal) {
    && Fits(adj, s) && level.Keys <= adj.Keys
    && SetByLevel(level, base, s) && InOrder(level, s.queue) && DoneBefore(level, s.queue, s.flagged)
  }

  /** No neighbour is at the same level. */
  predicate Slanted(adj: Adjacency, level: map<Id, nat>, x: Id)
    requires x in adj
  {
    forall y :: y in adj[x] && y != x && y in level && x in level ==> level[y] != level[x]
  }

  lemma OpenIsBelow(adj: Adjacency, root: Id, level: map<Id, nat>, base: int, s: Traversal, y: Id)
    requires Undirected(adj) && Levels(adj, root, level) && ByLevel(adj, level, base, s) && s.queue != []
    requires s.queue[0] in level && Slanted(adj, level, s.queue[0])
    requires y in Unflagged(adj[s.queue[0]], s.flagged + {s.queue[0]})
    ensures y in level && level[y] == level[s.queue[0]] + 1
  {
    var x := s.queue[0];
    assert OneDown(adj, level, x);
    assert x in adj[y] && OneDown(adj, level, y);
  }

  lemma QueueInOrder(level: map<Id, nat>, queue: seq<Id>, open: seq<Id>)
    requires queue != [] && InOrder(level, queue)
    requires forall y :: y in open ==> y in level && level[y] == level[queue[0]] + 1
    ensures InOrder(level, queue[1..] + open)
    ensures forall x :: x in queue[1..] + open ==> level[queue[0]] <= level[x] <= level[queue[0]] + 1
  {
    var more := queue[1..] + open;
    forall i | 0 <= i < |more|
      ensures more[i] in level && level[queue[0]] <= level[more[i]] <= level[queue[0]] + 1
      ensures i >= |queue| - 1 ==> level[more[i]] == level[queue[0]] + 1
    {
      if i < |queue| - 1 {
        assert more[i] == queue[i + 1];
        assert queue[i + 1] in queue;
      } else {
        assert more[i] in open;
      }
    }
    forall i, j | 0 <= i <= j < |more|
      ensures level[more[i]] <= level[more[j]]
    {
      if j < |queue| - 1 {
        assert more[i] == queue[i + 1] && more[j] == queue[j + 1];
      }
    }
  }

  lemma NotQueuedBefore(level: map<Id, nat>, queue: seq<Id>, z: Id)
    requires queue != [] && InOrder(level, queue) && z in level && queue[0] in level && level[z] < level[queue[0]]
    ensures z !in queue
  {
    assert forall i :: 0 <= i < |queue| ==> level[queue[0]] <= level[queue[i]];
  }

  /** When the turn of the next level comes, this one is flagged. */
  lemma LevelDone(adj: Adjacency, root: Id, level: map<Id, nat>, base: int, s: Traversal, t: Traversal, z: Id)
    requires Undirected(adj) && Levels(adj, root, level) && ByLevel(adj, level, base, s) && s.queue != []
    requires Fits(adj, t) && Closed(adj, t) && InOrder(level, t.queue) && t.queue != []
    requires s.flagged <= t.flagged && (root in t.flagged || root in t.queue)
    requires s.queue[0] in level && t.queue[0] in level && level[t.queue[0]] <= level[s.queue[0]] + 1
    requires z in level && level[z] < level[t.queue[0]]
    ensures z in t.flagged
  {
    NotQueuedBefore(level, t.queue, z);
    if z !in s.flagged && z != root {
      assert HasParent(adj, level, z);
      var p :| p in level && z in adj[p] && level[z] == level[p] + 1;
      assert p in s.flagged;
      assert z in t.flagged || z in t.queue;
    }
  }

  lemma DepthsByLevel(adj: Adjacency, level: map<Id, nat>, base: int, s: Traversal)
    requires WellFormed(adj) && ByLevel(adj, level, base, s) && s.queue != [] && s.queue[0] in level
    requires forall y :: y in Unflagged(adj[s.queue[0]], s.flagged + {s.queue[0]})
               ==> y in level && level[y] == level[s.queue[0]] + 1
    ensures SetByLevel(level, base, Step(adj, s))
  {
    var t := Step(adj, s);
    assert s.queue[0] in s.queue;
    forall y | y in t.flagged || y in t.queue
      ensures y in level && y in t.depth && t.depth[y] == base + level[y]
    {
      TurnReaches(adj, s, y);
    }
  }

  lemma StepByLevel(adj: Adjacency, root: Id, level: map<Id, nat>, base: int, s: Traversal)
    requires Undirected(adj) && Levels(adj, root, level) && ByLevel(adj, level, base, s) && s.queue != []
    requires Closed(adj, s) && (root in s.flagged || root in s.queue)
    requires s.queue[0] in level && Slanted(adj, level, s.queue[0])
    ensures ByLevel(adj, level, base, Step(adj, s))
    ensures root in Step(adj, s).flagged || root in Step(adj, s).queue
  {
    var t := Step(adj, s);
    var open := Unflagged(adj[s.queue[0]], t.flagged);
    forall y | y in open
      ensures y in level && level[y] == level[s.queue[0]] + 1
    {
      OpenIsBelow(adj, root, level, base, s, y);
    }
    DepthsByLevel(adj, level, base, s);
    QueueInOrder(level, s.queue, open);
    StepKeepsClosed(adj, s);
    TurnReaches(adj, s, root);
    if t.queue != [] {
      assert t.queue[0] in t.queue;
      forall z | z in level && level[z] < level[t.queue[0]]
        ensures z in t.flagged
      {
        LevelDone(adj, root, level, base, s, t, z);
      }
    }
  }

  lemma {:induction false} RunByLevel(adj: Adjacency, root: Id, level: map<Id, nat>, base: int, s: Traversal)
    requires Undirected(adj) && Levels(adj, root, level) && ByLevel(adj, level, base, s)
    requires Closed(adj, s) && (root in s.flagged || root in s.queue)
    requires forall x :: x in level ==> Slanted(adj, level, x)
    ensures ByLevel(adj, level, base, Run(adj, s))
    decreases |adj.Keys - s.flagged|, Stale(s.queue, s.flagged)
  {
    if s.queue != [] {
      StepKeepsClosed(adj, s);
      StepIsCloser(adj, s);
      assert s.queue[0] in s.queue;
      StepByLevel(adj, root, level, base, s);
      RunByLevel(adj, root, level, base, Step(adj, s));
    }
  }

  // ---------------------------------------------------------------- edges within a level

  /** One of two neighbours has got, or is about to get, a depth above the one both are
      queued with. */
  predicate Doomed(s: Traversal, u: Id, v: Id, least: int)
    requires u in s.depth && v in s.depth
  {
    || (u in s.queue && v in s.queue && u !in s.flagged && v !in s.flagged)
    || s.depth[u] > least || s.depth[v] > least
  }

  lemma StepKeepsDoomed(adj: Adjacency, s: Traversal, u: Id, v: Id, least: int)
    requires Undirected(adj) && Fits(adj, s) && s.queue != [] && u in adj && v in adj[u] && u != v
    requires (forall z :: z in s.queue ==> s.depth[z] >= least) && Doomed(s, u, v, least)
    ensures var t := Step(adj, s); (forall z :: z in t.queue ==> t.depth[z] >= least) && Doomed(t, u, v, least)
  {
    var x := s.queue[0];
    assert s.queue == [x] + s.queue[1..];
    assert x in s.queue;
  }

  lemma {:induction false} RunKeepsDoomed(adj: Adjacency, s: Traversal, u: Id, v: Id, least: int)
    requires Undirected(adj) && Fits(adj, s) && Closed(adj, s) && u in adj && v in adj[u] && u != v
    requires (forall z :: z in s.queue ==> s.depth[z] >= least) && Doomed(s, u, v, least)
    ensures Run(adj, s).depth[u] > least || Run(adj, s).depth[v] > least
    decreases |adj.Keys - s.flagged|, Stale(s.queue, s.flagged)
  {
    if s.queue != [] {
      StepKeepsClosed(adj, s);
      StepIsCloser(adj, s);
      StepKeepsDoomed(adj, s, u, v, least);
      RunKeepsDoomed(adj, Step(adj, s), u, v, least);
    }
  }

  /** Up to level `k` no edge stays within a level; the edge from `u` to `v` does at `k`. */
  ghost predicate FirstFlat(adj: Adjacency, level: map<Id, nat>, u: Id, v: Id, k: nat) {
    && u in level && v in level && u in adj && v in adj[u] && u != v && level[u] == level[v] == k
    && forall x :: x in level && x in adj && level[x] < k ==> Slanted(adj, level, x)
  }

  /** A node one level below flagged ones is in the queue. */
  lemma NextIsQueued(adj: Adjacency, root: Id, level: map<Id, nat>, base: int, s: Traversal, z: Id)
    requires Undirected(adj) && Levels(adj, root, level) && ByLevel(adj, level, base, s) && Closed(adj, s)
    requires s.queue != [] && z in level && z != root && z !in s.flagged && level[z] <= level[s.queue[0]]
    ensures z in s.queue
  {
    assert HasParent(adj, level, z);
    var p :| p in level && z in adj[p] && level[z] == level[p] + 1;
    assert p in s.flagged;
  }

  /** When level `k` comes up both ends of the edge are queued for it. */
  lemma FlatIsDoomed(adj: Adjacency, root: Id, level: map<Id, nat>, base: int, s: Traversal, u: Id, v: Id, k: nat)
    requires Undirected(adj) && Levels(adj, root, level) && ByLevel(adj, level, base, s) && Closed(adj, s)
    requires FirstFlat(adj, level, u, v, k) && (forall x :: x in s.flagged ==> level[x] < k)
    requires s.queue != [] && level[s.queue[0]] >= k && k > 0
    ensures (forall z :: z in s.queue ==> s.depth[z] >= base + k) && Doomed(s, u, v, base + k)
  {
    forall z | z in s.queue
      ensures s.depth[z] >= base + k
    {
      var i :| 0 <= i < |s.queue| && s.queue[i] == z;
      assert level[s.queue[0]] <= level[s.queue[i]];
    }
    NextIsQueued(adj, root, level, base, s, u);
    NextIsQueued(adj, root, level, base, s, v);
  }

  lemma {:induction false} RunIsTooDeep(adj: Adjacency, root: Id, level: map<Id, nat>, base: int, s: Traversal,
                                        u: Id, v: Id, k: nat)
    requires Undirected(adj) && Levels(adj, root, level) && ByLevel(adj, level, base, s)
    requires Closed(adj, s) && (root in s.flagged || root in s.queue)
    requires FirstFlat(adj, level, u, v, k) && (forall x :: x in s.flagged ==> level[x] < k)
    requires k > 0 && u in Run(adj, s).flagged
    ensures Run(adj, s).depth[u] > base + k || Run(adj, s).depth[v] > base + k
    decreases |adj.Keys - s.flagged|, Stale(s.queue, s.flagged)
  {
    if s.queue != [] {
      if level[s.queue[0]] >= k {
        FlatIsDoomed(adj, root, level, base, s, u, v, k);
        RunKeepsDoomed(adj, s, u, v, base + k);
      } else {
        StepKeepsClosed(adj, s);
        StepIsCloser(adj, s);
        assert s.queue[0] in s.queue;
        StepByLevel(adj, root, level, base, s);
        RunIsTooDeep(adj, root, level, base, Step(adj, s), u, v, k);
      }
    }
  }

  lemma {:induction false} FindFirstFlat(adj: Adjacency, level: map<Id, nat>, u: Id, v: Id) returns (a: Id, b: Id)
    requires level.Keys <= adj.Keys
    requires u in level && v in level && v in adj[u] && u != v && level[u] == level[v]
    ensures a in level && FirstFlat(adj, level, a, b, level[a])
    decreases level[u]
  {
    if x :| x in level && level[x] < level[u] && !Slanted(adj, level, x) {
      var y :| y in adj[x] && y != x && y in level && level[y] == level[x];
      a, b := FindFirstFlat(adj, level, x, y);
    } else {
      a, b := u, v;
    }
  }

  // ---------------------------------------------------------------- the exact condition

  /** Two different neighbours are equally far from the root. */
  ghost predicate FlatEdge(adj: Adjacency, root: Id) {
    exists u, v, n: nat :: IsFlat(adj, root, u, v, n)
  }

  ghost predicate IsFlat(adj: Adjacency, root: Id, u: Id, v: Id, n: nat) {
    u in adj && v in adj[u] && u != v && IsDistance(adj, root, u, n) && IsDistance(adj, root, v, n)
  }

  /** The depth of every node connected to the root is its distance, above that of the root. */
  ghost predicate DepthsAreDistances(adj: Adjacency, root: Id, base: int, depth: map<Id, int>) {
    forall x, n: nat :: x in depth && IsDistance(adj, root, x, n) ==> depth[x] == base + n
  }

  lemma StartByLevel(adj: Adjacency, depth: map<Id, int>, root: Id, level: map<Id, nat>)
    requires depth.Keys == adj.Keys && Levels(adj, root, level)
    ensures ByLevel(adj, level, depth[root], Start(depth, root))
  {
  }

  lemma FinishedByLevel(adj: Adjacency, root: Id, dist: map<Id, nat>, base: int, t: Traversal)
    requires Distances(adj, root, dist) && ByLevel(adj, dist, base, t) && t.flagged == Component(adj, root).Keys
    ensures DepthsAreDistances(adj, root, base, t.depth)
  {
    forall x, n: nat | x in t.depth && IsDistance(adj, root, x, n)
      ensures t.depth[x] == base + n
    {
      assert Connected(adj, root, x);
      OneDistance(adj, root, x, n, dist[x]);
    }
  }

  lemma SlantedGivesDistances(adj: Adjacency, depth: map<Id, int>, root: Id, dist: map<Id, nat>)
    requires Undirected(adj) && root in adj && depth.Keys == adj.Keys && Distances(adj, root, dist)
    requires forall x :: x in dist ==> Slanted(adj, dist, x)
    ensures DepthsAreDistances(adj, root, depth[root], Traverse(adj, depth, root).depth)
  {
    DistancesAreLevels(adj, root, dist);
    StartByLevel(adj, depth, root, dist);
    RunByLevel(adj, root, dist, depth[root], Start(depth, root));
    FlaggedIsConnected(adj, depth, root);
    FinishedByLevel(adj, root, dist, depth[root], Traverse(adj, depth, root));
  }

  lemma FlatSpoilsDistances(adj: Adjacency, depth: map<Id, int>, root: Id, dist: map<Id, nat>, u: Id, v: Id)
    requires Undirected(adj) && root in adj && depth.Keys == adj.Keys && Distances(adj, root, dist)
    requires u in dist && v in dist && v in adj[u] && u != v && dist[u] == dist[v]
    ensures !DepthsAreDistances(adj, root, depth[root], Traverse(adj, depth, root).depth)
  {
    DistancesAreLevels(adj, root, dist);
    StartByLevel(adj, depth, root, dist);
    var a, b := FindFirstFlat(adj, dist, u, v);
    FlaggedIsConnected(adj, depth, root);
    FlatIsBelowRoot(adj, root, dist, a, b);
    RunIsTooDeep(adj, root, dist, depth[root], Start(depth, root), a, b, dist[a]);
  }

  lemma FlatIsBelowRoot(adj: Adjacency, root: Id, level: map<Id, nat>, u: Id, v: Id)
    requires Levels(adj, root, level) && u in level && v in level && u != v && level[u] == level[v]
    ensures level[u] > 0
  {
    assert u != root ==> HasParent(adj, level, u);
    assert v != root ==> HasParent(adj, level, v);
  }

  /** Main result on depths: on every graph, the depths are the distances from the root
      exactly when no two neighbours are equally far from it. */
  lemma DepthsAreDistancesUnlessFlat(adj: Adjacency, depth: map<Id, int>, root: Id)
    requires Undirected(adj) && root in adj && depth.Keys == adj.Keys
    ensures DepthsAreDistances(adj, root, depth[root], Traverse(adj, depth, root).depth) <==> !FlatEdge(adj, root)
  {
    var dist := DistancesExist(adj, root);
    if FlatEdge(adj, root) {
      var u, v, n: nat :| IsFlat(adj, root, u, v, n);
      assert Connected(adj, root, u) && Connected(adj, root, v);
      OneDistance(adj, root, u, n, dist[u]);
      OneDistance(adj, root, v, n, dist[v]);
      FlatSpoilsDistances(adj, depth, root, dist, u, v);
    } else {
      forall x | x in dist
        ensures Slanted(adj, dist, x)
      {
        forall y | y in adj[x] && y != x && y in dist
          ensures dist[y] != dist[x]
        {
          assert !IsFlat(adj, root, x, y, dist[x]);
        }
      }
      SlantedGivesDistances(adj, depth, root, dist);
    }
  }

  // ---------------------------------------------------------------- the graphs that loadTree builds

  /** Both conditions for every tree that is loaded, whether or not its identifiers are
      distinct. */
  lemma TraversalOfAnyLoadedTree(t: Tree, depth: map<Id, int>, root: Id)
    requires root in Loaded(map[], t) && depth.Keys == Loaded(map[], t).Keys
    ensures var adj := Loaded(map[], t);
      && Undirected(adj)
      && (VisitsOnce(Traverse(adj, depth, root).visits) <==> CanHang(Component(adj, root), root))
      && (DepthsAreDistances(adj, root, depth[root], Traverse(adj, depth, root).depth) <==> !FlatEdge(adj, root))
  {
    LoadedIsUndirected(map[], t.id, t.children);
    VisitsOnceOnTrees(Loaded(map[], t), depth, root);
    DepthsAreDistancesUnlessFlat(Loaded(map[], t), depth, root);
  }

  function Triangle(r: Id, a: Id, b: Id): Adjacency {
    map[r := [a, b], a := [r, b], b := [a, r]]
  }

  function Depths3(r: Id, a: Id, b: Id, i: int, j: int): map<Id, int> {
    map[r := 0, a := i, b := j]
  }

  /** A tree in which an identifier occurs twice can be loaded as a triangle. */
  function Repeating(r: Id, a: Id, b: Id): Tree {
    Tree(r, [Tree(a, [Tree(b, [])]), Tree(b, [])])
  }

  lemma LoadedChild(adj: Adjacency, id: Id, child: Tree, others: seq<Tree>)
    ensures LoadedAll(adj, id, [child] + others)
         == LoadedAll(LoadedAll(AddedEdge(adj, id, child.id), child.id, child.children), id, others)
  {
    assert ([child] + others)[1..] == others;
  }

  lemma NewEdge(adj: Adjacency, x: Id, y: Id)
    requires x in adj && y in adj && x != y && x !in adj[y] && y !in adj[x]
    ensures AddedEdge(adj, x, y) == adj[x := adj[x] + [y]][y := adj[y] + [x]]
  {
  }

  lemma NewLeaf(adj: Adjacency, x: Id, y: Id)
    requires x in adj && y !in adj && y !in adj[x]
    ensures AddedEdge(adj, x, y) == adj[x := adj[x] + [y]][y := [x]]
  {
    assert [] + [x] == [x];
    assert Linked(adj[y := []], x, y) == adj[x := adj[x] + [y]][y := []];
  }

  /** The path that the first branch is loaded as. */
  function Path(r: Id, a: Id, b: Id): Adjacency {
    map[r := [a], a := [r, b], b := [a]]
  }

  lemma PathIsLoaded(r: Id, a: Id, b: Id)
    requires r != a && r != b && a != b
    ensures AddedEdge(AddedEdge(map[r := []], r, a), a, b) == Path(r, a, b)
  {
    NewLeaf(map[r := []], r, a);
    assert [] + [a] == [a] && [r] + [b] == [r, b];
    assert map[r := []][r := [a]][a := [r]] == map[r := [a], a := [r]];
    NewLeaf(map[r := [a], a := [r]], a, b);
    assert map[r := [a], a := [r]][a := [r, b]][b := [a]] == Path(r, a, b);
  }

  lemma LastEdgeIsLoaded(r: Id, a: Id, b: Id)
    requires r != a && r != b && a != b
    ensures AddedEdge(Path(r, a, b), r, b) == Triangle(r, a, b)
  {
    NewEdge(Path(r, a, b), r, b);
    assert [a] + [b] == [a, b] && [a] + [r] == [a, r];
    assert Path(r, a, b)[r := [a, b]][b := [a, r]] == Triangle(r, a, b);
  }

  lemma BranchIsLoaded(adj: Adjacency, r: Id, a: Id, b: Id)
    ensures LoadedAll(adj, r, [Tree(a, [Tree(b, [])]), Tree(b, [])])
         == AddedEdge(AddedEdge(AddedEdge(adj, r, a), a, b), r, b)
  {
    var one := AddedEdge(adj, r, a);
    var two := AddedEdge(one, a, b);
    LoadedChild(adj, r, Tree(a, [Tree(b, [])]), [Tree(b, [])]);
    LoadedChild(one, a, Tree(b, []), []);
    LoadedChild(two, r, Tree(b, []), []);
    assert [Tree(b, [])] + [] == [Tree(b, [])];
    assert [Tree(a, [Tree(b, [])])] + [Tree(b, [])] == [Tree(a, [Tree(b, [])]), Tree(b, [])];
  }

  lemma TriangleIsLoaded(r: Id, a: Id, b: Id)
    requires r != a && r != b && a != b
    ensures Loaded(map[], Repeating(r, a, b)) == Triangle(r, a, b)
  {
    FirstEdge(r, [Tree(a, [Tree(b, [])]), Tree(b, [])]);
    BranchIsLoaded(map[r := []], r, a, b);
    PathIsLoaded(r, a, b);
    LastEdgeIsLoaded(r, a, b);
  }

  /** The failing input: on that graph a node is visited twice, with a depth that is
      not its distance. */
  lemma TriangleVisitsTwice(r: Id, a: Id, b: Id)
    requires r != a && r != b && a != b
    ensures WellFormed(Triangle(r, a, b))
    ensures Traverse(Triangle(r, a, b), Depths3(r, a, b, 0, 0), r).visits
      == [Visit(r, 0), Visit(a, 1), Visit(b, 2), Visit(b, 2)]
    ensures IsDistance(Triangle(r, a, b), r, b, 1)
  {
    TriangleStarts(r, a, b);
    TriangleEnds(r, a, b);
    assert IsWalk(Triangle(r, a, b), [r, b], r, b);
  }

  function Halfway(r: Id, a: Id, b: Id): Traversal {
    Traversal({r, a}, Depths3(r, a, b, 1, 2), [b, b], [Visit(r, 0), Visit(a, 1)])
  }

  function FirstTurn(r: Id, a: Id, b: Id): Traversal {
    Traversal({r}, Depths3(r, a, b, 1, 1), [a, b], [Visit(r, 0)])
  }

  lemma TriangleFirst(r: Id, a: Id, b: Id)
    requires r != a && r != b && a != b
    ensures var adj := Triangle(r, a, b);
      && WellFormed(adj) && Fits(adj, FirstTurn(r, a, b)) && Closed(adj, FirstTurn(r, a, b))
      && Traverse(adj, Depths3(r, a, b, 0, 0), r) == Run(adj, FirstTurn(r, a, b))
  {
    var adj, s0 := Triangle(r, a, b), Start(Depths3(r, a, b, 0, 0), r);
    UnflaggedPair(a, b, {r});
    assert {} + {r} == {r};
    assert Step(adj, s0).depth == Depths3(r, a, b, 1, 1);
    Turn(adj, s0, FirstTurn(r, a, b));
  }

  lemma TriangleStarts(r: Id, a: Id, b: Id)
    requires r != a && r != b && a != b
    ensures var adj := Triangle(r, a, b);
      && WellFormed(adj) && Fits(adj, Halfway(r, a, b)) && Closed(adj, Halfway(r, a, b))
      && Traverse(adj, Depths3(r, a, b, 0, 0), r) == Run(adj, Halfway(r, a, b))
  {
    TriangleFirst(r, a, b);
    TriangleSecond(r, a, b);
    Turn(Triangle(r, a, b), FirstTurn(r, a, b), Halfway(r, a, b));
  }

  lemma TriangleSecond(r: Id, a: Id, b: Id)
    requires r != a && r != b && a != b && WellFormed(Triangle(r, a, b)) && Fits(Triangle(r, a, b), FirstTurn(r, a, b))
    ensures Step(Triangle(r, a, b), FirstTurn(r, a, b)) == Halfway(r, a, b)
  {
    UnflaggedPair(r, b, {r, a});
    assert {r} + {a} == {r, a};
    assert [a, b][1..] + [b] == [b, b];
    assert Deepened(Depths3(r, a, b, 1, 1), [b], 2) == Depths3(r, a, b, 1, 2);
  }

  lemma TriangleEnds(r: Id, a: Id, b: Id)
    requires r != a && r != b && a != b
    requires WellFormed(Triangle(r, a, b)) && Fits(Triangle(r, a, b), Halfway(r, a, b))
      && Closed(Triangle(r, a, b), Halfway(r, a, b))
    ensures Run(Triangle(r, a, b), Halfway(r, a, b)).visits == [Visit(r, 0), Visit(a, 1), Visit(b, 2), Visit(b, 2)]
  {
    var adj, all, depth := Triangle(r, a, b), {r, a, b}, Depths3(r, a, b, 1, 2);
    var s3 := Traversal(all, depth, [b], [Visit(r, 0), Visit(a, 1), Visit(b, 2)]);
    var s4 := Traversal(all, depth, [], [Visit(r, 0), Visit(a, 1), Visit(b, 2), Visit(b, 2)]);
    UnflaggedPair(a, r, all);
    assert Unflagged(adj[b], all) == [];
    assert Deepened(depth, Unflagged(adj[b], all), 3) == depth;
    assert {r, a} + {b} == all && all + {b} == all;
    assert [b, b][1..] + [] == [b] && [b][1..] + [] == [];
    Turn(adj, Halfway(r, a, b), s3);
    Turn(adj, s3, s4);
  }

  lemma Turn(adj: Adjacency, s: Traversal, t: Traversal)
    requires WellFormed(adj) && Fits(adj, s) && Closed(adj, s) && s.queue != [] && Step(adj, s) == t
    ensures Fits(adj, t) && Closed(adj, t) && Run(adj, s) == Run(adj, t)
  {
    StepKeepsClosed(adj, s);
  }

  lemma UnflaggedPair(x: Id, y: Id, flagged: set<Id>)
    ensures Unflagged([x, y], flagged) == (if x in flagged then [] else [x]) + (if y in flagged then [] else [y])
  {
    assert [x, y][..1] == [x];
    assert [x][..0] == [];
    assert Unflagged([x], flagged) == Unflagged([], flagged) + if x in flagged then [] else [x];
    assert Unflagged([x], flagged) == if x in flagged then [] else [x];
  }
}
