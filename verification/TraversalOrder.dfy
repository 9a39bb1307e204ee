/** The order of traversal and of loading. */
module TraversalOrder {
  // In which order eachBFS visits the nodes, and in which order loadTree lists the
  // neighbours of a node.

  import opened Graph
  import opened BreadthFirst

  // ---------------------------------------------------------------- first come, first visited

  /** Main result on the queue: what is queued is visited next, in the order of the queue. */
  lemma {:induction false} VisitsInQueueOrder(adj: Adjacency, s: Traversal)
    requires WellFormed(adj) && Fits(adj, s) && Closed(adj, s)
    ensures Ids(s.visits) + s.queue <= Ids(Run(adj, s).visits)
    decreases |adj.Keys - s.flagged|, Stale(s.queue, s.flagged)
  {
    if s.queue == [] {
      assert Ids(s.visits) + [] == Ids(s.visits);
    } else {
      StepKeepsClosed(adj, s);
      StepIsCloser(adj, s);
      VisitsInQueueOrder(adj, Step(adj, s));
      var x := s.queue[0];
      IdsMore(s.visits, Visit(x, s.depth[x]));
      HeadMoves(Ids(s.visits), s.queue, Unflagged(adj[x], s.flagged + {x}));
    }
  }

  lemma HeadMoves(ids: seq<Id>, queue: seq<Id>, open: seq<Id>)
    requires queue != []
    ensures ids + queue <= ids + [queue[0]] + (queue[1..] + open)
  {
    assert queue == [queue[0]] + queue[1..];
    assert ids + [queue[0]] + (queue[1..] + open) == ids + queue + open;
  }

  lemma {:induction false} AllUnflagged(ids: seq<Id>, flagged: set<Id>)
    requires forall x :: x in ids ==> x !in flagged
    ensures Unflagged(ids, flagged) == ids
  {
    if ids != [] {
      AllUnflagged(ids[..|ids| - 1], flagged);
      assert ids == ids[..|ids| - 1] + [ids[|ids| - 1]];
    }
  }

  /** The root is visited first, and then its neighbours as they are listed. */
  lemma RootThenNeighbours(adj: Adjacency, depth: map<Id, int>, root: Id)
    requires WellFormed(adj) && depth.Keys == adj.Keys && root in adj && root !in adj[root]
    ensures [root] + adj[root] <= Ids(Traverse(adj, depth, root).visits)
  {
    FirstTurnQueues(adj, depth, root);
    var t := Step(adj, Start(depth, root));
    Turn(adj, Start(depth, root), t);
    VisitsInQueueOrder(adj, t);
  }

  lemma FirstTurnQueues(adj: Adjacency, depth: map<Id, int>, root: Id)
    requires WellFormed(adj) && depth.Keys == adj.Keys && root in adj && root !in adj[root]
    ensures Fits(adj, Start(depth, root)) && Closed(adj, Start(depth, root))
    ensures Ids(Step(adj, Start(depth, root)).visits) == [root] && Step(adj, Start(depth, root)).queue == adj[root]
  {
    var flagged := {} + {root};
    AllUnflagged(adj[root], flagged);
    assert [root][1..] + adj[root] == adj[root];
  }

  // ---------------------------------------------------------------- level by level

  /** The visits go from level to level, and the queue goes on from there. */
  ghost predicate Descending(level: map<Id, nat>, base: int, s: Traversal) {
    && (forall i, j :: 0 <= i < j < |s.visits| ==> s.visits[i].depth <= s.visits[j].depth)
    && (forall i, x :: 0 <= i < |s.visits| && x in s.queue ==> x in level && s.visits[i].depth <= base + level[x])
  }

  lemma StepDescends(adj: Adjacency, root: Id, level: map<Id, nat>, base: int, s: Traversal)
    requires WellFormed(adj) && ByLevel(adj, level, base, s) && s.queue != [] && Descending(level, base, s)
    requires ByLevel(adj, level, base, Step(adj, s))
    ensures Descending(level, base, Step(adj, s))
  {
    var t, x := Step(adj, s), s.queue[0];
    assert x in s.queue && s.depth[x] == base + level[x];
    forall y | y in t.queue
      ensures y in level && level[x] <= level[y]
    {
      QueueBelow(adj, level, base, s, y);
    }
  }

  /** What is queued after a turn is not above the node of the turn. */
  lemma QueueBelow(adj: Adjacency, level: map<Id, nat>, base: int, s: Traversal, y: Id)
    requires WellFormed(adj) && ByLevel(adj, level, base, s) && s.queue != []
    requires ByLevel(adj, level, base, Step(adj, s)) && y in Step(adj, s).queue
    ensures y in level && level[s.queue[0]] <= level[y]
  {
    var x, t := s.queue[0], Step(adj, s);
    var open := Unflagged(adj[x], t.flagged);
    if y in s.queue[1..] {
      var j :| 0 <= j < |s.queue| - 1 && s.queue[1..][j] == y;
      assert s.queue[j + 1] == y;
    } else {
      assert y in open && y in adj[x] && y in adj;
      assert t.depth[y] == s.depth[x] + 1;
      assert x in s.queue;
    }
  }

  lemma {:induction false} RunDescends(adj: Adjacency, root: Id, level: map<Id, nat>, base: int, s: Traversal)
    requires Undirected(adj) && Levels(adj, root, level) && ByLevel(adj, level, base, s) && Descending(level, base, s)
    requires Closed(adj, s) && (root in s.flagged || root in s.queue)
    requires forall x :: x in level ==> Slanted(adj, level, x)
    ensures Descending(level, base, Run(adj, s))
    decreases |adj.Keys - s.flagged|, Stale(s.queue, s.flagged)
  {
    if s.queue != [] {
      StepKeepsClosed(adj, s);
      StepIsCloser(adj, s);
      assert s.queue[0] in s.queue;
      StepByLevel(adj, root, level, base, s);
      StepDescends(adj, root, level, base, s);
      RunDescends(adj, root, level, base, Step(adj, s));
    }
  }

  /** Main result on the order of visits: on every graph in which no two neighbours are equally
      far from the root, trees among them, nearer nodes are visited first. */
  lemma NearerFirst(adj: Adjacency, depth: map<Id, int>, root: Id, i: nat, j: nat)
    requires Undirected(adj) && root in adj && depth.Keys == adj.Keys && !FlatEdge(adj, root)
    ensures var visits := Traverse(adj, depth, root).visits;
      i < j < |visits| ==> visits[i].depth <= visits[j].depth
  {
    var dist := DistancesExist(adj, root);
    DistancesAreLevels(adj, root, dist);
    NoFlatIsSlanted(adj, root, dist);
    StartByLevel(adj, depth, root, dist);
    RunDescends(adj, root, dist, depth[root], Start(depth, root));
  }

  lemma NoFlatIsSlanted(adj: Adjacency, root: Id, dist: map<Id, nat>)
    requires Undirected(adj) && root in adj && Distances(adj, root, dist) && !FlatEdge(adj, root)
    ensures forall x :: x in dist ==> Slanted(adj, dist, x)
  {
    forall x | x in dist
      ensures Slanted(adj, dist, x)
    {
      forall y | y in adj[x] && y != x && y in dist
        ensures dist[y] != dist[x]
      {
        assert !IsFlat(adj, root, x, y, dist[x]);
      }
    }
  }

  // ---------------------------------------------------------------- the order of neighbours

  function Roots(children: seq<Tree>): (ids: seq<Id>)
    ensures |ids| == |children| && forall i :: 0 <= i < |ids| ==> ids[i] == children[i].id
  {
    seq(|children|, i requires 0 <= i < |children| => children[i].id)
  }

  /** What loading below `id` leaves: the children are appended to its list in order, every
      node loaded lists its parent and then its children in order, and the lists of the
      others stay as they were. */
  ghost predicate ListedInOrder(before: Adjacency, after: Adjacency, id: Id, children: seq<Tree>) {
    && id in before && before.Keys <= after.Keys && after[id] == before[id] + Roots(children)
    && (forall x :: x in before && x != id ==> after[x] == before[x])
    && AllListed(after, id, children)
  }

  ghost predicate AllListed(adj: Adjacency, id: Id, children: seq<Tree>)
    decreases children
  {
    children == [] || (
      && children[0].id in adj && adj[children[0].id] == [id] + Roots(children[0].children)
      && AllListed(adj, children[0].id, children[0].children) && AllListed(adj, id, children[1..]))
  }

  /** Lists that stay as they were stay in order. */
  lemma {:induction false} StillListed(before: Adjacency, after: Adjacency, id: Id, children: seq<Tree>)
    requires AllListed(before, id, children)
    requires forall x :: x in Below(children) && x in before ==> x in after && after[x] == before[x]
    ensures AllListed(after, id, children)
    decreases children
  {
    if children != [] {
      var c := children[0];
      var below := Below(children);
      assert below == [c.id] + Below(c.children) + Below(children[1..]);
      assert c.id in below;
      StillListed(before, after, c.id, c.children);
      StillListed(before, after, id, children[1..]);
    }
  }

  /** Main result on loading: below a node of the graph, with new and distinct identifiers,
      the neighbours are listed in the order of the tree. */
  lemma {:induction false} LoadsInOrder(adj: Adjacency, id: Id, children: seq<Tree>)
    requires WellFormed(adj) && id in adj && NoDup(Below(children)) && Range(Below(children)) !! adj.Keys
    ensures ListedInOrder(adj, LoadedAll(adj, id, children), id, children)
    ensures IsGraphOf(LoadedAll(adj, id, children), adj.Keys + Range(Below(children)))
    decreases children
  {
    if children == [] {
      assert adj[id] + Roots(children) == adj[id];
    } else {
      var c, inner, others := children[0], Below(children[0].children), Below(children[1..]);
      SplitBelow(c.id, inner, others, adj.Keys);
      LeafIsListed(adj, id, c.id);
      var next := AddedEdge(adj, id, c.id);
      LoadsInOrder(next, c.id, c.children);
      var loaded := Loaded(next, c);
      LoadsInOrder(loaded, id, children[1..]);
      OneMoreChild(adj, next, loaded, LoadedAll(loaded, id, children[1..]), id, children);
    }
  }

  predicate IsGraphOf(adj: Adjacency, nodes: set<Id>) {
    WellFormed(adj) && adj.Keys == nodes
  }

  lemma LeafIsListed(adj: Adjacency, id: Id, x: Id)
    requires WellFormed(adj) && id in adj && x !in adj
    ensures AddedEdge(adj, id, x) == adj[id := adj[id] + [x]][x := [id]]
    ensures IsGraphOf(AddedEdge(adj, id, x), adj.Keys + {x})
  {
    NewLeaf(adj, id, x);
  }

  lemma OneMoreChild(adj: Adjacency, next: Adjacency, loaded: Adjacency, after: Adjacency, id: Id, children: seq<Tree>)
    requires children != [] && id in adj && children[0].id !in adj
    requires next == adj[id := adj[id] + [children[0].id]][children[0].id := [id]]
    requires ListedInOrder(next, loaded, children[0].id, children[0].children)
    requires ListedInOrder(loaded, after, id, children[1..])
    requires forall x :: x in Below(children[0].children) ==> x !in next && x in loaded
    ensures ListedInOrder(adj, after, id, children)
  {
    var c := children[0];
    assert loaded[id] == next[id] == adj[id] + [c.id];
    assert adj[id] + [c.id] + Roots(children[1..]) == adj[id] + Roots(children);
    StillListed(loaded, after, c.id, c.children);
  }

  /** So it is for a whole tree loaded into an empty graph. */
  lemma LoadedInOrder(t: Tree)
    requires NoDup([t.id] + Below(t.children)) && t.children != []
    ensures var adj := Loaded(map[], t);
      t.id in adj && adj[t.id] == Roots(t.children) && AllListed(adj, t.id, t.children)
  {
    SplitBelow(t.id, Below(t.children), [], {});
    assert [t.id] + Below(t.children) + [] == [t.id] + Below(t.children);
    FirstEdge(t.id, t.children);
    LoadsInOrder(map[t.id := []], t.id, t.children);
    assert [] + Roots(t.children) == Roots(t.children);
  }
}
