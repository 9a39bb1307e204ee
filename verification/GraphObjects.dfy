/** The graph as the program keeps it: node objects found by their identifier, each with
    its flag, its depth and the list of its neighbours; loading a tree and traversing
    the graph change these objects in place. */
module GraphObjects {
  import opened Graph
  import Collections

  class Node {
    const id: Id
    var flag: bool
    var depth: int
    var adjacencies: seq<Id>

    constructor (id: Id)
      ensures this.id == id && adjacencies == []
    {
      this.id := id;
      adjacencies := [];
    }

    method AdjacentTo(other: Id) returns (found: bool)
      ensures found <==> other in adjacencies
    {
      for i := 0 to |adjacencies|
        invariant other !in adjacencies[..i]
      {
        if other == adjacencies[i] {
          return true;
        }
      }
      return false;
    }

    method AddAdjacency(other: Id)
      modifies this`adjacencies
      ensures adjacencies == old(adjacencies) + [other]
    {
      adjacencies := adjacencies + [other];
    }
  }

  class NodeGraph {
    var nodes: map<Id, Node>

    constructor ()
      ensures Valid() && Lists() == map[]
    {
      nodes := map[];
    }

    ghost predicate Valid()
      reads this`nodes, nodes.Values`adjacencies
    {
      Keyed(nodes) && WellFormed(Lists())
    }

    function Lists(): (adj: Adjacency)
      reads this`nodes, nodes.Values`adjacencies
      ensures adj.Keys == nodes.Keys
    {
      map x | x in nodes :: nodes[x].adjacencies
    }

    function Depths(): (depths: map<Id, int>)
      reads this`nodes, nodes.Values`depth
      ensures depths.Keys == nodes.Keys
    {
      map x | x in nodes :: nodes[x].depth
    }

    /** The neighbours and the depth of every node. */
    ghost function Shape(): (Adjacency, map<Id, int>)
      reads this`nodes, nodes.Values`adjacencies, nodes.Values`depth
    {
      (Lists(), Depths())
    }

    function Flagged(): set<Id>
      reads this`nodes, nodes.Values`flag
    {
      set x | x in nodes && nodes[x].flag
    }

    method AddNode(id: Id)
      requires Keyed(nodes)
      modifies this
      ensures Keyed(nodes) && Lists() == AddedNode(old(Lists()), id) && id in nodes
      ensures fresh(nodes.Values - old(nodes.Values))
      ensures forall x :: x in old(nodes) ==> x in nodes && nodes[x] == old(nodes[x])
    {
      if id !in nodes {
        var node := new Node(id);
        nodes := nodes[id := node];
      }
    }

    /** The loop over all nodes in addAdjacence finds the two it is to link. */
    method LinkBoth(x: Id, y: Id)
      requires Keyed(nodes) && x in nodes && y in nodes
      modifies nodes.Values`adjacencies
      ensures Keyed(nodes) && Lists() == Linked(Linked(old(Lists()), x, y), y, x)
    {
      ghost var before := Lists();
      ghost var after := Linked(Linked(before, x, y), y, x);
      var rest := nodes.Keys;
      while rest != {}
        invariant LinkedSoFar(rest, before, after)
        decreases rest
      {
        ghost var any := Collections.Pick(rest);
        var k :| k in rest;
        LinkedBothAt(before, x, y, k);
        LinkNext(k, x, y, rest, before, after);
        rest := rest - {k};
      }
      ListsAre(after);
    }

    /** The nodes in `rest` are still to come. */
    ghost predicate LinkedSoFar(rest: set<Id>, before: Adjacency, after: Adjacency)
      reads this`nodes, nodes.Values`adjacencies
    {
      && rest <= nodes.Keys == before.Keys && after.Keys == before.Keys
      && forall k :: k in nodes ==> nodes[k].adjacencies == if k in rest then before[k] else after[k]
    }

    method LinkNext(k: Id, x: Id, y: Id, ghost rest: set<Id>, ghost before: Adjacency, ghost after: Adjacency)
      requires Keyed(nodes) && k in rest && LinkedSoFar(rest, before, after) && after[k] == WithBoth(before[k], k, x, y)
      modifies nodes.Values`adjacencies
      ensures LinkedSoFar(rest - {k}, before, after)
    {
      LinkNode(nodes[k], x, y);
    }

    lemma ListsAre(adj: Adjacency)
      requires adj.Keys == nodes.Keys && forall k :: k in nodes ==> nodes[k].adjacencies == adj[k]
      ensures Lists() == adj
    {
    }

    method LinkNode(node: Node, x: Id, y: Id)
      modifies node`adjacencies
      ensures node.adjacencies == WithBoth(old(node.adjacencies), node.id, x, y)
    {
      if node.id == x {
        var found := node.AdjacentTo(y);
        if !found {
          node.AddAdjacency(y);
        }
      }
      if node.id == y {
        var found := node.AdjacentTo(x);
        if !found {
          node.AddAdjacency(x);
        }
      }
    }

    method AddAdjacence(x: Id, y: Id)
      requires Valid()
      modifies this, nodes.Values
      ensures Valid() && Lists() == AddedEdge(old(Lists()), x, y)
      ensures fresh(nodes.Values - old(nodes.Values))
    {
      AddedEdgeWellFormed(Lists(), x, y);
      AddNode(x);
      AddNode(y);
      LinkBoth(x, y);
    }

    method LoadTree(t: Tree)
      requires Valid()
      modifies this, nodes.Values
      ensures Valid() && Lists() == Loaded(old(Lists()), t)
      ensures fresh(nodes.Values - old(nodes.Values))
      decreases t, 0
    {
      ghost var before := Lists();
      NoneLoaded(t.children);
      for i := 0 to |t.children|
        invariant Valid() && fresh(nodes.Values - old(nodes.Values))
        invariant Loaded(before, t) == LoadedAll(Lists(), t.id, t.children[i..])
      {
        LoadedNext(Lists(), t.id, t.children, i);
        LoadChild(t.id, t.children[i]);
      }
    }

    /** The body of the loop over the children. */
    method LoadChild(id: Id, child: Tree)
      requires Valid()
      modifies this, nodes.Values
      ensures Valid() && Lists() == Loaded(AddedEdge(old(Lists()), id, child.id), child)
      ensures fresh(nodes.Values - old(nodes.Values))
      decreases child, 1
    {
      AddAdjacence(id, child.id);
      LoadTree(child);
    }

    /** Where the traversal stands. */
    ghost function State(queue: seq<Node>, visits: seq<Visit>): Traversal
      reads this`nodes, nodes.Values`flag, nodes.Values`depth
    {
      Traversal(Flagged(), Depths(), Names(queue), visits)
    }

    /** The calls that eachBFS makes to its action, in order. */
    method EachBFS(root: Id) returns (visits: seq<Visit>)
      requires Valid() && root in nodes
      modifies nodes.Values`flag, nodes.Values`depth
      ensures State([], visits) == Traverse(Lists(), old(Depths()), root) && Lists() == old(Lists())
    {
      ghost var adj, depths := Lists(), Depths();
      Begins(adj, depths, root);
      Unflag();
      StartIs(depths, root);
      visits := Drain([nodes[root]], Traverse(adj, depths, root));
    }

    lemma StartIs(depths: map<Id, int>, root: Id)
      requires Keyed(nodes) && root in nodes && Flagged() == {} && Depths() == depths
      ensures State([nodes[root]], []) == Start(depths, root) && Known([nodes[root]])
    {
    }

    /** The loop of eachBFS, from its first queue. */
    method Drain(first: seq<Node>, ghost goal: Traversal) returns (visits: seq<Visit>)
      requires Valid() && Known(first) && Heading(Lists(), State(first, []), goal)
      modifies nodes.Values`flag, nodes.Values`depth
      ensures State([], visits) == goal && Lists() == old(Lists())
    {
      ghost var adj := Lists();
      var queue := first;
      visits := [];
      while queue != []
        invariant Lists() == adj && Known(queue) && Heading(adj, State(queue, visits), goal)
        decreases |adj.Keys - Flagged()|, Stale(Names(queue), Flagged())
      {
        queue, visits := Turn(queue, visits, goal);
      }
      Ends(adj, State([], visits), goal);
    }

    /** One turn leads nearer to the same end. */
    method Turn(queue: seq<Node>, visits: seq<Visit>, ghost goal: Traversal)
      returns (queue': seq<Node>, visits': seq<Visit>)
      requires Valid() && queue != [] && Known(queue) && Heading(Lists(), State(queue, visits), goal)
      modifies nodes.Values`flag, nodes.Values`depth
      ensures Lists() == old(Lists()) && Known(queue')
      ensures Heading(Lists(), State(queue', visits'), goal)
        && Nearer(Lists(), State(queue', visits'), old(State(queue, visits)))
    {
      Proceeds(Lists(), State(queue, visits), goal);
      queue', visits' := Advance(queue, visits);
    }

    /** The nodes are nodes of this graph. */
    ghost predicate Known(queue: seq<Node>)
      reads this`nodes
    {
      forall i :: 0 <= i < |queue| ==> queue[i].id in nodes && nodes[queue[i].id] == queue[i]
    }

    /** One turn of the loop in eachBFS. */
    method Advance(queue: seq<Node>, visits: seq<Visit>) returns (queue': seq<Node>, visits': seq<Visit>)
      requires Valid() && queue != [] && Known(queue) && Fits(Lists(), State(queue, visits))
      modifies nodes.Values`flag, nodes.Values`depth
      ensures Lists() == old(Lists()) && Known(queue')
      ensures State(queue', visits') == old(Step(Lists(), State(queue, visits)))
    {
      ghost var adj, before := Lists(), State(queue, visits);
      var node := queue[0];
      NeighboursKnown(adj, node.id);
      assert adj[node.id] == node.adjacencies;
      visits' := visits + [Visit(node.id, node.depth)];
      var more := Expand(node);
      queue' := queue[1..] + more;
      KnownTogether(queue, more);
      NamesTogether(queue, more);
      StepIs(adj, before, State(queue', visits'), Names(more));
    }

    /** A node is flagged and its unflagged neighbours get their depth. */
    method Expand(node: Node) returns (more: seq<Node>)
      requires Keyed(nodes) && node.id in nodes && nodes[node.id] == node
      requires forall x :: x in node.adjacencies ==> x in nodes
      modifies nodes.Values`flag, nodes.Values`depth
      ensures Lists() == old(Lists()) && Flagged() == old(Flagged()) + {node.id} && Known(more)
      ensures Names(more) == Unflagged(node.adjacencies, Flagged())
      ensures Depths() == Deepened(old(Depths()), Names(more), old(node.depth) + 1)
    {
      FlagNode(node);
      assert Lists() == old(Lists()) && Depths() == old(Depths()) && node.depth == old(node.depth);
      more := Deepen(node);
      assert Lists() == old(Lists());
    }

    lemma KnownTogether(queue: seq<Node>, more: seq<Node>)
      requires queue != [] && Known(queue) && Known(more)
      ensures Known(queue[1..] + more)
    {
    }

    method FlagNode(node: Node)
      requires Keyed(nodes) && node.id in nodes && nodes[node.id] == node
      modifies node`flag
      ensures node.flag && Flagged() == old(Flagged()) + {node.id}
    {
      node.flag := true;
    }

    method Unflag()
      requires Keyed(nodes)
      modifies nodes.Values`flag
      ensures Flagged() == {} && Lists() == old(Lists()) && Depths() == old(Depths())
    {
      var rest := nodes.Keys;
      while rest != {}
        invariant rest <= nodes.Keys
        invariant forall k :: k in nodes && k !in rest ==> !nodes[k].flag
        decreases rest
      {
        ghost var any := Collections.Pick(rest);
        var k :| k in rest;
        nodes[k].flag := false;
        rest := rest - {k};
      }
    }

    /** The inner loop of eachBFS: the nodes that join the queue. */
    method Deepen(node: Node) returns (more: seq<Node>)
      requires Keyed(nodes) && node.id in nodes && nodes[node.id] == node && node.flag
      requires forall x :: x in node.adjacencies ==> x in nodes
      modifies nodes.Values`depth
      ensures Names(more) == Unflagged(node.adjacencies, Flagged()) && Known(more)
      ensures Depths() == Deepened(old(Depths()), Names(more), old(node.depth) + 1)
    {
      more := [];
      ghost var depths, flagged, d := Depths(), Flagged(), node.depth + 1;
      for i := 0 to |node.adjacencies|
        invariant Flagged() == flagged && node.depth + 1 == d
        invariant Names(more) == Unflagged(node.adjacencies[..i], flagged) && Known(more)
        invariant DepthsSet(depths, Names(more), d)
      {
        UnflaggedMore(node.adjacencies, i, flagged);
        var next := nodes[node.adjacencies[i]];
        if !next.flag {
          SetDepth(next, node.depth + 1, depths, Names(more));
          NamesMore(more, next);
          KnownMore(more, next);
          more := more + [next];
        }
      }
      Collections.AllOf(node.adjacencies);
      DepthsAre(depths, Names(more), d);
    }

    /** Exactly the named nodes have got the depth. */
    ghost predicate DepthsSet(depths: map<Id, int>, names: seq<Id>, d: int)
      reads this`nodes, nodes.Values`depth
    {
      depths.Keys == nodes.Keys && forall k :: k in nodes ==> nodes[k].depth == if k in names then d else depths[k]
    }

    lemma DepthsAre(depths: map<Id, int>, names: seq<Id>, d: int)
      requires DepthsSet(depths, names, d)
      ensures Depths() == Deepened(depths, names, d)
    {
    }

    method SetDepth(node: Node, depth: int, ghost depths: map<Id, int>, ghost names: seq<Id>)
      requires Keyed(nodes) && node.id in nodes && nodes[node.id] == node && DepthsSet(depths, names, depth)
      modifies node`depth
      ensures node.depth == depth && DepthsSet(depths, names + [node.id], depth)
    {
      node.depth := depth;
    }

    lemma KnownMore(more: seq<Node>, next: Node)
      requires Known(more) && next.id in nodes && nodes[next.id] == next
      ensures Known(more + [next])
    {
    }

    /** The depth of a single node is set from outside the traversal. */
    method ResetDepth(node: Node)
      requires Keyed(nodes) && node.id in nodes && nodes[node.id] == node
      modifies node`depth
      ensures Depths() == old(Depths())[node.id := 0]
    {
      node.depth := 0;
    }
  }

  lemma NoneLoaded(children: seq<Tree>)
    ensures children[0..] == children && children[|children|..] == []
  {
  }

  lemma LoadedNext(adj: Adjacency, id: Id, children: seq<Tree>, i: nat)
    requires i < |children|
    ensures LoadedAll(adj, id, children[i..])
      == LoadedAll(Loaded(AddedEdge(adj, id, children[i].id), children[i]), id, children[i + 1..])
  {
    assert children[i..][1..] == children[i + 1..];
  }

  lemma StepIs(adj: Adjacency, s: Traversal, t: Traversal, open: seq<Id>)
    requires WellFormed(adj) && Fits(adj, s) && s.queue != []
    requires t.flagged == s.flagged + {s.queue[0]} && open == Unflagged(adj[s.queue[0]], t.flagged)
    requires t.depth == Deepened(s.depth, open, s.depth[s.queue[0]] + 1)
    requires t.queue == s.queue[1..] + open && t.visits == s.visits + [Visit(s.queue[0], s.depth[s.queue[0]])]
    ensures t == Step(adj, s)
  {
  }

  lemma NamesTogether(queue: seq<Node>, more: seq<Node>)
    requires queue != []
    ensures Names(queue[1..] + more) == Names(queue)[1..] + Names(more)
  {
  }

  lemma UnflaggedMore(list: seq<Id>, i: nat, flagged: set<Id>)
    requires i < |list|
    ensures list[i] in flagged ==> Unflagged(list[..i + 1], flagged) == Unflagged(list[..i], flagged)
    ensures list[i] !in flagged ==> Unflagged(list[..i + 1], flagged) == Unflagged(list[..i], flagged) + [list[i]]
    ensures list[i] in list
  {
    assert list[..i + 1][..i] == list[..i];
  }

  lemma NamesMore(nodes: seq<Node>, node: Node)
    ensures Names(nodes + [node]) == Names(nodes) + [node.id]
  {
  }

  lemma NeighboursKnown(adj: Adjacency, x: Id)
    requires WellFormed(adj) && x in adj
    ensures forall y :: y in adj[x] ==> y in adj
  {
  }

  /** From here the loop leads to `t`. */
  ghost predicate Heading(adj: Adjacency, s: Traversal, t: Traversal) {
    WellFormed(adj) && Fits(adj, s) && Closed(adj, s) && Run(adj, s) == t
  }

  lemma Begins(adj: Adjacency, depths: map<Id, int>, root: Id)
    requires WellFormed(adj) && depths.Keys == adj.Keys && root in adj
    ensures Heading(adj, Start(depths, root), Traverse(adj, depths, root))
  {
  }

  ghost predicate Nearer(adj: Adjacency, t: Traversal, s: Traversal) {
    || |adj.Keys - t.flagged| < |adj.Keys - s.flagged|
    || (t.flagged == s.flagged && Stale(t.queue, t.flagged) < Stale(s.queue, s.flagged))
  }

  /** One turn of the loop leads nearer to the same end. */
  lemma Proceeds(adj: Adjacency, s: Traversal, t: Traversal)
    requires Heading(adj, s, t) && s.queue != []
    ensures Heading(adj, Step(adj, s), t)
    ensures Nearer(adj, Step(adj, s), s)
  {
    StepKeepsClosed(adj, s);
    StepIsCloser(adj, s);
  }

  lemma Ends(adj: Adjacency, s: Traversal, t: Traversal)
    requires Heading(adj, s, t) && s.queue == []
    ensures s == t
  {
  }

  /** A node's list once both ends of an edge are linked. */
  function WithBoth(list: seq<Id>, id: Id, x: Id, y: Id): seq<Id> {
    var one := if id == x && y !in list then list + [y] else list;
    if id == y && x !in one then one + [x] else one
  }

  lemma LinkedBothAt(adj: Adjacency, x: Id, y: Id, id: Id)
    requires x in adj && y in adj && id in adj
    ensures Linked(Linked(adj, x, y), y, x)[id] == WithBoth(adj[id], id, x, y)
  {
  }

  lemma AddedEdgeWellFormed(adj: Adjacency, x: Id, y: Id)
    requires WellFormed(adj)
    ensures WellFormed(AddedEdge(adj, x, y))
  {
    var two := AddedNode(AddedNode(adj, x), y);
    assert WellFormed(two);
    assert WellFormed(Linked(two, x, y));
  }

  ghost predicate Keyed(nodes: map<Id, Node>) {
    forall x :: x in nodes ==> nodes[x].id == x
  }

  ghost function Names(nodes: seq<Node>): seq<Id> {
    seq(|nodes|, i requires 0 <= i < |nodes| => nodes[i].id)
  }
}
