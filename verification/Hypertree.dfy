/** Placing the nodes of a tree in the hyperbolic disc (`computePositions`). The angle
    at which a node is put around its parent is a parameter: a spot on the circle of
    radius `levelDistance` around the origin. */
module Hypertree {
  import opened Graph
  import opened Moebius
  import Objects = GraphObjects
  import Collections

  /** Moves of a plane: each is named by the point that it takes to the origin. */
  datatype Moves<!P> = Moves(origin: P, move: (P, P) -> P, opposite: P -> P)

  /** What the layout needs to know about moves. */
  ghost predicate Lawful<P(!new)>(m: Moves<P>) {
    && (forall z :: m.move(z, m.origin) == z)
    && (forall z, f :: m.move(m.move(z, f), m.opposite(f)) == z)
    && (forall z, f :: m.move(m.move(z, m.opposite(f)), f) == z)
  }

  // ---------------------------------------------------------------- one visit

  type Places<P> = map<Id, P>

  function MovedAll<P>(m: Moves<P>, pos: Places<P>, f: P): (moved: Places<P>)
    ensures moved.Keys == pos.Keys
  {
    map x | x in pos :: m.move(pos[x], f)
  }

  function Put<P>(pos: Places<P>, subs: seq<Id>, spots: Places<P>): (put: Places<P>)
    requires forall x :: x in subs ==> x in spots
    ensures put.Keys == pos.Keys
  {
    map x | x in pos :: if x in subs then spots[x] else pos[x]
  }

  /** What is done when a node is visited: unless it is the root, everything is moved so
      that the node lies at the origin, and moved back when the nodes below it are put
      around the origin. */
  function PlaceAround<P>(m: Moves<P>, pos: Places<P>, k: Id, root: Id, subs: seq<Id>,
                          spots: Places<P>): (placed: Places<P>)
    requires k in pos && forall x :: x in subs ==> x in spots
    ensures placed.Keys == pos.Keys
  {
    if k == root then Put(pos, subs, spots)
    else MovedAll(m, Put(MovedAll(m, pos, pos[k]), subs, spots), m.opposite(pos[k]))
  }

  /** Main result on one visit: nodes that are not put stay where they were, and those
      that are put are seen from the visited node at their spots. */
  lemma PlaceAroundOnlyPlaces<P(!new)>(m: Moves<P>, pos: Places<P>, k: Id, root: Id, subs: seq<Id>, spots: Places<P>)
    requires Lawful(m) && k in pos && k !in subs && (k == root ==> pos[k] == m.origin)
    requires forall x :: x in subs ==> x in spots && x in pos
    ensures var placed := PlaceAround(m, pos, k, root, subs, spots);
      && (forall x :: x in pos && x !in subs ==> placed[x] == pos[x])
      && (forall x :: x in subs ==> m.move(placed[x], placed[k]) == spots[x])
  {
    var placed := PlaceAround(m, pos, k, root, subs, spots);
    assert placed[k] == pos[k];
  }

  // ---------------------------------------------------------------- the whole layout

  /** eachSubnode: the neighbours with a greater depth. */
  function Subnodes(list: seq<Id>, depth: map<Id, int>, k: Id): (subs: seq<Id>)
    requires k in depth && forall x :: x in list ==> x in depth
    ensures forall x :: x in subs <==> x in list && depth[x] > depth[k]
  {
    if list == [] then []
    else
      var last := list[|list| - 1];
      Subnodes(list[..|list| - 1], depth, k) + if depth[last] > depth[k] then [last] else []
  }

  ghost predicate Fitting<P>(adj: Adjacency, depth: map<Id, int>, pos: Places<P>, spots: Places<P>) {
    WellFormed(adj) && depth.Keys == adj.Keys && pos.Keys == adj.Keys && spots.Keys == adj.Keys
  }

  function VisitNode<P>(m: Moves<P>, adj: Adjacency, depth: map<Id, int>, k: Id, root: Id, pos: Places<P>,
                        spots: Places<P>): (placed: Places<P>)
    requires Fitting(adj, depth, pos, spots) && k in adj
    ensures Fitting(adj, depth, placed, spots)
  {
    PlaceAround(m, pos, k, root, Subnodes(adj[k], depth, k), spots)
  }

  /** The positions after the given visits. */
  function PlacedBy<P>(m: Moves<P>, adj: Adjacency, depth: map<Id, int>, root: Id, visits: seq<Visit>,
                       pos: Places<P>, spots: Places<P>): (placed: Places<P>)
    requires Fitting(adj, depth, pos, spots) && forall v :: v in visits ==> v.id in adj
    ensures Fitting(adj, depth, placed, spots)
  {
    if visits == [] then pos
    else
      var n := |visits| - 1;
      VisitNode(m, adj, depth, visits[n].id, root, PlacedBy(m, adj, depth, root, visits[..n], pos, spots), spots)
  }

  lemma PlacedByMore<P>(m: Moves<P>, adj: Adjacency, depth: map<Id, int>, root: Id, visits: seq<Visit>, i: nat,
                        pos: Places<P>, spots: Places<P>)
    requires Fitting(adj, depth, pos, spots) && i < |visits| && forall v :: v in visits ==> v.id in adj
    ensures visits[i].id in adj
    ensures PlacedBy(m, adj, depth, root, visits[..i + 1], pos, spots)
      == VisitNode(m, adj, depth, visits[i].id, root, PlacedBy(m, adj, depth, root, visits[..i], pos, spots), spots)
  {
    assert visits[..i + 1][..i] == visits[..i];
  }

  /** The depths are those of a first traversal. */
  ghost predicate Measured(depth: map<Id, int>, base: int, d: map<Id, nat>) {
    depth.Keys == d.Keys && forall x :: x in d ==> depth[x] == base + d[x]
  }

  ghost predicate SeenAtSpots<P>(m: Moves<P>, k: Id, root: Id, up: map<Id, Id>, pos: Places<P>, spots: Places<P>)
    requires pos.Keys == up.Keys == spots.Keys
  {
    forall x :: x in up && x != root && up[x] == k && k in pos ==> m.move(pos[x], pos[k]) == spots[x]
  }

  lemma SubnodesAreBelow(adj: Adjacency, depth: map<Id, int>, root: Id, d: map<Id, nat>, up: map<Id, Id>, base: int,
                         k: Id, x: Id)
    requires Rooted(adj, root, d, up) && Measured(depth, base, d) && k in adj
    ensures x in Subnodes(adj[k], depth, k) <==> x in adj && x != root && up[x] == k
  {
    if x in adj && x != root {
      assert Hangs(adj, d, up, x);
    }
    assert k != root ==> Hangs(adj, d, up, k);
  }

  lemma VisitKeepsPlaces<P(!new)>(m: Moves<P>, adj: Adjacency, depth: map<Id, int>, root: Id, d: map<Id, nat>,
                                  up: map<Id, Id>, base: int, k: Id, pos: Places<P>, spots: Places<P>)
    requires Fitting(adj, depth, pos, spots) && k in adj
    requires Lawful(m) && Rooted(adj, root, d, up) && Measured(depth, base, d) && pos[root] == m.origin
    ensures var placed := VisitNode(m, adj, depth, k, root, pos, spots);
      && placed[root] == m.origin && SeenAtSpots(m, k, root, up, placed, spots)
      && OnlyBelow(k, root, up, pos, placed)
  {
    var subs := Subnodes(adj[k], depth, k);
    forall x
      ensures x in subs <==> x in adj && x != root && up[x] == k
    {
      SubnodesAreBelow(adj, depth, root, d, up, base, k, x);
    }
    assert k != root ==> Hangs(adj, d, up, k);
    assert k !in subs;
    PlaceAroundOnlyPlaces(m, pos, k, root, subs, spots);
  }

  lemma {:induction false} PlacesStay<P(!new)>(m: Moves<P>, adj: Adjacency, depth: map<Id, int>, root: Id,
                                               d: map<Id, nat>, up: map<Id, Id>, base: int, visits: seq<Visit>,
                                               pos: Places<P>, spots: Places<P>)
    requires Fitting(adj, depth, pos, spots) && forall v :: v in visits ==> v.id in adj
    requires Lawful(m) && Rooted(adj, root, d, up) && Measured(depth, base, d) && pos[root] == m.origin
    requires ParentsFirst(root, up, visits) && OnceEach(visits)
    ensures var placed := PlacedBy(m, adj, depth, root, visits, pos, spots);
      && placed[root] == m.origin
      && AllSeen(m, visits, |visits|, root, up, placed, spots)
  {
    if visits != [] {
      var n := |visits| - 1;
      var init, k := visits[..n], visits[n].id;
      assert visits[n] in visits;
      ParentsFirstPrefix(root, up, visits);
      PlacesStay(m, adj, depth, root, d, up, base, init, pos, spots);
      var before := PlacedBy(m, adj, depth, root, init, pos, spots);
      VisitKeepsPlaces(m, adj, depth, root, d, up, base, k, before, spots);
      AllSeenPrefix(m, visits, n, root, up, before, spots);
      StillAllSeen(m, root, up, visits, before, PlacedBy(m, adj, depth, root, visits, pos, spots), spots);
    }
  }

  ghost predicate OnceEach(visits: seq<Visit>) {
    forall i, j :: 0 <= i < j < |visits| ==> visits[i].id != visits[j].id
  }

  /** The nodes below the first `n` visited ones are where they are to be. */
  ghost predicate AllSeen<P>(m: Moves<P>, visits: seq<Visit>, n: nat, root: Id, up: map<Id, Id>, pos: Places<P>,
                             spots: Places<P>)
    requires pos.Keys == up.Keys == spots.Keys && n <= |visits|
  {
    forall i :: 0 <= i < n ==> SeenAtSpots(m, visits[i].id, root, up, pos, spots)
  }

  lemma AllSeenPrefix<P>(m: Moves<P>, visits: seq<Visit>, n: nat, root: Id, up: map<Id, Id>, pos: Places<P>,
                         spots: Places<P>)
    requires pos.Keys == up.Keys == spots.Keys && n <= |visits| && AllSeen(m, visits[..n], n, root, up, pos, spots)
    ensures AllSeen(m, visits, n, root, up, pos, spots)
  {
    forall i | 0 <= i < n
      ensures SeenAtSpots(m, visits[i].id, root, up, pos, spots)
    {
      assert visits[..n][i] == visits[i];
    }
  }

  /** Only nodes below `k` have moved. */
  ghost predicate OnlyBelow<P>(k: Id, root: Id, up: map<Id, Id>, before: Places<P>, after: Places<P>)
    requires before.Keys == after.Keys == up.Keys
  {
    forall x :: x in up && (x == root || up[x] != k) ==> after[x] == before[x]
  }

  /** The last visit leaves the places settled by the others as they were. */
  lemma StillAllSeen<P>(m: Moves<P>, root: Id, up: map<Id, Id>, visits: seq<Visit>, before: Places<P>,
                        after: Places<P>, spots: Places<P>)
    requires visits != [] && before.Keys == after.Keys == up.Keys == spots.Keys
    requires ParentsFirst(root, up, visits) && OnceEach(visits) && forall i :: 0 <= i < |visits| ==> visits[i].id in up
    requires AllSeen(m, visits, |visits| - 1, root, up, before, spots)
    requires SeenAtSpots(m, visits[|visits| - 1].id, root, up, after, spots)
    requires OnlyBelow(visits[|visits| - 1].id, root, up, before, after)
    ensures AllSeen(m, visits, |visits|, root, up, after, spots)
  {
    var n := |visits| - 1;
    forall i | 0 <= i < |visits|
      ensures SeenAtSpots(m, visits[i].id, root, up, after, spots)
    {
      if i < n {
        assert SeenAtSpots(m, visits[i].id, root, up, before, spots);
        NotMovedLater(root, up, visits, i);
        StillSeen(m, visits[i].id, visits[n].id, root, up, before, after, spots);
      } else {
        assert i == n;
      }
    }
  }

  lemma ParentsFirstPrefix(root: Id, up: map<Id, Id>, visits: seq<Visit>)
    requires ParentsFirst(root, up, visits) && visits != []
    ensures ParentsFirst(root, up, visits[..|visits| - 1])
  {
    var init := visits[..|visits| - 1];
    forall j | 0 <= j < |init| && init[j].id != root && init[j].id in up
      ensures SeenBefore(init, j, up[init[j].id])
    {
      assert SeenBefore(visits, j, up[visits[j].id]);
      var i :| 0 <= i < j && visits[i].id == up[visits[j].id];
      assert init[i] == visits[i];
    }
  }

  /** A visited node does not hang from one visited later. */
  lemma NotMovedLater(root: Id, up: map<Id, Id>, visits: seq<Visit>, i: int)
    requires ParentsFirst(root, up, visits) && OnceEach(visits)
    requires 0 <= i < |visits| - 1 && visits[i].id in up
    ensures visits[i].id == root || up[visits[i].id] != visits[|visits| - 1].id
  {
    if visits[i].id != root {
      assert SeenBefore(visits, i, up[visits[i].id]);
    }
  }

  lemma StillSeen<P>(m: Moves<P>, k: Id, later: Id, root: Id, up: map<Id, Id>, before: Places<P>, after: Places<P>,
                     spots: Places<P>)
    requires before.Keys == after.Keys == up.Keys == spots.Keys
    requires k in up && k != later && (k == root || up[k] != later) && SeenAtSpots(m, k, root, up, before, spots)
    requires OnlyBelow(later, root, up, before, after)
    ensures SeenAtSpots(m, k, root, up, after, spots)
  {
  }

  /** The layout of a tree: the root in the middle, every other node at its spot as
      seen from the neighbour nearer to the root. */
  ghost predicate LaidOut<P>(m: Moves<P>, adj: Adjacency, depth: map<Id, int>, root: Id, pos: Places<P>,
                             spots: Places<P>)
    requires Fitting(adj, depth, pos, spots) && root in adj
  {
    && pos[root] == m.origin
    && forall x, y :: x in adj && y in adj[x] && depth[x] < depth[y] ==> m.move(pos[y], pos[x]) == spots[y]
  }

  lemma LaidOutByVisits<P(!new)>(m: Moves<P>, adj: Adjacency, depth: map<Id, int>, root: Id, d: map<Id, nat>,
                                 up: map<Id, Id>, base: int, visits: seq<Visit>, pos: Places<P>, spots: Places<P>)
    requires Lawful(m) && Fitting(adj, depth, pos, spots) && Rooted(adj, root, d, up) && Measured(depth, base, d)
    requires pos[root] == m.origin && VisitedIds(visits) == adj.Keys && ParentsFirst(root, up, visits)
    requires OnceEach(visits)
    requires forall v :: v in visits ==> v.id in adj
    ensures LaidOut(m, adj, depth, root, PlacedBy(m, adj, depth, root, visits, pos, spots), spots)
  {
    PlacesStay(m, adj, depth, root, d, up, base, visits, pos, spots);
    var placed := PlacedBy(m, adj, depth, root, visits, pos, spots);
    forall x, y | x in adj && y in adj[x] && depth[x] < depth[y]
      ensures m.move(placed[y], placed[x]) == spots[y]
    {
      SubnodesAreBelow(adj, depth, root, d, up, base, x, y);
      assert x in VisitedIds(visits);
      var i :| 0 <= i < |visits| && visits[i].id == x;
      assert SeenAtSpots(m, visits[i].id, root, up, placed, spots);
    }
  }

  /** Main result: a first traversal measures the depths and a second one places the
      nodes; on a tree this lays all of them out, whatever the root. */
  lemma LayoutOfTree<P(!new)>(m: Moves<P>, adj: Adjacency, depth0: map<Id, int>, root: Id, pos: Places<P>,
                              spots: Places<P>)
    requires Lawful(m) && IsTree(adj) && root in adj && Fitting(adj, depth0, pos, spots) && pos[root] == m.origin
    ensures var depth := Traverse(adj, depth0, root).depth;
      var visits := Traverse(adj, depth, root).visits;
      && (forall v :: v in visits ==> v.id in adj)
      && LaidOut(m, adj, depth, root, PlacedBy(m, adj, depth, root, visits, pos, spots), spots)
  {
    assert CanHang(adj, root);
    var d, up :| Rooted(adj, root, d, up);
    var first := MeasuredBy(adj, depth0, root, d, up);
    var second := MeasuredBy(adj, first.depth, root, d, up);
    LaidOutByVisits(m, adj, first.depth, root, d, up, depth0[root], second.visits, pos, spots);
  }

  lemma MeasuredBy(adj: Adjacency, depth: map<Id, int>, root: Id, d: map<Id, nat>, up: map<Id, Id>)
    returns (t: Traversal)
    requires Rooted(adj, root, d, up) && depth.Keys == adj.Keys
    ensures t == Traverse(adj, depth, root) && Measured(t.depth, depth[root], d)
    ensures VisitedIds(t.visits) == adj.Keys && ParentsFirst(root, up, t.visits)
    ensures forall i, j :: 0 <= i < j < |t.visits| ==> t.visits[i].id != t.visits[j].id
    ensures forall v :: v in t.visits ==> v.id in adj
  {
    t := Traverse(adj, depth, root);
    StartOfTree(adj, depth, root, d, up);
    RunKeepsTree(adj, root, d, up, depth[root], Start(depth, root));
    RunKeepsParents(adj, root, d, up, depth[root], Start(depth, root));
    AllFlagged(adj, root, d, up, depth[root], t);
    FinishedMeasures(adj, root, d, up, depth[root], t);
  }

  lemma FinishedMeasures(adj: Adjacency, root: Id, d: map<Id, nat>, up: map<Id, Id>, base: int, t: Traversal)
    requires Rooted(adj, root, d, up) && TreeInv(adj, root, d, up, base, t) && t.flagged == adj.Keys
    requires VisitsInv(adj, d, base, t)
    ensures Measured(t.depth, base, d) && VisitedIds(t.visits) == adj.Keys
    ensures forall i, j :: 0 <= i < j < |t.visits| ==> t.visits[i].id != t.visits[j].id
    ensures forall v :: v in t.visits ==> v.id in adj
  {
  }

  // ---------------------------------------------------------------- the disc

  /** A point of the disc. */
  type Point = z: Complex | Inside(z) witness ZERO

  function Moved(z: Point, f: Point): Point {
    MoveStaysInside(z, f);
    Move(z, f)
  }

  function Opposite(f: Point): Point {
    OppositeInside(f);
    f.Scale(-1.0)
  }

  datatype Spot = At(point: Point)

  /** The moves that the program makes. */
  const DISC: Moves<Spot> :=
    Moves(At(ZERO), (z: Spot, f: Spot) => At(Moved(z.point, f.point)), (f: Spot) => At(Opposite(f.point)))

  lemma SeenFromOrigin(z: Point)
    ensures Moved(z, ZERO) == z
  {
    MoveByOrigin(z);
  }

  lemma ForthAndBack(z: Point, f: Point)
    ensures Moved(Moved(z, f), Opposite(f)) == z
    ensures Moved(Moved(z, Opposite(f)), f) == z
  {
    MoveBack(z, f);
    OppositeInside(f);
    MoveBack(z, f.Scale(-1.0));
  }

  lemma DiscIsLawful()
    ensures Lawful(DISC)
  {
    forall z: Spot
      ensures DISC.move(z, DISC.origin) == z
    {
      SeenFromOrigin(z.point);
    }
    forall z: Spot, f: Spot
      ensures DISC.move(DISC.move(z, f), DISC.opposite(f)) == z
      ensures DISC.move(DISC.move(z, DISC.opposite(f)), f) == z
    {
      ForthAndBack(z.point, f.point);
    }
  }

  /** The layout of the program: all nodes stay in the disc, and each is seen from the
      neighbour nearer to the root at the spot chosen for it. */
  lemma LayoutInDisc(adj: Adjacency, depth0: map<Id, int>, root: Id, pos: Places<Spot>, spots: Places<Spot>)
    requires IsTree(adj) && root in adj && Fitting(adj, depth0, pos, spots) && pos[root] == At(ZERO)
    ensures var depth := Traverse(adj, depth0, root).depth;
      var visits := Traverse(adj, depth, root).visits;
      && (forall v :: v in visits ==> v.id in adj)
      && LaidOut(DISC, adj, depth, root, PlacedBy(DISC, adj, depth, root, visits, pos, spots), spots)
  {
    DiscIsLawful();
    LayoutOfTree(DISC, adj, depth0, root, pos, spots);
  }

  // ---------------------------------------------------------------- the program

  class HyperNode<P> {
    const id: Id
    var pos: P

    constructor (id: Id, pos: P)
      ensures this.id == id && this.pos == pos
    {
      this.id := id;
      this.pos := pos;
    }
  }

  /** Every visited node in the middle. */
  ghost function Centred<P>(m: Moves<P>, pos: Places<P>, visits: seq<Visit>): Places<P> {
    map x | x in pos :: if x in VisitedIds(visits) then m.origin else pos[x]
  }

  function InMiddle<P>(m: Moves<P>, ids: set<Id>): (all: Places<P>)
    ensures all.Keys == ids
  {
    map x | x in ids :: m.origin
  }

  lemma AllCentred<P>(m: Moves<P>, pos: Places<P>, visits: seq<Visit>)
    requires VisitedIds(visits) == pos.Keys
    ensures Centred(m, pos, visits) == InMiddle(m, pos.Keys)
  {
  }

  /** Before it measures, compute sets the depth of the root. */
  function AtZero(depth: map<Id, int>, root: Id): (depth': map<Id, int>)
    requires root in depth
    ensures depth'.Keys == depth.Keys
  {
    depth[root := 0]
  }

  lemma VisitedAreNodes(visits: seq<Visit>, ids: set<Id>)
    requires VisitedIds(visits) == ids
    ensures forall v :: v in visits ==> v.id in ids
  {
    assert forall v :: v in visits ==> v.id in VisitedIds(visits);
  }

  /** `placed` and `depth` are what compute leaves on a tree. */
  ghost predicate Computed<P>(m: Moves<P>, adj: Adjacency, depth0: map<Id, int>, root: Id, spots: Places<P>,
                              placed: Places<P>, depth: map<Id, int>) {
    && root in adj && Fitting(adj, depth0, InMiddle(m, adj.Keys), spots)
    && depth == Traverse(adj, AtZero(depth0, root), root).depth
    && (var visits := Traverse(adj, depth, root).visits;
        && (forall v :: v in visits ==> v.id in adj)
        && placed == PlacedBy(m, adj, depth, root, visits, InMiddle(m, adj.Keys), spots))
  }

  lemma ComputedBy<P>(m: Moves<P>, adj: Adjacency, depth0: map<Id, int>, root: Id, spots: Places<P>,
                      placed: Places<P>, depth: map<Id, int>, visits: seq<Visit>)
    requires root in adj && Fitting(adj, depth0, InMiddle(m, adj.Keys), spots)
      && depth == Traverse(adj, AtZero(depth0, root), root).depth
    requires visits == Traverse(adj, depth, root).visits && forall v :: v in visits ==> v.id in adj
    requires placed == PlacedBy(m, adj, depth, root, visits, InMiddle(m, adj.Keys), spots)
    ensures Computed(m, adj, depth0, root, spots, placed, depth)
  {
  }

  /** On a tree a second traversal finds the depths as they are. */
  lemma SameDepths(adj: Adjacency, depth: map<Id, int>, root: Id)
    requires IsTree(adj) && root in adj && depth.Keys == adj.Keys
    ensures var t := Traverse(adj, depth, root); Traverse(adj, t.depth, root).depth == t.depth
  {
    assert CanHang(adj, root);
    var d, up :| Rooted(adj, root, d, up);
    var first := MeasuredBy(adj, depth, root, d, up);
    var second := MeasuredBy(adj, first.depth, root, d, up);
    assert d[root] == 0;
    MeasuredAlike(first.depth, second.depth, depth[root], d);
  }

  lemma TraversedAgain(adj: Adjacency, depth0: map<Id, int>, depth: map<Id, int>, root: Id, visits: seq<Visit>)
    requires IsTree(adj) && root in adj && depth0.Keys == adj.Keys && depth == Traverse(adj, depth0, root).depth
    requires visits == Traverse(adj, depth, root).visits
    ensures Traverse(adj, depth, root).depth == depth && VisitedIds(visits) == adj.Keys
  {
    SameDepths(adj, depth0, root);
    TraversalOfTree(adj, depth, root);
  }

  lemma MeasuredAlike(a: map<Id, int>, b: map<Id, int>, base: int, d: map<Id, nat>)
    requires Measured(a, base, d) && Measured(b, base, d)
    ensures a == b
  {
  }

  /** So compute lays out every tree. */
  lemma ComputedIsLaidOut<P(!new)>(m: Moves<P>, adj: Adjacency, depth0: map<Id, int>, root: Id, spots: Places<P>,
                                   placed: Places<P>, depth: map<Id, int>)
    requires Lawful(m) && IsTree(adj) && Computed(m, adj, depth0, root, spots, placed, depth)
    ensures Fitting(adj, depth, placed, spots) && LaidOut(m, adj, depth, root, placed, spots)
  {
    LayoutOfTree(m, adj, AtZero(depth0, root), root, InMiddle(m, adj.Keys), spots);
  }

  /** And its depths are the distances from the root, which is at 0, whatever they were. */
  lemma ComputedMeasures<P>(m: Moves<P>, adj: Adjacency, depth0: map<Id, int>, root: Id, spots: Places<P>,
                            placed: Places<P>, depth: map<Id, int>, x: Id, n: nat)
    requires IsTree(adj) && Computed(m, adj, depth0, root, spots, placed, depth)
    requires x in adj && IsDistance(adj, root, x, n)
    ensures depth[root] == 0 && depth[x] == n
  {
    assert CanHang(adj, root);
    var d, up :| Rooted(adj, root, d, up);
    var t := MeasuredBy(adj, AtZero(depth0, root), root, d, up);
    DepthIsDistance(adj, root, d, up, x);
    DepthIsDistance(adj, root, d, up, root);
  }

  class View<P> {
    const moves: Moves<P>
    var nodes: map<Id, HyperNode<P>>

    constructor (moves: Moves<P>)
      ensures this.moves == moves && nodes == map[]
    {
      this.moves := moves;
      nodes := map[];
    }

    ghost predicate Valid()
      reads this`nodes
    {
      forall x :: x in nodes ==> nodes[x].id == x
    }

    function Positions(): (pos: Places<P>)
      reads this`nodes, nodes.Values`pos
      ensures pos.Keys == nodes.Keys
    {
      map x | x in nodes :: nodes[x].pos
    }

    /** GraphUtil.moebiusTransformation */
    method MoebiusTransformation(f: P)
      requires Valid()
      modifies nodes.Values`pos
      ensures Valid() && Positions() == old(MovedAll(moves, Positions(), f))
    {
      ghost var before := Positions();
      ghost var after := MovedAll(moves, before, f);
      var rest := nodes.Keys;
      while rest != {}
        invariant rest <= nodes.Keys
        invariant forall x :: x in nodes ==> nodes[x].pos == if x in rest then before[x] else after[x]
        decreases rest
      {
        ghost var any := Collections.Pick(rest);
        var x :| x in rest;
        nodes[x].pos := moves.move(nodes[x].pos, f);
        rest := rest - {x};
      }
      assert Positions() == after;
    }

    method PutSubnodes(subs: seq<Id>, spots: Places<P>)
      requires Valid() && forall x :: x in subs ==> x in spots && x in nodes
      modifies nodes.Values`pos
      ensures Valid() && Positions() == old(Put(Positions(), subs, spots))
    {
      ghost var before := Positions();
      for i := 0 to |subs|
        invariant forall x :: x in nodes ==> nodes[x].pos == if x in subs[..i] then spots[x] else before[x]
      {
        nodes[subs[i]].pos := spots[subs[i]];
      }
      assert Positions() == Put(before, subs, spots);
    }

    /** The action of computePositions on a visited node. */
    method Visited(k: Id, root: Id, subs: seq<Id>, spots: Places<P>)
      requires Valid() && k in nodes && forall x :: x in subs ==> x in spots && x in nodes
      modifies nodes.Values`pos
      ensures Valid() && Positions() == old(PlaceAround(moves, Positions(), k, root, subs, spots))
    {
      var there := nodes[k].pos;
      assert Positions()[k] == there;
      if k != root {
        MoebiusTransformation(there);
      }
      PutSubnodes(subs, spots);
      if k != root {
        MoebiusTransformation(moves.opposite(there));
      }
    }

    /** computePositions, on the visits that a traversal makes. */
    method ComputePositions(adj: Adjacency, depth: map<Id, int>, root: Id, visits: seq<Visit>, spots: Places<P>)
      requires Valid() && Fitting(adj, depth, Positions(), spots) && forall v :: v in visits ==> v.id in adj
      modifies nodes.Values`pos
      ensures Valid() && nodes == old(nodes)
        && Positions() == old(PlacedBy(moves, adj, depth, root, visits, Positions(), spots))
    {
      ghost var before := Positions();
      for i := 0 to |visits|
        invariant Valid() && nodes == old(nodes)
        invariant Positions() == PlacedBy(moves, adj, depth, root, visits[..i], before, spots)
      {
        PlacedByMore(moves, adj, depth, root, visits, i, before, spots);
        var k := visits[i].id;
        Visited(k, root, Subnodes(adj[k], depth, k), spots);
      }
      Collections.AllOf(visits);
    }

    /** The action of the first traversal of compute. */
    method Centre(visits: seq<Visit>)
      requires Valid() && forall v :: v in visits ==> v.id in nodes
      modifies nodes.Values`pos
      ensures Valid() && Positions() == old(Centred(moves, Positions(), visits))
    {
      ghost var before := Positions();
      for i := 0 to |visits|
        invariant Valid()
        invariant forall x :: x in nodes ==> nodes[x].pos == if x in VisitedIds(visits[..i]) then moves.origin
          else before[x]
      {
        Collections.OneMore(visits, i);
        VisitedMore(visits[..i], visits[i]);
        nodes[visits[i].id].pos := moves.origin;
      }
      Collections.AllOf(visits);
      assert Positions() == Centred(moves, before, visits);
    }

    /** compute, on a tree: a first traversal measures the depths and puts every node in
        the middle, a second one places them. The traversals do not look at positions, so
        what they do to the nodes they visit comes after them here. */
    method Compute(graph: Objects.NodeGraph, root: Id, spots: Places<P>)
      requires Valid() && graph.Valid() && IsTree(graph.Lists()) && root in graph.nodes
      requires nodes.Keys == spots.Keys == graph.nodes.Keys
      modifies nodes.Values`pos, graph.nodes.Values`flag, graph.nodes.Values`depth
      ensures Valid() && graph.Lists() == old(graph.Lists())
      ensures Computed(moves, graph.Lists(), old(graph.Depths()), root, spots, Positions(), graph.Depths())
    {
      ghost var adj, depth0 := graph.Lists(), graph.Depths();
      var visits, again := MeasureTwice(graph, root);
      ghost var depth := graph.Depths();
      assert nodes == old(nodes);
      VisitedAreNodes(again, adj.Keys);
      CentreAll(graph, visits);
      assert graph.Lists() == adj && graph.Depths() == depth;
      PlaceAll(graph, root, again, spots);
      assert graph.Lists() == adj && graph.Depths() == depth;
      ComputedBy(moves, adj, depth0, root, spots, Positions(), depth, again);
    }

    method PlaceAll(graph: Objects.NodeGraph, root: Id, visits: seq<Visit>, spots: Places<P>)
      requires Valid() && Fitting(graph.Lists(), graph.Depths(), Positions(), spots)
      requires forall v :: v in visits ==> v.id in graph.Lists()
      modifies nodes.Values`pos
      ensures Valid() && nodes == old(nodes) && graph.Shape() == old(graph.Shape())
      ensures Positions() == old(PlacedBy(moves, graph.Lists(), graph.Depths(), root, visits, Positions(), spots))
    {
      ComputePositions(graph.Lists(), graph.Depths(), root, visits, spots);
    }

    /** The positions are no business of the traversal. */
    method CentreAll(graph: Objects.NodeGraph, visits: seq<Visit>)
      requires Valid() && VisitedIds(visits) == nodes.Keys
      modifies nodes.Values`pos
      ensures Valid() && nodes == old(nodes) && Positions() == InMiddle(moves, nodes.Keys)
      ensures graph.Shape() == old(graph.Shape())
    {
      AllCentred(moves, Positions(), visits);
      VisitedAreNodes(visits, nodes.Keys);
      Centre(visits);
    }

  }

  // ---------------------------------------------------------------- the two traversals of compute

  method MeasureGraph(graph: Objects.NodeGraph, root: Id) returns (visits: seq<Visit>)
    requires graph.Valid() && IsTree(graph.Lists()) && root in graph.nodes
    modifies graph.nodes.Values`flag, graph.nodes.Values`depth
    ensures graph.Valid() && graph.Lists() == old(graph.Lists())
    ensures graph.Depths() == Traverse(graph.Lists(), AtZero(old(graph.Depths()), root), root).depth
    ensures VisitedIds(visits) == graph.nodes.Keys
  {
    ghost var adj, depth := graph.Lists(), AtZero(graph.Depths(), root);
    graph.ResetDepth(graph.nodes[root]);
    assert graph.Depths() == depth;
    visits := graph.EachBFS(root);
    assert graph.Lists() == adj;
    assert graph.State([], visits) == Traverse(adj, depth, root);
    TraversalOfTree(adj, depth, root);
  }

  method MeasureGraphAgain(graph: Objects.NodeGraph, root: Id, ghost depth0: map<Id, int>) returns (visits: seq<Visit>)
    requires graph.Valid() && IsTree(graph.Lists()) && root in graph.nodes && depth0.Keys == graph.nodes.Keys
    requires graph.Depths() == Traverse(graph.Lists(), depth0, root).depth
    modifies graph.nodes.Values`flag, graph.nodes.Values`depth
    ensures graph.Lists() == old(graph.Lists()) && graph.Depths() == old(graph.Depths())
    ensures visits == Traverse(graph.Lists(), graph.Depths(), root).visits && VisitedIds(visits) == graph.nodes.Keys
  {
    ghost var adj, depth := graph.Lists(), graph.Depths();
    visits := graph.EachBFS(root);
    assert graph.Lists() == adj;
    assert graph.State([], visits) == Traverse(adj, depth, root);
    TraversedAgain(adj, depth0, depth, root, visits);
  }

  method MeasureTwice(graph: Objects.NodeGraph, root: Id) returns (first: seq<Visit>, second: seq<Visit>)
    requires graph.Valid() && IsTree(graph.Lists()) && root in graph.nodes
    modifies graph.nodes.Values`flag, graph.nodes.Values`depth
    ensures graph.Valid() && graph.Lists() == old(graph.Lists())
    ensures graph.Depths() == Traverse(graph.Lists(), AtZero(old(graph.Depths()), root), root).depth
    ensures second == Traverse(graph.Lists(), graph.Depths(), root).visits
    ensures VisitedIds(first) == VisitedIds(second) == graph.nodes.Keys
  {
    ghost var depth0 := AtZero(graph.Depths(), root);
    first := MeasureGraph(graph, root);
    second := MeasureGraphAgain(graph, root, depth0);
  }
}
