/** The breadth-first search in a tree of packets. */
module PacketTree {
  // Packet trees as values, and the order in which the breadth-first search of
  // `AbstractPacket` finds a packet.

  import opened Options
  import TextUtils

  /** Attributes may be set to null. */
  type Attributes = map<string, Option<string>>

  /** A text packet has no name. */
  datatype Node =
    | Element(name: string, attributes: Attributes, children: seq<Node>)
    | Text(value: string)

  function NameOf(t: Node): Option<string> {
    match t
    case Element(name, _, _) => Some(name)
    case Text(_) => None
  }

  function AttributesOf(t: Node): Attributes {
    match t
    case Element(_, attributes, _) => attributes
    case Text(_) => map[]
  }

  function ChildrenOf(t: Node): seq<Node> {
    match t
    case Element(_, _, children) => children
    case Text(_) => []
  }

  /** Packet.getText: the first text child, unescaped. */
  function TextOf(children: seq<Node>): Option<string> {
    if children == [] then None
    else if children[0].Text? then Some(TextUtils.Unescape(children[0].value))
    else TextOf(children[1..])
  }

  /** A matcher looks at the name and the attributes. */
  type Filter = (Option<string>, Attributes) -> bool

  predicate Matches(t: Node, filter: Filter) {
    filter(NameOf(t), AttributesOf(t))
  }

  // ---------------------------------------------------------------- places in a tree

  /** The indices that lead from the root to a packet. */
  type Path = seq<nat>

  predicate IsPath(t: Node, p: Path) {
    p == [] || (p[0] < |ChildrenOf(t)| && IsPath(ChildrenOf(t)[p[0]], p[1..]))
  }

  function At(t: Node, p: Path): Node
    requires IsPath(t, p)
  {
    if p == [] then t else At(ChildrenOf(t)[p[0]], p[1..])
  }

  /** Paths of one length from left to right. */
  predicate LeftOf(p: Path, q: Path) {
    && |p| == |q| && p != []
    && var n := |p| - 1; LeftOf(p[..n], q[..n]) || (p[..n] == q[..n] && p[n] < q[n])
  }

  /** Level order: less deep, or at the same depth further left. */
  predicate Before(p: Path, q: Path) {
    |p| < |q| || LeftOf(p, q)
  }

  lemma {:induction false} LeftOfTransitive(p: Path, q: Path, r: Path)
    requires LeftOf(p, q) && LeftOf(q, r)
    ensures LeftOf(p, r)
    decreases |p|
  {
    var n := |p| - 1;
    if LeftOf(p[..n], q[..n]) && LeftOf(q[..n], r[..n]) {
      LeftOfTransitive(p[..n], q[..n], r[..n]);
    }
  }

  lemma {:induction false} LeftOfIrreflexive(p: Path)
    ensures !LeftOf(p, p)
    decreases |p|
  {
    if p != [] {
      LeftOfIrreflexive(p[..|p| - 1]);
    }
  }

  lemma {:induction false} AtChild(t: Node, p: Path, k: nat)
    ensures IsPath(t, p + [k]) <==> IsPath(t, p) && k < |ChildrenOf(At(t, p))|
    ensures IsPath(t, p + [k]) ==> At(t, p + [k]) == ChildrenOf(At(t, p))[k]
    decreases |p|
  {
    if p == [] {
      assert [k][1..] == [];
    } else {
      assert (p + [k])[1..] == p[1..] + [k];
      if p[0] < |ChildrenOf(t)| {
        AtChild(ChildrenOf(t)[p[0]], p[1..], k);
      }
    }
  }

  // ---------------------------------------------------------------- the search

  function ChildPaths(t: Node, p: Path): (paths: seq<Path>)
    requires IsPath(t, p)
    ensures |paths| == |ChildrenOf(At(t, p))| && forall k :: 0 <= k < |paths| ==> paths[k] == p + [k]
  {
    seq(|ChildrenOf(At(t, p))|, k requires 0 <= k => p + [k])
  }

  ghost predicate ArePaths(t: Node, queue: seq<Path>) {
    forall i :: 0 <= i < |queue| ==> IsPath(t, queue[i])
  }

  /** The number of packets of a tree. */
  function Size(t: Node): (n: nat)
    ensures n >= 1
  {
    match t
    case Element(_, _, children) => 1 + Sizes(children)
    case Text(_) => 1
  }

  function Sizes(nodes: seq<Node>): nat {
    if nodes == [] then 0 else Size(nodes[0]) + Sizes(nodes[1..])
  }

  function Nodes(t: Node, queue: seq<Path>): (nodes: seq<Node>)
    requires ArePaths(t, queue)
    ensures |nodes| == |queue| && forall i :: 0 <= i < |queue| ==> nodes[i] == At(t, queue[i])
  {
    if queue == [] then [] else [At(t, queue[0])] + Nodes(t, queue[1..])
  }

  lemma {:induction false} SizesConcat(a: seq<Node>, b: seq<Node>)
    ensures Sizes(a + b) == Sizes(a) + Sizes(b)
  {
    if a == [] {
      assert a + b == b;
    } else {
      assert (a + b)[1..] == a[1..] + b;
      SizesConcat(a[1..], b);
    }
  }

  /** Where the search stands: `queue` is still to be looked at. */
  function Rest(t: Node, queue: seq<Path>): (rest: seq<Path>)
    requires ArePaths(t, queue) && queue != []
    ensures ArePaths(t, rest)
  {
    var rest := queue[1..] + ChildPaths(t, queue[0]);
    assert ArePaths(t, rest) by {
      forall i | 0 <= i < |rest|
        ensures IsPath(t, rest[i])
      {
        if i >= |queue| - 1 {
          AtChild(t, queue[0], i - (|queue| - 1));
        }
      }
    }
    rest
  }

  lemma NodesConcat(t: Node, a: seq<Path>, b: seq<Path>)
    requires ArePaths(t, a) && ArePaths(t, b)
    ensures ArePaths(t, a + b) && Nodes(t, a + b) == Nodes(t, a) + Nodes(t, b)
  {
    forall i | 0 <= i < |a + b|
      ensures IsPath(t, (a + b)[i]) && At(t, (a + b)[i]) == (Nodes(t, a) + Nodes(t, b))[i]
    {
      if i < |a| {
        assert (a + b)[i] == a[i];
      } else {
        assert (a + b)[i] == b[i - |a|];
      }
    }
  }

  lemma ChildNodes(t: Node, p: Path)
    requires IsPath(t, p)
    ensures ArePaths(t, ChildPaths(t, p)) && Nodes(t, ChildPaths(t, p)) == ChildrenOf(At(t, p))
  {
    var children := ChildPaths(t, p);
    forall k | 0 <= k < |children|
      ensures IsPath(t, children[k]) && At(t, children[k]) == ChildrenOf(At(t, p))[k]
    {
      AtChild(t, p, k);
    }
  }

  /** Why the search ends: the packet taken from the queue is replaced by its parts. */
  lemma RestIsSmaller(t: Node, queue: seq<Path>)
    requires ArePaths(t, queue) && queue != []
    ensures Sizes(Nodes(t, Rest(t, queue))) == Sizes(Nodes(t, queue)) - 1
    ensures Nodes(t, Rest(t, queue)) == Nodes(t, queue)[1..] + ChildrenOf(At(t, queue[0]))
  {
    ChildNodes(t, queue[0]);
    NodesConcat(t, queue[1..], ChildPaths(t, queue[0]));
    SizesConcat(Nodes(t, queue)[1..], ChildrenOf(At(t, queue[0])));
  }

  lemma RestAt(t: Node, queue: seq<Path>, i: nat)
    requires ArePaths(t, queue) && queue != [] && i < |Rest(t, queue)|
    ensures Rest(t, queue)[i] == if i < |queue| - 1 then queue[i + 1] else queue[0] + [i - (|queue| - 1)]
  {
  }

  /** bfs: the path of the packet found. */
  function Search(t: Node, queue: seq<Path>, filter: Filter): Option<Path>
    requires ArePaths(t, queue)
    decreases Sizes(Nodes(t, queue))
  {
    if queue == [] then None
    else if Matches(At(t, queue[0]), filter) then Some(queue[0])
    else
      RestIsSmaller(t, queue);
      Search(t, Rest(t, queue), filter)
  }

  // ---------------------------------------------------------------- what it finds

  predicate Below(p: Path, q: Path) {
    |p| <= |q| && q[..|p|] == p
  }

  /** The queue is in level order, its second level hanging from packets left of its head. */
  ghost predicate InOrder(queue: seq<Path>) {
    && (forall i, j :: 0 <= i < j < |queue| ==> Before(queue[i], queue[j]))
    && (forall i :: 0 <= i < |queue| ==> Bounded(queue[0], queue[i]))
  }

  predicate Bounded(head: Path, p: Path) {
    |p| <= |head| || (|p| == |head| + 1 && LeftOf(p[..|head|], head))
  }

  /** Every packet that matches is in the queue or below a packet of the queue. */
  ghost predicate NoneMissed(t: Node, queue: seq<Path>, filter: Filter) {
    forall q :: IsPath(t, q) && Matches(At(t, q), filter) ==> Pending(queue, q)
  }

  ghost predicate Pending(queue: seq<Path>, q: Path) {
    exists i :: 0 <= i < |queue| && Below(queue[i], q)
  }

  lemma RestInOrder(t: Node, queue: seq<Path>)
    requires ArePaths(t, queue) && queue != [] && InOrder(queue)
    ensures InOrder(Rest(t, queue))
  {
    var rest, p, n := Rest(t, queue), queue[0], |queue| - 1;
    forall i, j | 0 <= i < j < |rest|
      ensures Before(rest[i], rest[j])
    {
      OrderedPair(t, queue, i, j);
    }
    forall i | 0 <= i < |rest|
      ensures Bounded(rest[0], rest[i])
    {
      StillBounded(t, queue, i);
    }
  }

  lemma OrderedPair(t: Node, queue: seq<Path>, i: nat, j: nat)
    requires ArePaths(t, queue) && queue != [] && InOrder(queue) && i < j < |Rest(t, queue)|
    ensures Before(Rest(t, queue)[i], Rest(t, queue)[j])
  {
    var rest, p, n := Rest(t, queue), queue[0], |queue| - 1;
    RestAt(t, queue, i);
    RestAt(t, queue, j);
    if j >= n {
      if i < n {
        LeftChild(queue[i + 1], p, j - n);
      } else {
        SiblingsInOrder(p, i - n, j - n);
      }
    }
  }

  lemma LeftChild(x: Path, p: Path, k: nat)
    requires Bounded(p, x)
    ensures Before(x, p + [k])
  {
    assert (p + [k])[..|p|] == p;
  }

  lemma SiblingsInOrder(p: Path, k: nat, l: nat)
    requires k < l
    ensures Before(p + [k], p + [l])
  {
    assert (p + [k])[..|p|] == p && (p + [l])[..|p|] == p;
  }

  lemma StillBounded(t: Node, queue: seq<Path>, i: nat)
    requires ArePaths(t, queue) && queue != [] && InOrder(queue) && i < |Rest(t, queue)|
    ensures Bounded(Rest(t, queue)[0], Rest(t, queue)[i])
  {
    var rest, p, n := Rest(t, queue), queue[0], |queue| - 1;
    assert i < n ==> rest[i] == queue[i + 1] && Bounded(p, queue[i + 1]);
    assert i >= n ==> rest[i] == p + [i - n] && rest[i][..|p|] == p;
    if n > 0 {
      assert rest[0] == queue[1] && Before(p, queue[1]) && Bounded(p, queue[1]);
      NextBounded(p, queue[1], rest[i]);
    } else {
      assert rest[0] == p + [0];
    }
  }

  lemma NextBounded(p: Path, next: Path, x: Path)
    requires Before(p, next) && Bounded(p, next)
    requires Bounded(p, x) || (|x| == |p| + 1 && x[..|p|] == p)
    ensures Bounded(next, x)
  {
    if |next| == |p| && |x| == |p| + 1 && LeftOf(x[..|p|], p) {
      LeftOfTransitive(x[..|p|], p, next);
    }
  }

  lemma RestMissesNone(t: Node, queue: seq<Path>, filter: Filter)
    requires ArePaths(t, queue) && queue != [] && NoneMissed(t, queue, filter) && !Matches(At(t, queue[0]), filter)
    ensures NoneMissed(t, Rest(t, queue), filter)
  {
    var rest, p, n := Rest(t, queue), queue[0], |queue| - 1;
    forall q | IsPath(t, q) && Matches(At(t, q), filter)
      ensures Pending(rest, q)
    {
      assert Pending(queue, q);
      var i :| 0 <= i < |queue| && Below(queue[i], q);
      if i > 0 {
        assert rest[i - 1] == queue[i];
      } else {
        assert q != p;
        ThroughChild(t, p, q);
        assert rest[n + q[|p|]] == p + [q[|p|]];
      }
    }
  }

  /** A path further down leads through a child. */
  lemma {:induction false} ThroughChild(t: Node, p: Path, q: Path)
    requires IsPath(t, p) && IsPath(t, q) && Below(p, q) && p != q
    ensures |p| < |q| && q[|p|] < |ChildrenOf(At(t, p))| && Below(p + [q[|p|]], q)
    decreases |p|
  {
    if p != [] {
      assert q[0] == p[0] && q[1..][..|p| - 1] == p[1..];
      ThroughChild(ChildrenOf(t)[p[0]], p[1..], q[1..]);
    }
    assert q[..|p| + 1] == p + [q[|p|]];
  }

  /** The first match in level order, if there is one. */
  ghost predicate IsFirstMatch(t: Node, filter: Filter, found: Option<Path>) {
    match found
    case None => forall q :: IsPath(t, q) ==> !Matches(At(t, q), filter)
    case Some(p) =>
      && IsPath(t, p) && Matches(At(t, p), filter)
      && forall q :: IsPath(t, q) && Matches(At(t, q), filter) && q != p ==> Before(p, q)
  }

  lemma HeadIsFirst(t: Node, queue: seq<Path>, filter: Filter, q: Path)
    requires ArePaths(t, queue) && queue != [] && InOrder(queue) && NoneMissed(t, queue, filter)
    requires IsPath(t, q) && Matches(At(t, q), filter) && q != queue[0]
    ensures Before(queue[0], q)
  {
    assert Pending(queue, q);
    var i :| 0 <= i < |queue| && Below(queue[i], q);
    if i > 0 && |q| == |queue[0]| {
      assert Before(queue[0], queue[i]);
      assert queue[i] == q;
    }
  }

  lemma {:induction false} SearchFinds(t: Node, queue: seq<Path>, filter: Filter)
    requires ArePaths(t, queue) && InOrder(queue) && NoneMissed(t, queue, filter)
    ensures IsFirstMatch(t, filter, Search(t, queue, filter))
    decreases Sizes(Nodes(t, queue))
  {
    if queue == [] {
    } else if Matches(At(t, queue[0]), filter) {
      forall q | IsPath(t, q) && Matches(At(t, q), filter) && q != queue[0]
        ensures Before(queue[0], q)
      {
        HeadIsFirst(t, queue, filter, q);
      }
    } else {
      RestIsSmaller(t, queue);
      RestInOrder(t, queue);
      RestMissesNone(t, queue, filter);
      SearchFinds(t, Rest(t, queue), filter);
    }
  }

  /** getFirstChildInDeep, which starts with the packet itself. */
  function FirstInDeep(t: Node, filter: Filter): Option<Path> {
    Search(t, [[]], filter)
  }

  /** Main result: the search returns the first match in level order, the packet itself
      included, and nothing exactly when nothing in the tree matches. */
  lemma FirstInLevelOrder(t: Node, filter: Filter)
    ensures IsFirstMatch(t, filter, FirstInDeep(t, filter))
  {
    forall q | IsPath(t, q) && Matches(At(t, q), filter)
      ensures Pending([[]], q)
    {
      assert Below([[]][0], q);
    }
    SearchFinds(t, [[]], filter);
  }

  /** Level order is a strict order, so there is only one first match. */
  lemma OnlyOneFirst(t: Node, filter: Filter, a: Option<Path>, b: Option<Path>)
    requires IsFirstMatch(t, filter, a) && IsFirstMatch(t, filter, b)
    ensures a == b
  {
    if a.Some? && b.Some? && a != b {
      assert Before(a.value, b.value) && Before(b.value, a.value);
      LeftOfTransitive(a.value, b.value, a.value);
      LeftOfIrreflexive(a.value);
    }
  }
}
