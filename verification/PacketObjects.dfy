/** Packets as objects: setters, the queue-based search and the printer. */
module PacketObjects {
  import opened Options
  import opened PacketTree
  import opened PacketText
  import TextUtils
  import Collections

  class Packet {
    const name: Option<string>
    const value: string
    var attributes: Attributes
    var children: seq<Packet>

    constructor (name: string, xmlns: Option<string>)
      ensures this.name == Some(name) && children == []
      ensures attributes == if xmlns.None? then map[] else map["xmlns" := xmlns]
    {
      this.name := Some(name);
      value := "";
      attributes := if xmlns.None? then map[] else map["xmlns" := xmlns];
      children := [];
    }

    /** TextPacket */
    constructor OfText(value: string)
      ensures name == None && this.value == value && attributes == map[] && children == []
    {
      name := None;
      this.value := value;
      attributes := map[];
      children := [];
    }

    method AddChild(child: Packet)
      modifies this`children
      ensures children == old(children) + [child]
    {
      children := children + [child];
    }

    method AddNewChild(name: string, xmlns: Option<string>) returns (child: Packet)
      modifies this`children
      ensures fresh(child) && children == old(children) + [child]
      ensures Represents(child, Element(name, if xmlns.None? then map[] else map["xmlns" := xmlns], []), {child})
    {
      child := new Packet(name, xmlns);
      children := children + [child];
    }

    method SetAttribute(key: string, value: Option<string>)
      modifies this`attributes
      ensures attributes == old(attributes)[key := value]
    {
      attributes := attributes[key := value];
    }

    method SetText(text: Option<string>)
      modifies this`children
      ensures text == None ==> children == []
      ensures text.Some? ==>
        |children| == 1 && fresh(children[0]) && Represents(children[0], Text(text.value), {children[0]})
    {
      children := [];
      if text.Some? {
        var child := new Packet.OfText(text.value);
        children := children + [child];
      }
    }

    /** The first occurrence is taken out. */
    method RemoveChild(child: Packet) returns (removed: bool)
      modifies this`children
      ensures removed <==> child in old(children)
      ensures !removed ==> children == old(children)
      ensures removed ==> WithoutFirst(old(children), child, children)
    {
      for i := 0 to |children|
        invariant child !in children[..i] && children == old(children)
      {
        if children[i] == child {
          children := children[..i] + children[i + 1..];
          return true;
        }
      }
      return false;
    }

    method GetText(ghost t: Node, ghost all: set<Packet>) returns (text: Option<string>)
      requires Represents(this, t, all) && t.Element?
      ensures text == TextOf(t.children)
    {
      for i := 0 to |children|
        invariant TextOf(t.children) == TextOf(t.children[i..])
      {
        assert Represents(children[i], t.children[i], all);
        if children[i].name == None {
          return Some(TextUtils.Unescape(children[i].value));
        }
      }
      return None;
    }

    method GetFirstChildInDeep(filter: Filter, ghost t: Node, ghost all: set<Packet>) returns (found: Packet?)
      requires Represents(this, t, all)
      ensures IsFound(found, FirstInDeep(t, filter), this, t, all)
    {
      var queue := new PacketQueue();
      queue.Add(this);
      found := Bfs(queue, filter, this, t, all, [[]]);
    }
  }

  class PacketQueue {
    var packets: seq<Packet>

    constructor ()
      ensures packets == []
    {
      packets := [];
    }

    method Add(packet: Packet)
      modifies this
      ensures packets == old(packets) + [packet]
    {
      packets := packets + [packet];
    }

    method Poll() returns (packet: Packet)
      requires packets != []
      modifies this
      ensures packet == old(packets)[0] && packets == old(packets)[1..]
    {
      packet := packets[0];
      packets := packets[1..];
    }

    method AddAll(more: seq<Packet>)
      modifies this
      ensures packets == old(packets) + more
    {
      packets := packets + more;
    }
  }

  ghost predicate WithoutFirst(before: seq<Packet>, child: Packet, after: seq<Packet>) {
    exists i :: 0 <= i < |before| && before[i] == child && child !in before[..i]
      && after == before[..i] + before[i + 1..]
  }

  /** The packet is the root of the tree, all of whose packets are in `all`. */
  ghost predicate Represents(packet: Packet, t: Node, all: set<Packet>)
    reads all
    decreases t
  {
    && packet in all && packet.name == NameOf(t) && packet.attributes == AttributesOf(t)
    && (t.Text? ==> packet.value == t.value)
    && |packet.children| == |ChildrenOf(t)|
    && forall i :: 0 <= i < |packet.children| ==> Represents(packet.children[i], ChildrenOf(t)[i], all)
  }

  ghost function ObjectAt(root: Packet, t: Node, all: set<Packet>, p: Path): (packet: Packet)
    requires Represents(root, t, all) && IsPath(t, p)
    reads all
    ensures Represents(packet, At(t, p), all)
    decreases p
  {
    if p == [] then root else ObjectAt(root.children[p[0]], ChildrenOf(t)[p[0]], all, p[1..])
  }

  lemma {:induction false} ObjectAtChild(root: Packet, t: Node, all: set<Packet>, p: Path, k: nat)
    requires Represents(root, t, all) && IsPath(t, p + [k])
    ensures IsPath(t, p) && k < |ObjectAt(root, t, all, p).children|
    ensures ObjectAt(root, t, all, p + [k]) == ObjectAt(root, t, all, p).children[k]
    decreases p
  {
    AtChild(t, p, k);
    if p == [] {
      assert [k][1..] == [];
    } else {
      assert (p + [k])[1..] == p[1..] + [k];
      ObjectAtChild(root.children[p[0]], ChildrenOf(t)[p[0]], all, p[1..], k);
    }
  }

  ghost predicate Queued(packets: seq<Packet>, root: Packet, t: Node, all: set<Packet>, paths: seq<Path>)
    requires Represents(root, t, all)
    reads all
  {
    && ArePaths(t, paths) && |packets| == |paths|
    && forall i :: 0 <= i < |paths| ==> packets[i] == ObjectAt(root, t, all, paths[i])
  }

  lemma QueuedChild(packet: Packet, root: Packet, t: Node, all: set<Packet>, p: Path, k: nat)
    requires Represents(root, t, all) && IsPath(t, p) && packet == ObjectAt(root, t, all, p)
    requires k < |packet.children|
    ensures IsPath(t, p + [k]) && packet.children[k] == ObjectAt(root, t, all, p + [k])
  {
    assert Represents(packet, At(t, p), all);
    AtChild(t, p, k);
    ObjectAtChild(root, t, all, p, k);
  }

  lemma QueuedOn(packets: seq<Packet>, root: Packet, t: Node, all: set<Packet>, paths: seq<Path>)
    requires Represents(root, t, all) && Queued(packets, root, t, all, paths) && packets != []
    ensures Represents(packets[0], At(t, paths[0]), all)
    ensures Queued(packets[1..] + packets[0].children, root, t, all, Rest(t, paths))
  {
    var current, p := packets[0], paths[0];
    assert current == ObjectAt(root, t, all, p);
    forall k | 0 <= k < |current.children|
      ensures IsPath(t, p + [k]) && current.children[k] == ObjectAt(root, t, all, p + [k])
    {
      QueuedChild(current, root, t, all, p, k);
    }
    QueuedTogether(packets[1..], current.children, root, t, all, paths[1..], ChildPaths(t, p));
  }

  lemma QueuedTogether(a: seq<Packet>, b: seq<Packet>, root: Packet, t: Node, all: set<Packet>, p: seq<Path>,
                       q: seq<Path>)
    requires Represents(root, t, all) && Queued(a, root, t, all, p) && Queued(b, root, t, all, q)
    ensures Queued(a + b, root, t, all, p + q)
  {
    forall i | 0 <= i < |p + q|
      ensures IsPath(t, (p + q)[i]) && (a + b)[i] == ObjectAt(root, t, all, (p + q)[i])
    {
      if i < |p| {
        assert (p + q)[i] == p[i] && (a + b)[i] == a[i];
      } else {
        assert (p + q)[i] == q[i - |p|] && (a + b)[i] == b[i - |p|];
      }
    }
  }

  /** What bfs returns; null stands for the program's empty packet. */
  ghost predicate IsFound(found: Packet?, place: Option<Path>, root: Packet, t: Node, all: set<Packet>)
    requires Represents(root, t, all)
    reads all
  {
    match place
    case None => found == null
    case Some(p) => IsPath(t, p) && found == ObjectAt(root, t, all, p)
  }

  /** AbstractPacket.bfs */
  method Bfs(queue: PacketQueue, filter: Filter, ghost root: Packet, ghost t: Node, ghost all: set<Packet>,
             ghost paths: seq<Path>) returns (found: Packet?)
    requires Represents(root, t, all) && Queued(queue.packets, root, t, all, paths)
    modifies queue
    ensures Represents(root, t, all) && IsFound(found, Search(t, paths, filter), root, t, all)
    decreases Sizes(Nodes(t, paths))
  {
    if |queue.packets| == 0 {
      return null;
    }
    QueuedOn(queue.packets, root, t, all, paths);
    RestIsSmaller(t, paths);
    var current := queue.Poll();
    if filter(current.name, current.attributes) {
      return current;
    }
    queue.AddAll(current.children);
    found := Bfs(queue, filter, root, t, all, Rest(t, paths));
  }

  // ---------------------------------------------------------------- printing

  lemma PrintAttributesMore(attributes: seq<Attribute>, a: Attribute)
    ensures PrintAttributes(attributes + [a]) == PrintAttributes(attributes) + PrintAttribute(a)
  {
    if attributes == [] {
      assert attributes + [a] == [a];
      assert [a][1..] == [];
    } else {
      assert (attributes + [a])[1..] == attributes[1..] + [a];
      PrintAttributesMore(attributes[1..], a);
    }
  }

  /** `printed` lists the attributes of `attributes` outside `rest`, each once. */
  ghost predicate Listed(printed: seq<Attribute>, attributes: Attributes, rest: set<string>) {
    && AsMap(printed) == Present(attributes) - rest
    && (forall i :: 0 <= i < |printed| ==> printed[i].key in attributes && printed[i].key !in rest)
    && forall i, j :: 0 <= i < j < |printed| ==> printed[i].key != printed[j].key
  }

  lemma ListedMore(printed: seq<Attribute>, attributes: Attributes, rest: set<string>, key: string)
    requires Listed(printed, attributes, rest) && key in rest && key in attributes
    ensures attributes[key].None? ==> Listed(printed, attributes, rest - {key})
    ensures attributes[key].Some? ==>
      Listed(printed + [Attribute(key, attributes[key].value)], attributes, rest - {key})
  {
    if attributes[key].Some? {
      var a := Attribute(key, attributes[key].value);
      assert (printed + [a])[..|printed|] == printed;
      assert AsMap(printed + [a]) == AsMap(printed)[key := a.value];
    }
    assert Present(attributes) - (rest - {key})
      == if attributes[key].Some? then (Present(attributes) - rest)[key := attributes[key].value]
         else Present(attributes) - rest;
  }

  /** The attributes in the order in which a map happens to list its keys. */
  method RenderAttributes(attributes: Attributes, buffer: string) returns (out: string, ghost printed: seq<Attribute>)
    ensures out == buffer + PrintAttributes(printed) && Listed(printed, attributes, {})
  {
    out, printed := buffer, [];
    var rest := attributes.Keys;
    while rest != {}
      invariant rest <= attributes.Keys
      invariant out == buffer + PrintAttributes(printed) && Listed(printed, attributes, rest)
      decreases rest
    {
      ghost var any := Collections.Pick(rest);
      var key :| key in rest;
      var value := attributes[key];
      ListedMore(printed, attributes, rest, key);
      if value.Some? {
        ghost var a := Attribute(key, value.value);
        PrintAttributesMore(printed, a);
        out := RenderAttribute(key, value.value, out);
        TextUtils.Regroup(buffer, PrintAttributes(printed), PrintAttribute(a));
        printed := printed + [a];
      }
      rest := rest - {key};
    }
  }

  method RenderAttribute(key: string, value: string, buffer: string) returns (out: string)
    ensures out == buffer + PrintAttribute(Attribute(key, value))
  {
    out := buffer + " " + key + "=\"";
    out := out + TextUtils.Escape(value) + "\"";
  }

  lemma PrintedDoc(buffer: string, name: string, printed: seq<Attribute>, content: Content)
    ensures buffer + "<" + name + PrintAttributes(printed) + PrintContent(content, name)
      == buffer + Print(Doc(name, printed, content))
  {
    Regroup5(buffer, "<", name, PrintAttributes(printed), PrintContent(content, name));
    Regroup4("<", name, PrintAttributes(printed), PrintContent(content, name));
  }

  /** PacketRenderer.toString, which appends to a buffer. */
  method Render(root: Packet, buffer: string, ghost t: Node, ghost all: set<Packet>) returns (out: string, ghost d: Doc)
    requires Represents(root, t, all) && t.Element?
    ensures out == buffer + Print(d)
    ensures OnceEach(d) && Forget(d) == SeenOf(t)
    decreases t, 1
  {
    var name := root.name.value;
    out := buffer + "<" + name;
    ghost var printed, content;
    out, printed := RenderAttributes(root.attributes, out);
    out, content := RenderContent(root, name, out, t, all);
    PrintedDoc(buffer, name, printed, content);
    d := Doc(name, printed, content);
  }

  /** The second half of the printer. */
  method RenderContent(root: Packet, name: string, buffer: string, ghost t: Node, ghost all: set<Packet>)
    returns (out: string, ghost content: Content)
    requires Represents(root, t, all) && t.Element?
    ensures out == buffer + PrintContent(content, name)
    ensures OnceInside(content) && ForgetContent(content) == SeenContentOf(t.children)
    decreases t, 0
  {
    var text := root.GetText(t, all);
    if text.Some? {
      out := RenderWords(text.value, name, buffer);
      content := Words(text.value);
    } else if |root.children| > 0 {
      ghost var docs;
      out, docs := RenderAll(root.children, buffer + ">", t.children, all);
      content := Parts(docs);
      Regroup4(buffer, ">", PrintAll(docs), Closing(name));
      out := out + Closing(name);
    } else {
      content := Parts([]);
      out := buffer + " />";
    }
  }

  method RenderWords(text: string, name: string, buffer: string) returns (out: string)
    ensures out == buffer + PrintContent(Words(text), name)
  {
    out := buffer + ">";
    out := out + TextUtils.Escape(text);
    out := out + Closing(name);
    Regroup4(buffer, ">", TextUtils.Escape(text), Closing(name));
  }

  lemma {:induction false} NoTexts(nodes: seq<Node>)
    requires TextOf(nodes) == None
    ensures |AllSeen(nodes)| == |nodes|
    ensures forall i :: 0 <= i < |nodes| ==> nodes[i].Element? && AllSeen(nodes)[i] == SeenOf(nodes[i])
  {
    if nodes != [] {
      NoTexts(nodes[1..]);
    }
  }

  lemma {:induction false} OneMoreDoc(docs: seq<Doc>, d: Doc)
    ensures ForgetAll(docs + [d]) == ForgetAll(docs) + [Forget(d)]
    ensures AllOnceEach(docs) && OnceEach(d) ==> AllOnceEach(docs + [d])
    ensures PrintAll(docs + [d]) == PrintAll(docs) + Print(d)
    decreases |docs|
  {
    if docs == [] {
      OneDoc(d);
      assert docs + [d] == [d];
    } else {
      assert (docs + [d])[1..] == docs[1..] + [d];
      OneMoreDoc(docs[1..], d);
      TextUtils.Regroup(Print(docs[0]), PrintAll(docs[1..]), Print(d));
    }
  }

  lemma OneDoc(d: Doc)
    ensures ForgetAll([d]) == [Forget(d)] && PrintAll([d]) == Print(d)
    ensures OnceEach(d) ==> AllOnceEach([d])
  {
    assert [d][1..] == [];
    assert Print(d) + "" == Print(d);
    assert PrintAll([d]) == Print([d][0]) + PrintAll([d][1..]);
    assert ForgetAll([d]) == [Forget([d][0])] + ForgetAll([d][1..]);
  }

  /** The loop over the children. */
  method RenderAll(children: seq<Packet>, buffer: string, ghost nodes: seq<Node>, ghost all: set<Packet>)
    returns (out: string, ghost docs: seq<Doc>)
    requires |children| == |nodes| && forall i :: 0 <= i < |nodes| ==> Represents(children[i], nodes[i], all)
    requires TextOf(nodes) == None
    ensures out == buffer + PrintAll(docs) && (nodes != [] ==> docs != [])
    ensures AllOnceEach(docs) && ForgetAll(docs) == AllSeen(nodes)
    decreases nodes, 0
  {
    out, docs := buffer, [];
    ghost var seen := AllSeen(nodes);
    NoTexts(nodes);
    for i := 0 to |children|
      invariant out == buffer + PrintAll(docs) && (i > 0 ==> docs != [])
      invariant AllOnceEach(docs) && ForgetAll(docs) == seen[..i]
    {
      ghost var d;
      out, d := Render(children[i], out, nodes[i], all);
      OneMoreDoc(docs, d);
      TextUtils.Regroup(buffer, PrintAll(docs), Print(d));
      Collections.OneMore(seen, i);
      docs := docs + [d];
    }
    Collections.AllOf(seen);
  }

  /** toString prints the packet. */
  method ToString(packet: Packet, ghost t: Node, ghost all: set<Packet>) returns (s: string)
    requires Represents(packet, t, all) && t.Element?
    ensures IsPrinted(t, s)
  {
    ghost var d;
    s, d := Render(packet, "", t, all);
    assert "" + Print(d) == Print(d);
  }
}
