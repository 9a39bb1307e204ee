/** Printing packets, and reading back. */
module PacketText {
  // The printed form of packets, and a reader that recovers a packet from it.

  import opened Options
  import opened TextUtils
  import opened PacketTree

  /** What is printed of a packet, its attributes in the order in which they appear. */
  datatype Doc = Doc(name: string, attributes: seq<Attribute>, content: Content)
  datatype Attribute = Attribute(key: string, value: string)
  datatype Content = Words(text: string) | Parts(docs: seq<Doc>)

  function Print(d: Doc): string
    decreases d, 1
  {
    "<" + d.name + PrintAttributes(d.attributes) + PrintContent(d.content, d.name)
  }

  function PrintAttributes(attributes: seq<Attribute>): string {
    if attributes == [] then "" else PrintAttribute(attributes[0]) + PrintAttributes(attributes[1..])
  }

  function PrintAttribute(a: Attribute): string {
    " " + a.key + "=\"" + Escape(a.value) + "\""
  }

  function Closing(name: string): string {
    "</" + name + ">"
  }

  function PrintContent(c: Content, name: string): string
    decreases c, 0
  {
    match c
    case Words(text) => ">" + Escape(text) + Closing(name)
    case Parts(docs) => if docs == [] then " />" else ">" + PrintAll(docs) + Closing(name)
  }

  function PrintAll(docs: seq<Doc>): string
    decreases docs, 0
  {
    if docs == [] then "" else Print(docs[0]) + PrintAll(docs[1..])
  }

  // ---------------------------------------------------------------- plain names

  predicate IsPlainChar(c: char) {
    c !in {' ', '>', '<', '/', '=', '\"', '\'', '&'}
  }

  predicate IsPlain(s: string) {
    s != "" && forall i :: 0 <= i < |s| ==> IsPlainChar(s[i])
  }

  predicate PlainDoc(d: Doc)
    decreases d, 1
  {
    && IsPlain(d.name)
    && (forall i :: 0 <= i < |d.attributes| ==> IsPlain(d.attributes[i].key))
    && match d.content
       case Words(_) => true
       case Parts(docs) => PlainDocs(docs)
  }

  predicate PlainDocs(docs: seq<Doc>)
    decreases docs, 0
  {
    docs == [] || (PlainDoc(docs[0]) && PlainDocs(docs[1..]))
  }

  // ---------------------------------------------------------------- reading text

  /** The special character whose code starts the string, if there is one. */
  function Code(s: string): (c: Option<char>)
    ensures c.Some? ==> c.value in SPECIAL && StartsWith(s, Entity(c.value))
  {
    if StartsWith(s, "&amp;") then Some('&')
    else if StartsWith(s, "&lt;") then Some('<')
    else if StartsWith(s, "&gt;") then Some('>')
    else if StartsWith(s, "&quot;") then Some('\"')
    else if StartsWith(s, "&#39;") then Some('\'')
    else None
  }

  /** Codes become characters, from left to right. */
  function Decode(s: string): string
    decreases |s|
  {
    if s == "" then ""
    else if Code(s).Some? then [Code(s).value] + Decode(s[|Entity(Code(s).value)|..])
    else [s[0]] + Decode(s[1..])
  }

  lemma StartsAlike(s: string, w: string, i: nat)
    requires i < |w|
    ensures StartsWith(s, w) ==> s[i] == w[i]
  {
    assert StartsWith(s, w) ==> s[..|w|][i] == s[i];
  }

  lemma CodeOfEntity(c: char, x: string)
    requires c in SPECIAL
    ensures Code(Entity(c) + x) == Some(c)
  {
    var s := Entity(c) + x;
    assert s[..|Entity(c)|] == Entity(c);
    assert StartsWith(s, Entity(c));
    forall d | d in SPECIAL && d != c
      ensures !StartsWith(s, Entity(d))
    {
      EntitiesDiffer(c, d);
      assert s[1] == Entity(c)[1];
      StartsAlike(s, Entity(d), 1);
    }
    assert Entity('&') == "&amp;" && Entity('<') == "&lt;" && Entity('>') == "&gt;";
    assert Entity('\"') == "&quot;" && Entity('\'') == "&#39;";
  }

  lemma NoCode(s: string)
    requires s != "" && s[0] != '&'
    ensures Code(s) == None
  {
  }

  lemma {:induction false} DecodeSubstitute(t: string)
    ensures Decode(Substitute(t, SPECIAL)) == t
  {
    if t != "" {
      var s, rest := Substitute(t, SPECIAL), Substitute(t[1..], SPECIAL);
      DecodeSubstitute(t[1..]);
      if t[0] in SPECIAL {
        CodeOfEntity(t[0], rest);
        assert s == Entity(t[0]) + rest;
        assert s[|Entity(t[0])|..] == rest;
      } else {
        assert s == [t[0]] + rest;
        NoCode(s);
        assert s[1..] == rest;
      }
    }
  }

  lemma DecodeEscape(t: string)
    ensures Decode(Escape(t)) == t
  {
    EscapeIsOnePass(t);
    DecodeSubstitute(t);
  }

  // ---------------------------------------------------------------- scanning

  /** The length of the plain text at the start. */
  function PlainLength(s: string): (n: nat)
    ensures n <= |s|
  {
    if s == "" || !IsPlainChar(s[0]) then 0 else 1 + PlainLength(s[1..])
  }

  /** The length of the text before the first `c`. */
  function LengthUntil(s: string, c: char): (n: nat)
    ensures n <= |s|
  {
    if s == "" || s[0] == c then 0 else 1 + LengthUntil(s[1..], c)
  }

  lemma {:induction false} PlainPrefix(a: string, b: string)
    requires forall i :: 0 <= i < |a| ==> IsPlainChar(a[i])
    requires b == "" || !IsPlainChar(b[0])
    ensures PlainLength(a + b) == |a|
  {
    if a == "" {
      assert a + b == b;
    } else {
      assert (a + b)[1..] == a[1..] + b;
      PlainPrefix(a[1..], b);
    }
  }

  lemma {:induction false} PrefixUntil(a: string, b: string, c: char)
    requires c !in a && b != "" && b[0] == c
    ensures LengthUntil(a + b, c) == |a|
  {
    if a == "" {
      assert a + b == b;
    } else {
      assert (a + b)[1..] == a[1..] + b;
      PrefixUntil(a[1..], b, c);
    }
  }

  // ---------------------------------------------------------------- the reader

  datatype Read<T> = Nothing | Got(value: T, rest: string)

  /** `w` is skipped. */
  function Skip(s: string, w: string): (r: Read<()>)
    ensures r.Got? ==> |r.rest| + |w| == |s|
  {
    if StartsWith(s, w) then Got((), s[|w|..]) else Nothing
  }

  function ReadName(s: string): (r: Read<string>)
    ensures r.Got? ==> |r.rest| < |s|
  {
    var n := PlainLength(s);
    if n == 0 then Nothing else Got(s[..n], s[n..])
  }

  /** Escaped text up to the character `c`, which stays. */
  function ReadText(s: string, c: char): (r: Read<string>)
    ensures r.Got? && |r.rest| <= |s|
  {
    var n := LengthUntil(s, c);
    Got(Decode(s[..n]), s[n..])
  }

  function ReadAttribute(s: string): (r: Read<Attribute>)
    ensures r.Got? ==> |r.rest| < |s|
  {
    var blank := Skip(s, " ");
    if blank.Nothing? then Nothing else
    var key := ReadName(blank.rest);
    if key.Nothing? then Nothing else
    var open := Skip(key.rest, "=\"");
    if open.Nothing? then Nothing else
    var value := ReadText(open.rest, '\"');
    var end := Skip(value.rest, "\"");
    if end.Nothing? then Nothing else Got(Attribute(key.value, value.value), end.rest)
  }

  function ReadAttributes(s: string): (r: Read<seq<Attribute>>)
    ensures r.Got? && |r.rest| <= |s|
    decreases |s|
  {
    var first := ReadAttribute(s);
    if first.Nothing? then Got([], s)
    else var more := ReadAttributes(first.rest); Got([first.value] + more.value, more.rest)
  }

  function ReadDoc(s: string): (r: Read<Doc>)
    ensures r.Got? ==> |r.rest| < |s|
    decreases |s|, 1
  {
    var open := Skip(s, "<");
    if open.Nothing? then Nothing else
    var name := ReadName(open.rest);
    if name.Nothing? then Nothing else
    var attributes := ReadAttributes(name.rest);
    var content := ReadContent(attributes.rest, name.value);
    if content.Nothing? then Nothing else Got(Doc(name.value, attributes.value, content.value), content.rest)
  }

  function ReadContent(s: string, name: string): (r: Read<Content>)
    ensures r.Got? ==> |r.rest| <= |s|
    decreases |s|, 0
  {
    if StartsWith(s, " />") then Got(Parts([]), s[3..])
    else if !StartsWith(s, ">") then Nothing
    else
      var body := s[1..];
      if !StartsWith(body, "<") || StartsWith(body, "</") then
        var text := ReadText(body, '<');
        var end := Skip(text.rest, Closing(name));
        if end.Nothing? then Nothing else Got(Words(text.value), end.rest)
      else
        var docs := ReadDocs(body);
        var end := Skip(docs.rest, Closing(name));
        if end.Nothing? then Nothing else Got(Parts(docs.value), end.rest)
  }

  /** Packets one after the other, as many as there are. */
  function ReadDocs(s: string): (r: Read<seq<Doc>>)
    ensures r.Got? && |r.rest| <= |s|
    decreases |s|, 2
  {
    if StartsWith(s, "</") then Got([], s) else
    var first := ReadDoc(s);
    if first.Nothing? then Got([], s)
    else var more := ReadDocs(first.rest); Got([first.value] + more.value, more.rest)
  }

  // ---------------------------------------------------------------- reading what was printed

  lemma SkipsPrefix(w: string, rest: string)
    ensures Skip(w + rest, w) == Got((), rest)
  {
    assert (w + rest)[..|w|] == w && (w + rest)[|w|..] == rest;
  }

  lemma ReadsName(name: string, rest: string)
    requires IsPlain(name) && (rest == "" || !IsPlainChar(rest[0]))
    ensures ReadName(name + rest) == Got(name, rest)
  {
    PlainPrefix(name, rest);
    assert (name + rest)[..|name|] == name && (name + rest)[|name|..] == rest;
  }

  lemma ReadsText(text: string, rest: string, c: char)
    requires c in {'<', '\"'} && rest != "" && rest[0] == c
    ensures ReadText(Escape(text) + rest, c) == Got(text, rest)
  {
    EscapeHides(text);
    PrefixUntil(Escape(text), rest, c);
    var s := Escape(text) + rest;
    assert s[..|Escape(text)|] == Escape(text) && s[|Escape(text)|..] == rest;
    DecodeEscape(text);
  }

  lemma ReadsAttribute(a: Attribute, rest: string)
    requires IsPlain(a.key)
    ensures ReadAttribute(PrintAttribute(a) + rest) == Got(a, rest)
  {
    var s4 := "\"" + rest;
    var s3 := Escape(a.value) + s4;
    var s2 := "=\"" + s3;
    var s1 := a.key + s2;
    RegroupAttribute(" ", a.key, "=\"", Escape(a.value), "\"", rest);
    SkipsPrefix(" ", s1);
    ReadsName(a.key, s2);
    SkipsPrefix("=\"", s3);
    ReadsText(a.value, s4, '\"');
    SkipsPrefix("\"", rest);
    AssemblesAttribute(a, PrintAttribute(a) + rest, s1, s2, s3, s4, rest);
  }

  lemma RegroupAttribute(a: string, b: string, c: string, d: string, e: string, f: string)
    ensures a + b + c + d + e + f == a + (b + (c + (d + (e + f))))
  {
    Regroup5(a, b, c, d, e);
    Regroup5(a + b, c, d, e, f);
    Regroup(a, b, c + (d + (e + f)));
  }

  lemma AssemblesAttribute(a: Attribute, s0: string, s1: string, s2: string, s3: string, s4: string, rest: string)
    requires Skip(s0, " ") == Got((), s1) && ReadName(s1) == Got(a.key, s2) && Skip(s2, "=\"") == Got((), s3)
    requires ReadText(s3, '\"') == Got(a.value, s4) && Skip(s4, "\"") == Got((), rest)
    ensures ReadAttribute(s0) == Got(a, rest)
  {
  }

  lemma Regroup5(a: string, b: string, c: string, d: string, e: string)
    ensures a + b + c + d + e == a + (b + (c + (d + e)))
  {
  }

  /** What follows the attributes does not look like one. */
  predicate EndsAttributes(rest: string) {
    rest == "" || rest[0] != ' ' || (|rest| > 1 && rest[1] == '/')
  }

  lemma ReadsNoAttribute(rest: string)
    requires EndsAttributes(rest)
    ensures ReadAttributes(rest) == Got([], rest)
  {
    StartsAlike(rest, " ", 0);
    if StartsWith(rest, " ") {
      NoName(rest[1..]);
    }
    assert ReadAttribute(rest) == Nothing;
  }

  lemma NoName(s: string)
    requires s == "" || !IsPlainChar(s[0])
    ensures ReadName(s) == Nothing
  {
  }

  lemma ReadsOneMore(a: Attribute, s: string, more: string, others: seq<Attribute>, rest: string)
    requires ReadAttribute(s) == Got(a, more) && ReadAttributes(more) == Got(others, rest)
    ensures ReadAttributes(s) == Got([a] + others, rest)
  {
  }

  lemma {:induction false} ReadsAttributes(attributes: seq<Attribute>, rest: string)
    requires forall i :: 0 <= i < |attributes| ==> IsPlain(attributes[i].key)
    requires EndsAttributes(rest)
    ensures ReadAttributes(PrintAttributes(attributes) + rest) == Got(attributes, rest)
  {
    if attributes == [] {
      assert PrintAttributes(attributes) + rest == rest;
      ReadsNoAttribute(rest);
    } else {
      var first, others := attributes[0], attributes[1..];
      var more := PrintAttributes(others) + rest;
      Regroup(PrintAttribute(first), PrintAttributes(others), rest);
      ReadsAttribute(first, more);
      ReadsAttributes(others, rest);
      ReadsOneMore(first, PrintAttribute(first) + more, more, others, rest);
      assert [first] + others == attributes;
    }
  }

  lemma ContentEndsAttributes(c: Content, name: string, rest: string)
    ensures EndsAttributes(PrintContent(c, name) + rest)
    ensures PrintContent(c, name) + rest == "" || !IsPlainChar((PrintContent(c, name) + rest)[0])
  {
    var s := PrintContent(c, name);
    if c.Parts? && c.docs == [] {
      assert s == " />";
    } else {
      assert s[0] == '>';
    }
  }

  lemma AttributesEndName(attributes: seq<Attribute>, s: string)
    requires s == "" || !IsPlainChar(s[0])
    ensures PrintAttributes(attributes) + s == "" || !IsPlainChar((PrintAttributes(attributes) + s)[0])
  {
    if attributes != [] {
      assert PrintAttribute(attributes[0])[0] == ' ';
    }
  }

  lemma AssemblesDoc(d: Doc, s0: string, s1: string, s2: string, s3: string, rest: string)
    requires Skip(s0, "<") == Got((), s1) && ReadName(s1) == Got(d.name, s2)
    requires ReadAttributes(s2) == Got(d.attributes, s3) && ReadContent(s3, d.name) == Got(d.content, rest)
    ensures ReadDoc(s0) == Got(d, rest)
  {
  }

  lemma {:induction false} ReadsDoc(d: Doc, rest: string)
    requires PlainDoc(d)
    ensures ReadDoc(Print(d) + rest) == Got(d, rest)
    decreases d, 1
  {
    var s3 := PrintContent(d.content, d.name) + rest;
    var s2 := PrintAttributes(d.attributes) + s3;
    var s1 := d.name + s2;
    Regroup5("<", d.name, PrintAttributes(d.attributes), PrintContent(d.content, d.name), rest);
    SkipsPrefix("<", s1);
    ContentEndsAttributes(d.content, d.name, rest);
    AttributesEndName(d.attributes, s3);
    ReadsName(d.name, s2);
    ReadsAttributes(d.attributes, s3);
    ReadsContent(d.content, d.name, rest);
    AssemblesDoc(d, Print(d) + rest, s1, s2, s3, rest);
  }

  lemma {:induction false} ReadsContent(c: Content, name: string, rest: string)
    requires IsPlain(name)
    requires c.Parts? ==> PlainDocs(c.docs)
    ensures ReadContent(PrintContent(c, name) + rest, name) == Got(c, rest)
    decreases c, 0
  {
    if c.Parts? && c.docs == [] {
      ReadsEmpty(name, rest);
    } else if c.Words? {
      ReadsWords(c.text, name, rest);
    } else {
      var end := Closing(name) + rest;
      ReadsDocs(c.docs, end);
      ReadsParts(c.docs, name, rest);
    }
  }

  lemma ReadsEmpty(name: string, rest: string)
    ensures ReadContent(PrintContent(Parts([]), name) + rest, name) == Got(Parts([]), rest)
  {
    SkipsPrefix(" />", rest);
  }

  lemma ReadsWords(text: string, name: string, rest: string)
    ensures ReadContent(PrintContent(Words(text), name) + rest, name) == Got(Words(text), rest)
  {
    var end := Closing(name) + rest;
    var body := Escape(text) + end;
    Regroup4(">", Escape(text), Closing(name), rest);
    Inside(body);
    ReadsText(text, end, '<');
    SkipsPrefix(Closing(name), rest);
    TextLooksLikeText(text, end);
  }

  lemma Regroup4(a: string, b: string, c: string, d: string)
    ensures a + b + c + d == a + (b + (c + d))
  {
  }

  lemma Inside(body: string)
    ensures !StartsWith(">" + body, " />") && StartsWith(">" + body, ">") && (">" + body)[1..] == body
  {
    assert (">" + body)[0] == '>';
    assert (">" + body)[..1] == ">";
    StartsAlike(">" + body, " />", 0);
  }

  lemma TextLooksLikeText(text: string, end: string)
    requires StartsWith(end, "</")
    ensures !StartsWith(Escape(text) + end, "<") || StartsWith(Escape(text) + end, "</")
  {
    EscapeHides(text);
    if Escape(text) == "" {
      assert Escape(text) + end == end;
    } else {
      assert (Escape(text) + end)[0] == Escape(text)[0];
    }
  }

  lemma ReadsParts(docs: seq<Doc>, name: string, rest: string)
    requires docs != [] && PlainDocs(docs)
    requires ReadDocs(PrintAll(docs) + (Closing(name) + rest)) == Got(docs, Closing(name) + rest)
    ensures ReadContent(PrintContent(Parts(docs), name) + rest, name) == Got(Parts(docs), rest)
  {
    var end := Closing(name) + rest;
    var body := PrintAll(docs) + end;
    Regroup4(">", PrintAll(docs), Closing(name), rest);
    Inside(body);
    SkipsPrefix(Closing(name), rest);
    DocsLookLikeDocs(docs, end);
  }

  lemma DocStart(d: Doc)
    requires IsPlain(d.name)
    ensures |Print(d)| >= 2 && Print(d)[0] == '<' && Print(d)[1] != '/'
  {
    assert Print(d)[1] == d.name[0];
  }

  lemma DocsLookLikeDocs(docs: seq<Doc>, end: string)
    requires docs != [] && PlainDocs(docs)
    ensures StartsWith(PrintAll(docs) + end, "<") && !StartsWith(PrintAll(docs) + end, "</")
  {
    var s := PrintAll(docs) + end;
    DocStart(docs[0]);
    assert s[0] == '<' && s[1] != '/';
    assert s[..1] == "<";
  }

  lemma {:induction false} ReadsDocs(docs: seq<Doc>, end: string)
    requires PlainDocs(docs) && StartsWith(end, "</")
    ensures ReadDocs(PrintAll(docs) + end) == Got(docs, end)
    decreases docs, 0
  {
    if docs == [] {
      assert PrintAll(docs) + end == end;
      ReadsNoDocs(end);
    } else {
      var more := PrintAll(docs[1..]) + end;
      Regroup(Print(docs[0]), PrintAll(docs[1..]), end);
      DocsLookLikeDocs(docs, end);
      ReadsDoc(docs[0], more);
      ReadsDocs(docs[1..], end);
      ReadsOneMoreDoc(docs[0], PrintAll(docs) + end, more, docs[1..], end);
      assert [docs[0]] + docs[1..] == docs;
    }
  }

  lemma ReadsNoDocs(end: string)
    requires StartsWith(end, "</")
    ensures ReadDocs(end) == Got([], end)
  {
  }

  lemma ReadsOneMoreDoc(d: Doc, s: string, more: string, others: seq<Doc>, rest: string)
    requires !StartsWith(s, "</") && ReadDoc(s) == Got(d, more) && ReadDocs(more) == Got(others, rest)
    ensures ReadDocs(s) == Got([d] + others, rest)
  {
  }

  // ---------------------------------------------------------------- what is recovered

  /** A packet as far as its printed form tells: its attributes in no order. */
  datatype Seen = Seen(name: string, attributes: map<string, string>, content: SeenContent)
  datatype SeenContent = SeenWords(text: string) | SeenParts(parts: seq<Seen>)

  /** The attributes that are not null. */
  function Present(attributes: Attributes): map<string, string> {
    map k | k in attributes && attributes[k].Some? :: attributes[k].value
  }

  /** Only elements are printed: a packet with a text child prints its text alone. */
  function SeenOf(t: Node): Seen
    requires t.Element?
    decreases t, 1
  {
    Seen(t.name, Present(t.attributes), SeenContentOf(t.children))
  }

  function SeenContentOf(children: seq<Node>): SeenContent
    decreases children, 2
  {
    match TextOf(children)
    case Some(text) => SeenWords(text)
    case None => SeenParts(AllSeen(children))
  }

  function AllSeen(nodes: seq<Node>): seq<Seen>
    requires TextOf(nodes) == None
    decreases nodes, 0
  {
    if nodes == [] then [] else [SeenOf(nodes[0])] + AllSeen(nodes[1..])
  }

  function AsMap(attributes: seq<Attribute>): map<string, string> {
    if attributes == [] then map[]
    else var last := attributes[|attributes| - 1]; AsMap(attributes[..|attributes| - 1])[last.key := last.value]
  }

  function Forget(d: Doc): Seen
    decreases d, 1
  {
    Seen(d.name, AsMap(d.attributes), ForgetContent(d.content))
  }

  function ForgetContent(c: Content): SeenContent
    decreases c, 1
  {
    match c
    case Words(text) => SeenWords(text)
    case Parts(docs) => SeenParts(ForgetAll(docs))
  }

  function ForgetAll(docs: seq<Doc>): seq<Seen>
    decreases docs, 0
  {
    if docs == [] then [] else [Forget(docs[0])] + ForgetAll(docs[1..])
  }

  predicate PlainNode(t: Node)
    decreases t, 1
  {
    match t
    case Text(_) => true
    case Element(name, attributes, children) =>
      IsPlain(name) && (forall k :: k in attributes ==> IsPlain(k)) && PlainNodes(children)
  }

  predicate PlainNodes(nodes: seq<Node>)
    decreases nodes, 0
  {
    nodes == [] || (PlainNode(nodes[0]) && PlainNodes(nodes[1..]))
  }

  /** No attribute appears twice in a tag. */
  predicate OnceEach(d: Doc)
    decreases d, 1
  {
    && (forall i, j :: 0 <= i < j < |d.attributes| ==> d.attributes[i].key != d.attributes[j].key)
    && OnceInside(d.content)
  }

  predicate OnceInside(c: Content)
    decreases c, 1
  {
    match c
    case Words(_) => true
    case Parts(docs) => AllOnceEach(docs)
  }

  predicate AllOnceEach(docs: seq<Doc>)
    decreases docs, 0
  {
    docs == [] || (OnceEach(docs[0]) && AllOnceEach(docs[1..]))
  }

  /** `s` is the printed form of the packet, for some order of its attributes. */
  ghost predicate IsPrinted(t: Node, s: string)
    requires t.Element?
  {
    exists d :: OnceEach(d) && Forget(d) == SeenOf(t) && Print(d) == s
  }

  lemma {:induction false} KeyInMap(attributes: seq<Attribute>, i: nat)
    requires i < |attributes|
    ensures attributes[i].key in AsMap(attributes)
  {
    if i < |attributes| - 1 {
      KeyInMap(attributes[..|attributes| - 1], i);
    }
  }

  lemma {:induction false} PlainSeen(t: Node, d: Doc)
    requires t.Element? && PlainNode(t) && Forget(d) == SeenOf(t)
    ensures PlainDoc(d)
    decreases d, 1
  {
    forall i | 0 <= i < |d.attributes|
      ensures IsPlain(d.attributes[i].key)
    {
      KeyInMap(d.attributes, i);
      assert d.attributes[i].key in Present(t.attributes);
    }
    if d.content.Parts? {
      AllPlainSeen(t.children, d.content.docs);
    }
  }

  lemma {:induction false} AllPlainSeen(nodes: seq<Node>, docs: seq<Doc>)
    requires TextOf(nodes) == None && PlainNodes(nodes) && ForgetAll(docs) == AllSeen(nodes)
    ensures PlainDocs(docs)
    decreases docs, 0
  {
    if docs != [] {
      assert ForgetAll(docs)[1..] == ForgetAll(docs[1..]);
      assert AllSeen(nodes)[1..] == AllSeen(nodes[1..]);
      PlainSeen(nodes[0], docs[0]);
      AllPlainSeen(nodes[1..], docs[1..]);
    }
  }

  /** Main result: the reader recovers the packet from its printed form. */
  lemma PrintedIsReadable(t: Node, s: string)
    requires t.Element? && PlainNode(t) && IsPrinted(t, s)
    ensures ReadDoc(s).Got? && ReadDoc(s).rest == "" && Forget(ReadDoc(s).value) == SeenOf(t)
  {
    var d :| OnceEach(d) && Forget(d) == SeenOf(t) && Print(d) == s;
    PlainSeen(t, d);
    ReadsDoc(d, "");
    assert Print(d) + "" == s;
  }

  // ---------------------------------------------------------------- nothing is lost

  /** What getText returns after setText is the text that was set exactly when it
      contains none of the five entities. */
  lemma SetTextGetText(text: string)
    ensures TextOf([Text(text)]) == Some(text)
      <==> !Contains(text, "&amp;") && !Contains(text, "&lt;") && !Contains(text, "&gt;")
           && !Contains(text, "&quot;") && !Contains(text, "&#39;")
  {
    UnescapeKeeps(text);
  }

  /** Texts come from setText and stand alone, unescaping does not change them, and no
      attribute is null. */
  predicate Tidy(t: Node)
    decreases t, 1
  {
    match t
    case Text(value) => Unescape(value) == value
    case Element(_, attributes, children) =>
      && (forall k :: k in attributes ==> attributes[k].Some?)
      && (TextOf(children).Some? ==> |children| == 1) && AllTidy(children)
  }

  predicate AllTidy(nodes: seq<Node>)
    decreases nodes, 0
  {
    nodes == [] || (Tidy(nodes[0]) && AllTidy(nodes[1..]))
  }

  lemma SameAttributes(a: Attributes, b: Attributes)
    requires Present(a) == Present(b)
    requires (forall k :: k in a ==> a[k].Some?) && (forall k :: k in b ==> b[k].Some?)
    ensures a == b
  {
    assert forall k :: k in a <==> k in Present(a);
    assert forall k :: k in b <==> k in Present(b);
    forall k | k in a
      ensures k in b && a[k] == b[k]
    {
      assert Present(a)[k] == a[k].value && Present(b)[k] == b[k].value;
    }
  }

  lemma {:induction false} SeenIsAll(t: Node, u: Node)
    requires t.Element? && u.Element? && Tidy(t) && Tidy(u) && SeenOf(t) == SeenOf(u)
    ensures t == u
    decreases t, 1
  {
    SameAttributes(t.attributes, u.attributes);
    if TextOf(t.children).None? {
      PartsAreAll(t.children, u.children);
    } else {
      LoneText(t.children);
      LoneText(u.children);
    }
  }

  lemma LoneText(children: seq<Node>)
    requires |children| == 1 && AllTidy(children) && TextOf(children).Some?
    ensures children == [Text(TextOf(children).value)]
  {
    assert children[1..] == [] && Tidy(children[0]);
  }

  lemma {:induction false} PartsAreAll(a: seq<Node>, b: seq<Node>)
    requires TextOf(a) == None && TextOf(b) == None && AllTidy(a) && AllTidy(b) && AllSeen(a) == AllSeen(b)
    ensures a == b
    decreases a, 0
  {
    if a != [] {
      assert AllSeen(a)[1..] == AllSeen(a[1..]) && AllSeen(b)[1..] == AllSeen(b[1..]);
      SeenIsAll(a[0], b[0]);
      PartsAreAll(a[1..], b[1..]);
    }
  }

  /** The printed form determines the packet: two packets built as usual that print
      alike, in whatever order of attributes, are equal. */
  lemma PrintedDetermines(t: Node, u: Node, s: string)
    requires t.Element? && u.Element? && IsPrinted(t, s) && IsPrinted(u, s)
    requires PlainNode(t) && PlainNode(u)
    ensures SeenOf(t) == SeenOf(u) && (Tidy(t) && Tidy(u) ==> t == u)
  {
    PrintedIsReadable(t, s);
    PrintedIsReadable(u, s);
    if Tidy(t) && Tidy(u) {
      SeenIsAll(t, u);
    }
  }

  // ---------------------------------------------------------------- the text itself

  lemma PrintedEmpty(name: string)
    ensures Print(Doc(name, [], Parts([]))) == "<" + name + " />"
  {
    assert "<" + name + "" + " />" == "<" + name + " />";
  }

  lemma PrintedText(name: string, text: string)
    ensures Print(Doc(name, [], Words(text))) == "<" + name + ">" + Escape(text) + "</" + name + ">"
  {
    Regroup7("<" + name, ">", Escape(text), "</", name, ">");
  }

  lemma Regroup7(a: string, b: string, c: string, d: string, e: string, f: string)
    ensures a + "" + (b + c + (d + e + f)) == a + b + c + d + e + f
  {
  }

  lemma PrintedPair(key: string, value: string)
    ensures PrintAttributes([Attribute(key, value)]) == " " + key + "=\"" + Escape(value) + "\""
  {
    var a := Attribute(key, value);
    assert [a][1..] == [];
    assert PrintAttribute(a) + "" == PrintAttribute(a);
  }

  /** An example of the whole form: an attribute, a child with a text and one without. */
  lemma PrintedForm(name: string, key: string, value: string, b: string, text: string, c: string)
    ensures Print(Doc(name, [Attribute(key, value)], Parts([Doc(b, [], Words(text)), Doc(c, [], Parts([]))])))
      == "<" + name + (" " + key + "=\"" + Escape(value) + "\"") + ">"
         + ("<" + b + ">" + Escape(text) + "</" + b + ">") + ("<" + c + " />") + ("</" + name + ">")
  {
    PrintedPair(key, value);
    PrintedText(b, text);
    PrintedEmpty(c);
    var docs := [Doc(b, [], Words(text)), Doc(c, [], Parts([]))];
    PrintedTwo(docs[0], docs[1]);
    Regroup6("<" + name, PrintAttributes([Attribute(key, value)]), ">", Print(docs[0]), Print(docs[1]), Closing(name));
  }

  lemma PrintedTwo(d: Doc, e: Doc)
    ensures PrintAll([d, e]) == Print(d) + Print(e)
  {
    assert [d, e][1..] == [e] && [e][1..] == [];
    assert PrintAll([e]) == Print(e) + "";
  }

  lemma Regroup6(a: string, b: string, c: string, d: string, e: string, f: string)
    ensures a + b + (c + (d + e) + f) == a + b + c + d + e + f
  {
  }

  /** The text of a packet is that of its first text child, unescaped. */
  lemma {:induction false} FirstTextCounts(children: seq<Node>, i: nat)
    requires i < |children| && children[i].Text? && forall j :: 0 <= j < i ==> !children[j].Text?
    ensures TextOf(children) == Some(Unescape(children[i].value))
    decreases |children|
  {
    if i > 0 {
      FirstTextCounts(children[1..], i - 1);
    }
  }

  lemma {:induction false} NoTextNoneFound(children: seq<Node>)
    ensures TextOf(children) == None <==> forall j :: 0 <= j < |children| ==> !children[j].Text?
    decreases |children|
  {
    if children != [] {
      NoTextNoneFound(children[1..]);
      assert forall j :: 0 < j < |children| ==> children[j] == children[1..][j - 1];
    }
  }

  /** A packet with a text child is printed with the first text alone, whatever else it holds;
      any other one with all its children in order. */
  lemma TextHidesTheRest(t: Node, i: nat)
    requires t.Element?
    ensures i < |t.children| && t.children[i].Text? && (forall j :: 0 <= j < i ==> !t.children[j].Text?)
      ==> SeenOf(t).content == SeenWords(Unescape(t.children[i].value))
    ensures var seen := SeenOf(t).content;
      (forall j :: 0 <= j < |t.children| ==> !t.children[j].Text?) ==>
        && seen.SeenParts? && |seen.parts| == |t.children|
        && (i < |t.children| ==> seen.parts[i] == SeenOf(t.children[i]))
  {
    NoTextNoneFound(t.children);
    if i < |t.children| && t.children[i].Text? && forall j :: 0 <= j < i ==> !t.children[j].Text? {
      FirstTextCounts(t.children, i);
    } else if TextOf(t.children) == None {
      AllSeenAt(t.children, i);
    }
  }

  lemma {:induction false} AllSeenAt(nodes: seq<Node>, i: nat)
    requires TextOf(nodes) == None
    ensures |AllSeen(nodes)| == |nodes|
    ensures i < |nodes| ==> nodes[i].Element? && AllSeen(nodes)[i] == SeenOf(nodes[i])
    decreases |nodes|
  {
    if nodes != [] {
      AllSeenAt(nodes[1..], if i == 0 then 0 else i - 1);
    }
  }
}
