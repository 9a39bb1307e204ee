/** The serializer of maps of strings. */
module SerializableMap {
  // `SerializableMap`: a map written as key#value#key#value#... and the parser
  // that reads it back.

  import opened Options
  import opened Collections

  /** Values may be null in a HashMap. */
  type Dict = map<string, Option<string>>

  /** `serialized.indexOf('#', from)` */
  function IndexFrom(s: string, from: int): (i: int)
    ensures i == -1 || (0 <= i < |s| && from <= i && s[i] == '#')
    ensures forall j :: 0 <= j < |s| && from <= j && (i == -1 || j < i) ==> s[j] != '#'
    decreases |s| - from
  {
    if from < 0 then IndexFrom(s, 0)
    else if from >= |s| then -1
    else if s[from] == '#' then from
    else IndexFrom(s, from + 1)
  }

  // ---------------------------------------------------------------- the two methods

  function Entry(m: Dict, key: string): string
    requires key in m
  {
    key + "#" + (if m[key].Some? then m[key].value else "null") + "#"
  }

  /** The serialized form when the key set is walked in the given order. */
  function Written(m: Dict, order: seq<string>): string
    requires forall k :: k in order ==> k in m
  {
    if order == [] then "" else Entry(m, order[0]) + Written(m, order[1..])
  }

  ghost predicate IsOrder(m: Dict, order: seq<string>) {
    && (forall i, j :: 0 <= i < j < |order| ==> order[i] != order[j])
    && (forall k :: k in order <==> k in m)
  }

  lemma {:induction false} WrittenSnoc(m: Dict, order: seq<string>, key: string)
    requires key in m && forall k :: k in order ==> k in m
    ensures Written(m, order + [key]) == Written(m, order) + Entry(m, key)
  {
    if order == [] {
      assert order + [key] == [key];
      assert [key][1..] == [];
    } else {
      assert (order + [key])[1..] == order[1..] + [key];
      WrittenSnoc(m, order[1..], key);
    }
  }

  method Serialize(m: Dict) returns (s: string, ghost order: seq<string>)
    ensures IsOrder(m, order) && s == Written(m, order)
  {
    s, order := "", [];
    var rest := m.Keys;
    while rest != {}
      invariant rest <= m.Keys
      invariant forall i, j :: 0 <= i < j < |order| ==> order[i] != order[j]
      invariant forall k :: k in order <==> k in m && k !in rest
      invariant s == Written(m, order)
      decreases rest
    {
      ghost var any := Pick(rest);
      var key :| key in rest;
      WrittenSnoc(m, order, key);
      s := s + (key + "#" + (if m[key].Some? then m[key].value else "null") + "#");
      rest, order := rest - {key}, order + [key];
    }
  }

  datatype Found = Found(key: string, value: string, next: int)

  /** One turn of the parsing loop; nothing when a `substring` call is out of range. */
  function Turn(s: string, next: int): (f: Option<Found>)
    requires -1 <= next < |s|
    ensures f.Some? ==> next < f.value.next < |s|
  {
    var begin := next + 1;
    var end := IndexFrom(s, begin + 1);
    var stop := IndexFrom(s, end + 1);
    if end == -1 || stop == -1 then None
    else Some(Found(s[begin..end], s[end + 1..stop], stop))
  }

  /** The parsing loop from some turn on. */
  function Parsed(s: string, next: int, m: Dict): Option<Dict>
    requires -1 <= next < |s|
    decreases |s| - next
  {
    match Turn(s, next)
    case None => None
    case Some(f) =>
      var m' := m[f.key := Some(f.value)];
      if f.next < |s| - 1 then Parsed(s, f.next, m') else Some(m')
  }

  lemma ParsedTurn(s: string, next: int, m: Dict, end: int, stop: int)
    requires -1 <= next < |s| && end == IndexFrom(s, next + 2) && stop == IndexFrom(s, end + 1)
    ensures end == -1 || stop == -1 ==> Parsed(s, next, m) == None
    ensures end != -1 && stop != -1 ==>
      && next < end < stop < |s|
      && var m' := m[s[next + 1..end] := Some(s[end + 1..stop])];
         Parsed(s, next, m) == if stop < |s| - 1 then Parsed(s, stop, m') else Some(m')
  {
  }

  function Restored(s: string): Option<Dict> {
    Parsed(s, -1, map[])
  }

  method Restore(serialized: string) returns (r: Option<Dict>)
    ensures r == Restored(serialized)
  {
    var m: Dict := map[];
    var total := |serialized| - 1;
    var next := -1;
    var again := true;
    while again
      invariant -1 <= next <= total
      invariant again ==> -1 <= next < |serialized| && Parsed(serialized, next, m) == Restored(serialized)
      invariant !again ==> Restored(serialized) == Some(m)
      decreases again, total - next
    {
      var begin := next + 1;
      var end := IndexFrom(serialized, begin + 1);
      ParsedTurn(serialized, next, m, end, IndexFrom(serialized, end + 1));
      next := IndexFrom(serialized, end + 1);
      if end == -1 || next == -1 {
        return None;
      }
      var key := serialized[begin..end];
      var value := serialized[end + 1..next];
      m := m[key := Some(value)];
      again := next < total;
    }
    r := Some(m);
  }

  // ---------------------------------------------------------------- round trip

  predicate CleanKey(k: string) {
    k != "" && '#' !in k[1..]
  }

  predicate CleanValue(v: Option<string>) {
    v.Some? && '#' !in v.value
  }

  predicate Clean(m: Dict) {
    forall k :: k in m ==> CleanKey(k) && CleanValue(m[k])
  }

  lemma TurnIsClean(s: string, next: int)
    requires -1 <= next < |s|
    ensures var f := Turn(s, next); f.Some? ==> CleanKey(f.value.key) && CleanValue(Some(f.value.value))
  {
  }

  /** Whatever the text, the parser only ever produces clean, non-empty maps. */
  lemma {:induction false} ParsedIsClean(s: string, next: int, m: Dict)
    requires -1 <= next < |s| && Clean(m)
    ensures var r := Parsed(s, next, m); r.Some? ==> Clean(r.value) && r.value != map[]
    decreases |s| - next
  {
    TurnIsClean(s, next);
    var f := Turn(s, next);
    if f.Some? {
      var m' := m[f.value.key := Some(f.value.value)];
      assert f.value.key in m';
      if f.value.next < |s| - 1 {
        ParsedIsClean(s, f.value.next, m');
      }
    }
  }

  /** The map with the entries of `order` put into `acc`. */
  ghost function Put(acc: Dict, m: Dict, order: seq<string>): Dict
    requires forall k :: k in order ==> k in m
    decreases |order|
  {
    if order == [] then acc else Put(acc[order[0] := m[order[0]]], m, order[1..])
  }

  lemma {:induction false} PutAll(acc: Dict, m: Dict, order: seq<string>)
    requires forall k :: k in order ==> k in m
    requires forall k :: k in acc ==> k in m && acc[k] == m[k]
    requires forall k :: k in m ==> k in acc || k in order
    ensures Put(acc, m, order) == m
    decreases |order|
  {
    if order != [] {
      PutAll(acc[order[0] := m[order[0]]], m, order[1..]);
    }
  }

  function Line(key: string, value: string): string {
    key + "#" + value + "#"
  }

  /** Where the delimiters of one clean entry are found. */
  lemma EntryBounds(s: string, next: int, key: string, value: string, rest: string)
    requires -1 <= next < |s| && s[next + 1..] == Line(key, value) + rest
    requires CleanKey(key) && '#' !in value
    ensures var e := next + 1 + |key|; var n := e + 1 + |value|;
      && IndexFrom(s, next + 1 + 1) == e && IndexFrom(s, e + 1) == n && n < |s|
      && s[next + 1..e] == key && s[e + 1..n] == value && s[n + 1..] == rest
  {
    var t := s[next + 1..];
    var e := next + 1 + |key|;
    var n := e + 1 + |value|;
    assert forall j :: 0 <= j < |t| ==> s[next + 1 + j] == t[j];
    LineParts(t, key, value, rest);
    assert s[next + 1..e] == t[..|key|] && s[e + 1..n] == t[|key| + 1..|key| + 1 + |value|];
    assert s[n + 1..] == t[|key| + |value| + 2..];
    assert forall j :: next + 2 <= j < e ==> s[j] == key[1..][j - next - 2];
    assert forall j :: e + 1 <= j < n ==> s[j] == value[j - e - 1];
  }

  lemma LineParts(t: string, key: string, value: string, rest: string)
    requires t == Line(key, value) + rest
    ensures |t| >= |key| + |value| + 2 && t[|key|] == '#' && t[|key| + 1 + |value|] == '#'
    ensures t[..|key|] == key && t[|key| + 1..|key| + 1 + |value|] == value && t[|key| + |value| + 2..] == rest
    ensures forall j :: 0 <= j < |key| ==> t[j] == key[j]
    ensures forall j :: 0 <= j < |value| ==> t[|key| + 1 + j] == value[j]
  {
  }

  /** A turn of the parser at the start of a clean entry takes exactly that entry. */
  lemma TurnTakesEntry(s: string, next: int, key: string, value: string, rest: string)
    requires -1 <= next < |s| && s[next + 1..] == Line(key, value) + rest
    requires CleanKey(key) && '#' !in value
    ensures Turn(s, next) == Some(Found(key, value, next + 1 + |key| + 1 + |value|))
    ensures s[next + 1 + |key| + 1 + |value| + 1..] == rest
  {
    EntryBounds(s, next, key, value, rest);
  }

  lemma WrittenCons(m: Dict, order: seq<string>)
    requires order != [] && (forall k :: k in order ==> k in m) && Clean(m)
    ensures CleanKey(order[0]) && '#' !in m[order[0]].value
    ensures Written(m, order) == Line(order[0], m[order[0]].value) + Written(m, order[1..])
    ensures Written(m, order[1..]) == "" <==> order[1..] == []
  {
    assert CleanKey(order[0]) && CleanValue(m[order[0]]);
  }

  /** The parser reads the entries one by one. */
  lemma {:induction false} ParsesEntries(m: Dict, s: string, next: int, order: seq<string>, acc: Dict)
    requires order != [] && (forall k :: k in order ==> k in m) && Clean(m)
    requires -1 <= next < |s| && s[next + 1..] == Written(m, order)
    ensures Parsed(s, next, acc) == Some(Put(acc, m, order))
    decreases |order|
  {
    WrittenCons(m, order);
    TurnTakesEntry(s, next, order[0], m[order[0]].value, Written(m, order[1..]));
    if order[1..] != [] {
      ParsesEntries(m, s, Turn(s, next).value.next, order[1..], acc[order[0] := m[order[0]]]);
    }
  }

  /** Main result: reading back what was written gives the same map exactly when
      the map is not empty, its keys are non-empty without '#' after the first
      character, and its values are non-null without '#'. */
  lemma RoundTrip(m: Dict, order: seq<string>)
    requires IsOrder(m, order)
    ensures Restored(Written(m, order)) == Some(m) <==> m != map[] && Clean(m)
  {
    var s := Written(m, order);
    if m != map[] && Clean(m) {
      var k := Pick(m.Keys);
      assert k in order;
      WrittenCons(m, order);
      assert s[0..] == s;
      ParsesEntries(m, s, -1, order, map[]);
      PutAll(map[], m, order);
    }
    if s != "" {
      ParsedIsClean(s, -1, map[]);
    }
  }

  /** A null value is written, and so read back, as the text "null". */
  lemma NullBecomesText(m: Dict, order: seq<string>)
    requires IsOrder(m, order) && m != map[]
    requires forall k :: k in m ==> CleanKey(k) && (m[k].Some? ==> '#' !in m[k].value)
    ensures var read := map k | k in m :: Some(if m[k].Some? then m[k].value else "null");
      Restored(Written(m, order)) == Some(read)
  {
    var read: Dict := map k | k in m :: Some(if m[k].Some? then m[k].value else "null");
    var k := Pick(m.Keys);
    assert k in read;
    SameText(m, read, order);
    RoundTrip(read, order);
  }

  lemma {:induction false} SameText(m: Dict, n: Dict, order: seq<string>)
    requires forall k :: k in order ==> k in m && k in n
    requires forall k :: k in m && k in n ==> n[k] == Some(if m[k].Some? then m[k].value else "null")
    ensures Written(m, order) == Written(n, order)
  {
    if order != [] {
      SameText(m, n, order[1..]);
    }
  }

  /** An example of the text. */
  lemma TextOfTwo(a: string, b: string)
    requires a != b
    ensures Written(map[a := Some("1"), b := None], [a, b]) == a + "#1#" + b + "#null#"
  {
    assert [a, b][1..] == [b] && [b][1..] == [];
    assert a + "#" + "1" + "#" == a + "#1#" && b + "#" + "null" + "#" == b + "#null#";
    assert Written(map[a := Some("1"), b := None], [b]) == b + "#null#" + "";
    assert a + "#1#" + (b + "#null#") == a + "#1#" + b + "#null#";
  }
}
