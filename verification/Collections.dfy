/** Small facts about the built-in collections that several modules use. */
module Collections {

  /** A member of a non-empty set. */
  lemma Pick<T>(s: set<T>) returns (x: T)
    requires s != {}
    ensures x in s
  {
    x :| x in s;
  }

  /** Two members of a set with more than one. */
  lemma PickTwo<T>(s: set<T>) returns (x: T, y: T)
    requires |s| >= 2
    ensures x in s && y in s && x != y
  {
    x := Pick(s);
    assert |s - {x}| == |s| - 1;
    y := Pick(s - {x});
  }

  lemma {:induction false} SubsetCard<T>(s: set<T>, t: set<T>)
    requires s <= t
    ensures |s| <= |t|
    decreases s
  {
    if s != {} {
      var x := Pick(s);
      SubsetCard(s - {x}, t - {x});
    }
  }

  /** In a sequence without repetitions every element occurs once. */
  lemma {:induction false} OccursOnce<T>(s: seq<T>, x: T)
    requires forall i, j :: 0 <= i < j < |s| ==> s[i] != s[j]
    ensures multiset(s)[x] == if x in s then 1 else 0
  {
    if s != [] {
      OccursOnce(s[..|s| - 1], x);
      assert s == s[..|s| - 1] + [s[|s| - 1]];
    }
  }

  lemma OneMore<T>(s: seq<T>, i: nat)
    requires i < |s|
    ensures s[..i + 1] == s[..i] + [s[i]]
  {
  }

  lemma AllOf<T>(s: seq<T>)
    ensures s[..|s|] == s
  {
  }

  /** A set of at most two elements has no three distinct members. */
  lemma NoThree<T>(s: set<T>, a: T, b: T, c: T)
    requires a in s && b in s && c in s
    requires a != b && a != c && b != c
    ensures |s| >= 3
  {
    SubsetCard({a, b, c}, s);
  }
}

/** A value or nothing, where the programs use null. */
module Options {
  datatype Option<+T> = None | Some(value: T)
}
