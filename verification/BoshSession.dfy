/** The bookkeeping of a BOSH session. */
module BoshSession {
  // The shared bookkeeping of one BOSH session: the two-entry response cache of
  // `Session.java`, the window on request ids, the count of pending requests and
  // termination.  The functions are the value view that the worker state machine
  // of `BoshServer` steps over; the classes of `SessionObjects` update the fields.

  import opened Collections

  const MAX_REQUESTS := 2

  // ---------------------------------------------------------------- ordered keys

  /** `TreeMap.firstKey`: the least key. */
  ghost predicate IsLeast(k: int, keys: set<int>) {
    k in keys && forall j :: j in keys ==> k <= j
  }

  /** `TreeMap.lastKey`: the greatest key. */
  ghost predicate IsGreatest(k: int, keys: set<int>) {
    k in keys && forall j :: j in keys ==> j <= k
  }

  lemma {:induction false} LeastExists(keys: set<int>)
    requires keys != {}
    ensures exists k :: IsLeast(k, keys)
    decreases keys
  {
    var x := Pick(keys);
    if keys == {x} {
      assert IsLeast(x, keys);
    } else {
      LeastExists(keys - {x});
      var y :| IsLeast(y, keys - {x});
      var z := if x < y then x else y;
      assert forall j :: j in keys ==> j == x || j in keys - {x};
      assert IsLeast(z, keys);
    }
  }

  lemma {:induction false} GreatestExists(keys: set<int>)
    requires keys != {}
    ensures exists k :: IsGreatest(k, keys)
    decreases keys
  {
    var x := Pick(keys);
    if keys == {x} {
      assert IsGreatest(x, keys);
    } else {
      GreatestExists(keys - {x});
      var y :| IsGreatest(y, keys - {x});
      var z := if x < y then y else x;
      assert forall j :: j in keys ==> j == x || j in keys - {x};
      assert IsGreatest(z, keys);
    }
  }

  function FirstKey(keys: set<int>): (k: int)
    requires keys != {}
    ensures IsLeast(k, keys)
  {
    LeastExists(keys);
    var k :| k in keys && forall j :: j in keys ==> k <= j;
    k
  }

  function LastKey(keys: set<int>): (k: int)
    requires keys != {}
    ensures IsGreatest(k, keys)
  {
    GreatestExists(keys);
    var k :| k in keys && forall j :: j in keys ==> j <= k;
    k
  }

  // ---------------------------------------------------------------- value view

  /** The cache after the truncation loop of `addResponse`. */
  function Truncated<R>(cache: map<int, R>): (t: map<int, R>)
    ensures |t| < MAX_REQUESTS
    ensures t.Keys <= cache.Keys && forall k :: k in t ==> t[k] == cache[k]
    ensures forall k, j :: k in t && j in cache && j !in t ==> j < k
    ensures |cache| < MAX_REQUESTS ==> t == cache
    decreases |cache|
  {
    if |cache| > 0 && |cache| >= MAX_REQUESTS then
      var first := FirstKey(cache.Keys);
      assert (cache - {first}).Keys == cache.Keys - {first};
      Truncated(cache - {first})
    else
      cache
  }

  /** `addResponse`: truncate, then put. */
  function Added<R>(cache: map<int, R>, rid: int, r: R): map<int, R> {
    Truncated(cache)[rid := r]
  }

  /** `checkValidRID`. */
  predicate ValidRid(keys: set<int>, rid: int) {
    keys != {} && rid <= LastKey(keys) + MAX_REQUESTS && rid >= FirstKey(keys)
  }

  /** The cached requests whose response is not done. */
  function PendingKeys<R(==)>(cache: map<int, R>, done: set<R>): set<int> {
    set k | k in cache && cache[k] !in done
  }

  /** Adding to a cache of at most two entries drops the lowest key when there
      are two, and the new key must not be below it. */
  lemma AddedKeys<R>(cache: map<int, R>, rid: int, r: R)
    requires 0 < |cache| <= MAX_REQUESTS
    requires rid !in cache && rid >= FirstKey(cache.Keys)
    ensures var t := Added(cache, rid, r); var low := FirstKey(cache.Keys);
      && |t| == 2
      && t == (if |cache| == 2 then cache - {low} else cache)[rid := r]
      && low <= FirstKey(t.Keys)
  {
    var low := FirstKey(cache.Keys);
    var t := Truncated(cache);
    if |cache| == 2 {
      assert (cache - {low}).Keys == cache.Keys - {low};
      assert t == cache - {low};
    }
    assert |t| == 1 && rid !in t;
    assert t[rid := r].Keys == t.Keys + {rid};
  }
}
