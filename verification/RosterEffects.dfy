/** What is seen of roster operations. */
module RosterEffects {
  // What a push and a retrieval change, said of every group and every contact.

  import opened Options
  import opened Roster

  // ---------------------------------------------------------------- what is seen of an operation

  predicate Holds<T>(ix: Index<T>, k: GroupName, jid: Jid) {
    k in ix && jid in ix[k]
  }

  /** Nothing changed about the other contacts. */
  ghost predicate OthersKept<T>(before: Index<T>, after: Index<T>, jid: Jid) {
    forall k, j :: j != jid ==> (Holds(after, k, j) == Holds(before, k, j)
      && (Holds(after, k, j) ==> after[k][j] == before[k][j]))
  }

  /** The contact is in no group, and named groups that it leaves empty are gone. */
  ghost predicate TakenOut<T>(before: Index<T>, after: Index<T>, jid: Jid) {
    && (forall k :: !Holds(after, k, jid))
    && (forall k :: k in after <==> k in before && (k == None || exists j :: j != jid && j in before[k]))
  }

  /** A group that is there, or that the contact is to be in, unless the contact leaves it empty. */
  ghost predicate Remains<T>(before: Index<T>, k: GroupName, jid: Jid, groups: seq<string>, leaving: bool) {
    || k == None || k.value in groups
    || (k in before && (leaving && jid in before[k] ==> exists j :: j != jid && j in before[k]))
  }

  /** The contact is the object in the group of all contacts; it is in exactly those named groups
      besides `kept` ones, everywhere as that object; named groups it leaves empty are gone. */
  ghost predicate PutInto<T>(before: Index<T>, after: Index<T>, jid: Jid, item: T, groups: seq<string>, known: bool) {
    && Holds(after, None, jid) && after[None][jid] == item
    && (forall g :: Holds(after, Some(g), jid) <==> g in groups || (!known && Holds(before, Some(g), jid)))
    && (forall k :: k in after <==> Remains(before, k, jid, groups, known))
  }

  /** What a push of an item object does to the groups. */
  ghost predicate PushSeen<T>(before: Index<T>, after: Index<T>, jid: Jid, item: T, removing: bool,
                              groups: seq<string>) {
    var known := Holds(before, None, jid);
    && OthersKept(before, after, jid)
    && if known && removing then TakenOut(before, after, jid)
       else PutInto(before, after, jid, if known then before[None][jid] else item, groups, known)
  }

  lemma SomebodyElse<T>(m: map<Jid, T>, jid: Jid)
    ensures |m - {jid}| > 0 <==> exists j :: j != jid && j in m
  {
    if j :| j != jid && j in m {
      assert j in m - {jid};
    } else {
      assert m - {jid} == map[];
    }
  }

  lemma RemovedSeen<T>(ix: Index<T>, jid: Jid)
    ensures OthersKept(ix, Removed(ix, jid), jid) && TakenOut(ix, Removed(ix, jid), jid)
  {
    forall k
      ensures k in ix ==> (|ix[k] - {jid}| > 0 <==> exists j :: j != jid && j in ix[k])
    {
      if k in ix {
        SomebodyElse(ix[k], jid);
      }
    }
    forall k, j | j != jid
      ensures Holds(Removed(ix, jid), k, j) == Holds(ix, k, j)
      ensures Holds(Removed(ix, jid), k, j) ==> Removed(ix, jid)[k][j] == ix[k][j]
    {
      RemovedAt(ix, jid, k);
    }
  }

  lemma StoredSeen<T>(ix: Index<T>, c: Contact<T>)
    requires c.jid !in All(ix)
    ensures OthersKept(ix, Stored(ix, c), c.jid)
    ensures PutInto(ix, Stored(ix, c), c.jid, c.item, c.groups, false)
  {
    var after := Stored(ix, c);
    forall k
      ensures k in after <==> Remains(ix, k, c.jid, c.groups, false)
      ensures Holds(after, k, c.jid) <==> k == None || k.value in c.groups || Holds(ix, k, c.jid)
      ensures forall j :: j != c.jid ==> Holds(after, k, j) == Holds(ix, k, j)
      ensures forall j :: j != c.jid && Holds(after, k, j) ==> after[k][j] == ix[k][j]
    {
      StoredAt(ix, c, k);
    }
    StoredAt(ix, c, None);
  }

  lemma UpdatedSeen<T>(ix: Index<T>, jid: Jid, groups: seq<string>)
    requires jid in All(ix)
    ensures OthersKept(ix, Updated(ix, jid, groups), jid)
    ensures PutInto(ix, Updated(ix, jid, groups), jid, All(ix)[jid], groups, true)
  {
    var after := Updated(ix, jid, groups);
    forall k
      ensures k in after <==> Remains(ix, k, jid, groups, true)
      ensures Holds(after, k, jid) <==> k == None || k.value in groups
      ensures forall j :: j != jid ==> Holds(after, k, j) == Holds(ix, k, j)
      ensures forall j :: j != jid && Holds(after, k, j) ==> after[k][j] == ix[k][j]
    {
      UpdatedAt(ix, jid, groups, k);
      UpdatedKeys(ix, jid, groups, k);
    }
    UpdatedAt(ix, jid, groups, None);
  }

  lemma UpdatedKeys<T>(ix: Index<T>, jid: Jid, groups: seq<string>, k: GroupName)
    requires jid in All(ix)
    ensures k in Updated(ix, jid, groups) <==> Remains(ix, k, jid, groups, true)
  {
    JoinedAt(ix, groups, jid, All(ix)[jid], k);
    JoinedAt(ix, groups, jid, All(ix)[jid], None);
    if k in ix {
      SomebodyElse(ix[k], jid);
    }
  }

  lemma PushIsSeen<T>(ix: Index<T>, c: Contact<T>)
    ensures PushSeen(ix, Pushed(ix, c), c.jid, c.item, c.removed, c.groups)
  {
    if c.jid !in All(ix) {
      StoredSeen(ix, c);
    } else if c.removed {
      RemovedSeen(ix, c.jid);
    } else {
      UpdatedSeen(ix, c.jid, c.groups);
    }
  }

  /** One of the contacts, from index `from` on, has that JID. */
  ghost predicate Among<T>(contacts: seq<Contact<T>>, from: nat, jid: Jid) {
    exists i :: from <= i < |contacts| && contacts[i].jid == jid
  }

  ghost predicate AmongIn<T>(contacts: seq<Contact<T>>, jid: Jid, g: string) {
    exists i :: 0 <= i < |contacts| && contacts[i].jid == jid && g in contacts[i].groups
  }

  lemma AmongSnoc<T>(contacts: seq<Contact<T>>, jid: Jid, g: string)
    requires contacts != []
    ensures var n := |contacts| - 1; var c := contacts[n];
      && (Among(contacts, 0, jid) <==> Among(contacts[..n], 0, jid) || c.jid == jid)
      && (AmongIn(contacts, jid, g) <==> AmongIn(contacts[..n], jid, g) || (c.jid == jid && g in c.groups))
  {
    var n := |contacts| - 1;
    assert forall i :: 0 <= i < n ==> contacts[..n][i] == contacts[i];
  }

  /** What storing contacts one after the other does, whether or not they are distinct. */
  lemma {:induction false} StoredAllSeen<T>(ix: Index<T>, contacts: seq<Contact<T>>, jid: Jid, g: string)
    ensures var after := StoredAll(ix, contacts);
      && (Holds(after, None, jid) <==> Holds(ix, None, jid) || Among(contacts, 0, jid))
      && (Holds(after, Some(g), jid) <==> Holds(ix, Some(g), jid) || AmongIn(contacts, jid, g))
  {
    if contacts != [] {
      var n := |contacts| - 1;
      StoredAllSeen(ix, contacts[..n], jid, g);
      AmongSnoc(contacts, jid, g);
      StoredAt(StoredAll(ix, contacts[..n]), contacts[n], None);
      StoredAt(StoredAll(ix, contacts[..n]), contacts[n], Some(g));
    }
  }

  /** Of contacts with the same JID the last one counts. */
  lemma {:induction false} LastCounts<T>(ix: Index<T>, contacts: seq<Contact<T>>, i: nat)
    requires i < |contacts| && !Among(contacts, i + 1, contacts[i].jid)
    ensures var after, c := StoredAll(ix, contacts), contacts[i];
      && Holds(after, None, c.jid) && after[None][c.jid] == c.item
      && (forall g :: g in c.groups ==> Holds(after, Some(g), c.jid) && after[Some(g)][c.jid] == c.item)
    decreases |contacts|
  {
    var n := |contacts| - 1;
    var before, c := StoredAll(ix, contacts[..n]), contacts[i];
    if i < n {
      assert contacts[n].jid != c.jid;
      assert forall j :: 0 <= j < n ==> contacts[..n][j] == contacts[j];
      assert !Among(contacts[..n], i + 1, c.jid);
      LastCounts(ix, contacts[..n], i);
    }
    StoredAt(before, contacts[n], None);
    forall g | g in c.groups
      ensures Holds(StoredAll(ix, contacts), Some(g), c.jid) && StoredAll(ix, contacts)[Some(g)][c.jid] == c.item
    {
      StoredAt(before, contacts[n], Some(g));
    }
  }
}
