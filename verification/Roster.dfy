/** The group index of the roster. */
module Roster {
  // The group index of the roster as a value: for each group, by bare JID, its items.
  // The group without a name holds the whole roster. Items are shared between groups by
  // reference, so they are kept here as references of any type `T`.

  import opened Options
  import Collections

  type Jid = string

  /** null is the name of the group of all contacts. */
  type GroupName = Option<string>

  type Index<T> = map<GroupName, map<Jid, T>>

  /** A contact as parsed from a stanza into the item object `item`; its group names are
      trimmed and not empty. */
  datatype Contact<T> = Contact(jid: Jid, item: T, removed: bool, groups: seq<string>)

  function Items<T>(ix: Index<T>, k: GroupName): map<Jid, T> {
    if k in ix then ix[k] else map[]
  }

  /** getItemByJID looks here. */
  function All<T>(ix: Index<T>): map<Jid, T> {
    Items(ix, None)
  }

  // ---------------------------------------------------------------- group names

  /** String.trim takes blanks and control characters off both ends. */
  function Trim(s: string): (t: string)
    ensures t == "" || (t[0] > ' ' && t[|t| - 1] > ' ')
    ensures |t| <= |s|
  {
    if s == "" then ""
    else if s[0] <= ' ' then Trim(s[1..])
    else if s[|s| - 1] <= ' ' then Trim(s[..|s| - 1])
    else s
  }

  /** All but the part from `i` to `j` is blank. */
  predicate BlankAround(s: string, i: nat, j: nat) {
    i <= j <= |s| && (forall k :: 0 <= k < i ==> s[k] <= ' ') && (forall k :: j <= k < |s| ==> s[k] <= ' ')
  }

  /** What is left lies between the blanks at both ends. */
  lemma {:induction false} TrimCuts(s: string) returns (i: nat, j: nat)
    ensures BlankAround(s, i, j) && Trim(s) == s[i..j]
  {
    if s == "" {
      i, j := 0, 0;
    } else if s[0] <= ' ' {
      i, j := TrimCuts(s[1..]);
      MoreInFront(s, i, j);
      i, j := i + 1, j + 1;
    } else if s[|s| - 1] <= ' ' {
      i, j := TrimCuts(s[..|s| - 1]);
      MoreBehind(s, i, j);
    } else {
      i, j := 0, |s|;
      Collections.AllOf(s);
    }
  }

  lemma MoreInFront(s: string, i: nat, j: nat)
    requires s != "" && s[0] <= ' ' && BlankAround(s[1..], i, j)
    ensures BlankAround(s, i + 1, j + 1) && s[1..][i..j] == s[i + 1..j + 1]
  {
    assert forall k :: 0 < k < |s| ==> s[k] == s[1..][k - 1];
  }

  lemma MoreBehind(s: string, i: nat, j: nat)
    requires s != "" && s[|s| - 1] <= ' ' && BlankAround(s[..|s| - 1], i, j)
    ensures BlankAround(s, i, j) && s[..|s| - 1][i..j] == s[i..j]
  {
    assert forall k :: 0 <= k < |s| - 1 ==> s[k] == s[..|s| - 1][k];
  }

  /** The groups that parse keeps of those a stanza lists. */
  function Listed(texts: seq<Option<string>>): (groups: seq<string>)
    ensures forall g :: g in groups
              <==> g != "" && exists i :: 0 <= i < |texts| && texts[i].Some? && Trim(texts[i].value) == g
  {
    if texts == [] then []
    else
      var init, last := texts[..|texts| - 1], texts[|texts| - 1];
      var groups := Listed(init) + if last.Some? && Trim(last.value) != "" then [Trim(last.value)] else [];
      assert forall g :: g in Listed(init)
               ==> exists i :: 0 <= i < |texts| && texts[i].Some? && Trim(texts[i].value) == g;
      groups
  }

  // ---------------------------------------------------------------- operations

  /** addToGroup */
  function AddedTo<T>(ix: Index<T>, k: GroupName, jid: Jid, item: T): Index<T> {
    ix[k := Items(ix, k)[jid := item]]
  }

  function AddedToAll<T>(ix: Index<T>, groups: seq<string>, jid: Jid, item: T): Index<T> {
    if groups == [] then ix
    else AddedTo(AddedToAll(ix, groups[..|groups| - 1], jid, item), Some(groups[|groups| - 1]), jid, item)
  }

  /** storeItem */
  function Stored<T>(ix: Index<T>, c: Contact<T>): Index<T> {
    AddedToAll(AddedTo(ix, None, c.jid, c.item), c.groups, c.jid, c.item)
  }

  /** removeItem */
  function Removed<T>(ix: Index<T>, jid: Jid): Index<T> {
    map k | k in ix && (k == None || |ix[k] - {jid}| > 0) :: ix[k] - {jid}
  }

  /** A turn of the second loop of updateExistingItem. */
  function JoinedTo<T>(ix: Index<T>, k: GroupName, jid: Jid, item: T): Index<T> {
    if jid in Items(ix, k) then ix else AddedTo(ix, k, jid, item)
  }

  function Joined<T>(ix: Index<T>, groups: seq<string>, jid: Jid, item: T): Index<T> {
    if groups == [] then ix
    else JoinedTo(Joined(ix, groups[..|groups| - 1], jid, item), Some(groups[|groups| - 1]), jid, item)
  }

  predicate Leaves<T>(ix: Index<T>, groups: seq<string>, jid: Jid, k: GroupName)
    requires k in ix
  {
    k.Some? && k.value !in groups && jid in ix[k]
  }

  /** Its last two loops. */
  function Pruned<T>(ix: Index<T>, groups: seq<string>, jid: Jid): Index<T> {
    map k | k in ix && !(Leaves(ix, groups, jid, k) && |ix[k] - {jid}| == 0) ::
      if Leaves(ix, groups, jid, k) then ix[k] - {jid} else ix[k]
  }

  /** updateExistingItem, on the index. */
  function Updated<T>(ix: Index<T>, jid: Jid, groups: seq<string>): Index<T>
    requires jid in All(ix)
  {
    Pruned(Joined(ix, groups, jid, All(ix)[jid]), groups, jid)
  }

  /** handleItemChanged: a removal of an unknown contact is stored like any other. */
  function Pushed<T>(ix: Index<T>, c: Contact<T>): Index<T> {
    if c.jid !in All(ix) then Stored(ix, c)
    else if c.removed then Removed(ix, c.jid)
    else Updated(ix, c.jid, c.groups)
  }

  /** clearGroupAll */
  function Cleared<T>(ix: Index<T>): Index<T> {
    if None in ix then ix[None := map[]] else ix
  }

  function StoredAll<T>(ix: Index<T>, contacts: seq<Contact<T>>): Index<T> {
    if contacts == [] then ix
    else Stored(StoredAll(ix, contacts[..|contacts| - 1]), contacts[|contacts| - 1])
  }

  /** The answer to a roster request. */
  function Retrieved<T>(ix: Index<T>, contacts: seq<Contact<T>>): Index<T> {
    StoredAll(Cleared(ix), contacts)
  }

  // ---------------------------------------------------------------- what single operations do

  predicate Member<T>(ix: Index<T>, g: string, jid: Jid) {
    jid in Items(ix, Some(g))
  }

  lemma {:induction false} AddedToAllAt<T>(ix: Index<T>, groups: seq<string>, jid: Jid, item: T, k: GroupName)
    ensures var after := AddedToAll(ix, groups, jid, item);
      && (k in after <==> k in ix || (k.Some? && k.value in groups))
      && Items(after, k) == if k.Some? && k.value in groups then Items(ix, k)[jid := item] else Items(ix, k)
  {
    if groups != [] {
      var init, last := groups[..|groups| - 1], groups[|groups| - 1];
      AddedToAllAt(ix, init, jid, item, k);
      assert groups == init + [last];
    }
  }

  lemma StoredAt<T>(ix: Index<T>, c: Contact<T>, k: GroupName)
    ensures var after := Stored(ix, c);
      && (k in after <==> k in ix || k == None || k.value in c.groups)
      && Items(after, k) == if k == None || k.value in c.groups then Items(ix, k)[c.jid := c.item] else Items(ix, k)
  {
    AddedToAllAt(AddedTo(ix, None, c.jid, c.item), c.groups, c.jid, c.item, k);
  }

  lemma {:induction false} JoinedAt<T>(ix: Index<T>, groups: seq<string>, jid: Jid, item: T, k: GroupName)
    ensures var after := Joined(ix, groups, jid, item);
      && (k in after <==> k in ix || (k.Some? && k.value in groups))
      && Items(after, k) == if k.Some? && k.value in groups && jid !in Items(ix, k) then Items(ix, k)[jid := item]
        else Items(ix, k)
  {
    if groups != [] {
      var init, last := groups[..|groups| - 1], groups[|groups| - 1];
      JoinedAt(ix, init, jid, item, k);
      JoinedAt(ix, init, jid, item, Some(last));
      assert groups == init + [last];
    }
  }

  lemma UpdatedAt<T>(ix: Index<T>, jid: Jid, groups: seq<string>, k: GroupName)
    requires jid in All(ix)
    ensures var after := Updated(ix, jid, groups);
      Items(after, k) ==
        if k == None then Items(ix, k)
        else if k.value !in groups then Items(ix, k) - {jid}
        else if jid in Items(ix, k) then Items(ix, k) else Items(ix, k)[jid := All(ix)[jid]]
  {
    JoinedAt(ix, groups, jid, All(ix)[jid], k);
    var joined := Joined(ix, groups, jid, All(ix)[jid]);
    if k in joined && |joined[k] - {jid}| == 0 {
      assert joined[k] - {jid} == map[];
    }
  }

  lemma RemovedAt<T>(ix: Index<T>, jid: Jid, k: GroupName)
    ensures Items(Removed(ix, jid), k) == Items(ix, k) - {jid}
  {
    if k in ix && |ix[k] - {jid}| == 0 {
      assert ix[k] - {jid} == map[];
    }
  }

  // ---------------------------------------------------------------- agreement with the last push

  /** By contact, the groups of its last push. */
  type Last = map<Jid, seq<string>>

  function LastAfter<T>(last: Last, c: Contact<T>): Last {
    if c.removed then last - {c.jid} else last[c.jid := c.groups]
  }

  ghost predicate Agrees<T>(ix: Index<T>, last: Last) {
    && All(ix).Keys == last.Keys
    && (forall g, jid :: Member(ix, g, jid) <==> jid in last && g in last[jid])
    && Shared(ix)
  }

  /** The object in a named group is the one in the group of all contacts. */
  ghost predicate Shared<T>(ix: Index<T>) {
    forall g, jid :: Member(ix, g, jid) ==> jid in All(ix) && Items(ix, Some(g))[jid] == All(ix)[jid]
  }

  lemma StoredAgrees<T>(ix: Index<T>, last: Last, c: Contact<T>)
    requires Agrees(ix, last) && c.jid !in last
    ensures Agrees(Stored(ix, c), last[c.jid := c.groups])
  {
    var after, last' := Stored(ix, c), last[c.jid := c.groups];
    StoredAt(ix, c, None);
    forall g, jid
      ensures Member(after, g, jid) <==> jid in last' && g in last'[jid]
      ensures Member(after, g, jid) ==> jid in All(after) && Items(after, Some(g))[jid] == All(after)[jid]
    {
      StoredAt(ix, c, Some(g));
      assert Member(ix, g, jid) <==> jid in last && g in last[jid];
    }
  }

  lemma UpdatedAgrees<T>(ix: Index<T>, last: Last, jid: Jid, groups: seq<string>)
    requires Agrees(ix, last) && jid in last
    ensures Agrees(Updated(ix, jid, groups), last[jid := groups])
  {
    var after, last' := Updated(ix, jid, groups), last[jid := groups];
    UpdatedAt(ix, jid, groups, None);
    forall g, j
      ensures Member(after, g, j) <==> j in last' && g in last'[j]
      ensures Member(after, g, j) ==> j in All(after) && Items(after, Some(g))[j] == All(after)[j]
    {
      UpdatedAt(ix, jid, groups, Some(g));
      assert Member(ix, g, j) <==> j in last && g in last[j];
    }
  }

  lemma RemovedAgrees<T>(ix: Index<T>, last: Last, jid: Jid)
    requires Agrees(ix, last)
    ensures Agrees(Removed(ix, jid), last - {jid})
  {
    var after, last' := Removed(ix, jid), last - {jid};
    RemovedAt(ix, jid, None);
    forall g, j
      ensures Member(after, g, j) <==> j in last' && g in last'[j]
      ensures Member(after, g, j) ==> j in All(after) && Items(after, Some(g))[j] == All(after)[j]
    {
      RemovedAt(ix, jid, Some(g));
      assert Member(ix, g, j) <==> j in last && g in last[j];
    }
  }

  /** Main result on one push: it keeps the agreement exactly when it does not remove a
      contact that is not in the roster. */
  lemma PushAgrees<T>(ix: Index<T>, last: Last, c: Contact<T>)
    requires Agrees(ix, last)
    ensures Agrees(Pushed(ix, c), LastAfter(last, c)) <==> (c.removed ==> c.jid in All(ix))
  {
    if c.jid in last {
      if c.removed {
        RemovedAgrees(ix, last, c.jid);
      } else {
        UpdatedAgrees(ix, last, c.jid, c.groups);
      }
    } else {
      if c.removed {
        StoredAt(ix, c, None);
        assert c.jid in All(Pushed(ix, c));
      } else {
        StoredAgrees(ix, last, c);
      }
    }
  }

  // ---------------------------------------------------------------- one retrieval

  ghost predicate DistinctJids<T>(contacts: seq<Contact<T>>) {
    forall i, j :: 0 <= i < j < |contacts| ==> contacts[i].jid != contacts[j].jid
  }

  function LastOf<T>(contacts: seq<Contact<T>>): Last {
    if contacts == [] then map[]
    else var n := |contacts| - 1; LastOf(contacts[..n])[contacts[n].jid := contacts[n].groups]
  }

  lemma {:induction false} LastOfKeys<T>(contacts: seq<Contact<T>>, jid: Jid)
    ensures jid in LastOf(contacts) <==> exists i :: 0 <= i < |contacts| && contacts[i].jid == jid
  {
    if contacts != [] {
      var n := |contacts| - 1;
      var init := contacts[..n];
      LastOfKeys(init, jid);
      if jid in LastOf(init) {
        var i :| 0 <= i < |init| && init[i].jid == jid;
        assert contacts[i].jid == jid;
      }
    }
  }

  /** What a retrieval leaves in a group: what was there before, and what it lists. */
  lemma {:induction false} RetrievedAt<T>(ix: Index<T>, contacts: seq<Contact<T>>, g: string, jid: Jid)
    requires DistinctJids(contacts)
    ensures var after, last := StoredAll(ix, contacts), LastOf(contacts);
      && (Member(after, g, jid) <==> Member(ix, g, jid) || (jid in last && g in last[jid]))
      && (jid in All(after) <==> jid in All(ix) || jid in last)
      && (jid in last && g in last[jid] ==> jid in All(after) && Items(after, Some(g))[jid] == All(after)[jid])
  {
    if contacts != [] {
      var n := |contacts| - 1;
      var init, c := contacts[..n], contacts[n];
      RetrievedAt(ix, init, g, jid);
      LastOfKeys(init, c.jid);
      StoredAt(StoredAll(ix, init), c, Some(g));
      StoredAt(StoredAll(ix, init), c, None);
    }
  }

  /** The memberships that an earlier roster left behind are all listed again. */
  ghost predicate NothingStale<T>(ix: Index<T>, last: Last) {
    forall g, jid :: Member(ix, g, jid) ==> jid in last && g in last[jid]
  }

  /** Main result on retrievals: since only the group of all contacts is cleared, the
      index agrees with the answer exactly when the answer lists every membership that
      was there before. */
  lemma RetrievalAgrees<T>(ix: Index<T>, contacts: seq<Contact<T>>)
    requires DistinctJids(contacts)
    ensures Agrees(Retrieved(ix, contacts), LastOf(contacts)) <==> NothingStale(ix, LastOf(contacts))
  {
    var after, last := Retrieved(ix, contacts), LastOf(contacts);
    assert All(Cleared(ix)) == map[];
    forall g, jid
      ensures Member(after, g, jid) <==> Member(ix, g, jid) || (jid in last && g in last[jid])
      ensures jid in All(after) <==> jid in last
      ensures jid in last && g in last[jid] ==> jid in All(after) && Items(after, Some(g))[jid] == All(after)[jid]
    {
      RetrievedAt(Cleared(ix), contacts, g, jid);
    }
    if NothingStale(ix, last) {
      forall jid
        ensures jid in All(after) <==> jid in last
      {
        RetrievedAt(Cleared(ix), contacts, "", jid);
      }
      assert All(after).Keys == last.Keys;
    } else {
      var g, jid :| Member(ix, g, jid) && !(jid in last && g in last[jid]);
      assert Member(after, g, jid);
    }
  }

  lemma RetrievedOne<T>(ix: Index<T>, c: Contact<T>)
    ensures Retrieved(ix, [c]) == Stored(Cleared(ix), c)
  {
    assert [c][..0] == [];
    assert StoredAll(Cleared(ix), []) == Cleared(ix);
  }

  /** An input on which it does not hold: the second answer lists the contact without the
      group of the first. */
  lemma RetrievalKeepsStale<T>(jid: Jid, item: T, other: T, g: string)
    ensures var first, second := Contact(jid, item, false, [g]), Contact(jid, other, false, []);
      var after := Retrieved(Retrieved(map[], [first]), [second]);
      && Member(after, g, jid) && Items(after, Some(g))[jid] == item && jid in All(after) && All(after)[jid] == other
      && !Agrees(after, LastOf([second]))
  {
    var first, second := Contact(jid, item, false, [g]), Contact(jid, other, false, []);
    var before := Retrieved(map[], [first]);
    assert Cleared<T>(map[]) == map[];
    RetrievedOne(map[], first);
    StoredAt(map[], first, Some(g));
    RetrievedOne(before, second);
    StoredAt(Cleared(before), second, Some(g));
    StoredAt(Cleared(before), second, None);
    assert LastOf([second]) == map[jid := []];
  }

  // ---------------------------------------------------------------- over runs

  function PushedAll<T>(ix: Index<T>, pushes: seq<Contact<T>>): Index<T> {
    if pushes == [] then ix
    else var n := |pushes| - 1; Pushed(PushedAll(ix, pushes[..n]), pushes[n])
  }

  function LastAfterAll<T>(last: Last, pushes: seq<Contact<T>>): Last {
    if pushes == [] then last
    else var n := |pushes| - 1; LastAfter(LastAfterAll(last, pushes[..n]), pushes[n])
  }

  /** Only contacts of the roster are removed. */
  ghost predicate RemovesKnown<T>(last: Last, pushes: seq<Contact<T>>) {
    forall i :: 0 <= i < |pushes| && pushes[i].removed ==> pushes[i].jid in LastAfterAll(last, pushes[..i])
  }

  lemma {:induction false} PushesAgree<T>(ix: Index<T>, last: Last, pushes: seq<Contact<T>>)
    requires Agrees(ix, last) && RemovesKnown(last, pushes)
    ensures Agrees(PushedAll(ix, pushes), LastAfterAll(last, pushes))
  {
    if pushes != [] {
      var n := |pushes| - 1;
      var init := pushes[..n];
      forall i | 0 <= i < |init| && init[i].removed
        ensures init[i].jid in LastAfterAll(last, init[..i])
      {
        assert init[..i] == pushes[..i] && pushes[i].removed;
      }
      PushesAgree(ix, last, init);
      PushAgrees(PushedAll(ix, init), LastAfterAll(last, init), pushes[n]);
    }
  }

  /** Main result: after one retrieval and any pushes that remove only contacts of the
      roster, the last push of each contact wins, and items are shared. */
  lemma LastPushWins<T>(contacts: seq<Contact<T>>, pushes: seq<Contact<T>>)
    requires DistinctJids(contacts) && RemovesKnown(LastOf(contacts), pushes)
    ensures Agrees(PushedAll(Retrieved(map[], contacts), pushes), LastAfterAll(LastOf(contacts), pushes))
  {
    var empty: Index<T> := map[];
    RetrievalAgrees(empty, contacts);
    PushesAgree(Retrieved(empty, contacts), LastOf(contacts), pushes);
  }

  /** A removal of an unknown contact puts it into the roster. */
  lemma UnknownRemovalIsStored<T>(jid: Jid, item: T)
    ensures var after := Pushed(map[], Contact(jid, item, true, []));
      jid in All(after) && !Agrees(after, map[])
  {
  }

  // ---------------------------------------------------------------- group events

  /** A group was announced, or its removal was. */
  datatype Event = Event(added: bool, name: GroupName)

  /** The events about one group: true for each announcement, false for each removal. */
  function About(log: seq<Event>, k: GroupName): seq<bool> {
    if log == [] then []
    else
      var last := log[|log| - 1];
      About(log[..|log| - 1], k) + if last.name == k then [last.added] else []
  }

  function Difference(events: seq<bool>): int {
    if events == [] then 0
    else Difference(events[..|events| - 1]) + if events[|events| - 1] then 1 else -1
  }

  predicate Alternates(events: seq<bool>) {
    forall i :: 0 <= i < |events| ==> events[i] == (i % 2 == 0)
  }

  /** The log fits the groups that exist. */
  ghost predicate Tells(log: seq<Event>, groups: set<GroupName>) {
    forall k :: TellsOf(About(log, k), k, k in groups)
  }

  /** Announcements and removals take turns, and their difference tells whether the group
      exists; the group of all contacts is announced once and never removed. */
  predicate TellsOf(events: seq<bool>, k: GroupName, exists_: bool) {
    && Alternates(events) && Difference(events) == (if exists_ then 1 else 0)
    && (k == None ==> events == [] || events == [true])
  }

  /** The events of one step: each group that appears or disappears is reported once. */
  ghost predicate Reports(more: seq<Event>, before: set<GroupName>, after: set<GroupName>) {
    forall k :: About(more, k) == Change(k in before, k in after)
  }

  function Change(before: bool, after: bool): seq<bool> {
    if before == after then [] else [after]
  }

  lemma {:induction false} AboutConcat(log: seq<Event>, more: seq<Event>, k: GroupName)
    ensures About(log + more, k) == About(log, k) + About(more, k)
  {
    if more == [] {
      assert log + more == log;
    } else {
      var n := |more| - 1;
      AboutConcat(log, more[..n], k);
      assert (log + more)[..|log + more| - 1] == log + more[..n];
    }
  }

  lemma {:induction false} DifferenceOfAlternating(events: seq<bool>)
    requires Alternates(events)
    ensures Difference(events) == |events| % 2
  {
    if events != [] {
      DifferenceOfAlternating(events[..|events| - 1]);
    }
  }

  lemma TellsOn(events: seq<bool>, k: GroupName, before: bool, after: bool)
    requires TellsOf(events, k, before) && (k == None && before ==> after)
    ensures TellsOf(events + Change(before, after), k, after)
  {
    DifferenceOfAlternating(events);
    var more := events + Change(before, after);
    if before == after {
      assert more == events;
    } else {
      assert more[..|more| - 1] == events;
    }
  }

  lemma StepTells(log: seq<Event>, more: seq<Event>, before: set<GroupName>, after: set<GroupName>)
    requires Tells(log, before) && Reports(more, before, after) && (None in before ==> None in after)
    ensures Tells(log + more, after)
  {
    forall k
      ensures TellsOf(About(log + more, k), k, k in after)
    {
      AboutConcat(log, more, k);
      TellsOn(About(log, k), k, k in before, k in after);
    }
  }

  lemma ChangeTwice(before: bool, mid: bool, after: bool)
    requires before == after ==> mid == before
    ensures Change(before, mid) + Change(mid, after) == Change(before, after)
  {
  }

  /** Two steps that do not undo each other report as one. */
  lemma ReportsTogether(a: seq<Event>, b: seq<Event>, before: set<GroupName>, mid: set<GroupName>,
                        after: set<GroupName>)
    requires Reports(a, before, mid) && Reports(b, mid, after)
    requires mid - before <= after && (before - mid) !! after
    ensures Reports(a + b, before, after)
  {
    forall k
      ensures About(a + b, k) == Change(k in before, k in after)
    {
      AboutConcat(a, b, k);
      ChangeTwice(k in before, k in mid, k in after);
    }
  }

  lemma ReportsOne(k: GroupName, before: set<GroupName>, added: bool)
    requires added <==> k !in before
    ensures Reports([Event(added, k)], before, if added then before + {k} else before - {k})
  {
    var log := [Event(added, k)];
    forall j
      ensures About(log, j) == Change(j in before, j in if added then before + {k} else before - {k})
    {
      assert log[..0] == [];
    }
  }

  datatype Op<T> = Retrieve(contacts: seq<Contact<T>>) | Push(contact: Contact<T>)

  function Next<T>(ix: Index<T>, op: Op<T>): Index<T> {
    match op
    case Retrieve(contacts) => Retrieved(ix, contacts)
    case Push(contact) => Pushed(ix, contact)
  }

  function After<T>(ops: seq<Op<T>>): Index<T> {
    if ops == [] then map[] else Next(After(ops[..|ops| - 1]), ops[|ops| - 1])
  }

  /** No named group is without items. */
  ghost predicate NoneEmpty<T>(ix: Index<T>) {
    forall k :: k in ix && k.Some? ==> |ix[k]| > 0
  }

  lemma AddedSize<T>(m: map<Jid, T>, jid: Jid, item: T)
    ensures |m[jid := item]| > 0
  {
    assert jid in m[jid := item];
  }

  lemma StoredNoneEmpty<T>(ix: Index<T>, c: Contact<T>)
    requires NoneEmpty(ix)
    ensures NoneEmpty(Stored(ix, c)) && (None in ix ==> None in Stored(ix, c))
  {
    var after := Stored(ix, c);
    StoredAt(ix, c, None);
    forall k | k in after && k.Some?
      ensures |after[k]| > 0
    {
      StoredAt(ix, c, k);
      AddedSize(Items(ix, k), c.jid, c.item);
    }
  }

  lemma {:induction false} StoredAllNoneEmpty<T>(ix: Index<T>, contacts: seq<Contact<T>>)
    requires NoneEmpty(ix)
    ensures NoneEmpty(StoredAll(ix, contacts)) && (None in ix ==> None in StoredAll(ix, contacts))
  {
    if contacts != [] {
      var n := |contacts| - 1;
      StoredAllNoneEmpty(ix, contacts[..n]);
      StoredNoneEmpty(StoredAll(ix, contacts[..n]), contacts[n]);
    }
  }

  lemma UpdatedNoneEmpty<T>(ix: Index<T>, jid: Jid, groups: seq<string>)
    requires NoneEmpty(ix) && jid in All(ix)
    ensures NoneEmpty(Updated(ix, jid, groups)) && None in Updated(ix, jid, groups)
  {
    var after, joined := Updated(ix, jid, groups), Joined(ix, groups, jid, All(ix)[jid]);
    JoinedAt(ix, groups, jid, All(ix)[jid], None);
    forall k | k in after && k.Some?
      ensures |after[k]| > 0
    {
      JoinedAt(ix, groups, jid, All(ix)[jid], k);
      AddedSize(Items(ix, k), jid, All(ix)[jid]);
    }
  }

  lemma NextNoneEmpty<T>(ix: Index<T>, op: Op<T>)
    requires NoneEmpty(ix)
    ensures NoneEmpty(Next(ix, op)) && (None in ix ==> None in Next(ix, op))
  {
    match op
    case Retrieve(contacts) => StoredAllNoneEmpty(Cleared(ix), contacts);
    case Push(c) =>
      if c.jid !in All(ix) {
        StoredNoneEmpty(ix, c);
      } else if !c.removed {
        UpdatedNoneEmpty(ix, c.jid, c.groups);
      }
  }

  function Flat(logs: seq<seq<Event>>): seq<Event> {
    if logs == [] then [] else Flat(logs[..|logs| - 1]) + logs[|logs| - 1]
  }

  /** Each operation of a run reports the groups it adds and removes. */
  ghost predicate Reported<T>(ops: seq<Op<T>>, logs: seq<seq<Event>>) {
    |logs| == |ops| && forall i :: 0 <= i < |ops| ==> ReportedAt(ops, logs, i)
  }

  ghost predicate ReportedAt<T>(ops: seq<Op<T>>, logs: seq<seq<Event>>, i: nat)
    requires i < |ops| == |logs|
  {
    Reports(logs[i], After(ops[..i]).Keys, After(ops[..i + 1]).Keys)
  }

  lemma ReportedBefore<T>(ops: seq<Op<T>>, logs: seq<seq<Event>>, n: nat, i: nat)
    requires i < n < |ops| == |logs| && ReportedAt(ops, logs, i)
    ensures ReportedAt(ops[..n], logs[..n], i)
  {
    assert ops[..n][..i] == ops[..i];
    assert ops[..n][..i + 1] == ops[..i + 1];
  }

  /** Main result on events: over every run, repeated retrievals included. */
  lemma {:induction false} EventsTellGroups<T>(ops: seq<Op<T>>, logs: seq<seq<Event>>)
    requires Reported(ops, logs)
    ensures Tells(Flat(logs), After(ops).Keys) && NoneEmpty(After(ops))
    decreases |ops|
  {
    if ops != [] {
      var n := |ops| - 1;
      forall i: nat | i < n
        ensures ReportedAt(ops[..n], logs[..n], i)
      {
        ReportedBefore(ops, logs, n, i);
      }
      assert ReportedAt(ops, logs, n);
      Collections.AllOf(ops);
      EventsTellGroups(ops[..n], logs[..n]);
      NextNoneEmpty(After(ops[..n]), ops[n]);
      StepTells(Flat(logs[..n]), logs[n], After(ops[..n]).Keys, After(ops).Keys);
    }
  }
}
