/** The roster and its shared items. */
module RosterObjects {
  // The roster as the program keeps it: item objects shared between group objects.

  import opened Options
  import opened Roster
  import opened RosterEffects
  import Collections

  /** Of the subscription states only the removal matters here. */
  datatype Subscription = Remove | State(name: string)

  class RosterItem {
    const jid: Jid
    var name: Option<string>
    var subscription: Option<Subscription>
    var groups: seq<string>

    /** RosterItem.parse; the group texts come from the stanza. */
    constructor (jid: Jid, subscription: Option<Subscription>, name: Option<string>, texts: seq<Option<string>>)
      ensures this.jid == jid && this.subscription == subscription && this.name == name
      ensures groups == Listed(texts) && Tidy(groups)
    {
      this.jid := jid;
      this.subscription := subscription;
      this.name := name;
      groups := [];
      new;
      for i := 0 to |texts|
        invariant groups == Listed(texts[..i]) && this.subscription == subscription && this.name == name
      {
        assert texts[..i + 1][..i] == texts[..i];
        AddToGroup(texts[i]);
      }
      assert texts[..|texts|] == texts;
      ListedIsTidy(texts);
    }

    /** Names are trimmed; null and blank names are dropped. */
    method AddToGroup(group: Option<string>)
      modifies this`groups
      ensures groups == old(groups) + if group.Some? && Trim(group.value) != "" then [Trim(group.value)] else []
    {
      if group.Some? {
        var trimmed := Trim(group.value);
        if |trimmed| > 0 {
          groups := groups + [trimmed];
        }
      }
    }

    /** The first occurrence is taken out. */
    method RemoveFromGroup(group: string) returns (removed: bool)
      modifies this`groups
      ensures groups == WithoutFirst(old(groups), group) && (removed <==> group in old(groups))
    {
      for i := 0 to |groups|
        invariant group !in groups[..i] && groups == old(groups)
      {
        if groups[i] == group {
          WithoutFirstAt(groups, i, group);
          groups := groups[..i] + groups[i + 1..];
          return true;
        }
      }
      assert groups[..|groups|] == groups;
      return false;
    }
  }

  lemma {:induction false} WithoutFirstAt(groups: seq<string>, i: nat, group: string)
    requires i < |groups| && groups[i] == group && group !in groups[..i]
    ensures WithoutFirst(groups, group) == groups[..i] + groups[i + 1..]
  {
    if i > 0 {
      assert groups[1..][..i - 1] == groups[..i][1..];
      assert groups[0] in groups[..i];
      WithoutFirstAt(groups[1..], i - 1, group);
    }
  }

  function WithoutFirst(groups: seq<string>, group: string): (rest: seq<string>)
    ensures group !in groups ==> rest == groups
  {
    if groups == [] then []
    else if groups[0] == group then groups[1..]
    else [groups[0]] + WithoutFirst(groups[1..], group)
  }

  class RosterGroup {
    const name: GroupName
    var items: map<Jid, RosterItem>

    constructor (name: GroupName)
      ensures this.name == name && items == map[]
    {
      this.name := name;
      items := map[];
    }

    method Add(item: RosterItem)
      modifies this`items
      ensures items == old(items)[item.jid := item]
    {
      items := items[item.jid := item];
    }

    method Remove(jid: Jid)
      modifies this`items
      ensures items == old(items) - {jid}
    {
      items := items - {jid};
    }

    method Clear()
      modifies this`items
      ensures items == map[]
    {
      items := map[];
    }

    predicate HasItem(jid: Jid)
      reads this`items
    {
      jid in items
    }
  }

  /** An item of a roster push, as it stands in the stanza. */
  datatype PushedItem = PushedItem(jid: Jid, subscription: Option<Subscription>, name: Option<string>,
    texts: seq<Option<string>>)

  predicate Removes(child: PushedItem) {
    child.subscription == Some(Remove)
  }

  /** By contact, the groups its last push lists; a contact that it removes has none. */
  function AfterPush(last: Last, child: PushedItem): Last {
    if child.subscription == Some(Remove) then last - {child.jid} else last[child.jid := Listed(child.texts)]
  }

  function LastPushed(last: Last, pushed: seq<PushedItem>): Last {
    if pushed == [] then last
    else var n := |pushed| - 1; AfterPush(LastPushed(last, pushed[..n]), pushed[n])
  }

  lemma LastPushedMore(last: Last, pushed: seq<PushedItem>, i: nat)
    requires i < |pushed|
    ensures LastPushed(last, pushed[..i + 1]) == AfterPush(LastPushed(last, pushed[..i]), pushed[i])
    ensures OnlyKnownRemoved(last, pushed) && Removes(pushed[i]) ==> pushed[i].jid in LastPushed(last, pushed[..i])
  {
    Collections.OneMore(pushed, i);
  }

  /** Only contacts of the roster are removed. */
  ghost predicate OnlyKnownRemoved(last: Last, pushed: seq<PushedItem>) {
    forall i :: 0 <= i < |pushed| && Removes(pushed[i]) ==> pushed[i].jid in LastPushed(last, pushed[..i])
  }

  /** The contact that a parsed item stands for. */
  function ContactOf(item: RosterItem): Contact<RosterItem>
    reads item
  {
    Contact(item.jid, item, item.subscription == Some(Remove), item.groups)
  }

  class XmppRoster {
    const all: RosterGroup
    var groups: map<GroupName, RosterGroup>
    /** The group events fired so far. */
    var log: seq<Event>
    /** What the groups hold. */
    ghost var index: Index<RosterItem>

    constructor ()
      ensures Valid() && index == map[] && log == [] && fresh(Parts()) && Truthful()
    {
      all := new RosterGroup(None);
      groups := map[];
      log := [];
      index := map[];
    }

    ghost function Parts(): set<RosterGroup>
      reads this`groups
    {
      groups.Values + {all}
    }

    /** The events fired so far fit the groups that exist, none of which is empty. */
    ghost predicate Truthful()
      reads this`groups, this`log, this`index
    {
      Tells(log, groups.Keys) && NoneEmpty(index)
    }

    ghost predicate Valid()
      reads this`groups, this`index, Parts()`items
    {
      && all.name == None && index.Keys == groups.Keys
      && (forall k :: k in groups ==> groups[k].name == k && groups[k].items == index[k])
      && (if None in groups then groups[None] == all else all.items == map[])
      && Keyed(all.items)
    }

    method AddGroup(name: GroupName) returns (group: RosterGroup)
      requires Valid() && name !in groups
      modifies this`groups, this`log, this`index
      ensures Valid() && groups == old(groups)[name := group] && group.name == name
      ensures index == old(index)[name := map[]]
      ensures log == old(log) + [Event(true, name)]
      ensures (group == all || fresh(group)) && Parts() == old(Parts()) + {group}
    {
      if name == None {
        group := all;
      } else {
        group := new RosterGroup(name);
      }
      NewValue(groups, name, group);
      groups := groups[name := group];
      index := index[name := map[]];
      log := log + [Event(true, name)];
    }

    method PutItem(group: RosterGroup, item: RosterItem)
      requires Valid() && group.name in groups && groups[group.name] == group
      modifies group`items, this`index
      ensures Valid() && index == old(AddedTo(index, group.name, item.jid, item))
    {
      group.Add(item);
      index := AddedTo(index, group.name, item.jid, item);
    }

    /** The group of that name, new if there was none. */
    method GroupFor(name: GroupName) returns (group: RosterGroup)
      requires Valid()
      modifies this`groups, this`log, this`index
      ensures Valid() && name in groups && groups[name] == group && group.name == name
      ensures group in old(Parts()) || fresh(group)
      ensures Parts() == old(Parts()) + {group}
      ensures index == old(index[name := Items(index, name)])
      ensures Since(old(log), old(groups.Keys)) && groups.Keys == old(groups.Keys) + {name}
    {
      ghost var made := index[name := Items(index, name)];
      if name in groups {
        group := OldGroup(name);
        assert groups.Keys == groups.Keys + {name};
      } else {
        Announced(log, groups.Keys, name);
        group := AddGroup(name);
        assert index == made && groups.Keys == old(groups.Keys) + {name};
      }
    }

    method OldGroup(name: GroupName) returns (group: RosterGroup)
      requires Valid() && name in groups
      ensures groups[name] == group && group.name == name && Parts() == Parts() + {group}
      ensures index == index[name := Items(index, name)] && Since(log, groups.Keys)
    {
      group := groups[name];
      assert group in groups.Values;
      SameAgain(index, name);
      Unreported(log, groups.Keys);
    }

    method AddToGroup(item: RosterItem, name: GroupName)
      requires Valid()
      modifies this`groups, this`log, this`index, Parts()`items
      ensures Valid() && fresh(Parts() - old(Parts()))
      ensures index == old(AddedTo(index, name, item.jid, item))
      ensures Since(old(log), old(groups.Keys)) && old(groups.Keys) <= groups.Keys
    {
      SameOnceMade(index, name, item.jid, item);
      var group := GroupFor(name);
      PutItem(group, item);
    }

    /** The events after `before` report the changes of the groups. */
    ghost predicate Since(before: seq<Event>, keys: set<GroupName>)
      reads this`groups, this`log
    {
      Continues(before, log, keys, groups.Keys)
    }

    method ClearGroupAll()
      requires Valid()
      modifies all`items, this`index
      ensures Valid() && index == Cleared(old(index))
    {
      all.Clear();
      index := Cleared(index);
    }

    function GetItemByJID(jid: Jid): (item: RosterItem?)
      requires Valid()
      reads this`groups, this`index, Parts()`items
      ensures if jid in All(index) then item == All(index)[jid] else item == null
    {
      if jid in all.items then all.items[jid] else null
    }

    method StoreItem(item: RosterItem)
      requires Valid()
      modifies this`groups, this`log, this`index, Parts()`items
      ensures Valid() && fresh(Parts() - old(Parts()))
      ensures index == old(Stored(index, ContactOf(item)))
      ensures Since(old(log), old(groups.Keys)) && old(groups.Keys) <= groups.Keys
    {
      AddToGroup(item, None);
      ghost var events := log;
      ghost var keys := groups.Keys;
      AddToGroups(item, item.groups);
      ContinuesOn(old(log), events, log, old(groups.Keys), keys, groups.Keys);
    }

    method AddToGroups(item: RosterItem, names: seq<string>)
      requires Valid()
      modifies this`groups, this`log, this`index, Parts()`items
      ensures Valid() && fresh(Parts() - old(Parts()))
      ensures index == old(AddedToAll(index, names, item.jid, item))
      ensures Since(old(log), old(groups.Keys)) && old(groups.Keys) <= groups.Keys
    {
      ghost var start := index;
      Unreported(log, groups.Keys);
      for i := 0 to |names|
        invariant Valid() && fresh(Parts() - old(Parts()))
        invariant index == AddedToAll(start, names[..i], item.jid, item)
        invariant Since(old(log), old(groups.Keys)) && old(groups.Keys) <= groups.Keys
      {
        assert names[..i + 1][..i] == names[..i];
        ghost var events := log;
        ghost var keys := groups.Keys;
        AddToGroup(item, Some(names[i]));
        ContinuesOn(old(log), events, log, old(groups.Keys), keys, groups.Keys);
      }
      assert names[..|names|] == names;
    }

    method RemoveGroup(name: string)
      requires Valid() && Some(name) in groups
      modifies this`groups, this`log, this`index
      ensures Valid() && groups == old(groups) - {Some(name)} && index == old(index) - {Some(name)}
      ensures Since(old(log), old(groups.Keys))
    {
      ReportsOne(Some(name), groups.Keys, false);
      groups := groups - {Some(name)};
      index := index - {Some(name)};
      log := log + [Event(false, Some(name))];
      assert log[|old(log)|..] == [Event(false, Some(name))];
    }

    method RemoveGroups(names: seq<string>)
      requires Valid() && Once(names) && forall g :: g in names ==> Some(g) in groups
      modifies this`groups, this`log, this`index
      ensures Valid() && groups == old(groups) - Named(names) && index == old(index) - Named(names)
      ensures Since(old(log), old(groups.Keys))
    {
      Unreported(log, groups.Keys);
      for i := 0 to |names|
        invariant Valid() && groups == old(groups) - Named(names[..i]) && index == old(index) - Named(names[..i])
        invariant Since(old(log), old(groups.Keys))
      {
        ghost var events := log;
        ghost var keys := groups.Keys;
        OneMoreName(names, i);
        MinusTwice(old(groups), Named(names[..i]), Some(names[i]));
        MinusTwice(old(index), Named(names[..i]), Some(names[i]));
        assert names[i] in names;
        RemoveGroup(names[i]);
        ContinuesRemoving(old(log), events, log, old(groups.Keys), keys, groups.Keys);
      }
      Collections.AllOf(names);
    }

    /** Takes the contact out of one group, if it is to leave it. */
    method TakeOutOf(k: GroupName, jid: Jid, everywhere: bool, stay: seq<string>) returns (emptied: bool)
      requires Valid() && k in groups
      modifies {groups[k]}`items, this`index
      ensures Valid() && index == old(index[k := Left(k, index[k], jid, everywhere, stay)])
      ensures emptied <==> k in old(Emptied(index, jid, everywhere, stay))
    {
      EmptiedAt(index, jid, everywhere, stay, k);
      emptied := LeaveGroup(groups[k], jid, everywhere, stay);
      index := index[k := Left(k, index[k], jid, everywhere, stay)];
      assert groups[k].items == index[k];
    }

    /** The body of the loop over the groups. */
    method LeaveGroup(group: RosterGroup, jid: Jid, everywhere: bool, stay: seq<string>) returns (emptied: bool)
      modifies group`items
      ensures group.items == Left(group.name, old(group.items), jid, everywhere, stay)
      ensures emptied <==>
        group.name != None && Goes(group.name, old(group.items), jid, everywhere, stay) && |group.items| == 0
    {
      emptied := false;
      if everywhere || (group.name != None && group.name.value !in stay && group.HasItem(jid)) {
        group.Remove(jid);
        emptied := group.name != None && |group.items| == 0;
      }
    }

    /** How far the loop of `TakeOut` is when the groups in `rest` are still to come. */
    ghost predicate TakenOut(before: Index<RosterItem>, rest: set<GroupName>, jid: Jid, everywhere: bool,
                             stay: seq<string>, emptied: seq<string>)
      reads this`groups, this`log, this`index, Parts()`items
    {
      && Valid() && rest <= groups.Keys == before.Keys
      && index == Without(before, rest, jid, everywhere, stay)
      && Once(emptied) && Named(emptied) == Emptied(before, jid, everywhere, stay) - rest
    }

    method TakeOutNext(k: GroupName, jid: Jid, everywhere: bool, stay: seq<string>, emptied: seq<string>,
                       ghost before: Index<RosterItem>, ghost rest: set<GroupName>)
      returns (emptied': seq<string>)
      requires k in rest && TakenOut(before, rest, jid, everywhere, stay, emptied)
      modifies Parts()`items, this`index
      ensures TakenOut(before, rest - {k}, jid, everywhere, stay, emptied')
    {
      TakenOutMore(before, rest, jid, everywhere, stay, k);
      var empty := TakeOutOf(k, jid, everywhere, stay);
      emptied' := emptied;
      if empty {
        OnceMore(emptied, k.value);
        emptied' := emptied + [k.value];
      }
    }

    /** Takes the contact out of every group, or only out of the named groups that are
        not among `stay`; returns the named groups that this leaves empty. */
    method TakeOut(jid: Jid, everywhere: bool, stay: seq<string>) returns (emptied: seq<string>)
      requires Valid()
      modifies Parts()`items, this`index
      ensures Valid() && index == old(Without(index, {}, jid, everywhere, stay))
      ensures Once(emptied) && Named(emptied) == old(Emptied(index, jid, everywhere, stay))
    {
      ghost var before := index;
      emptied := [];
      var rest := groups.Keys;
      WithoutNothing(before, jid, everywhere, stay);
      while rest != {}
        invariant TakenOut(before, rest, jid, everywhere, stay, emptied)
        decreases rest
      {
        ghost var any := Collections.Pick(rest);
        var k :| k in rest;
        emptied := TakeOutNext(k, jid, everywhere, stay, emptied, before, rest);
        rest := rest - {k};
      }
      assert TakenOut(before, {}, jid, everywhere, stay, emptied);
      NothingMore(before, jid, everywhere, stay);
    }

    method RemoveItem(item: RosterItem)
      requires Valid()
      modifies this`groups, this`log, this`index, Parts()`items
      ensures Valid() && Parts() <= old(Parts())
      ensures index == old(Removed(index, item.jid))
      ensures Since(old(log), old(groups.Keys))
    {
      RemovedInTwoSteps(index, item.jid);
      var emptied := TakeOut(item.jid, true, []);
      DropGroups(emptied);
    }

    /** RemoveGroups, seen on the index. */
    method DropGroups(names: seq<string>)
      requires Valid() && Once(names) && Named(names) <= groups.Keys
      modifies this`groups, this`log, this`index
      ensures Valid() && Parts() <= old(Parts())
      ensures index == old(index) - Named(names)
      ensures Since(old(log), old(groups.Keys)) && groups.Keys == old(groups.Keys) - Named(names)
    {
      assert forall g :: g in names ==> Some(g) in Named(names);
      FewerValues(groups, Named(names));
      RemoveGroups(names);
    }

    /** Puts the item into the group of that name unless its contact is there already. */
    method EnsureMember(item: RosterItem, name: string)
      requires Valid()
      modifies this`groups, this`log, this`index, Parts()`items
      ensures Valid() && fresh(Parts() - old(Parts()))
      ensures index == old(JoinedTo(index, Some(name), item.jid, item))
      ensures Since(old(log), old(groups.Keys)) && groups.Keys == old(groups.Keys) + {Some(name)}
    {
      SameOnceMade(index, Some(name), item.jid, item);
      var group := GroupFor(Some(name));
      if !group.HasItem(item.jid) {
        PutItem(group, item);
      }
    }

    method NoteGroup(item: RosterItem, name: string)
      modifies item`groups
      ensures item.groups == WithName(old(item.groups), name)
    {
      if name !in item.groups {
        item.AddToGroup(Some(name));
      }
    }

    /** How far the second loop of updateExistingItem is. */
    ghost predicate JoinedSoFar(ix: Index<RosterItem>, events: seq<Event>, names: seq<string>, item: RosterItem)
      reads this`groups, this`log, this`index, Parts()`items
    {
      && Valid() && index == Joined(ix, names, item.jid, item)
      && Since(events, ix.Keys) && ix.Keys <= groups.Keys <= ix.Keys + Named(names)
    }

    method JoinNext(item: RosterItem, names: seq<string>, i: nat, ghost ix: Index<RosterItem>, ghost events: seq<Event>)
      requires i < |names| && JoinedSoFar(ix, events, names[..i], item)
      modifies this`groups, this`log, this`index, Parts()`items
      ensures JoinedSoFar(ix, events, names[..i + 1], item) && fresh(Parts() - old(Parts()))
    {
      NamedMore(names, i);
      JoinedMore(ix, names, i, item.jid, item);
      ghost var log', keys := log, groups.Keys;
      EnsureMember(item, names[i]);
      ContinuesAdding(events, log', log, ix.Keys, keys, groups.Keys);
    }

    /** The second loop of updateExistingItem. */
    method JoinGroups(item: RosterItem, names: seq<string>)
      requires Valid()
      modifies this`groups, this`log, this`index, Parts()`items, item`groups
      ensures JoinedSoFar(old(index), old(log), names, item) && fresh(Parts() - old(Parts()))
      ensures item.groups == WithNames(old(item.groups), names)
    {
      ghost var ix, events := index, log;
      Unreported(log, groups.Keys);
      for i := 0 to |names|
        invariant JoinedSoFar(ix, events, names[..i], item) && fresh(Parts() - old(Parts()))
        invariant item.groups == WithNames(old(item.groups), names[..i])
      {
        WithMoreNames(old(item.groups), names, i);
        NoteAndJoin(item, names, i, ix, events);
      }
      Collections.AllOf(names);
    }

    method NoteAndJoin(item: RosterItem, names: seq<string>, i: nat, ghost ix: Index<RosterItem>,
                       ghost events: seq<Event>)
      requires i < |names| && JoinedSoFar(ix, events, names[..i], item)
      modifies this`groups, this`log, this`index, Parts()`items, item`groups
      ensures JoinedSoFar(ix, events, names[..i + 1], item) && fresh(Parts() - old(Parts()))
      ensures item.groups == WithName(old(item.groups), names[i])
    {
      NoteName(item, names[i], names[..i], ix, events);
      JoinOnly(item, names, i, ix, events);
    }

    /** Nor is the index one of the list. */
    method JoinOnly(item: RosterItem, names: seq<string>, i: nat, ghost ix: Index<RosterItem>,
                    ghost events: seq<Event>)
      requires i < |names| && JoinedSoFar(ix, events, names[..i], item)
      modifies this`groups, this`log, this`index, Parts()`items
      ensures JoinedSoFar(ix, events, names[..i + 1], item) && fresh(Parts() - old(Parts()))
      ensures item.groups == old(item.groups)
    {
      JoinNext(item, names, i, ix, events);
    }

    /** The item's own list is no business of the index. */
    method NoteName(item: RosterItem, name: string, ghost done: seq<string>,
                    ghost ix: Index<RosterItem>, ghost events: seq<Event>)
      requires JoinedSoFar(ix, events, done, item)
      modifies item`groups
      ensures JoinedSoFar(ix, events, done, item) && Parts() == old(Parts())
      ensures item.groups == WithName(old(item.groups), name)
    {
      NoteGroup(item, name);
    }

    /** The first loop of updateExistingItem goes by index over a list from which it
        removes, so that it passes over the name after a removed one. */
    method WeedOut(item: RosterItem, names: seq<string>)
      modifies item`groups
      ensures item.groups == Weeded(old(item.groups), names, 0)
    {
      var i := 0;
      while i < |item.groups|
        invariant 0 <= i && Weeded(item.groups, names, i) == Weeded(old(item.groups), names, 0)
        decreases |item.groups| - i
      {
        var group := item.groups[i];
        if group !in names {
          WithoutFirstIsShorter(item.groups, group);
          var removed := item.RemoveFromGroup(group);
        }
        i := i + 1;
      }
    }

    method LeaveGroups(jid: Jid, names: seq<string>)
      requires Valid()
      modifies this`groups, this`log, this`index, Parts()`items
      ensures Valid() && Parts() <= old(Parts())
      ensures index == old(Pruned(index, names, jid))
      ensures Since(old(log), old(groups.Keys))
        && groups.Keys <= old(groups.Keys) <= groups.Keys + Others(old(groups.Keys), names)
    {
      PrunedInTwoSteps(index, names, jid);
      var emptied := TakeOut(jid, false, names);
      DropGroups(emptied);
    }

    /** updateExistingItem, as far as it changes the groups. */
    method Regroup(item: RosterItem, names: seq<string>)
      requires Valid() && item.jid in All(index) && All(index)[item.jid] == item
      modifies this`groups, this`log, this`index, Parts()`items, item`groups
      ensures Valid() && fresh(Parts() - old(Parts()))
      ensures index == old(Updated(index, item.jid, names))
      ensures Since(old(log), old(groups.Keys))
      ensures item.groups == old(WithNames(item.groups, names))
    {
      JoinGroups(item, names);
      ghost var events, keys := log, groups.Keys;
      LeaveGroups(item.jid, names);
      JoinedStay(old(log), events, log, old(groups.Keys), keys, groups.Keys, names);
    }

    method UpdateExistingItem(item: RosterItem, newItem: RosterItem)
      requires Valid() && item != newItem
      requires item.jid in All(index) && All(index)[item.jid] == item
      modifies this`groups, this`log, this`index, Parts()`items, item
      ensures Valid() && fresh(Parts() - old(Parts()))
      ensures index == old(Updated(index, item.jid, newItem.groups))
      ensures Since(old(log), old(groups.Keys))
      ensures item.name == newItem.name && item.subscription == newItem.subscription
      ensures item.groups == old(WithNames(Weeded(item.groups, newItem.groups, 0), newItem.groups))
      ensures Tidy(newItem.groups) ==>
        ((forall g :: g in item.groups <==> g in newItem.groups)
          <==> !old(StaleNeighbours(item.groups, newItem.groups)))
    {
      if Tidy(newItem.groups) {
        OwnListFollows(item.groups, newItem.groups);
      }
      item.subscription := newItem.subscription;
      item.name := newItem.name;
      ghost var ix := index;
      WeedOut(item, newItem.groups);
      assert Valid() && index == ix == old(index);
      Regroup(item, newItem.groups);
    }

    /** The item of a contact, if there is one. */
    ghost function Known(jid: Jid): set<RosterItem>
      reads this`index
    {
      if jid in All(index) then {All(index)[jid]} else {}
    }

    /** handleItemChanged; the events about single items are not part of this model. */
    method HandleItemChanged(item: RosterItem)
      requires Valid() && forall k :: k in index ==> item !in index[k].Values
      modifies this`groups, this`log, this`index, Parts()`items, Known(item.jid)
      ensures Valid() && fresh(Parts() - old(Parts()))
      ensures PushSeen(old(index), index, item.jid, item, item.subscription == Some(Remove), item.groups)
      ensures item.jid in All(old(index)) ==> ItemFollows(All(old(index))[item.jid], item)
      ensures index == old(Pushed(index, ContactOf(item)))
      ensures Since(old(log), old(groups.Keys))
      ensures old(Truthful()) ==> Truthful()
    {
      ghost var ix, events, c := index, log, ContactOf(item);
      PushIs(ix, item);
      var known := GetItemByJID(item.jid);
      ChangeItem(item, known);
      StaysTruthful(events, log, ix, Push(c));
      PushIsSeen(ix, c);
    }

    /** handleItemChanged once it has looked the contact up. */
    method ChangeItem(item: RosterItem, known: RosterItem?)
      requires Valid() && forall k :: k in index ==> item !in index[k].Values
      requires if item.jid in All(index) then known == All(index)[item.jid] else known == null
      modifies this`groups, this`log, this`index, Parts()`items, Known(item.jid)
      ensures Valid() && fresh(Parts() - old(Parts()))
      ensures known == null ==> index == old(Stored(index, ContactOf(item)))
      ensures known != null ==> (index == if item.subscription == Some(Remove) then Removed(old(index), item.jid)
                                          else old(Updated(index, item.jid, item.groups)))
      ensures Since(old(log), old(groups.Keys))
      ensures known != null ==> ItemFollows(known, item)
    {
      if known == null {
        StoreItem(item);
      } else {
        KnownItem(known, item);
        ChangeKnown(known, item);
      }
    }

    /** The known item has the name and subscription of a pushed one, unless that removes it. */
    twostate predicate ItemFollows(known: RosterItem, item: RosterItem)
      reads known, item
    {
      if item.subscription == Some(Remove) then unchanged(known)
      else known.name == item.name && known.subscription == item.subscription
    }

    lemma KnownItem(known: RosterItem, item: RosterItem)
      requires Valid() && item.jid in All(index) && All(index)[item.jid] == known
      requires forall k :: k in index ==> item !in index[k].Values
      ensures known != item && known.jid == item.jid && known in Known(item.jid)
    {
    }

    /** handleItemChanged where the contact is known. */
    method ChangeKnown(known: RosterItem, item: RosterItem)
      requires Valid() && known != item && known.jid in All(index) && All(index)[known.jid] == known
      modifies this`groups, this`log, this`index, Parts()`items, known
      ensures Valid() && fresh(Parts() - old(Parts()))
      ensures index == if item.subscription == Some(Remove) then Removed(old(index), known.jid)
                       else old(Updated(index, known.jid, item.groups))
      ensures Since(old(log), old(groups.Keys))
      ensures ItemFollows(known, item)
    {
      if item.subscription == Some(Remove) {
        RemoveKnown(known);
      } else {
        UpdateKnown(known, item);
      }
    }

    /** removeItem, in the same terms. */
    method RemoveKnown(known: RosterItem)
      requires Valid() && known.jid in All(index)
      modifies this`groups, this`log, this`index, Parts()`items
      ensures Valid() && fresh(Parts() - old(Parts()))
      ensures index == Removed(old(index), known.jid)
      ensures Since(old(log), old(groups.Keys))
    {
      RemoveItem(known);
    }

    /** updateExistingItem, in the same terms. */
    method UpdateKnown(known: RosterItem, item: RosterItem)
      requires Valid() && known != item && known.jid in All(index) && All(index)[known.jid] == known
      modifies this`groups, this`log, this`index, Parts()`items, known
      ensures Valid() && fresh(Parts() - old(Parts()))
      ensures index == old(Updated(index, known.jid, item.groups))
      ensures Since(old(log), old(groups.Keys))
      ensures known.name == item.name && known.subscription == item.subscription
    {
      UpdateExistingItem(known, item);
    }

    /** handleItemChanged, seen on the last pushes. */
    method FollowPush(item: RosterItem, ghost last: Last, ghost agreed: bool)
      requires Valid() && forall k :: k in index ==> item !in index[k].Values
      requires agreed ==> Agrees(index, last) && (item.subscription == Some(Remove) ==> item.jid in last)
      modifies this`groups, this`log, this`index, Parts()`items, Known(item.jid)
      ensures Valid() && fresh(Parts() - old(Parts()))
      ensures Contacts() <= old(Contacts()) + {item}
      ensures old(Truthful()) ==> Truthful()
      ensures agreed ==> Agrees(index, LastAfter(last, old(ContactOf(item))))
    {
      ghost var ix, c := index, ContactOf(item);
      OldItemsStay(ix, Pushed(ix, c), c);
      if agreed {
        PushAgrees(ix, last, c);
      }
      HandleItemChanged(item);
    }

    ghost function Contacts(): set<RosterItem>
      reads this`index
    {
      All(index).Values
    }

    /** One item of a push: it is parsed into a new object. */
    method PushNext(child: PushedItem, ghost last: Last, ghost agreed: bool)
      returns (ghost made: set<RosterGroup>, ghost parsed: set<RosterItem>)
      requires Valid()
      requires agreed ==> Agrees(index, last) && (Removes(child) ==> child.jid in last)
      modifies this`groups, this`log, this`index, Parts()`items, Contacts()
      ensures Valid() && fresh(made) && fresh(parsed)
      ensures Parts() <= old(Parts()) + made && Contacts() <= old(Contacts()) + parsed
      ensures old(Truthful()) ==> Truthful()
      ensures agreed ==> Agrees(index, AfterPush(last, child))
    {
      var item := new RosterItem(child.jid, child.subscription, child.name, child.texts);
      FollowPush(item, last, agreed);
      made, parsed := Parts() - old(Parts()), {item};
    }

    /** The handler of roster pushes: the listed items are parsed and handled one by one.
        Whatever they are, if the index agreed with the last pushes before, and only contacts
        of the roster are removed, it agrees with the last pushes afterwards. */
    method RosterPushed(pushed: seq<PushedItem>, ghost last: Last)
      requires Valid()
      modifies this`groups, this`log, this`index, Parts()`items, Contacts()
      ensures Valid() && fresh(Parts() - old(Parts()))
      ensures old(Truthful()) ==> Truthful()
      ensures old(Agrees(index, last)) && OnlyKnownRemoved(last, pushed) ==> Agrees(index, LastPushed(last, pushed))
    {
      ghost var agreed, now := Agrees(index, last) && OnlyKnownRemoved(last, pushed), last;
      ghost var parts, contacts := Parts(), Contacts();
      ghost var made: set<RosterGroup>, parsed: set<RosterItem> := {}, {};
      for i := 0 to |pushed|
        invariant Valid() && fresh(made) && fresh(parsed)
        invariant Parts() <= parts + made && Contacts() <= contacts + parsed
        invariant old(Truthful()) ==> Truthful()
        invariant now == LastPushed(last, pushed[..i]) && (agreed ==> Agrees(index, now))
      {
        LastPushedMore(last, pushed, i);
        ghost var more, others := PushNext(pushed[i], now, agreed);
        now, made, parsed := AfterPush(now, pushed[i]), made + more, parsed + others;
      }
      Collections.AllOf(pushed);
    }

    /** How far the loop over the answer to a roster request is. */
    ghost predicate StoredSoFar(ix: Index<RosterItem>, events: seq<Event>, contacts: seq<Contact<RosterItem>>)
      reads this`groups, this`log, this`index, Parts()`items
    {
      && Valid() && index == StoredAll(ix, contacts)
      && Since(events, ix.Keys) && ix.Keys <= groups.Keys
    }

    method StoreNext(item: RosterItem, ghost ix: Index<RosterItem>, ghost events: seq<Event>,
                     ghost contacts: seq<Contact<RosterItem>>)
      requires StoredSoFar(ix, events, contacts)
      modifies this`groups, this`log, this`index, Parts()`items
      ensures StoredSoFar(ix, events, contacts + [ContactOf(item)]) && fresh(Parts() - old(Parts()))
    {
      assert (contacts + [ContactOf(item)])[..|contacts|] == contacts;
      ghost var log', keys := log, groups.Keys;
      StoreItem(item);
      ContinuesAdding(events, log', log, ix.Keys, keys, groups.Keys);
    }

    /** The answer to a roster request. */
    method RosterRetrieved(items: seq<RosterItem>)
      requires Valid()
      modifies this`groups, this`log, this`index, Parts()`items
      ensures Valid() && fresh(Parts() - old(Parts()))
      ensures index == old(Retrieved(index, ContactsOf(items)))
      ensures RetrievalSeen(old(index), index, items)
      ensures Since(old(log), old(groups.Keys))
      ensures old(Truthful()) ==> Truthful()
    {
      ghost var ix, events, op := index, log, Retrieve(ContactsOf(items));
      ReplaceItems(items);
      StaysTruthful(events, log, ix, op);
      RetrievalIsSeen(ix, items);
    }

    method ReplaceItems(items: seq<RosterItem>)
      requires Valid()
      modifies this`groups, this`log, this`index, Parts()`items
      ensures Valid() && fresh(Parts() - old(Parts()))
      ensures index == old(Retrieved(index, ContactsOf(items)))
      ensures Since(old(log), old(groups.Keys))
    {
      ClearGroupAll();
      ghost var contacts := ContactsOf(items);
      StoreItems(items, contacts);
    }

    method StoreItems(items: seq<RosterItem>, ghost contacts: seq<Contact<RosterItem>>)
      requires Valid() && AreContacts(items, contacts)
      modifies this`groups, this`log, this`index, Parts()`items
      ensures StoredSoFar(old(index), old(log), contacts) && fresh(Parts() - old(Parts()))
    {
      ghost var start, events := index, log;
      Unreported(log, groups.Keys);
      Collections.AllOf(contacts);
      assert contacts[..0] == [];
      for i := 0 to |items|
        invariant StoredSoFar(start, events, contacts[..i]) && fresh(Parts() - old(Parts()))
        invariant AreContacts(items, contacts)
      {
        Collections.OneMore(contacts, i);
        StoreNext(items[i], start, events, contacts[..i]);
      }
    }
  }

  lemma PushIs(ix: Index<RosterItem>, item: RosterItem)
    ensures Pushed(ix, ContactOf(item)) ==
      if item.jid !in All(ix) then Stored(ix, ContactOf(item))
      else if item.subscription == Some(Remove) then Removed(ix, item.jid)
      else Updated(ix, item.jid, item.groups)
  {
  }

  ghost predicate IsListed(items: seq<RosterItem>, jid: Jid) {
    exists i :: 0 <= i < |items| && items[i].jid == jid
  }

  ghost predicate IsListedIn(items: seq<RosterItem>, jid: Jid, g: string)
    reads items
  {
    exists i :: 0 <= i < |items| && items[i].jid == jid && g in items[i].groups
  }

  /** What a retrieval does to the groups: the group of all contacts holds exactly those listed,
      each as the last object listed for it; the named groups keep what they hold, and gain
      what is listed in them. */
  ghost predicate RetrievalSeen(before: Index<RosterItem>, after: Index<RosterItem>, items: seq<RosterItem>)
    reads items
  {
    && (forall jid :: Holds(after, None, jid) <==> IsListed(items, jid))
    && (forall jid, g :: Holds(after, Some(g), jid) <==> Holds(before, Some(g), jid) || IsListedIn(items, jid, g))
    && (forall i :: 0 <= i < |items| && !IsListed(items[i + 1..], items[i].jid) ==> IsTheItem(after, items[i]))
  }

  /** Wherever the item is listed, it is the object for its contact. */
  ghost predicate IsTheItem(ix: Index<RosterItem>, item: RosterItem)
    reads item
  {
    && Holds(ix, None, item.jid) && ix[None][item.jid] == item
    && forall g :: g in item.groups ==> Holds(ix, Some(g), item.jid) && ix[Some(g)][item.jid] == item
  }

  lemma RetrievalIsSeen(before: Index<RosterItem>, items: seq<RosterItem>)
    ensures RetrievalSeen(before, Retrieved(before, ContactsOf(items)), items)
  {
    var contacts := ContactsOf(items);
    forall jid, g
      ensures Holds(Retrieved(before, contacts), None, jid) <==> IsListed(items, jid)
      ensures Holds(Retrieved(before, contacts), Some(g), jid)
          <==> Holds(before, Some(g), jid) || IsListedIn(items, jid, g)
    {
      StoredAllSeen(Cleared(before), contacts, jid, g);
      ListedAmong(items, jid, g);
    }
    forall jid
      ensures Holds(Retrieved(before, contacts), None, jid) <==> IsListed(items, jid)
    {
      StoredAllSeen(Cleared(before), contacts, jid, "");
      ListedAmong(items, jid, "");
    }
    forall i | 0 <= i < |items| && !IsListed(items[i + 1..], items[i].jid)
      ensures IsTheItem(Retrieved(before, contacts), items[i])
    {
      assert forall k :: i + 1 <= k < |items| ==> items[k] == items[i + 1..][k - i - 1];
      LastCounts(Cleared(before), contacts, i);
    }
  }

  lemma ListedAmong(items: seq<RosterItem>, jid: Jid, g: string)
    ensures Among(ContactsOf(items), 0, jid) <==> IsListed(items, jid)
    ensures AmongIn(ContactsOf(items), jid, g) <==> IsListedIn(items, jid, g)
  {
  }

  /** A push brings in no other object than its own. */
  lemma OldItemsStay(before: Index<RosterItem>, after: Index<RosterItem>, c: Contact<RosterItem>)
    requires after == Pushed(before, c)
    ensures All(after).Values <= All(before).Values + {c.item}
  {
    PushIsSeen(before, c);
    forall o | o in All(after).Values
      ensures o in All(before).Values + {c.item}
    {
      var j :| j in All(after) && All(after)[j] == o;
      assert Holds(after, None, j);
      if j != c.jid {
        assert Holds(before, None, j) && before[None][j] == o;
      }
    }
  }

  ghost predicate AreContacts(items: seq<RosterItem>, contacts: seq<Contact<RosterItem>>)
    reads items
  {
    |contacts| == |items| && forall i :: 0 <= i < |items| ==> contacts[i] == ContactOf(items[i])
  }

  /** Joining the named groups and then leaving others report as one step. */
  lemma JoinedStay(a: seq<Event>, b: seq<Event>, c: seq<Event>,
                   before: set<GroupName>, mid: set<GroupName>, after: set<GroupName>, names: seq<string>)
    requires before <= mid <= before + Named(names) && after <= mid <= after + Others(mid, names)
    requires Continues(a, b, before, mid) && Continues(b, c, mid, after)
    ensures Continues(a, c, before, after)
  {
    assert mid - before <= after;
    ContinuesOn(a, b, c, before, mid, after);
  }

  function ContactsOf(items: seq<RosterItem>): (contacts: seq<Contact<RosterItem>>)
    reads items
    ensures |contacts| == |items| && forall i :: 0 <= i < |items| ==> contacts[i] == ContactOf(items[i])
  {
    if items == [] then [] else ContactsOf(items[..|items| - 1]) + [ContactOf(items[|items| - 1])]
  }

  /** addToGroup, unless the name is in the list. */
  function WithName(groups: seq<string>, name: string): seq<string> {
    if name in groups || Trim(name) == "" then groups else groups + [Trim(name)]
  }

  function WithNames(groups: seq<string>, names: seq<string>): seq<string> {
    if names == [] then groups else WithName(WithNames(groups, names[..|names| - 1]), names[|names| - 1])
  }

  lemma WithoutFirstIsShorter(groups: seq<string>, group: string)
    requires group in groups
    ensures |WithoutFirst(groups, group)| == |groups| - 1
  {
  }

  /** What the first loop of updateExistingItem leaves of an item's group list. */
  function Weeded(groups: seq<string>, names: seq<string>, i: nat): seq<string>
    decreases |groups| - i
  {
    if i >= |groups| then groups
    else if groups[i] in names then Weeded(groups, names, i + 1)
    else
      WithoutFirstIsShorter(groups, groups[i]);
      Weeded(WithoutFirst(groups, groups[i]), names, i + 1)
  }

  // ---------------------------------------------------------------- what weeding passes over

  /** How many entries of the list are not among the names. */
  function Stale(groups: seq<string>, names: seq<string>): nat {
    if groups == [] then 0 else (if groups[0] in names then 0 else 1) + Stale(groups[1..], names)
  }

  /** How many of them the loop takes out: having taken one out it steps over the next. */
  function TakenOut(groups: seq<string>, names: seq<string>): nat {
    if groups == [] then 0
    else if groups[0] in names then TakenOut(groups[1..], names)
    else 1 + if |groups| == 1 then 0 else TakenOut(groups[2..], names)
  }

  /** Two entries next to each other are both not among the names. */
  predicate StaleNeighbours(groups: seq<string>, names: seq<string>) {
    exists i :: 0 < i < |groups| && groups[i - 1] !in names && groups[i] !in names
  }

  lemma {:induction false} StaleWithout(groups: seq<string>, names: seq<string>, group: string)
    requires group in groups && group !in names
    ensures Stale(WithoutFirst(groups, group), names) == Stale(groups, names) - 1
  {
    if groups[0] != group {
      StaleWithout(groups[1..], names, group);
      assert WithoutFirst(groups, group)[1..] == WithoutFirst(groups[1..], group);
    }
  }

  /** Whichever copy is removed, what follows the current entry moves down by one. */
  lemma {:induction false} RestWithout(groups: seq<string>, i: nat)
    requires i < |groups|
    ensures |WithoutFirst(groups, groups[i])| == |groups| - 1
    ensures WithoutFirst(groups, groups[i])[i..] == groups[i + 1..]
  {
    if groups[0] != groups[i] {
      RestWithout(groups[1..], i - 1);
      assert WithoutFirst(groups, groups[i])[i..] == WithoutFirst(groups[1..], groups[1..][i - 1])[i - 1..];
      assert groups[1..][i..] == groups[i + 1..];
    }
  }

  lemma {:induction false} WeededCount(groups: seq<string>, names: seq<string>, i: nat)
    requires i <= |groups|
    ensures Stale(Weeded(groups, names, i), names) + TakenOut(groups[i..], names) == Stale(groups, names)
    decreases |groups| - i
  {
    if i < |groups| {
      var rest := groups[i..];
      assert rest[1..] == groups[i + 1..];
      if groups[i] in names {
        WeededCount(groups, names, i + 1);
      } else {
        StaleWithout(groups, names, groups[i]);
        RestWithout(groups, i);
        var fewer := WithoutFirst(groups, groups[i]);
        if i + 1 <= |fewer| {
          assert fewer[i + 1..] == fewer[i..][1..] == rest[2..];
          WeededCount(fewer, names, i + 1);
        }
      }
    }
  }

  lemma {:induction false} TakesOutAll(groups: seq<string>, names: seq<string>)
    ensures TakenOut(groups, names) <= Stale(groups, names)
    ensures TakenOut(groups, names) == Stale(groups, names) <==> !StaleNeighbours(groups, names)
  {
    if |groups| > 1 {
      NeighboursOfRest(groups, names);
      TakesOutAll(groups[1..], names);
      if groups[0] !in names {
        TakesOutAll(groups[2..], names);
        assert groups[1..][1..] == groups[2..];
        NeighboursOfRest(groups[1..], names);
      }
    }
  }

  lemma NeighboursOfRest(groups: seq<string>, names: seq<string>)
    requires |groups| > 0
    ensures StaleNeighbours(groups, names)
      <==> StaleNeighbours(groups[1..], names) || (|groups| > 1 && groups[0] !in names && groups[1] !in names)
  {
    if StaleNeighbours(groups, names) {
      var i :| 0 < i < |groups| && groups[i - 1] !in names && groups[i] !in names;
      if i > 1 {
        assert groups[1..][i - 2] == groups[i - 1] && groups[1..][i - 1] == groups[i];
      }
    }
    if StaleNeighbours(groups[1..], names) {
      var i :| 0 < i < |groups[1..]| && groups[1..][i - 1] !in names && groups[1..][i] !in names;
      assert groups[i] !in names && groups[i + 1] !in names;
    }
  }

  lemma {:induction false} NothingStale(groups: seq<string>, names: seq<string>)
    ensures Stale(groups, names) == 0 <==> forall g :: g in groups ==> g in names
  {
    if groups != [] {
      NothingStale(groups[1..], names);
      assert forall g :: g in groups <==> g == groups[0] || g in groups[1..];
    }
  }

  /** Main result on weeding: a name that is not among the new ones stays in the item's
      own list exactly when two neighbouring entries were not among them. */
  lemma WeedingPassesOverNeighbours(groups: seq<string>, names: seq<string>)
    ensures (exists g :: g in Weeded(groups, names, 0) && g !in names) <==> StaleNeighbours(groups, names)
  {
    WeededCount(groups, names, 0);
    assert groups[0..] == groups;
    TakesOutAll(groups, names);
    NothingStale(Weeded(groups, names, 0), names);
  }

  /** The smallest such list: of two names in a row the second stays, though the contact
      leaves both groups. */
  lemma WeedingPassesOver(a: string, b: string)
    requires a != b
    ensures Weeded([a, b], [], 0) == [b]
  {
  }

  /** Group names as addToGroup leaves them. */
  predicate Tidy(names: seq<string>) {
    forall i :: 0 <= i < |names| ==> names[i] != "" && Trim(names[i]) == names[i]
  }

  lemma ListedIsTidy(texts: seq<Option<string>>)
    ensures Tidy(Listed(texts))
  {
    forall i | 0 <= i < |Listed(texts)|
      ensures Listed(texts)[i] != "" && Trim(Listed(texts)[i]) == Listed(texts)[i]
    {
      assert Listed(texts)[i] in Listed(texts);
    }
  }

  lemma {:induction false} WithNamesAre(groups: seq<string>, names: seq<string>)
    requires Tidy(names)
    ensures forall g :: g in WithNames(groups, names) <==> g in groups || g in names
  {
    if names != [] {
      var init, last := names[..|names| - 1], names[|names| - 1];
      WithNamesAre(groups, init);
      assert names == init + [last];
    }
  }

  /** So the item's own list names the groups it is in afterwards, exactly when no two
      neighbouring entries had to go. */
  lemma OwnListFollows(groups: seq<string>, names: seq<string>)
    requires Tidy(names)
    ensures (forall g :: g in WithNames(Weeded(groups, names, 0), names) <==> g in names)
      <==> !StaleNeighbours(groups, names)
  {
    WithNamesAre(Weeded(groups, names, 0), names);
    WeedingPassesOverNeighbours(groups, names);
  }

  /** The keys of groups other than those named. */
  ghost function Others(keys: set<GroupName>, names: seq<string>): set<GroupName> {
    set k | k in keys && k.Some? && k.value !in names
  }

  /** Whether the contact is taken out of a group. */
  predicate Goes(name: GroupName, items: map<Jid, RosterItem>, jid: Jid, everywhere: bool, stay: seq<string>) {
    everywhere || (name.Some? && name.value !in stay && jid in items)
  }

  function Left(name: GroupName, items: map<Jid, RosterItem>, jid: Jid, everywhere: bool,
                stay: seq<string>): map<Jid, RosterItem> {
    if Goes(name, items, jid, everywhere, stay) then items - {jid} else items
  }

  /** The groups without a contact, apart from those in `rest`; none is removed yet. */
  ghost function Without(ix: Index<RosterItem>, rest: set<GroupName>, jid: Jid, everywhere: bool,
                         stay: seq<string>): (after: Index<RosterItem>)
    ensures after.Keys == ix.Keys
  {
    map k | k in ix :: if k in rest then ix[k] else Left(k, ix[k], jid, everywhere, stay)
  }

  ghost function Emptied(ix: Index<RosterItem>, jid: Jid, everywhere: bool, stay: seq<string>): (keys: set<GroupName>)
    ensures keys <= ix.Keys
  {
    set k | k in ix && k != None && Goes(k, ix[k], jid, everywhere, stay) && |ix[k] - {jid}| == 0
  }

  lemma WithoutNothing(ix: Index<RosterItem>, jid: Jid, everywhere: bool, stay: seq<string>)
    ensures Without(ix, ix.Keys, jid, everywhere, stay) == ix
    ensures Emptied(ix, jid, everywhere, stay) - ix.Keys == {}
  {
  }

  lemma NothingMore(ix: Index<RosterItem>, jid: Jid, everywhere: bool, stay: seq<string>)
    ensures Emptied(ix, jid, everywhere, stay) - {} == Emptied(ix, jid, everywhere, stay)
  {
  }

  lemma EmptiedAt(ix: Index<RosterItem>, jid: Jid, everywhere: bool, stay: seq<string>, k: GroupName)
    requires k in ix
    ensures k in Emptied(ix, jid, everywhere, stay)
      <==> k != None && Goes(k, ix[k], jid, everywhere, stay) && |ix[k] - {jid}| == 0
  {
  }

  lemma TakenOutMore(ix: Index<RosterItem>, rest: set<GroupName>, jid: Jid, everywhere: bool, stay: seq<string>,
                     k: GroupName)
    requires k in ix && k in rest
    ensures var now := Without(ix, rest, jid, everywhere, stay);
      && now[k := Left(k, now[k], jid, everywhere, stay)] == Without(ix, rest - {k}, jid, everywhere, stay)
      && (k in Emptied(now, jid, everywhere, stay) <==> k in Emptied(ix, jid, everywhere, stay))
    ensures var all := Emptied(ix, jid, everywhere, stay);
      && k !in all - rest
      && all - (rest - {k}) == if k in all then all - rest + {k} else all - rest
    ensures k in Emptied(ix, jid, everywhere, stay) ==> k.Some?
  {
  }

  lemma OnceMore(names: seq<string>, name: string)
    requires Once(names) && Some(name) !in Named(names)
    ensures Once(names + [name]) && Named(names + [name]) == Named(names) + {Some(name)}
  {
    assert (names + [name])[..|names|] == names;
  }

  predicate Once(names: seq<string>) {
    forall i, j :: 0 <= i < j < |names| ==> names[i] != names[j]
  }

  ghost function Named(names: seq<string>): (keys: set<GroupName>)
    ensures forall k :: k in keys <==> k.Some? && k.value in names
  {
    if names == [] then {} else Named(names[..|names| - 1]) + {Some(names[|names| - 1])}
  }

  lemma NamedMore(names: seq<string>, i: nat)
    requires i < |names|
    ensures Named(names[..i + 1]) == Named(names[..i]) + {Some(names[i])}
  {
    assert names[..i + 1][..i] == names[..i];
  }

  lemma JoinedMore(ix: Index<RosterItem>, names: seq<string>, i: nat, jid: Jid, item: RosterItem)
    requires i < |names|
    ensures Joined(ix, names[..i + 1], jid, item)
      == JoinedTo(Joined(ix, names[..i], jid, item), Some(names[i]), jid, item)
  {
    assert names[..i + 1][..i] == names[..i];
  }

  lemma WithMoreNames(groups: seq<string>, names: seq<string>, i: nat)
    requires i < |names|
    ensures WithNames(groups, names[..i + 1]) == WithName(WithNames(groups, names[..i]), names[i])
  {
    assert names[..i + 1][..i] == names[..i];
  }

  lemma OneMoreName(names: seq<string>, i: nat)
    requires i < |names| && Once(names)
    ensures Named(names[..i + 1]) == Named(names[..i]) + {Some(names[i])}
    ensures names[i] !in names[..i]
  {
    assert names[..i + 1][..i] == names[..i];
  }

  lemma PrunedInTwoSteps(ix: Index<RosterItem>, names: seq<string>, jid: Jid)
    ensures Without(ix, {}, jid, false, names) - Emptied(ix, jid, false, names) == Pruned(ix, names, jid)
    ensures Emptied(ix, jid, false, names) <= Others(ix.Keys, names)
  {
  }

  lemma RemovedInTwoSteps(ix: Index<RosterItem>, jid: Jid)
    ensures Without(ix, {}, jid, true, []) - Emptied(ix, jid, true, []) == Removed(ix, jid)
  {
  }

  ghost predicate Continues(before: seq<Event>, log: seq<Event>, keys: set<GroupName>, after: set<GroupName>) {
    |before| <= |log| && log[..|before|] == before && Reports(log[|before|..], keys, after)
  }

  lemma ContinuesOn(a: seq<Event>, b: seq<Event>, c: seq<Event>, before: set<GroupName>, mid: set<GroupName>,
                    after: set<GroupName>)
    requires Continues(a, b, before, mid) && Continues(b, c, mid, after)
    requires mid - before <= after && (before - mid) !! after
    ensures Continues(a, c, before, after)
  {
    assert c[|a|..] == b[|a|..] + c[|b|..];
    assert c[..|a|] == c[..|b|][..|a|];
    ReportsTogether(b[|a|..], c[|b|..], before, mid, after);
  }

  lemma ContinuesAdding(a: seq<Event>, b: seq<Event>, c: seq<Event>, before: set<GroupName>, mid: set<GroupName>,
                        after: set<GroupName>)
    requires Continues(a, b, before, mid) && Continues(b, c, mid, after) && before <= mid <= after
    ensures Continues(a, c, before, after)
  {
    ContinuesOn(a, b, c, before, mid, after);
  }

  lemma ContinuesRemoving(a: seq<Event>, b: seq<Event>, c: seq<Event>, before: set<GroupName>, mid: set<GroupName>,
                          after: set<GroupName>)
    requires Continues(a, b, before, mid) && Continues(b, c, mid, after) && after <= mid <= before
    ensures Continues(a, c, before, after)
  {
    ContinuesOn(a, b, c, before, mid, after);
  }

  /** An operation that reports its changes keeps the log true. */
  lemma StaysTruthful<T>(before: seq<Event>, log: seq<Event>, ix: Index<T>, op: Op<T>)
    requires Continues(before, log, ix.Keys, Next(ix, op).Keys)
    ensures Tells(before, ix.Keys) && NoneEmpty(ix) ==> Tells(log, Next(ix, op).Keys) && NoneEmpty(Next(ix, op))
  {
    if Tells(before, ix.Keys) && NoneEmpty(ix) {
      NextNoneEmpty(ix, op);
      StepTells(before, log[|before|..], ix.Keys, Next(ix, op).Keys);
      assert log == before + log[|before|..];
    }
  }

  lemma FewerValues<T>(m: map<GroupName, T>, s: set<GroupName>)
    ensures (m - s).Values <= m.Values
  {
  }

  lemma SameAgain<T>(m: map<GroupName, T>, k: GroupName)
    requires k in m
    ensures m[k := m[k]] == m
  {
  }

  /** It makes no difference to adding an item that the group is made first. */
  lemma SameOnceMade(ix: Index<RosterItem>, k: GroupName, jid: Jid, item: RosterItem)
    ensures AddedTo(ix[k := Items(ix, k)], k, jid, item) == AddedTo(ix, k, jid, item)
    ensures JoinedTo(ix, k, jid, item) == if jid in Items(ix, k) then ix[k := Items(ix, k)]
      else AddedTo(ix, k, jid, item)
  {
  }

  lemma MinusTwice<T>(m: map<GroupName, T>, s: set<GroupName>, k: GroupName)
    ensures m - s - {k} == m - (s + {k})
  {
  }

  lemma NewValue<T>(m: map<GroupName, T>, k: GroupName, v: T)
    requires k !in m
    ensures m[k := v].Values == m.Values + {v}
  {
    forall x | x in m.Values
      ensures x in m[k := v].Values
    {
      var j :| j in m && m[j] == x;
      assert m[k := v][j] == x;
    }
    assert m[k := v][k] == v;
  }

  lemma Announced(log: seq<Event>, keys: set<GroupName>, name: GroupName)
    requires name !in keys
    ensures Continues(log, log + [Event(true, name)], keys, keys + {name})
  {
    ReportsOne(name, keys, true);
    assert (log + [Event(true, name)])[|log|..] == [Event(true, name)];
  }

  lemma Unreported(log: seq<Event>, keys: set<GroupName>)
    ensures Continues(log, log, keys, keys)
  {
    assert log[|log|..] == [];
  }

  ghost predicate Keyed(items: map<Jid, RosterItem>) {
    forall j :: j in items ==> items[j].jid == j
  }
}
