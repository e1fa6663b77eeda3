/** Whole runs of a blackboard on its objects and maps, from the fresh one on: requests to add, remove,
    link and unlink, and batches for a resource group in whatever order. Every run refines one of
    BoardRuns, so a client that replays what was sent keeps up with the state. */
module StateRuns {
  import opened Counting
  import opened Refs
  import opened DepiModel
  import opened BoardRuns
  import opened GroupChanges
  import opened BlackboardSpec
  import opened BatchSpec
  import opened RemovalSpec

  datatype Call =
    | AddResources(items: seq<NewItem>)
    | RemoveResources(refs: seq<ResourceRef>)
    | LinkResources(links: seq<Link>)
    | UnlinkResources(links: seq<Link>)
    | UpdateGroup(group: GroupKey, version: string, changes: Batch)

  /** The batch finds the group at another version and goes through its changes in that order. */
  ghost predicate Updates(
      s: State, g: GroupKey, version: string, changes: Batch, order: seq<string>, parts: seq<seq<Update>>,
      updates: seq<Update>, s': State)
    requires g in s.groups
  {
    && IsOrder(order, changes) && SendsAll(WithVersion(s, g, version), g, changes, order, parts)
    && s' == AllChanges(WithVersion(s, g, version), g, changes, order)
    && updates == [VersionChanged(g, s.groups[g].version, version)] + Concat(parts)
  }

  ghost predicate GroupUpdated(
      s: State, g: GroupKey, version: string, changes: Batch, updates: seq<Update>, s': State)
  {
    if g !in s.groups || s.groups[g].version == version then s' == s && updates == []
    else exists order, parts :: Updates(s, g, version, changes, order, parts, updates, s')
  }

  /** One call, with the updates that it sends. */
  ghost predicate CallStep(s: State, c: Call, updates: seq<Update>, s': State) {
    match c
    case AddResources(items) => (s', updates) == AllDone(s, items, AddItem)
    case RemoveResources(refs) => (s', updates) == AllDone(s, refs, RemoveItem)
    case LinkResources(links) => (s', updates) == AllDone(s, LookedUp(s.groups, links), LinkStep)
    case UnlinkResources(links) => (s', updates) == AllDone(s, LookedUp(s.groups, links), UnlinkStep)
    case UpdateGroup(g, version, changes) => GroupUpdated(s, g, version, changes, updates, s')
  }

  ghost predicate IsStateRun(calls: seq<Call>, updates: seq<seq<Update>>, states: seq<State>) {
    && |states| == |calls| + 1 && |updates| == |calls|
    && states[0] == NOTHING
    && forall i :: 0 <= i < |calls| ==> CallStep(states[i], calls[i], updates[i], states[i + 1])
  }

  /** The batches of the run only remove resources. */
  ghost predicate RemovesOnly(calls: seq<Call>) {
    forall i :: 0 <= i < |calls| && calls[i].UpdateGroup? ==> OnlyRemovals(calls[i].changes)
  }

  /** What BoardRuns says about a call. */
  function EventOf(c: Call): Event {
    match c
    case AddResources(items) => Request(Items(items, AddOf))
    case RemoveResources(refs) => Request(Items(refs, RemoveOf))
    case LinkResources(links) => Request(Items(links, ConnectOf))
    case UnlinkResources(links) => Request(Items(links, DisconnectOf))
    case UpdateGroup(g, version, changes) => Event.Batch(g, version, changes.Keys)
  }

  function EventsOf(calls: seq<Call>): seq<Event> {
    seq(|calls|, i requires 0 <= i < |calls| => EventOf(calls[i]))
  }

  // ----- Every run refines one on boards -----

  lemma NothingShowsEmpty()
    ensures Shows(NOTHING, EMPTY) && Current(NOTHING)
  {
  }

  lemma NothingExplainsItself(b: Board)
    ensures Explains(b, [], b)
  {
  }

  lemma GroupUpdateRefines(
      s: State, b: Board, g: GroupKey, version: string, changes: Batch, updates: seq<Update>, s': State)
    requires Shows(s, b) && Current(s) && OnlyRemovals(changes) && GroupUpdated(s, g, version, changes, updates, s')
    ensures var b' := BatchRemoved(b, g, version, changes.Keys);
            Shows(s', b') && Current(s') && Step(b, Event.Batch(g, version, changes.Keys), updates, b')
  {
    assert g in b.groups <==> g in s.groups;
    if g !in s.groups || s.groups[g].version == version {
      NothingExplainsItself(b);
    } else {
      var order, parts :| Updates(s, g, version, changes, order, parts, updates, s');
      RemovalBatchIsAStep(s, b, g, version, changes, order, parts);
    }
  }

  lemma CallRefines(s: State, b: Board, c: Call, updates: seq<Update>, s': State) returns (b': Board)
    requires Shows(s, b) && Current(s) && CallStep(s, c, updates, s')
    requires c.UpdateGroup? ==> OnlyRemovals(c.changes)
    ensures Shows(s', b') && Current(s') && Step(b, EventOf(c), updates, b')
  {
    match c
    case AddResources(items) =>
      RequestsRefine(s, b, items, [], []);
      b' := ItemsDone(b, Items(items, AddOf)).0;
    case RemoveResources(refs) =>
      RequestsRefine(s, b, [], refs, []);
      b' := ItemsDone(b, Items(refs, RemoveOf)).0;
    case LinkResources(links) =>
      RequestsRefine(s, b, [], [], links);
      b' := ItemsDone(b, Items(links, ConnectOf)).0;
    case UnlinkResources(links) =>
      RequestsRefine(s, b, [], [], links);
      b' := ItemsDone(b, Items(links, DisconnectOf)).0;
    case UpdateGroup(g, version, changes) =>
      GroupUpdateRefines(s, b, g, version, changes, updates, s');
      b' := BatchRemoved(b, g, version, changes.Keys);
  }

  /** At each stage of a run clients can know the board of the refined run. */
  ghost predicate ShowAll(states: seq<State>, boards: seq<Board>) {
    |boards| == |states| && forall i :: 0 <= i < |states| ==> Shows(states[i], boards[i]) && Current(states[i])
  }

  lemma {:induction false} RunsRefine(calls: seq<Call>, updates: seq<seq<Update>>, states: seq<State>)
    returns (boards: seq<Board>)
    requires IsStateRun(calls, updates, states) && RemovesOnly(calls)
    ensures IsRun(EMPTY, EventsOf(calls), updates, boards) && ShowAll(states, boards)
    decreases |calls|
  {
    NothingShowsEmpty();
    if calls == [] {
      boards := [EMPTY];
    } else {
      var n := |calls| - 1;
      var before := RunsRefine(calls[..n], updates[..n], states[..n + 1]);
      assert EventsOf(calls[..n]) == EventsOf(calls)[..n];
      assert Shows(states[..n + 1][n], before[n]);
      var b := CallRefines(states[n], before[n], calls[n], updates[n], states[n + 1]);
      boards := before + [b];
      RunGrows(EventsOf(calls), updates, before, b);
      ShowOneMore(states, before, b);
    }
  }

  lemma RunGrows(events: seq<Event>, updates: seq<seq<Update>>, before: seq<Board>, b: Board)
    requires events != [] && |updates| == |events|
    requires IsRun(EMPTY, events[..|events| - 1], updates[..|events| - 1], before)
    requires Step(before[|events| - 1], events[|events| - 1], updates[|events| - 1], b)
    ensures IsRun(EMPTY, events, updates, before + [b])
  {
    var n, boards := |events| - 1, before + [b];
    forall i | 0 <= i < |events| ensures Step(boards[i], events[i], updates[i], boards[i + 1]) {
      if i < n {
        assert Step(before[i], events[..n][i], updates[..n][i], before[i + 1]);
      }
    }
  }

  lemma ShowOneMore(states: seq<State>, before: seq<Board>, b: Board)
    requires |states| > 1 && ShowAll(states[..|states| - 1], before)
    requires Shows(states[|states| - 1], b) && Current(states[|states| - 1])
    ensures ShowAll(states, before + [b])
  {
    var n := |states| - 1;
    forall i | 0 <= i < |states| ensures Shows(states[i], (before + [b])[i]) && Current(states[i]) {
      if i < n {
        assert Shows(states[..n][i], before[i]) && Current(states[..n][i]);
      }
    }
  }

  // ----- What a watcher holds -----

  const NO_VIEW := View(map[], {})

  /** Exactly the resources that are filed, with the names and ids of their objects, and exactly the
      links that are changed and not deleted. */
  ghost predicate Sees(v: View, s: State)
    requires Sound(s)
  {
    Lists(s.heap, s.groups, v.resources) && v.links == s.changed.Keys - s.deleted.Keys
  }

  /** In every run from the fresh blackboard, whatever orders the server's maps are gone through in, a
      watcher that replays all updates sees the state at the end. */
  lemma WatcherSeesState(calls: seq<Call>, updates: seq<seq<Update>>, states: seq<State>)
    requires IsStateRun(calls, updates, states) && RemovesOnly(calls)
    ensures var s := states[|calls|];
            Sound(s) && Current(s) && Sees(ReplayAll(NO_VIEW, Concat(updates)), s)
  {
    var boards := RunsRefine(calls, updates, states);
    WatcherMirrorsBoard(EMPTY, EventsOf(calls), updates, boards);
    assert Shows(states[|calls|], boards[|calls|]);
    assert Mirror(EMPTY) == NO_VIEW;
  }

  // ----- Clearing -----

  /** What clearing sends for one group. */
  ghost predicate ClearsOne(s: State, g: GroupKey, part: seq<Update>)
    requires Sound(s)
  {
    g in s.groups && exists urls, ds, cs :: ClearSends(s, g, urls, ds, cs, part)
  }

  /** What clearing sends, group by group. */
  ghost predicate ClearsAll(s: State, order: seq<GroupKey>, parts: seq<seq<Update>>)
    requires Sound(s)
  {
    && |parts| == |order| && Distinct(order) && (forall g :: g in order <==> g in s.groups)
    && forall i :: 0 <= i < |order| ==> ClearsOne(s, order[i], parts[i])
  }

  lemma ClearingClears(s: State, b: Board, order: seq<GroupKey>, parts: seq<seq<Update>>)
    requires Shows(s, b) && Current(s) && ClearsAll(s, order, parts)
    ensures ClearsGroups(b, order, parts)
  {
    forall i | 0 <= i < |order| ensures ClearsGroup(b, order[i], parts[i]) {
      var urls, ds, cs :| ClearSends(s, order[i], urls, ds, cs, parts[i]);
      ClearingIsSeen(s, b, order[i], urls, ds, cs, parts[i]);
    }
  }

  /** When a run ends in clearing, a watcher that replayed everything is left with exactly the deleted
      links that were not changed: with nothing, as the fresh blackboard has it, exactly if the deleted
      links were among the changed ones. */
  lemma RunThenClear(
      calls: seq<Call>, updates: seq<seq<Update>>, states: seq<State>, order: seq<GroupKey>, parts: seq<seq<Update>>)
    requires IsStateRun(calls, updates, states) && RemovesOnly(calls)
    requires Sound(states[|calls|]) && ClearsAll(states[|calls|], order, parts)
    ensures var s := states[|calls|];
            ReplayAll(NO_VIEW, Concat(updates) + Concat(parts)) == View(map[], s.deleted.Keys - s.changed.Keys)
  {
    var boards := RunsRefine(calls, updates, states);
    var s, b := states[|calls|], boards[|calls|];
    assert Shows(s, b) && Current(s);
    WatcherMirrorsBoard(EMPTY, EventsOf(calls), updates, boards);
    RunKeepsInv(EMPTY, EventsOf(calls), updates, boards);
    ClearingClears(s, b, order, parts);
    ClearLeavesEvictedLinks(b, order, parts);
    assert Mirror(EMPTY) == NO_VIEW;
    ReplayConcat(NO_VIEW, Concat(updates), Concat(parts));
  }

  lemma RequestsKeepDeletedChanged(calls: seq<Call>, updates: seq<seq<Update>>, states: seq<State>)
    requires IsStateRun(calls, updates, states) && forall i :: 0 <= i < |calls| ==> !calls[i].UpdateGroup?
    ensures states[|calls|].deleted.Keys <= states[|calls|].changed.Keys
  {
    var boards := RunsRefine(calls, updates, states);
    forall i | 0 <= i < |calls| ensures EventsOf(calls)[i].Request? {
      assert !calls[i].UpdateGroup?;
    }
    RunKeepsInv(EMPTY, EventsOf(calls), updates, boards);
    assert Shows(states[|calls|], boards[|calls|]);
  }

  /** Without batches that is nothing. */
  lemma RequestsThenClear(
      calls: seq<Call>, updates: seq<seq<Update>>, states: seq<State>, order: seq<GroupKey>, parts: seq<seq<Update>>)
    requires IsStateRun(calls, updates, states) && forall i :: 0 <= i < |calls| ==> !calls[i].UpdateGroup?
    requires Sound(states[|calls|]) && ClearsAll(states[|calls|], order, parts)
    ensures ReplayAll(NO_VIEW, Concat(updates) + Concat(parts)) == NO_VIEW
  {
    RunThenClear(calls, updates, states, order, parts);
    RequestsKeepDeletedChanged(calls, updates, states);
    assert states[|calls|].deleted.Keys - states[|calls|].changed.Keys == {};
  }

  // ----- A run that clearing does not undo -----

  /** Add two resources of one group, link them, and report the first as removed. */
  function Evicting(group: GroupDesc, res: Resource, other: Resource, version: string): seq<Call> {
    var a, c := Ref(group.Key(), res.url), Ref(group.Key(), other.url);
    [AddResources([NewItem(group, res), NewItem(group, other)]), LinkResources([Link(a, c)]),
     UpdateGroup(group.Key(), version, map[res.url := ResourceChange(Removed, res.url, "", "", "")])]
  }

  lemma OneItem(b: Board, item: Item)
    ensures ItemsDone(b, [item]).0 == ItemDone(b, item).0
  {
    OneMoreItem(b, [], item);
    assert [] + [item] == [item];
  }

  lemma TwoItems(b: Board, item: Item, other: Item)
    ensures ItemsDone(b, [item, other]).0 == ItemDone(ItemDone(b, item).0, other).0
  {
    OneItem(b, item);
    OneMoreItem(b, [item], other);
    assert [item] + [other] == [item, other];
  }

  lemma EvictedBoard(a: NewResource, c: NewResource, version: string)
    requires a.ref != c.ref && GroupOf(a.ref) == GroupOf(c.ref) && version != a.groupVersion
    ensures var k := LinkKey(a.ref, c.ref);
            var b := ItemDone(ItemDone(ItemDone(EMPTY, Add(a)).0, Add(c)).0, Connect(k)).0;
            var b' := BatchRemoved(b, GroupOf(a.ref), version, {a.ref.url});
            b'.deleted == {k} && b'.changed == {}
  {
    var k := LinkKey(a.ref, c.ref);
    var b := ItemDone(ItemDone(ItemDone(EMPTY, Add(a)).0, Add(c)).0, Connect(k)).0;
    assert b.changed == {k} && b.deleted == {} && b.groups[GroupOf(a.ref)] == a.groupVersion;
    assert a.ref in Gone(b, GroupOf(a.ref), {a.ref.url});
  }

  function EvictingEvents(a: NewResource, c: NewResource, version: string): seq<Event> {
    [Request([Add(a), Add(c)]), Request([Connect(LinkKey(a.ref, c.ref))]),
     Event.Batch(GroupOf(a.ref), version, {a.ref.url})]
  }

  lemma EventsOfEvicting(group: GroupDesc, res: Resource, other: Resource, version: string)
    ensures EventsOf(Evicting(group, res, other, version))
         == EvictingEvents(AddOf(NewItem(group, res)).r, AddOf(NewItem(group, other)).r, version)
  {
    var calls := Evicting(group, res, other, version);
    var x, y := NewItem(group, res), NewItem(group, other);
    var l := Link(x.Ref(), y.Ref());
    var adds, links := Items([x, y], AddOf), Items([l], ConnectOf);
    assert adds[0] == AddOf(x) && adds[1] == AddOf(y) && adds == [AddOf(x), AddOf(y)];
    assert links[0] == ConnectOf(l) && links == [ConnectOf(l)];
    assert calls[2].changes.Keys == {res.url};
  }

  lemma EvictingBoards(
      a: NewResource, c: NewResource, version: string, updates: seq<seq<Update>>, boards: seq<Board>)
    requires a.ref != c.ref && GroupOf(a.ref) == GroupOf(c.ref) && version != a.groupVersion
    requires IsRun(EMPTY, EvictingEvents(a, c, version), updates, boards)
    ensures boards[3].deleted == {LinkKey(a.ref, c.ref)} && boards[3].changed == {}
  {
    var events := EvictingEvents(a, c, version);
    assert Step(boards[0], events[0], updates[0], boards[1]);
    assert Step(boards[1], events[1], updates[1], boards[2]);
    assert Step(boards[2], events[2], updates[2], boards[3]);
    TwoItems(EMPTY, Add(a), Add(c));
    OneItem(boards[1], Connect(LinkKey(a.ref, c.ref)));
    EvictedBoard(a, c, version);
  }

  lemma EvictingStates(
      group: GroupDesc, res: Resource, other: Resource, version: string,
      updates: seq<seq<Update>>, states: seq<State>)
    requires res.url != other.url && version != group.version
    requires IsStateRun(Evicting(group, res, other, version), updates, states)
    ensures states[3].deleted.Keys == {LinkKey(Ref(group.Key(), res.url), Ref(group.Key(), other.url))}
    ensures states[3].changed.Keys == {}
  {
    var boards := RunsRefine(Evicting(group, res, other, version), updates, states);
    EventsOfEvicting(group, res, other, version);
    EvictingBoards(AddOf(NewItem(group, res)).r, AddOf(NewItem(group, other)).r, version, updates, boards);
    assert Shows(states[3], boards[3]);
  }

  /** Whenever the server does that, clearing the blackboard leaves a watcher with the link. */
  lemma EvictedLinkOutlivesClear(
      group: GroupDesc, res: Resource, other: Resource, version: string,
      updates: seq<seq<Update>>, states: seq<State>, order: seq<GroupKey>, parts: seq<seq<Update>>)
    requires res.url != other.url && version != group.version
    requires IsStateRun(Evicting(group, res, other, version), updates, states)
    requires Sound(states[3]) && ClearsAll(states[3], order, parts)
    ensures ReplayAll(NO_VIEW, Concat(updates) + Concat(parts)).links
         == {LinkKey(Ref(group.Key(), res.url), Ref(group.Key(), other.url))}
  {
    EvictingStates(group, res, other, version, updates, states);
    RunThenClear(Evicting(group, res, other, version), updates, states, order, parts);
  }

  // ----- There is always a run -----

  lemma {:induction false} SomeListing(heap: Heap, links: Links, some: set<LinkKey>)
    returns (ks: seq<LinkKey>, keys: seq<LinkKey>)
    requires LinksIn(heap, links) && some <= links.Keys
    ensures ListsOnce(heap, links, some, ks, keys)
    decreases |some|
  {
    if some == {} {
      ks, keys := [], [];
    } else {
      var k :| k in some;
      ks, keys := SomeListing(heap, links, some - {k});
      ListOneMore(heap, links, some - {k}, ks, keys, k);
      assert some - {k} + {k} == some;
      ks, keys := ks + [k], keys + [KeyOf(heap, links[k])];
    }
  }

  lemma SomeSending(s: State, g: GroupKey, changes: Batch, url: string) returns (updates: seq<Update>)
    requires Sound(s)
    ensures Sends(s, g, changes, url, updates)
  {
    var ks, keys := SomeListing(s.heap, s.changed, Touching(s, Ref(g, url)));
    assert ListsTouching(s, Ref(g, url), keys);
    if g !in s.groups || url !in s.groups[g].resources {
      updates := [];
    } else if Drops(changes, url) {
      updates := [RemoveResource(Ref(g, url))] + LinkRemovals(keys);
    } else if Renames(changes, url) {
      var c := changes[url];
      updates := LinkRenames(keys, c) + [RenameResource(url, c.newUrl, Info(c.newName, c.newId))];
    } else {
      updates := [];
    }
  }

  lemma {:induction false} SomeSendings(s: State, g: GroupKey, changes: Batch, order: seq<string>)
    returns (parts: seq<seq<Update>>)
    requires Sound(s) && g in s.groups
    ensures SendsAll(s, g, changes, order, parts)
    decreases |order|
  {
    if order == [] {
      parts := [];
    } else {
      var before, url := order[..|order| - 1], order[|order| - 1];
      var first := SomeSendings(s, g, changes, before);
      BatchKeepsSound(s, g, changes, before);
      var more := SomeSending(AllChanges(s, g, changes, before), g, changes, url);
      SendsOneMore(s, g, changes, before, first, url, more);
      assert order == before + [url];
      parts := first + [more];
    }
  }

  lemma SomeUpdate(s: State, g: GroupKey, version: string, changes: Batch) returns (updates: seq<Update>, s': State)
    requires Sound(s)
    ensures GroupUpdated(s, g, version, changes, updates, s')
  {
    if g !in s.groups || s.groups[g].version == version {
      updates, s' := [], s;
    } else {
      var order := SomeOrder(changes.Keys);
      VersionKeepsSound(s, g, version);
      var parts := SomeSendings(WithVersion(s, g, version), g, changes, order);
      updates := [VersionChanged(g, s.groups[g].version, version)] + Concat(parts);
      s' := AllChanges(WithVersion(s, g, version), g, changes, order);
      assert Updates(s, g, version, changes, order, parts, updates, s');
    }
  }

  /** Every call can be answered. */
  lemma SomeStep(s: State, c: Call) returns (updates: seq<Update>, s': State)
    requires Sound(s)
    ensures CallStep(s, c, updates, s')
  {
    match c
    case AddResources(items) =>
      s', updates := AllDone(s, items, AddItem).0, AllDone(s, items, AddItem).1;
    case RemoveResources(refs) =>
      s', updates := AllDone(s, refs, RemoveItem).0, AllDone(s, refs, RemoveItem).1;
    case LinkResources(links) =>
      var found := LookedUp(s.groups, links);
      s', updates := AllDone(s, found, LinkStep).0, AllDone(s, found, LinkStep).1;
    case UnlinkResources(links) =>
      var found := LookedUp(s.groups, links);
      s', updates := AllDone(s, found, UnlinkStep).0, AllDone(s, found, UnlinkStep).1;
    case UpdateGroup(g, version, changes) =>
      updates, s' := SomeUpdate(s, g, version, changes);
  }

  /** And so can every list of calls. */
  lemma {:induction false} SomeRun(calls: seq<Call>) returns (updates: seq<seq<Update>>, states: seq<State>)
    requires RemovesOnly(calls)
    ensures IsStateRun(calls, updates, states)
    decreases |calls|
  {
    if calls == [] {
      updates, states := [], [NOTHING];
    } else {
      var n := |calls| - 1;
      var us, ss := SomeRun(calls[..n]);
      WatcherSeesState(calls[..n], us, ss);
      var u, s := SomeStep(ss[n], calls[n]);
      updates, states := us + [u], ss + [s];
      forall i | 0 <= i < |calls| ensures CallStep(states[i], calls[i], updates[i], states[i + 1]) {
        if i < n {
          assert CallStep(ss[i], calls[..n][i], us[i], ss[i + 1]);
        }
      }
    }
  }

  lemma SomeGroupClear(s: State, g: GroupKey) returns (updates: seq<Update>)
    requires Sound(s) && g in s.groups
    ensures ClearsOne(s, g, updates)
  {
    var urls := SomeOrder(s.groups[g].resources.Keys);
    var ds := SomeOrder(s.deleted.Keys);
    var cs := SomeOrder(s.changed.Keys);
    updates := Removals(RefsIn(g, urls)) + LinkAdditions(Keys(s.heap, s.deleted, ds))
               + LinkRemovals(Keys(s.heap, s.changed, cs));
    assert ClearSends(s, g, urls, ds, cs, updates);
  }

  ghost predicate ClearsEach(s: State, order: seq<GroupKey>, parts: seq<seq<Update>>)
    requires Sound(s)
  {
    |parts| == |order| && forall i :: 0 <= i < |order| ==> ClearsOne(s, order[i], parts[i])
  }

  lemma ClearsFirst(s: State, g: GroupKey, order: seq<GroupKey>, first: seq<Update>, rest: seq<seq<Update>>)
    requires Sound(s) && ClearsOne(s, g, first) && ClearsEach(s, order, rest)
    ensures ClearsEach(s, [g] + order, [first] + rest)
  {
    forall i | 0 <= i < |order| + 1 ensures ClearsOne(s, ([g] + order)[i], ([first] + rest)[i]) {
      if i > 0 {
        assert ClearsOne(s, order[i - 1], rest[i - 1]);
      }
    }
  }

  lemma {:induction false} SomeClears(s: State, order: seq<GroupKey>) returns (parts: seq<seq<Update>>)
    requires Sound(s) && forall g :: g in order ==> g in s.groups
    ensures ClearsEach(s, order, parts)
    decreases |order|
  {
    if order == [] {
      parts := [];
    } else {
      assert order[0] in order && forall g :: g in order[1..] ==> g in order;
      var rest := SomeClears(s, order[1..]);
      var first := SomeGroupClear(s, order[0]);
      ClearsFirst(s, order[0], order[1..], first, rest);
      assert order == [order[0]] + order[1..];
      parts := [first] + rest;
    }
  }

  lemma SomeClear(s: State) returns (order: seq<GroupKey>, parts: seq<seq<Update>>)
    requires Sound(s)
    ensures ClearsAll(s, order, parts)
  {
    order := SomeOrder(s.groups.Keys);
    parts := SomeClears(s, order);
  }

  /** So there is a run that clearing does not undo for a watcher. */
  lemma SomeLinkOutlivesClear(group: GroupDesc, res: Resource, other: Resource, version: string)
    returns (updates: seq<seq<Update>>, states: seq<State>, order: seq<GroupKey>, parts: seq<seq<Update>>)
    requires res.url != other.url && version != group.version
    ensures IsStateRun(Evicting(group, res, other, version), updates, states)
    ensures Sound(states[3]) && ClearsAll(states[3], order, parts)
    ensures ReplayAll(NO_VIEW, Concat(updates) + Concat(parts)).links != {}
  {
    var calls := Evicting(group, res, other, version);
    updates, states := SomeRun(calls);
    WatcherSeesState(calls, updates, states);
    order, parts := SomeClear(states[3]);
    EvictedLinkOutlivesClear(group, res, other, version, updates, states, order, parts);
  }
}
