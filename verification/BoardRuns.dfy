/** A user's blackboard as the server's clients can know it, the updates that the server sends about
    it, and the replay of those updates by a client that watches. */
module BoardRuns {
  import opened Refs
  import opened DepiModel

  datatype Info = Info(name: string, id: string)

  /** Groups with their versions, resources, and the keys of ChangedLinks and DeletedLinks. */
  datatype Board = Board(
    groups: map<GroupKey, string>, resources: map<ResourceRef, Info>,
    changed: set<LinkKey>, deleted: set<LinkKey>)

  datatype Update =
    | AddResource(ref: ResourceRef, info: Info)
    | RemoveResource(ref: ResourceRef)
    | AddLink(key: LinkKey)
    | RemoveLink(key: LinkKey)
    | VersionChanged(group: GroupKey, version: string, newVersion: string)
    | RenameLink(key: LinkKey, newKey: LinkKey, newInfo: Info)
    | RenameResource(url: string, newUrl: string, newInfo: Info)

  const EMPTY := Board(map[], map[], {}, {})

  // ----- The watcher -----

  datatype View = View(resources: map<ResourceRef, Info>, links: set<LinkKey>)

  function Replay(v: View, u: Update): View {
    match u
    case AddResource(ref, info) => v.(resources := v.resources[ref := info])
    case RemoveResource(ref) => v.(resources := v.resources - {ref})
    case AddLink(key) => v.(links := v.links + {key})
    case RemoveLink(key) => v.(links := v.links - {key})
    case _ => v
  }

  function ReplayAll(v: View, updates: seq<Update>): View
    decreases updates
  {
    if updates == [] then v else ReplayAll(Replay(v, updates[0]), updates[1..])
  }

  /** What a watcher of the board should see. */
  function Mirror(b: Board): View { View(b.resources, b.changed - b.deleted) }

  /** Replaying the updates takes the watcher from one board to the next. */
  ghost predicate Explains(b: Board, updates: seq<Update>, b': Board) {
    ReplayAll(Mirror(b), updates) == Mirror(b')
  }

  lemma {:induction false} ReplayConcat(v: View, us: seq<Update>, ws: seq<Update>)
    ensures ReplayAll(v, us + ws) == ReplayAll(ReplayAll(v, us), ws)
    decreases |us|
  {
    if us == [] {
      assert us + ws == ws;
    } else {
      assert (us + ws)[1..] == us[1..] + ws;
      ReplayConcat(Replay(v, us[0]), us[1..], ws);
    }
  }

  function Concat(updates: seq<seq<Update>>): seq<Update> {
    if updates == [] then []
    else Concat(updates[..|updates| - 1]) + updates[|updates| - 1]
  }

  lemma ExplainsInTurn(b0: Board, us: seq<Update>, b1: Board, ws: seq<Update>, b2: Board)
    requires Explains(b0, us, b1) && Explains(b1, ws, b2)
    ensures Explains(b0, us + ws, b2)
  {
    ReplayConcat(Mirror(b0), us, ws);
  }

  lemma {:induction false} ChainIsExplained(boards: seq<Board>, updates: seq<seq<Update>>)
    requires |boards| == |updates| + 1
    requires forall i :: 0 <= i < |updates| ==> Explains(boards[i], updates[i], boards[i + 1])
    ensures Explains(boards[0], Concat(updates), boards[|updates|])
  {
    if updates == [] {
    } else {
      var last := |updates| - 1;
      ChainIsExplained(boards[..last + 1], updates[..last]);
      ExplainsInTurn(boards[0], Concat(updates[..last]), boards[last], updates[last], boards[last + 1]);
    }
  }

  // ----- What the requests do -----

  datatype NewResource = NewResource(ref: ResourceRef, info: Info, groupVersion: string)

  function WithGroup(b: Board, g: GroupKey, version: string): Board {
    if g in b.groups then b else b.(groups := b.groups[g := version])
  }

  function ResourceAdded(b: Board, r: NewResource): (Board, seq<Update>) {
    var b1 := WithGroup(b, GroupOf(r.ref), r.groupVersion);
    if r.ref in b.resources then (b1, [])
    else (b1.(resources := b.resources[r.ref := r.info]), [AddResource(r.ref, r.info)])
  }

  function ResourceRemoved(b: Board, ref: ResourceRef): (Board, seq<Update>) {
    if ref in b.resources then (b.(resources := b.resources - {ref}), [RemoveResource(ref)])
    else (b, [])
  }

  function LinkAdded(b: Board, k: LinkKey): (Board, seq<Update>) {
    if k !in b.changed then (b.(changed := b.changed + {k}, deleted := b.deleted - {k}), [AddLink(k)])
    else if k in b.deleted then (b.(deleted := b.deleted - {k}), [AddLink(k)])
    else (b, [])
  }

  function LinkRemoved(b: Board, k: LinkKey): (Board, seq<Update>) {
    (b.(changed := b.changed + {k}, deleted := b.deleted + {k}),
     if k in b.deleted then [] else [RemoveLink(k)])
  }

  /** A request to link or unlink counts only if both ends are on the blackboard. */
  predicate EndsListed(b: Board, k: LinkKey) { k.fromRes in b.resources && k.toRes in b.resources }

  datatype Item =
    | Add(r: NewResource) | Remove(ref: ResourceRef) | Connect(key: LinkKey) | Disconnect(key: LinkKey)

  function ItemDone(b: Board, item: Item): (Board, seq<Update>) {
    match item
    case Add(r) => ResourceAdded(b, r)
    case Remove(ref) => ResourceRemoved(b, ref)
    case Connect(k) => if EndsListed(b, k) then LinkAdded(b, k) else (b, [])
    case Disconnect(k) => if EndsListed(b, k) then LinkRemoved(b, k) else (b, [])
  }

  /** A request lists items; its updates come in the order of the items. */
  function ItemsDone(b: Board, items: seq<Item>): (Board, seq<Update>) {
    if items == [] then (b, []) else
    var last := |items| - 1;
    var (b1, us) := ItemsDone(b, items[..last]);
    var (b2, ws) := ItemDone(b1, items[last]);
    (b2, us + ws)
  }

  /** The resources of the group that a batch of removals takes away. */
  function Gone(b: Board, g: GroupKey, removed: set<string>): set<ResourceRef> {
    set r | r in b.resources && GroupOf(r) == g && r.url in removed
  }

  function Evicted(b: Board, gone: set<ResourceRef>): set<LinkKey> {
    set k | k in b.changed && (k.fromRes in gone || k.toRes in gone)
  }

  /** UpdateResourceGroup with removals only, on a group of the blackboard whose version changes. */
  function BatchRemoved(b: Board, g: GroupKey, version: string, removed: set<string>): Board {
    if g !in b.groups || b.groups[g] == version then b else
    var gone := Gone(b, g, removed);
    var evicted := Evicted(b, gone);
    Board(b.groups[g := version], b.resources - gone, b.changed - evicted, b.deleted + evicted)
  }

  // ----- Runs -----

  datatype Event =
    | Request(items: seq<Item>)
    | Batch(group: GroupKey, version: string, removed: set<string>)

  /** One event: a request, or a batch of removals that sends updates that explain it. */
  ghost predicate Step(b: Board, e: Event, updates: seq<Update>, b': Board) {
    match e
    case Request(items) => (b', updates) == ItemsDone(b, items)
    case Batch(g, version, removed) =>
      b' == BatchRemoved(b, g, version, removed) && Explains(b, updates, b')
  }

  /** Boards and updates of a run, event by event. */
  ghost predicate IsRun(b: Board, events: seq<Event>, updates: seq<seq<Update>>, boards: seq<Board>) {
    && |boards| == |events| + 1 && |updates| == |events|
    && boards[0] == b
    && forall i :: 0 <= i < |events| ==> Step(boards[i], events[i], updates[i], boards[i + 1])
  }

  lemma ItemIsExplained(b: Board, item: Item)
    ensures Explains(b, ItemDone(b, item).1, ItemDone(b, item).0)
  {
    var (b', us) := ItemDone(b, item);
    if us != [] {
      assert us[1..] == [];
      assert ReplayAll(Mirror(b), us) == Replay(Mirror(b), us[0]);
    }
  }

  lemma {:induction false} ItemsAreExplained(b: Board, items: seq<Item>)
    ensures Explains(b, ItemsDone(b, items).1, ItemsDone(b, items).0)
  {
    if items == [] {
    } else {
      var last := |items| - 1;
      var (b1, us) := ItemsDone(b, items[..last]);
      var (b2, ws) := ItemDone(b1, items[last]);
      ItemsAreExplained(b, items[..last]);
      ItemIsExplained(b1, items[last]);
      ExplainsInTurn(b, us, b1, ws, b2);
    }
  }

  /** In every run, a watcher that replays all the updates holds exactly the server's resources, and
      exactly the links that are changed and not deleted, however often requests repeat themselves. */
  lemma WatcherMirrorsBoard(
      b: Board, events: seq<Event>, updates: seq<seq<Update>>, boards: seq<Board>)
    requires IsRun(b, events, updates, boards)
    ensures Explains(b, Concat(updates), boards[|events|])
  {
    forall i | 0 <= i < |events| ensures Explains(boards[i], updates[i], boards[i + 1]) {
      if events[i].Request? {
        ItemsAreExplained(boards[i], events[i].items);
      }
    }
    ChainIsExplained(boards, updates);
  }

  // ----- Clearing -----

  /** What every reachable board satisfies: resources and links exist only where groups do. */
  ghost predicate Inv(b: Board) {
    && (forall r :: r in b.resources ==> GroupOf(r) in b.groups)
    && (b.changed + b.deleted != {} ==> b.groups != map[])
  }

  lemma ItemKeepsInv(b: Board, item: Item)
    requires Inv(b)
    ensures Inv(ItemDone(b, item).0)
    ensures b.deleted <= b.changed ==> ItemDone(b, item).0.deleted <= ItemDone(b, item).0.changed
  {
    if (item.Connect? || item.Disconnect?) && EndsListed(b, item.key) {
      assert GroupOf(item.key.fromRes) in b.groups;
    }
  }

  lemma {:induction false} ItemsKeepInv(b: Board, items: seq<Item>)
    requires Inv(b)
    ensures Inv(ItemsDone(b, items).0)
    ensures b.deleted <= b.changed ==> ItemsDone(b, items).0.deleted <= ItemsDone(b, items).0.changed
  {
    if items == [] {
    } else {
      var last := |items| - 1;
      ItemsKeepInv(b, items[..last]);
      ItemKeepsInv(ItemsDone(b, items[..last]).0, items[last]);
    }
  }

  lemma BatchKeepsInv(b: Board, g: GroupKey, version: string, removed: set<string>)
    requires Inv(b)
    ensures Inv(BatchRemoved(b, g, version, removed))
  {
    if g in b.groups && b.groups[g] != version {
      assert g in BatchRemoved(b, g, version, removed).groups;
    }
  }

  lemma {:induction false} RunKeepsInv(
      b: Board, events: seq<Event>, updates: seq<seq<Update>>, boards: seq<Board>)
    requires Inv(b) && IsRun(b, events, updates, boards)
    ensures Inv(boards[|events|])
    ensures b.deleted <= b.changed && (forall i :: 0 <= i < |events| ==> events[i].Request?) ==>
              boards[|events|].deleted <= boards[|events|].changed
  {
    if events == [] {
    } else {
      var n := |events| - 1;
      assert IsRun(b, events[..n], updates[..n], boards[..n + 1]);
      RunKeepsInv(b, events[..n], updates[..n], boards[..n + 1]);
      match events[n]
      case Request(items) => ItemsKeepInv(boards[n], items);
      case Batch(g, version, removed) => BatchKeepsInv(boards[n], g, version, removed);
    }
  }

  /** The updates of clearBlackboard for one group, in some order within each kind: its resources
      go, every deleted link is added, every changed link is removed. */
  ghost predicate ClearsGroup(b: Board, g: GroupKey, updates: seq<Update>) {
    exists rs: seq<ResourceRef>, ds: seq<LinkKey>, cs: seq<LinkKey> ::
      && (forall r :: r in rs <==> r in b.resources && GroupOf(r) == g)
      && (forall k :: k in ds <==> k in b.deleted)
      && (forall k :: k in cs <==> k in b.changed)
      && updates == Removals(rs) + LinkAdditions(ds) + LinkRemovals(cs)
  }

  function Removals(rs: seq<ResourceRef>): seq<Update> {
    seq(|rs|, i requires 0 <= i < |rs| => RemoveResource(rs[i]))
  }

  function LinkAdditions(ks: seq<LinkKey>): seq<Update> {
    seq(|ks|, i requires 0 <= i < |ks| => AddLink(ks[i]))
  }

  function LinkRemovals(ks: seq<LinkKey>): seq<Update> {
    seq(|ks|, i requires 0 <= i < |ks| => RemoveLink(ks[i]))
  }

  /** The updates of clearBlackboard: the groups one after the other, in some order. */
  ghost predicate ClearsGroups(b: Board, order: seq<GroupKey>, updates: seq<seq<Update>>) {
    && |updates| == |order|
    && (forall g :: g in order <==> g in b.groups)
    && forall i :: 0 <= i < |order| ==> ClearsGroup(b, order[i], updates[i])
  }

  function Elements<T>(s: seq<T>): set<T> { set x | x in s }

  lemma {:induction false} ReplayRemovals(v: View, rs: seq<ResourceRef>)
    ensures ReplayAll(v, Removals(rs)) == v.(resources := v.resources - Elements(rs))
    decreases |rs|
  {
    if rs == [] {
      assert v.resources - Elements(rs) == v.resources;
    } else {
      assert Removals(rs)[1..] == Removals(rs[1..]);
      var v1 := Replay(v, RemoveResource(rs[0]));
      ReplayRemovals(v1, rs[1..]);
      assert v1.resources - Elements(rs[1..]) == v.resources - Elements(rs);
    }
  }

  lemma {:induction false} ReplayLinkAdditions(v: View, ks: seq<LinkKey>)
    ensures ReplayAll(v, LinkAdditions(ks)) == v.(links := v.links + Elements(ks))
    decreases |ks|
  {
    if ks == [] {
      assert v.links + Elements(ks) == v.links;
    } else {
      assert LinkAdditions(ks)[1..] == LinkAdditions(ks[1..]);
      var v1 := Replay(v, AddLink(ks[0]));
      ReplayLinkAdditions(v1, ks[1..]);
      assert v1.links + Elements(ks[1..]) == v.links + Elements(ks);
    }
  }

  lemma {:induction false} ReplayLinkRemovals(v: View, ks: seq<LinkKey>)
    ensures ReplayAll(v, LinkRemovals(ks)) == v.(links := v.links - Elements(ks))
    decreases |ks|
  {
    if ks == [] {
      assert v.links - Elements(ks) == v.links;
    } else {
      assert LinkRemovals(ks)[1..] == LinkRemovals(ks[1..]);
      var v1 := Replay(v, RemoveLink(ks[0]));
      ReplayLinkRemovals(v1, ks[1..]);
      assert v1.links - Elements(ks[1..]) == v.links - Elements(ks);
    }
  }

  lemma ReplayGroupClear(b: Board, g: GroupKey, updates: seq<Update>, v: View)
    requires ClearsGroup(b, g, updates)
    ensures ReplayAll(v, updates).links == v.links + b.deleted - b.changed
    ensures ReplayAll(v, updates).resources
         == v.resources - (set r | r in b.resources && GroupOf(r) == g)
  {
    var rs: seq<ResourceRef>, ds: seq<LinkKey>, cs: seq<LinkKey> :|
      && (forall r :: r in rs <==> r in b.resources && GroupOf(r) == g)
      && (forall k :: k in ds <==> k in b.deleted)
      && (forall k :: k in cs <==> k in b.changed)
      && updates == Removals(rs) + LinkAdditions(ds) + LinkRemovals(cs);
    ReplayConcat(v, Removals(rs) + LinkAdditions(ds), LinkRemovals(cs));
    ReplayConcat(v, Removals(rs), LinkAdditions(ds));
    ReplayRemovals(v, rs);
    var v1 := ReplayAll(v, Removals(rs));
    ReplayLinkAdditions(v1, ds);
    ReplayLinkRemovals(ReplayAll(v1, LinkAdditions(ds)), cs);
    assert Elements(rs) == set r | r in b.resources && GroupOf(r) == g;
    assert Elements(ds) == b.deleted && Elements(cs) == b.changed;
  }

  /** The watcher once the updates for the groups in `done` are replayed. */
  ghost predicate PartlyCleared(b: Board, done: seq<GroupKey>, v: View) {
    && (forall r :: r in v.resources <==> r in b.resources && GroupOf(r) !in done)
    && v.links == if done == [] then b.changed - b.deleted else b.deleted - b.changed
  }

  lemma ClearOneMore(b: Board, done: seq<GroupKey>, v: View, g: GroupKey, updates: seq<Update>)
    requires PartlyCleared(b, done, v) && ClearsGroup(b, g, updates)
    ensures PartlyCleared(b, done + [g], ReplayAll(v, updates))
  {
    ReplayGroupClear(b, g, updates, v);
    assert v.links + b.deleted - b.changed == b.deleted - b.changed;
  }

  lemma {:induction false} ReplayClear(b: Board, order: seq<GroupKey>, updates: seq<seq<Update>>)
    requires |updates| == |order|
    requires forall i :: 0 <= i < |order| ==> ClearsGroup(b, order[i], updates[i])
    ensures PartlyCleared(b, order, ReplayAll(Mirror(b), Concat(updates)))
  {
    if order == [] {
    } else {
      var last := |order| - 1;
      ReplayClear(b, order[..last], updates[..last]);
      ReplayConcat(Mirror(b), Concat(updates[..last]), updates[last]);
      ClearOneMore(b, order[..last], ReplayAll(Mirror(b), Concat(updates[..last])), order[last], updates[last]);
      assert order == order[..last] + [order[last]];
    }
  }

  lemma ClearedView(b: Board, order: seq<GroupKey>, v: View)
    requires Inv(b) && PartlyCleared(b, order, v) && forall g :: g in order <==> g in b.groups
    ensures v == View(map[], b.deleted - b.changed)
  {
    assert v.resources == map[];
    if order == [] {
      assert b.groups.Keys == {};
      assert b.changed + b.deleted == {};
    }
  }

  /** After clearBlackboard a watcher holds no resources, and as links exactly the deleted ones that
      are not changed. So its view is empty, as the fresh blackboard is, exactly when the deleted
      links are among the changed ones. */
  lemma ClearLeavesEvictedLinks(b: Board, order: seq<GroupKey>, updates: seq<seq<Update>>)
    requires Inv(b) && ClearsGroups(b, order, updates)
    ensures ReplayAll(Mirror(b), Concat(updates)) == View(map[], b.deleted - b.changed)
    ensures Explains(b, Concat(updates), EMPTY) <==> b.deleted <= b.changed
  {
    ReplayClear(b, order, updates);
    ClearedView(b, order, ReplayAll(Mirror(b), Concat(updates)));
    if b.deleted - b.changed == {} {
      assert forall k :: k in b.deleted ==> k !in b.deleted - b.changed;
    }
    assert Mirror(EMPTY) == View(map[], {});
  }

  lemma OneMoreItem(b: Board, items: seq<Item>, item: Item)
    ensures ItemsDone(b, items + [item]).0 == ItemDone(ItemsDone(b, items).0, item).0
  {
    assert (items + [item])[..|items|] == items;
  }
}
