/** Runs of a blackboard in which batches may rename resources, and a watcher that follows the renames. Of
    links it can be told wrongly, but its resources are always those of the blackboard. */
module RenameRuns {
  import opened Refs
  import opened DepiModel
  import opened BoardRuns
  import opened GroupChanges
  import opened BlackboardSpec
  import opened BatchSpec
  import opened RemovalSpec
  import opened StateRuns

  // ----- The watcher -----

  /** The resources that a watcher holds, and the group whose version it was told last: renames name no
      group. */
  datatype Listing = Listing(resources: map<ResourceRef, Info>, group: Option<GroupKey>)

  const NO_LISTING := Listing(map[], None)

  function Follow(v: Listing, u: Update): Listing {
    match u
    case AddResource(ref, info) => v.(resources := v.resources[ref := info])
    case RemoveResource(ref) => v.(resources := v.resources - {ref})
    case VersionChanged(group, _, _) => v.(group := Some(group))
    case RenameResource(url, newUrl, info) =>
      if v.group.None? then v
      else v.(resources := (v.resources - {Ref(v.group.value, url)})[Ref(v.group.value, newUrl) := info])
    case AddLink(_) => v
    case RemoveLink(_) => v
    case RenameLink(_, _, _) => v
  }

  function FollowAll(v: Listing, updates: seq<Update>): Listing
    decreases updates
  {
    if updates == [] then v else FollowAll(Follow(v, updates[0]), updates[1..])
  }

  lemma {:induction false} FollowConcat(v: Listing, us: seq<Update>, ws: seq<Update>)
    ensures FollowAll(v, us + ws) == FollowAll(FollowAll(v, us), ws)
    decreases |us|
  {
    if us == [] {
      assert us + ws == ws;
    } else {
      assert (us + ws)[1..] == us[1..] + ws;
      FollowConcat(Follow(v, us[0]), us[1..], ws);
    }
  }

  lemma FollowOne(v: Listing, u: Update)
    ensures FollowAll(v, [u]) == Follow(v, u)
  {
    assert [u][1..] == [];
  }

  lemma {:induction false} FollowLinkRemovals(v: Listing, keys: seq<LinkKey>)
    ensures FollowAll(v, LinkRemovals(keys)) == v
    decreases |keys|
  {
    if keys == [] {
    } else {
      assert LinkRemovals(keys)[1..] == LinkRemovals(keys[1..]);
      FollowLinkRemovals(v, keys[1..]);
    }
  }

  lemma {:induction false} FollowLinkRenames(v: Listing, keys: seq<LinkKey>, c: ResourceChange)
    ensures FollowAll(v, LinkRenames(keys, c)) == v
    decreases |keys|
  {
    if keys == [] {
    } else {
      assert LinkRenames(keys, c)[1..] == LinkRenames(keys[1..], c);
      FollowLinkRenames(v, keys[1..], c);
    }
  }

  /** Where nothing is renamed, following is replaying. */
  lemma {:induction false} FollowIsReplay(v: Listing, w: View, updates: seq<Update>)
    requires v.resources == w.resources && forall u :: u in updates ==> !u.RenameResource?
    ensures FollowAll(v, updates).resources == ReplayAll(w, updates).resources
    decreases |updates|
  {
    if updates == [] {
    } else {
      assert updates[0] in updates;
      FollowIsReplay(Follow(v, updates[0]), Replay(w, updates[0]), updates[1..]);
    }
  }

  // ----- One step at a time -----

  /** The watcher holds exactly the resources that are filed, with the names and ids of their objects. */
  ghost predicate Holds(s: State, v: Listing) { Sound(s) && Lists(s.heap, s.groups, v.resources) }

  /** The state and the watcher move on together. */
  ghost predicate Tracks(s: State, updates: seq<Update>, s': State) {
    forall v :: Holds(s, v) ==> Holds(s', FollowAll(v, updates))
  }

  function Versions(groups: Groups): map<GroupKey, string> { map g | g in groups :: groups[g].version }

  /** A board that shows the state. */
  function BoardFor(s: State, v: Listing): Board {
    Board(Versions(s.groups), v.resources, s.changed.Keys, s.deleted.Keys)
  }

  lemma HoldsShows(s: State, v: Listing)
    requires Holds(s, v)
    ensures Shows(s, BoardFor(s, v))
  {
  }

  lemma ShowsHolds(s: State, b: Board, v: Listing)
    requires Shows(s, b) && v.resources == b.resources
    ensures Holds(s, v)
  {
  }

  lemma TracksInTurn(s0: State, us: seq<Update>, s1: State, ws: seq<Update>, s2: State)
    requires Tracks(s0, us, s1) && Tracks(s1, ws, s2)
    ensures Tracks(s0, us + ws, s2)
  {
    forall v | Holds(s0, v) ensures Holds(s2, FollowAll(v, us + ws)) {
      FollowConcat(v, us, ws);
    }
  }

  lemma AddItemTracks(s: State, x: NewItem)
    ensures Tracks(s, AddItem(s, x).1, AddItem(s, x).0)
  {
    var (s', us) := AddItem(s, x);
    forall v | Holds(s, v) ensures Holds(s', FollowAll(v, us)) {
      var b := BoardFor(s, v);
      var r := NewResource(x.Ref(), Info(x.res.name, x.res.id), x.group.version);
      HoldsShows(s, v);
      AddingShows(s, b, x.group, x.res);
      if us != [] {
        FollowOne(v, us[0]);
      }
      ShowsHolds(s', ResourceAdded(b, r).0, FollowAll(v, us));
    }
  }

  lemma RemoveItemTracks(s: State, ref: ResourceRef)
    ensures Tracks(s, RemoveItem(s, ref).1, RemoveItem(s, ref).0)
  {
    var (s', us) := RemoveItem(s, ref);
    forall v | Holds(s, v) ensures Holds(s', FollowAll(v, us)) {
      var b := BoardFor(s, v);
      HoldsShows(s, v);
      BlackboardSpec.RemovingShows(s, b, ref);
      if us != [] {
        FollowOne(v, us[0]);
      }
      ShowsHolds(s', ResourceRemoved(b, ref).0, FollowAll(v, us));
    }
  }

  /** Linking and unlinking leave resources alone, and so do the updates about them. */
  lemma LinkStepTracks(s: State, l: LinkWithResources)
    ensures Tracks(s, LinkStep(s, l).1, LinkStep(s, l).0)
    ensures Tracks(s, UnlinkStep(s, l).1, UnlinkStep(s, l).0)
  {
    if l.In(s.heap) {
      var key := KeyOf(s.heap, l);
      forall v ensures FollowAll(v, [AddLink(key)]) == v && FollowAll(v, [RemoveLink(key)]) == v {
        FollowOne(v, AddLink(key));
        FollowOne(v, RemoveLink(key));
      }
    }
  }

  lemma {:induction false} AllTrack<X(!new)>(s: State, xs: seq<X>, step: (State, X) -> (State, seq<Update>))
    requires forall t, x :: Tracks(t, step(t, x).1, step(t, x).0)
    ensures Tracks(s, AllDone(s, xs, step).1, AllDone(s, xs, step).0)
    decreases |xs|
  {
    if xs == [] {
    } else {
      var last := |xs| - 1;
      var (s1, us) := AllDone(s, xs[..last], step);
      var (s2, ws) := step(s1, xs[last]);
      AllTrack(s, xs[..last], step);
      assert Tracks(s1, step(s1, xs[last]).1, step(s1, xs[last]).0);
      TracksInTurn(s, us, s1, ws, s2);
    }
  }

  // ----- Batches -----

  lemma OneRename(m: Objects, changes: Batch, url: string, x: string)
    requires url in m && Renames(changes, url)
    ensures var m', newUrl := Apply(m, changes, url), changes[url].newUrl;
            && (x in m' <==> (x in m && x != url) || x == newUrl)
            && (x in m' ==> m'[x] == if x == newUrl then m[url] else m[x])
  {
  }

  /** What is filed after a rename: as before, but the object at url is at the new url, over whatever was
      there. */
  lemma RenamedFiling(groups: Groups, g: GroupKey, changes: Batch, url: string, x: ResourceRef)
    requires IsFiled(groups, Ref(g, url)) && Renames(changes, url)
    ensures var r, r' := Ref(g, url), Ref(g, changes[url].newUrl);
            var groups' := groups[g := groups[g].(resources := Apply(groups[g].resources, changes, url))];
            && (IsFiled(groups', x) <==> (IsFiled(groups, x) && x != r) || x == r')
            && (IsFiled(groups', x) ==> ObjectAt(groups', x) == ObjectAt(groups, if x == r' then r else x))
  {
    OneRename(groups[g].resources, changes, url, x.url);
  }

  lemma RenamedState(s: State, g: GroupKey, changes: Batch, url: string)
    requires Sound(s) && IsFiled(s.groups, Ref(g, url)) && Renames(changes, url)
    ensures var s', o := OneChange(s, g, changes, url), s.groups[g].resources[url];
            && o < |s.heap| && s'.heap == s.heap[o := Renewed(changes[url])]
            && s'.groups == s.groups[g := s.groups[g].(resources := Apply(s.groups[g].resources, changes, url))]
  {
    assert ObjectAt(s.groups, Ref(g, url)) < |s.heap|;
  }

  /** One object filed anew under another url, over whatever was there. */
  lemma RenamedIsListed(s: State, g: GroupKey, changes: Batch, url: string, listed: map<ResourceRef, Info>)
    requires Sound(s) && Lists(s.heap, s.groups, listed)
    requires IsBatch(changes) && IsFiled(s.groups, Ref(g, url)) && Renames(changes, url)
    ensures var c, s' := changes[url], OneChange(s, g, changes, url);
            && ObjectsFiled(s'.heap, s'.groups)
            && Lists(s'.heap, s'.groups, (listed - {Ref(g, url)})[Ref(g, c.newUrl) := Info(c.newName, c.newId)])
  {
    RenamedState(s, g, changes, url);
    RenamingFiles(s.heap, s.groups, g, changes, url);
    RenamedMapIsListed(s.heap, s.groups, g, changes, url, listed);
  }

  lemma RenamedMapIsListed(
      heap: Heap, groups: Groups, g: GroupKey, changes: Batch, url: string, listed: map<ResourceRef, Info>)
    requires ObjectsFiled(heap, groups) && Lists(heap, groups, listed)
    requires IsFiled(groups, Ref(g, url)) && Renames(changes, url) && groups[g].resources[url] < |heap|
    requires ObjectsFiled(heap[groups[g].resources[url] := Renewed(changes[url])],
                          groups[g := groups[g].(resources := Apply(groups[g].resources, changes, url))])
    ensures var c := changes[url];
            Lists(heap[groups[g].resources[url] := Renewed(c)],
                  groups[g := groups[g].(resources := Apply(groups[g].resources, changes, url))],
                  (listed - {Ref(g, url)})[Ref(g, c.newUrl) := Info(c.newName, c.newId)])
  {
    var c, o, r, r' := changes[url], groups[g].resources[url], Ref(g, url), Ref(g, changes[url].newUrl);
    var groups' := groups[g := groups[g].(resources := Apply(groups[g].resources, changes, url))];
    var heap', listed' := heap[o := Renewed(c)], (listed - {r})[r' := Info(c.newName, c.newId)];
    assert ObjectAt(groups, r) == o;
    forall x ensures x in listed' <==> IsFiled(groups', x) {
      RenamedFiling(groups, g, changes, url, x);
    }
    forall x | x in listed'
      ensures listed'[x].name == heap'[ObjectAt(groups', x)].name && listed'[x].id == heap'[ObjectAt(groups', x)].id
    {
      RenamedFiling(groups, g, changes, url, x);
      if x != r' {
        assert IsFiled(groups, x) && ObjectAt(groups, x) != o;
      }
    }
  }

  /** Where a watcher last heard of the version of g, it follows the updates for one change in g. */
  ghost predicate TracksIn(g: GroupKey, s: State, updates: seq<Update>, s': State) {
    forall v :: Holds(s, v) && v.group == Some(g) ==>
      Holds(s', FollowAll(v, updates)) && FollowAll(v, updates).group == Some(g)
  }

  lemma DropTracks(s: State, g: GroupKey, changes: Batch, url: string, updates: seq<Update>)
    requires Sound(s) && IsFiled(s.groups, Ref(g, url)) && Drops(changes, url) && Sends(s, g, changes, url, updates)
    ensures TracksIn(g, s, updates, OneChange(s, g, changes, url))
  {
    var r, s' := Ref(g, url), OneChange(s, g, changes, url);
    ChangeKeepsSound(s, g, changes, url);
    var keys :| ListsTouching(s, r, keys) && updates == [Update.RemoveResource(r)] + LinkRemovals(keys);
    forall v | Holds(s, v) && v.group == Some(g)
      ensures Holds(s', FollowAll(v, updates)) && FollowAll(v, updates).group == Some(g)
    {
      FollowConcat(v, [Update.RemoveResource(r)], LinkRemovals(keys));
      FollowOne(v, Update.RemoveResource(r));
      FollowLinkRemovals(Follow(v, Update.RemoveResource(r)), keys);
      ObjectDropped(s.heap, s.groups, v.resources, r);
    }
  }

  lemma RenameHolds(s: State, g: GroupKey, changes: Batch, url: string, keys: seq<LinkKey>, v: Listing)
    requires IsBatch(changes) && IsFiled(s.groups, Ref(g, url)) && Renames(changes, url)
    requires Holds(s, v) && v.group == Some(g) && Sound(OneChange(s, g, changes, url))
    ensures var c := changes[url];
            var v' := FollowAll(v, LinkRenames(keys, c) + [RenameResource(url, c.newUrl, Info(c.newName, c.newId))]);
            Holds(OneChange(s, g, changes, url), v') && v'.group == Some(g)
  {
    var c := changes[url];
    var rename := RenameResource(url, c.newUrl, Info(c.newName, c.newId));
    FollowConcat(v, LinkRenames(keys, c), [rename]);
    FollowLinkRenames(v, keys, c);
    FollowOne(v, rename);
    RenamedIsListed(s, g, changes, url, v.resources);
  }

  lemma RenameTracks(s: State, g: GroupKey, changes: Batch, url: string, updates: seq<Update>)
    requires Sound(s) && IsBatch(changes) && IsFiled(s.groups, Ref(g, url))
    requires Renames(changes, url) && Sends(s, g, changes, url, updates)
    ensures TracksIn(g, s, updates, OneChange(s, g, changes, url))
  {
    var c := changes[url];
    ChangeKeepsSound(s, g, changes, url);
    var keys :| ListsTouching(s, Ref(g, url), keys)
      && updates == LinkRenames(keys, c) + [RenameResource(url, c.newUrl, Info(c.newName, c.newId))];
    forall v | Holds(s, v) && v.group == Some(g)
      ensures Holds(OneChange(s, g, changes, url), FollowAll(v, updates)) && FollowAll(v, updates).group == Some(g)
    {
      RenameHolds(s, g, changes, url, keys, v);
    }
  }

  lemma ChangeTracks(s: State, g: GroupKey, changes: Batch, url: string, updates: seq<Update>)
    requires Sound(s) && g in s.groups && IsBatch(changes) && Sends(s, g, changes, url, updates)
    ensures TracksIn(g, s, updates, OneChange(s, g, changes, url))
  {
    if url in s.groups[g].resources {
      assert IsFiled(s.groups, Ref(g, url));
      if Drops(changes, url) {
        DropTracks(s, g, changes, url, updates);
      } else if Renames(changes, url) {
        RenameTracks(s, g, changes, url, updates);
      } else {
        UnchangedState(s, g, changes, url);
      }
    }
  }

  lemma UnchangedState(s: State, g: GroupKey, changes: Batch, url: string)
    requires g in s.groups && !Drops(changes, url) && !Renames(changes, url)
    ensures OneChange(s, g, changes, url) == s
  {
  }

  lemma {:induction false} ChangesTrack(
      s: State, g: GroupKey, changes: Batch, order: seq<string>, parts: seq<seq<Update>>)
    requires Sound(s) && g in s.groups && IsBatch(changes) && SendsAll(s, g, changes, order, parts)
    ensures TracksIn(g, s, Concat(parts), AllChanges(s, g, changes, order))
    decreases |order|
  {
    if order == [] {
    } else {
      var last := |order| - 1;
      var s1 := AllChanges(s, g, changes, order[..last]);
      FewerSent(s, g, changes, order, parts);
      ChangesTrack(s, g, changes, order[..last], parts[..last]);
      BatchKeepsSound(s, g, changes, order[..last]);
      ChangeTracks(s1, g, changes, order[last], parts[last]);
      forall v | Holds(s, v) && v.group == Some(g)
        ensures Holds(AllChanges(s, g, changes, order), FollowAll(v, Concat(parts)))
        ensures FollowAll(v, Concat(parts)).group == Some(g)
      {
        FollowConcat(v, Concat(parts[..last]), parts[last]);
      }
    }
  }

  lemma FewerSent(s: State, g: GroupKey, changes: Batch, order: seq<string>, parts: seq<seq<Update>>)
    requires order != [] && SendsAll(s, g, changes, order, parts)
    ensures SendsAll(s, g, changes, order[..|order| - 1], parts[..|order| - 1])
    ensures Sends(AllChanges(s, g, changes, order[..|order| - 1]), g, changes, order[|order| - 1], parts[|order| - 1])
  {
    var last := |order| - 1;
    forall i | 0 <= i < last
      ensures Sends(AllChanges(s, g, changes, order[..last][..i]), g, changes, order[..last][i], parts[..last][i])
    {
      assert order[..last][..i] == order[..i];
    }
  }

  lemma VersionHolds(s: State, g: GroupKey, version: string, v: Listing)
    requires Holds(s, v) && g in s.groups
    ensures Holds(WithVersion(s, g, version), v)
  {
    HoldsShows(s, v);
    VersionShows(s, BoardFor(s, v), g, version);
  }

  lemma BatchHolds(
      s: State, g: GroupKey, version: string, changes: Batch, order: seq<string>, parts: seq<seq<Update>>, v: Listing)
    requires Holds(s, v) && g in s.groups && IsBatch(changes)
    requires SendsAll(WithVersion(s, g, version), g, changes, order, parts)
    ensures Holds(AllChanges(WithVersion(s, g, version), g, changes, order),
                  FollowAll(v, [VersionChanged(g, s.groups[g].version, version)] + Concat(parts)))
  {
    var first := VersionChanged(g, s.groups[g].version, version);
    VersionKeepsSound(s, g, version);
    ChangesTrack(WithVersion(s, g, version), g, changes, order, parts);
    VersionHolds(s, g, version, v.(group := Some(g)));
    FollowConcat(v, [first], Concat(parts));
    FollowOne(v, first);
  }

  lemma GroupUpdateTracks(
      s: State, g: GroupKey, version: string, changes: Batch, updates: seq<Update>, s': State)
    requires Sound(s) && IsBatch(changes) && GroupUpdated(s, g, version, changes, updates, s')
    ensures Tracks(s, updates, s')
  {
    forall v | Holds(s, v) ensures Holds(s', FollowAll(v, updates)) {
      if g in s.groups && s.groups[g].version != version {
        var order, parts :| Updates(s, g, version, changes, order, parts, updates, s');
        BatchHolds(s, g, version, changes, order, parts, v);
      }
    }
  }

  // ----- Whole runs -----

  /** The batches are keyed by the urls that their changes are about. */
  ghost predicate HasBatches(calls: seq<Call>) {
    forall i :: 0 <= i < |calls| && calls[i].UpdateGroup? ==> IsBatch(calls[i].changes)
  }

  lemma CallTracks(s: State, c: Call, updates: seq<Update>, s': State)
    requires Sound(s) && CallStep(s, c, updates, s') && (c.UpdateGroup? ==> IsBatch(c.changes))
    ensures Tracks(s, updates, s')
  {
    match c
    case AddResources(items) =>
      forall t, x ensures Tracks(t, AddItem(t, x).1, AddItem(t, x).0) {
        AddItemTracks(t, x);
      }
      AllTrack(s, items, AddItem);
    case RemoveResources(refs) =>
      forall t, x ensures Tracks(t, RemoveItem(t, x).1, RemoveItem(t, x).0) {
        RemoveItemTracks(t, x);
      }
      AllTrack(s, refs, RemoveItem);
    case LinkResources(links) =>
      forall t, l ensures Tracks(t, LinkStep(t, l).1, LinkStep(t, l).0) {
        LinkStepTracks(t, l);
      }
      AllTrack(s, LookedUp(s.groups, links), LinkStep);
    case UnlinkResources(links) =>
      forall t, l ensures Tracks(t, UnlinkStep(t, l).1, UnlinkStep(t, l).0) {
        LinkStepTracks(t, l);
      }
      AllTrack(s, LookedUp(s.groups, links), UnlinkStep);
    case UpdateGroup(g, version, changes) =>
      GroupUpdateTracks(s, g, version, changes, updates, s');
  }

  /** In every run from the fresh blackboard, batches of all kinds of changes included, a watcher that
      follows the updates holds exactly the resources that are filed, with their names and ids. */
  lemma {:induction false} WatcherHoldsResources(calls: seq<Call>, updates: seq<seq<Update>>, states: seq<State>)
    requires IsStateRun(calls, updates, states) && HasBatches(calls)
    ensures Holds(states[|calls|], FollowAll(NO_LISTING, Concat(updates)))
    decreases |calls|
  {
    if calls == [] {
      NothingShowsEmpty();
    } else {
      var n := |calls| - 1;
      assert IsStateRun(calls[..n], updates[..n], states[..n + 1]);
      WatcherHoldsResources(calls[..n], updates[..n], states[..n + 1]);
      CallTracks(states[n], calls[n], updates[n], states[n + 1]);
      FollowConcat(NO_LISTING, Concat(updates[..n]), updates[n]);
    }
  }
}
