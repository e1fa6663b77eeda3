/** What clients see of a batch that only removes resources, and the updates that tell them. */
module RemovalSpec {
  import opened Counting
  import opened Refs
  import opened DepiModel
  import opened BoardRuns
  import opened GroupChanges
  import opened BlackboardSpec
  import opened BatchSpec

  function WithVersion(s: State, g: GroupKey, version: string): State
    requires g in s.groups
  {
    s.(groups := s.groups[g := s.groups[g].(version := version)])
  }

  ghost predicate OnlyRemovals(changes: Batch) {
    IsBatch(changes) && forall u :: u in changes ==> changes[u].changeType == Removed
  }

  /** The group on the board is at another version. */
  ghost predicate Behind(s: State, b: Board, g: GroupKey, version: string) {
    Shows(s, b) && Current(s) && g in s.groups && s.groups[g].version != version
  }

  lemma VersionKeepsSound(s: State, g: GroupKey, version: string)
    requires Sound(s) && g in s.groups
    ensures Sound(WithVersion(s, g, version))
  {
    var s0 := WithVersion(s, g, version);
    assert forall r :: IsFiled(s0.groups, r) == IsFiled(s.groups, r);
    assert forall r :: IsFiled(s0.groups, r) ==> ObjectAt(s0.groups, r) == ObjectAt(s.groups, r);
  }

  lemma VersionShows(s: State, b: Board, g: GroupKey, version: string)
    requires Shows(s, b) && g in s.groups
    ensures Shows(WithVersion(s, g, version), b.(groups := b.groups[g := version]))
    ensures Current(s) ==> Current(WithVersion(s, g, version))
  {
    var s0 := WithVersion(s, g, version);
    assert forall r :: IsFiled(s0.groups, r) == IsFiled(s.groups, r);
    assert forall r :: IsFiled(s0.groups, r) ==> ObjectAt(s0.groups, r) == ObjectAt(s.groups, r);
  }

  /** With removals only, objects keep their contents. */
  lemma RemovalsKeepContents(heap: Heap, m: Objects, changes: Batch, done: set<string>, heap': Heap)
    requires OnlyRemovals(changes) && FiledIn(heap, m) && Contents(heap, m, changes, done, heap')
    ensures heap' == heap
  {
    forall o | 0 <= o < |heap| ensures heap'[o] == heap[o] {
      if o in m.Values {
        var u :| u in m && m[u] == o;
      }
    }
  }

  lemma RemovalsLeave(s: State, g: GroupKey, changes: Batch, done: set<string>, s': State, r: ResourceRef)
    requires OnlyRemovals(changes) && done <= changes.Keys
    requires g in s.groups && g in s'.groups && Outcome(s, g, changes, done, s')
    ensures IsFiled(s'.groups, r) <==> IsFiled(s.groups, r) && !(GroupOf(r) == g && r.url in done)
    ensures IsFiled(s'.groups, r) ==> ObjectAt(s'.groups, r) == ObjectAt(s.groups, r)
  {
    var m, m' := s.groups[g].resources, s'.groups[g].resources;
    if GroupOf(r) == g {
      if r.url in m && r.url !in done {
        assert Place(changes, done, r.url) == Some(r.url);
      }
      if r.url in m' {
        var u :| u in m && Place(changes, done, u) == Some(r.url);
      }
    }
  }

  lemma RemovalsEvict(s: State, b: Board, g: GroupKey, urls: set<string>, changes: Batch, done: set<string>)
    requires Shows(s, b) && Current(s) && OnlyRemovals(changes) && done <= changes.Keys
    requires g in s.groups && urls == s.groups[g].resources.Keys
    ensures EvictedKeys(s, g, urls, changes, done) == BoardRuns.Evicted(b, Gone(b, g, done))
  {
    var gone := Gone(b, g, done);
    forall r ensures Dropped(urls, changes, done, g, r) <==> r in gone {
      assert r in b.resources <==> IsFiled(s.groups, r);
    }
  }

  ghost predicate Removing(s: State, b: Board, g: GroupKey, changes: Batch, done: set<string>, s': State) {
    && Shows(s, b) && Current(s) && Sound(s) && OnlyRemovals(changes) && done <= changes.Keys
    && g in s.groups && g in s'.groups && Outcome(s, g, changes, done, s') && Sound(s')
  }

  lemma ResourcesLess(s: State, b: Board, g: GroupKey, changes: Batch, done: set<string>, s': State)
    requires Removing(s, b, g, changes, done, s')
    ensures s'.heap == s.heap && Lists(s'.heap, s'.groups, b.resources - Gone(b, g, done))
  {
    GroupIsFiled(s.heap, s.groups, g);
    RemovalsKeepContents(s.heap, s.groups[g].resources, changes, done, s'.heap);
    forall r
      ensures IsFiled(s'.groups, r) <==> IsFiled(s.groups, r) && !(GroupOf(r) == g && r.url in done)
      ensures IsFiled(s'.groups, r) ==> ObjectAt(s'.groups, r) == ObjectAt(s.groups, r)
    {
      RemovalsLeave(s, g, changes, done, s', r);
    }
  }

  lemma KeyedRest(heap: Heap, links: Links, keys: set<LinkKey>)
    requires Keyed(heap, links)
    ensures Keyed(heap, links - keys) && (links - keys).Keys == links.Keys - keys
  {
  }

  lemma KeyedMoved(heap: Heap, links: Links, deleted: Links, keys: set<LinkKey>)
    requires Keyed(heap, links) && Keyed(heap, deleted) && keys <= links.Keys
    ensures Keyed(heap, Moved(links, keys) + deleted) && (Moved(links, keys) + deleted).Keys == deleted.Keys + keys
  {
  }

  lemma EvictKeepsKeys(s: State, evicted: set<LinkKey>, s': State)
    requires Current(s) && LinksAfter(s, evicted, s') && s'.heap == s.heap && evicted <= s.changed.Keys
    ensures Current(s')
    ensures s'.changed.Keys == s.changed.Keys - evicted && s'.deleted.Keys == s.deleted.Keys + evicted
  {
    KeyedRest(s.heap, s.changed, evicted);
    KeyedMoved(s.heap, s.changed, s.deleted, evicted);
  }

  lemma LinksLess(s: State, b: Board, g: GroupKey, changes: Batch, done: set<string>, s': State)
    requires Removing(s, b, g, changes, done, s') && s'.heap == s.heap
    ensures var evicted := BoardRuns.Evicted(b, Gone(b, g, done));
            s'.changed.Keys == b.changed - evicted && s'.deleted.Keys == b.deleted + evicted
    ensures Current(s')
  {
    var urls := s.groups[g].resources.Keys;
    RemovalsEvict(s, b, g, urls, changes, done);
    EvictKeepsKeys(s, EvictedKeys(s, g, urls, changes, done), s');
  }

  lemma RemovingShows(s: State, b: Board, g: GroupKey, changes: Batch, done: set<string>, s': State)
    requires Removing(s, b, g, changes, done, s')
    ensures var gone := Gone(b, g, done);
            var evicted := BoardRuns.Evicted(b, gone);
            Shows(s', Board(b.groups, b.resources - gone, b.changed - evicted, b.deleted + evicted))
    ensures Current(s')
  {
    ResourcesLess(s, b, g, changes, done, s');
    LinksLess(s, b, g, changes, done, s');
  }

  lemma RemovedFromNewVersion(b: Board, g: GroupKey, version: string, done: set<string>)
    requires g in b.groups && b.groups[g] != version
    ensures var b0 := b.(groups := b.groups[g := version]);
            var gone := Gone(b0, g, done);
            var evicted := BoardRuns.Evicted(b0, gone);
            var rest := Board(b0.groups, b0.resources - gone, b0.changed - evicted, b0.deleted + evicted);
            BatchRemoved(b, g, version, done) == rest
  {
    var b0 := b.(groups := b.groups[g := version]);
    assert Gone(b0, g, done) == Gone(b, g, done);
    assert BoardRuns.Evicted(b0, Gone(b0, g, done)) == BoardRuns.Evicted(b, Gone(b, g, done));
  }

  lemma RemovalsAreReady(s: State, g: GroupKey, changes: Batch)
    requires Sound(s) && g in s.groups && OnlyRemovals(changes)
    ensures Ready(s, g, changes)
  {
  }

  lemma StageIsRemoving(s: State, b: Board, g: GroupKey, version: string, changes: Batch, done: seq<string>)
    requires Behind(s, b, g, version) && OnlyRemovals(changes)
    requires Distinct(done) && forall u :: u in done ==> u in changes
    ensures var s0 := WithVersion(s, g, version);
            Removing(s0, b.(groups := b.groups[g := version]), g, changes, Values(done),
                AllChanges(s0, g, changes, done))
  {
    var s0 := WithVersion(s, g, version);
    VersionShows(s, b, g, version);
    RemovalsAreReady(s0, g, changes);
    ChangesSoFar(s0, g, changes, done);
  }

  /** At every stage of a batch of removals, clients can know the board less what is removed so far. */
  lemma RemovalsShow(s: State, b: Board, g: GroupKey, version: string, changes: Batch, done: seq<string>)
    requires Behind(s, b, g, version) && OnlyRemovals(changes)
    requires Distinct(done) && forall u :: u in done ==> u in changes
    ensures var s' := AllChanges(WithVersion(s, g, version), g, changes, done);
            Shows(s', BatchRemoved(b, g, version, Values(done))) && Current(s')
  {
    var s0, b0 := WithVersion(s, g, version), b.(groups := b.groups[g := version]);
    var s' := AllChanges(s0, g, changes, done);
    StageIsRemoving(s, b, g, version, changes, done);
    RemovingShows(s0, b0, g, changes, Values(done), s');
    RemovedFromNewVersion(b, g, version, Values(done));
  }

  // ----- Updates -----

  /** The changed links that touch r, each once, by the keys that they show, in some order. */
  ghost predicate ListsTouching(s: State, r: ResourceRef, keys: seq<LinkKey>) {
    exists ks :: ListsOnce(s.heap, s.changed, Touching(s, r), ks, keys)
  }

  /** The code gives the new url to both ends, whichever of them is renamed. */
  function LinkRename(key: LinkKey, c: ResourceChange): Update {
    RenameLink(key, LinkKey(key.fromRes.(url := c.newUrl), key.toRes.(url := c.newUrl)), Info(c.newName, c.newId))
  }

  function LinkRenames(keys: seq<LinkKey>, c: ResourceChange): seq<Update> {
    seq(|keys|, i requires 0 <= i < |keys| => LinkRename(keys[i], c))
  }

  /** The key of a link once the object at r has a new url. */
  function KeyWithRenamed(key: LinkKey, r: ResourceRef, newUrl: string): LinkKey {
    LinkKey(if key.fromRes == r then key.fromRes.(url := newUrl) else key.fromRes,
            if key.toRes == r then key.toRes.(url := newUrl) else key.toRes)
  }

  /** So what is sent is the link's new key exactly if either end is the resource or has the new url
      anyhow. */
  lemma SentRenameIsRight(key: LinkKey, r: ResourceRef, c: ResourceChange)
    ensures LinkRename(key, c).newKey == KeyWithRenamed(key, r, c.newUrl)
       <==> && (key.fromRes == r || key.fromRes.url == c.newUrl)
            && (key.toRes == r || key.toRes.url == c.newUrl)
  {
    assert key.fromRes.(url := c.newUrl) == key.fromRes <==> key.fromRes.url == c.newUrl;
    assert key.toRes.(url := c.newUrl) == key.toRes <==> key.toRes.url == c.newUrl;
  }

  /** The same on objects, whatever a link's ends are called: what is sent is the key that the link shows
      afterwards exactly if either end is the renamed object or has the new url anyhow. */
  lemma SentRenameIsShown(heap: Heap, l: LinkWithResources, o: ObjectId, c: ResourceChange)
    requires l.In(heap) && o < |heap|
    ensures LinkRename(KeyOf(heap, l), c).newKey == KeyOf(heap[o := Renewed(c)], l)
       <==> && (l.fromRes == o || heap[l.fromRes].url == c.newUrl)
            && (l.toRes == o || heap[l.toRes].url == c.newUrl)
  {
    var sent, shown := LinkRename(KeyOf(heap, l), c).newKey, KeyOf(heap[o := Renewed(c)], l);
    assert sent.fromRes == shown.fromRes <==> sent.fromRes.url == shown.fromRes.url;
    assert sent.toRes == shown.toRes <==> sent.toRes.url == shown.toRes.url;
  }

  /** A change in place, as the differ reports it, is enough: the link is said to end at its own source. */
  lemma ChangeInPlaceMisnamesLink(r: ResourceRef, other: ResourceRef, name: string)
    requires other.url != r.url
    ensures var key, c := LinkKey(r, other), ResourceChange(Modified, r.url, r.url, name, r.url);
            && KeyWithRenamed(key, r, c.newUrl) == key
            && LinkRename(key, c).newKey == LinkKey(r, other.(url := r.url)) != key
  {
    assert other.(url := r.url).url != other.url;
  }

  /** The updates for one change: a removal sends the resource and then every link it evicts, a rename
      sends every link that it touches and then the resource. */
  ghost predicate Sends(s: State, g: GroupKey, changes: Batch, url: string, updates: seq<Update>) {
    if g !in s.groups || url !in s.groups[g].resources then updates == []
    else if Drops(changes, url) then
      exists keys :: ListsTouching(s, Ref(g, url), keys)
          && updates == [RemoveResource(Ref(g, url))] + LinkRemovals(keys)
    else if Renames(changes, url) then
      var c := changes[url];
      exists keys :: ListsTouching(s, Ref(g, url), keys) &&
        updates == LinkRenames(keys, c) + [RenameResource(url, c.newUrl, Info(c.newName, c.newId))]
    else updates == []
  }

  /** The updates for a whole batch. */
  ghost predicate SendsAll(s: State, g: GroupKey, changes: Batch, order: seq<string>, updates: seq<seq<Update>>) {
    && |updates| == |order|
    && forall i :: 0 <= i < |order| ==>
         Sends(AllChanges(s, g, changes, order[..i]), g, changes, order[i], updates[i])
  }

  lemma SendsOneMore(
      s: State, g: GroupKey, changes: Batch, order: seq<string>, updates: seq<seq<Update>>, url: string,
      more: seq<Update>)
    requires SendsAll(s, g, changes, order, updates)
    requires Sends(AllChanges(s, g, changes, order), g, changes, url, more)
    ensures SendsAll(s, g, changes, order + [url], updates + [more])
    ensures AllChanges(s, g, changes, order + [url]) == OneChange(AllChanges(s, g, changes, order), g, changes, url)
    ensures Concat(updates + [more]) == Concat(updates) + more
  {
    assert (order + [url])[..|order|] == order && (updates + [more])[..|updates|] == updates;
    forall i | 0 <= i < |order| + 1
      ensures Sends(AllChanges(s, g, changes, (order + [url])[..i]), g, changes, (order + [url])[i],
          (updates + [more])[i])
    {
      if i < |order| {
        assert (order + [url])[..i] == order[..i];
      }
    }
  }

  function TouchingKeys(b: Board, r: ResourceRef): set<LinkKey> { set k | k in b.changed && k.Touches(r) }

  function LessResource(b: Board, r: ResourceRef): Board {
    if r !in b.resources then b else
    Board(b.groups, b.resources - {r}, b.changed - TouchingKeys(b, r), b.deleted + TouchingKeys(b, r))
  }

  /** A batch of removals, one resource at a time. */
  lemma OneMoreRemoved(b: Board, g: GroupKey, version: string, done: set<string>, url: string)
    requires g in b.groups && b.groups[g] != version && url !in done
    ensures BatchRemoved(b, g, version, done + {url}) == LessResource(BatchRemoved(b, g, version, done), Ref(g, url))
  {
    var r := Ref(g, url);
    var b1, t := BatchRemoved(b, g, version, done), TouchingKeys(BatchRemoved(b, g, version, done), r);
    var gone1, gone2 := Gone(b, g, done), Gone(b, g, done + {url});
    var evicted1, evicted2 := BoardRuns.Evicted(b, gone1), BoardRuns.Evicted(b, gone2);
    if r in b.resources {
      assert gone2 == gone1 + {r};
      assert evicted2 == evicted1 + t;
      assert b.changed - evicted2 == b1.changed - t;
      assert b.deleted + evicted2 == b1.deleted + t;
    } else {
      assert gone2 == gone1;
    }
  }

  lemma RemovalIsExplained(b1: Board, r: ResourceRef, keys: seq<LinkKey>)
    requires forall k :: k in keys <==> k in TouchingKeys(b1, r)
    ensures var t := TouchingKeys(b1, r);
            Explains(b1, [RemoveResource(r)] + LinkRemovals(keys),
                     Board(b1.groups, b1.resources - {r}, b1.changed - t, b1.deleted + t))
  {
    var v := Mirror(b1);
    var v1 := Replay(v, RemoveResource(r));
    ReplayConcat(v, [RemoveResource(r)], LinkRemovals(keys));
    assert [RemoveResource(r)][1..] == [];
    assert ReplayAll(v, [RemoveResource(r)]) == v1;
    ReplayLinkRemovals(v1, keys);
    assert Elements(keys) == TouchingKeys(b1, r);
  }

  /** The updates for one removal take the watcher along. */
  lemma SentRemovalIsExplained(s: State, b: Board, g: GroupKey, changes: Batch, url: string, updates: seq<Update>)
    requires Shows(s, b) && Current(s) && Drops(changes, url) && Sends(s, g, changes, url, updates)
    ensures Explains(b, updates, LessResource(b, Ref(g, url)))
  {
    var r := Ref(g, url);
    assert r in b.resources <==> IsFiled(s.groups, r);
    if IsFiled(s.groups, r) {
      var keys :| ListsTouching(s, r, keys) && updates == [RemoveResource(r)] + LinkRemovals(keys);
      var ks :| ListsOnce(s.heap, s.changed, Touching(s, r), ks, keys);
      ListsCurrentKeys(s.heap, s.changed, Touching(s, r), ks, keys);
      assert forall k :: k in Touching(s, r) <==> k in TouchingKeys(b, r);
      RemovalIsExplained(b, r, keys);
    }
  }

  lemma StageIsExplained(
      s: State, b: Board, g: GroupKey, version: string, changes: Batch, done: seq<string>, url: string,
      updates: seq<Update>)
    requires Behind(s, b, g, version) && OnlyRemovals(changes)
    requires Distinct(done + [url]) && (forall u :: u in done ==> u in changes) && url in changes
    requires Sends(AllChanges(WithVersion(s, g, version), g, changes, done), g, changes, url, updates)
    ensures Explains(BatchRemoved(b, g, version, Values(done)), updates,
                     BatchRemoved(b, g, version, Values(done + [url])))
  {
    var b1 := BatchRemoved(b, g, version, Values(done));
    ValuesOfLonger(done, url);
    RemovalsShow(s, b, g, version, changes, done);
    OneMoreRemoved(b, g, version, Values(done), url);
    SentRemovalIsExplained(AllChanges(WithVersion(s, g, version), g, changes, done), b1, g, changes, url, updates);
  }

  lemma StageOfOrder(order: seq<string>, changes: Batch, i: nat)
    requires IsOrder(order, changes) && i < |order|
    ensures order[..i + 1] == order[..i] + [order[i]]
    ensures Distinct(order[..i] + [order[i]]) && order[i] in changes && forall u :: u in order[..i] ==> u in changes
  {
    assert order[..i + 1] == order[..i] + [order[i]];
    assert order[i] in order;
    assert forall u :: u in order[..i] ==> u in order;
  }

  /** The boards on the way. */
  function Stages(b: Board, g: GroupKey, version: string, order: seq<string>): seq<Board> {
    seq(|order| + 1, i requires 0 <= i <= |order| => BatchRemoved(b, g, version, Values(order[..i])))
  }

  lemma StagesAreExplained(
      s: State, b: Board, g: GroupKey, version: string, changes: Batch, order: seq<string>, updates: seq<seq<Update>>)
    requires Behind(s, b, g, version) && OnlyRemovals(changes) && IsOrder(order, changes)
    requires SendsAll(WithVersion(s, g, version), g, changes, order, updates)
    ensures forall i :: 0 <= i < |order| ==>
              Explains(Stages(b, g, version, order)[i], updates[i], Stages(b, g, version, order)[i + 1])
  {
    var boards := Stages(b, g, version, order);
    forall i | 0 <= i < |order| ensures Explains(boards[i], updates[i], boards[i + 1]) {
      StageOfOrder(order, changes, i);
      StageIsExplained(s, b, g, version, changes, order[..i], order[i], updates[i]);
    }
  }

  lemma NewVersionIsExplained(b: Board, g: GroupKey, version: string)
    requires g in b.groups && b.groups[g] != version
    ensures Explains(b, [VersionChanged(g, b.groups[g], version)], BatchRemoved(b, g, version, {}))
  {
    var first := [VersionChanged(g, b.groups[g], version)];
    assert Gone(b, g, {}) == {} && BoardRuns.Evicted(b, {}) == {};
    assert Mirror(BatchRemoved(b, g, version, {})) == Mirror(b);
    assert first[1..] == [];
    assert ReplayAll(Mirror(b), first) == Mirror(b);
  }

  lemma StagesMakeStep(b: Board, g: GroupKey, version: string, order: seq<string>, updates: seq<seq<Update>>)
    requires g in b.groups && b.groups[g] != version && |updates| == |order|
    requires forall i :: 0 <= i < |order| ==>
               Explains(Stages(b, g, version, order)[i], updates[i], Stages(b, g, version, order)[i + 1])
    ensures Explains(b, [VersionChanged(g, b.groups[g], version)] + Concat(updates),
                     BatchRemoved(b, g, version, Values(order)))
  {
    var boards := Stages(b, g, version, order);
    ChainIsExplained(boards, updates);
    assert order[..|order|] == order && Values(order[..0]) == {};
    NewVersionIsExplained(b, g, version);
    ExplainsInTurn(b, [VersionChanged(g, b.groups[g], version)], boards[0], Concat(updates), boards[|order|]);
  }

  /** Whatever order the server takes the removals in, and the links within each: the board becomes
      the one that BoardRuns describes, and the updates take a watcher there. */
  lemma RemovalBatchIsAStep(
      s: State, b: Board, g: GroupKey, version: string, changes: Batch, order: seq<string>, updates: seq<seq<Update>>)
    requires Behind(s, b, g, version) && OnlyRemovals(changes) && IsOrder(order, changes)
    requires SendsAll(WithVersion(s, g, version), g, changes, order, updates)
    ensures var s' := AllChanges(WithVersion(s, g, version), g, changes, order);
            var b' := BatchRemoved(b, g, version, changes.Keys);
            && Shows(s', b') && Current(s')
            && Step(b, Event.Batch(g, version, changes.Keys),
                    [VersionChanged(g, b.groups[g], version)] + Concat(updates), b')
  {
    OrderCovers(order, changes);
    RemovalsShow(s, b, g, version, changes, order);
    StagesAreExplained(s, b, g, version, changes, order, updates);
    StagesMakeStep(b, g, version, order, updates);
  }

  predicate IsGone(s: State, g: GroupKey, urls: set<string>, r: ResourceRef) {
    IsFiled(s.groups, r) && GroupOf(r) == g && r.url in urls
  }

  ghost predicate LinksMove(s: State, g: GroupKey, urls: set<string>, s': State) {
    && (forall r :: IsFiled(s'.groups, r) <==> IsFiled(s.groups, r) && !IsGone(s, g, urls, r))
    && (forall k :: k in s'.changed <==>
          k in s.changed && !IsGone(s, g, urls, k.fromRes) && !IsGone(s, g, urls, k.toRes))
    && (forall k :: k in s'.deleted <==>
          k in s.deleted || (k in s.changed && (IsGone(s, g, urls, k.fromRes) || IsGone(s, g, urls, k.toRes))))
  }

  lemma BoardLinksMove(s: State, b: Board, g: GroupKey, version: string, urls: set<string>, s': State)
    requires Shows(s, b) && g in b.groups && b.groups[g] != version
    requires Shows(s', BatchRemoved(b, g, version, urls))
    ensures LinksMove(s, g, urls, s')
  {
    var b' := BatchRemoved(b, g, version, urls);
    forall r
      ensures IsGone(s, g, urls, r) <==> r in Gone(b, g, urls)
      ensures IsFiled(s'.groups, r) <==> IsFiled(s.groups, r) && !IsGone(s, g, urls, r)
    {
      assert r in b'.resources <==> IsFiled(s'.groups, r);
      assert r in b.resources <==> IsFiled(s.groups, r);
    }
    assert s'.changed.Keys == b'.changed && s'.deleted.Keys == b'.deleted;
    assert s.changed.Keys == b.changed && s.deleted.Keys == b.deleted;
  }

  /** After a batch of removals in any order, no changed link has an end that was removed; the links that
      had one are among the deleted ones, all others are where they were, and no key is added or lost. */
  lemma RemovalBatchMovesLinks(
      s: State, b: Board, g: GroupKey, version: string, changes: Batch, order: seq<string>)
    requires Behind(s, b, g, version) && OnlyRemovals(changes) && IsOrder(order, changes)
    ensures LinksMove(s, g, changes.Keys, AllChanges(WithVersion(s, g, version), g, changes, order))
  {
    OrderCovers(order, changes);
    RemovalsShow(s, b, g, version, changes, order);
    BoardLinksMove(s, b, g, version, changes.Keys, AllChanges(WithVersion(s, g, version), g, changes, order));
  }
}
