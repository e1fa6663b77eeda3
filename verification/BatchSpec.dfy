/** What a batch of changes to one resource group does to a blackboard that lists the group. The server
    takes the changes in the order of a Go map. */
module BatchSpec {
  import opened Counting
  import opened Refs
  import opened DepiModel
  import opened GroupChanges
  import opened BlackboardSpec

  type Objects = map<string, ObjectId>

  predicate TouchesNow(heap: Heap, l: LinkWithResources, r: ResourceRef) {
    l.In(heap) && KeyOf(heap, l).Touches(r)
  }

  function Touching(s: State, r: ResourceRef): set<LinkKey> {
    set k | k in s.changed && TouchesNow(s.heap, s.changed[k], r)
  }

  function Moved(links: Links, keys: set<LinkKey>): Links {
    map k | k in links && k in keys :: links[k]
  }

  /** The changed links under these keys go; they are among the deleted ones afterwards. */
  function EvictAll(s: State, keys: set<LinkKey>): State {
    s.(changed := s.changed - keys, deleted := Moved(s.changed, keys) + s.deleted)
  }

  function Evict(s: State, r: ResourceRef): State { EvictAll(s, Touching(s, r)) }

  function Renewed(c: ResourceChange): Resource { Resource(c.newName, c.newId, c.newUrl) }

  function OneChange(s: State, g: GroupKey, changes: Batch, url: string): State {
    if g !in s.groups || url !in s.groups[g].resources then s else
    var rg := s.groups[g];
    var groups := s.groups[g := rg.(resources := Apply(rg.resources, changes, url))];
    if Drops(changes, url) then Evict(s.(groups := groups), Ref(g, url))
    else if Renames(changes, url) && rg.resources[url] < |s.heap|
    then s.(heap := s.heap[rg.resources[url] := Renewed(changes[url])], groups := groups)
    else s
  }

  function AllChanges(s: State, g: GroupKey, changes: Batch, order: seq<string>): State {
    if order == [] then s else
    var last := |order| - 1;
    OneChange(AllChanges(s, g, changes, order[..last]), g, changes, order[last])
  }

  // ----- Any batch, any order -----

  lemma RenamingFiles(heap: Heap, groups: Groups, g: GroupKey, changes: Batch, url: string)
    requires ObjectsFiled(heap, groups) && IsFiled(groups, Ref(g, url)) && Renames(changes, url)
    ensures var rg := groups[g];
            ObjectsFiled(heap[rg.resources[url] := Renewed(changes[url])],
                         groups[g := rg.(resources := Apply(rg.resources, changes, url))])
  {
    var rg := groups[g];
    var o, r := rg.resources[url], Ref(g, changes[url].newUrl);
    var heap' := heap[o := Renewed(changes[url])];
    var groups' := groups[g := rg.(resources := Apply(rg.resources, changes, url))];
    assert ObjectAt(groups, Ref(g, url)) == o;
    assert IsFiled(groups', r) && ObjectAt(groups', r) == o;
    forall t | IsFiled(groups', t) && t != r
      ensures IsFiled(groups, t) && ObjectAt(groups', t) == ObjectAt(groups, t) && ObjectAt(groups, t) != o
    {
      assert t != Ref(g, url);
    }
  }

  lemma DroppingFiles(heap: Heap, groups: Groups, g: GroupKey, changes: Batch, url: string)
    requires ObjectsFiled(heap, groups) && IsFiled(groups, Ref(g, url)) && Drops(changes, url)
    ensures var rg := groups[g];
            ObjectsFiled(heap, groups[g := rg.(resources := Apply(rg.resources, changes, url))])
  {
    var rg := groups[g];
    var groups' := groups[g := rg.(resources := Apply(rg.resources, changes, url))];
    assert forall t :: IsFiled(groups', t) ==> IsFiled(groups, t) && ObjectAt(groups', t) == ObjectAt(groups, t);
  }

  ghost predicate Sound(s: State) {
    ObjectsFiled(s.heap, s.groups) && LinksIn(s.heap, s.changed) && LinksIn(s.heap, s.deleted)
  }

  lemma ChangeKeepsSound(s: State, g: GroupKey, changes: Batch, url: string)
    requires Sound(s) && g in s.groups
    ensures var s' := OneChange(s, g, changes, url);
            && Sound(s') && g in s'.groups && |s'.heap| == |s.heap|
            && s'.groups == s.groups[g := s.groups[g].(resources := Apply(s.groups[g].resources, changes, url))]
  {
    if url in s.groups[g].resources {
      assert IsFiled(s.groups, Ref(g, url));
      if Drops(changes, url) {
        DroppingFiles(s.heap, s.groups, g, changes, url);
      } else if Renames(changes, url) {
        RenamingFiles(s.heap, s.groups, g, changes, url);
      }
    }
  }

  /** Whatever the batch and its order, objects stay filed under their own urls and links keep their
      objects; the group's map changes as GroupChanges says, and no other group does. */
  lemma {:induction false} BatchKeepsSound(s: State, g: GroupKey, changes: Batch, order: seq<string>)
    requires Sound(s) && g in s.groups
    ensures var s' := AllChanges(s, g, changes, order);
            && Sound(s') && g in s'.groups && |s'.heap| == |s.heap|
            && s'.groups == s.groups[g := s.groups[g].(resources := ApplyAll(s.groups[g].resources, changes, order))]
  {
    if order == [] {
      assert s.groups == s.groups[g := s.groups[g].(resources := ApplyAll(s.groups[g].resources, changes, []))];
    } else {
      var before, url := order[..|order| - 1], order[|order| - 1];
      BatchKeepsSound(s, g, changes, before);
      ChangeKeepsSound(AllChanges(s, g, changes, before), g, changes, url);
      assert order == before + [url];
      ApplyLast(s.groups[g].resources, changes, before, url);
    }
  }

  // ----- Batches whose outcome does not depend on the order -----

  /** No new url collides, and where an object moves to a url that has a change of its own, both
      changes tell it the same name and id. */
  ghost predicate Settled(urls: set<string>, changes: Batch) {
    && IsBatch(changes) && CollisionFree(urls, changes)
    && forall u :: u in urls && Renames(changes, u) && Renames(changes, NewUrl(changes, u)) ==>
         Renewed(changes[NewUrl(changes, u)]) == Renewed(changes[u])
  }

  predicate Dropped(urls: set<string>, changes: Batch, done: set<string>, g: GroupKey, r: ResourceRef) {
    GroupOf(r) == g && r.url in urls && r.url in done && Drops(changes, r.url)
  }

  predicate Evicted(s: State, g: GroupKey, urls: set<string>, changes: Batch, done: set<string>, l: LinkWithResources) {
    && l.In(s.heap)
    && (|| Dropped(urls, changes, done, g, KeyOf(s.heap, l).fromRes)
        || Dropped(urls, changes, done, g, KeyOf(s.heap, l).toRes))
  }

  function EvictedKeys(s: State, g: GroupKey, urls: set<string>, changes: Batch, done: set<string>): set<LinkKey> {
    set k | k in s.changed && Evicted(s, g, urls, changes, done, s.changed[k])
  }

  ghost predicate Contents(heap: Heap, m: Objects, changes: Batch, done: set<string>, heap': Heap) {
    && |heap'| == |heap|
    && (forall u :: u in m && m[u] < |heap| ==>
          heap'[m[u]] == if u in done && Renames(changes, u) then Renewed(changes[u]) else heap[m[u]])
    && (forall o :: 0 <= o < |heap| && o !in m.Values ==> heap'[o] == heap[o])
  }

  ghost predicate LinksAfter(s: State, evicted: set<LinkKey>, s': State) {
    s'.changed == EvictAll(s, evicted).changed && s'.deleted == EvictAll(s, evicted).deleted
  }

  /** What the changes at the urls in `done` come to, all made at once. */
  ghost predicate Outcome(s: State, g: GroupKey, changes: Batch, done: set<string>, s': State)
    requires g in s.groups && g in s'.groups
  {
    var m := s.groups[g].resources;
    && s'.groups == s.groups[g := s.groups[g].(resources := s'.groups[g].resources)]
    && IsPlaced(m, changes, done, s'.groups[g].resources)
    && Contents(s.heap, m, changes, done, s'.heap)
    && LinksAfter(s, EvictedKeys(s, g, m.Keys, changes, done), s')
  }

  ghost predicate FiledIn(heap: Heap, m: Objects) {
    Injective(m) && forall u :: u in m ==> m[u] < |heap| && heap[m[u]].url == u
  }

  lemma GroupIsFiled(heap: Heap, groups: Groups, g: GroupKey)
    requires ObjectsFiled(heap, groups) && g in groups
    ensures FiledIn(heap, groups[g].resources)
  {
    var m := groups[g].resources;
    forall u | u in m ensures m[u] < |heap| && heap[m[u]].url == u {
      assert IsFiled(groups, Ref(g, u)) && ObjectAt(groups, Ref(g, u)) == m[u];
    }
    forall u, v | u in m && v in m && m[u] == m[v] ensures u == v {
      assert IsFiled(groups, Ref(g, u)) && ObjectAt(groups, Ref(g, u)) == m[u];
      assert IsFiled(groups, Ref(g, v)) && ObjectAt(groups, Ref(g, v)) == m[v];
    }
  }

  /** No change makes or unmakes an object at a url that the batch drops. */
  lemma DroppedUrlIsSteady(
      heap: Heap, m: Objects, changes: Batch, done: set<string>, heap': Heap, o: ObjectId, url: string)
    requires FiledIn(heap, m) && IsBatch(changes) && OrderFree(m.Keys, changes)
    requires Contents(heap, m, changes, done, heap') && o < |heap| && Drops(changes, url)
    ensures heap'[o].url == url <==> heap[o].url == url
  {
    if o in m.Values {
      var u :| u in m && m[u] == o;
      if u in done && Renames(changes, u) {
        assert heap'[o].url == NewUrl(changes, u);
        assert Moves(changes, u) ==> NewUrl(changes, u) != url;
      }
    }
  }

  lemma ContentsStep(heap: Heap, m: Objects, changes: Batch, done: set<string>, heap': Heap, url: string)
    requires FiledIn(heap, m) && Contents(heap, m, changes, done, heap')
    requires url in m && url !in done && Renames(changes, url)
    ensures Contents(heap, m, changes, done + {url}, heap'[m[url] := Renewed(changes[url])])
  {
  }

  lemma ContentsIdle(heap: Heap, m: Objects, changes: Batch, done: set<string>, heap': Heap, url: string)
    requires Contents(heap, m, changes, done, heap') && !(url in m && Renames(changes, url))
    ensures Contents(heap, m, changes, done + {url}, heap')
  {
  }

  lemma MovedToForeignUrl(
      urls: set<string>, changes: Batch, done: set<string>, u: string, url: string)
    requires IsBatch(changes) && CollisionFree(urls, changes) && u in urls && url !in urls && url in changes
    requires Place(changes, done, u) == Some(url)
    ensures u in done && Renames(changes, u) && NewUrl(changes, u) == url && Inert(changes[url])
  {
  }

  /** An object that moved to a url with a change of its own: that change finds nothing to do. */
  lemma SecondRenewalIsIdle(
      heap: Heap, m: Objects, changes: Batch, done: set<string>, heap': Heap, m1: Objects, url: string)
    requires FiledIn(heap, m) && Settled(m.Keys, changes)
    requires Contents(heap, m, changes, done, heap') && IsPlaced(m, changes, done, m1)
    requires url in m1 && url !in m && url in changes
    ensures !Drops(changes, url) && Apply(m1, changes, url) == m1
    ensures Renames(changes, url) ==> m1[url] < |heap'| && heap'[m1[url]] == Renewed(changes[url])
  {
    var u :| u in m && Place(changes, done, u) == Some(url);
    MovedToForeignUrl(m.Keys, changes, done, u, url);
    assert m1[url] == m[u];
    InertLeaves(m1, changes, url);
  }

  lemma InertLeaves(m1: Objects, changes: Batch, url: string)
    requires IsBatch(changes) && url in changes && Inert(changes[url])
    ensures !Drops(changes, url) && Apply(m1, changes, url) == m1
  {
  }

  ghost predicate Midway(s: State, g: GroupKey, changes: Batch, done: set<string>, heap': Heap)
    requires g in s.groups
  {
    && LinksIn(s.heap, s.changed)
    && FiledIn(s.heap, s.groups[g].resources)
    && IsBatch(changes) && OrderFree(s.groups[g].resources.Keys, changes)
    && Contents(s.heap, s.groups[g].resources, changes, done, heap')
  }

  lemma TouchesAsBefore(
      s: State, g: GroupKey, changes: Batch, done: set<string>, heap': Heap, l: LinkWithResources, url: string)
    requires g in s.groups && l.In(s.heap) && Midway(s, g, changes, done, heap')
    requires url in s.groups[g].resources && Drops(changes, url)
    ensures Evicted(s, g, s.groups[g].resources.Keys, changes, done + {url}, l)
       <==> Evicted(s, g, s.groups[g].resources.Keys, changes, done, l) || TouchesNow(heap', l, Ref(g, url))
  {
    var m := s.groups[g].resources;
    DroppedUrlIsSteady(s.heap, m, changes, done, heap', l.fromRes, url);
    DroppedUrlIsSteady(s.heap, m, changes, done, heap', l.toRes, url);
    assert l.In(heap');
  }

  lemma MoveTwice(links: Links, deleted: Links, a: set<LinkKey>, b: set<LinkKey>)
    ensures Moved(links - a, b) + (Moved(links, a) + deleted) == Moved(links, a + b) + deleted
  {
  }

  lemma EvictTwice(s: State, a: set<LinkKey>, s1: State, b: set<LinkKey>)
    requires LinksAfter(s, a, s1)
    ensures LinksAfter(s, a + b, EvictAll(s1, b))
  {
    assert s.changed - a - b == s.changed - (a + b);
    MoveTwice(s.changed, s.deleted, a, b);
  }

  lemma EvictMore(s: State, g: GroupKey, changes: Batch, done: set<string>, s1: State, url: string)
    requires g in s.groups && Midway(s, g, changes, done, s1.heap)
    requires url in s.groups[g].resources && Drops(changes, url)
    requires LinksAfter(s, EvictedKeys(s, g, s.groups[g].resources.Keys, changes, done), s1)
    ensures EvictedKeys(s, g, s.groups[g].resources.Keys, changes, done + {url})
         == EvictedKeys(s, g, s.groups[g].resources.Keys, changes, done) + Touching(s1, Ref(g, url))
  {
    var urls := s.groups[g].resources.Keys;
    var a, b := EvictedKeys(s, g, urls, changes, done), Touching(s1, Ref(g, url));
    var c := EvictedKeys(s, g, urls, changes, done + {url});
    forall k ensures k in c <==> k in a + b {
      if k in s.changed {
        TouchesAsBefore(s, g, changes, done, s1.heap, s.changed[k], url);
      }
    }
  }

  lemma EvictStep(s: State, g: GroupKey, changes: Batch, done: set<string>, s1: State, url: string)
    requires g in s.groups && Midway(s, g, changes, done, s1.heap)
    requires url in s.groups[g].resources && Drops(changes, url)
    requires LinksAfter(s, EvictedKeys(s, g, s.groups[g].resources.Keys, changes, done), s1)
    ensures LinksAfter(s, EvictedKeys(s, g, s.groups[g].resources.Keys, changes, done + {url}), Evict(s1, Ref(g, url)))
  {
    EvictMore(s, g, changes, done, s1, url);
    EvictTwice(s, EvictedKeys(s, g, s.groups[g].resources.Keys, changes, done), s1, Touching(s1, Ref(g, url)));
  }

  lemma EvictIdle(s: State, g: GroupKey, urls: set<string>, changes: Batch, done: set<string>, url: string)
    requires !(url in urls && Drops(changes, url))
    ensures EvictedKeys(s, g, urls, changes, done + {url}) == EvictedKeys(s, g, urls, changes, done)
  {
    forall l ensures Evicted(s, g, urls, changes, done + {url}, l) == Evicted(s, g, urls, changes, done, l) {
    }
  }

  ghost predicate Ready(s: State, g: GroupKey, changes: Batch) {
    Sound(s) && g in s.groups && Settled(s.groups[g].resources.Keys, changes)
  }

  lemma OwnHeapStep(s: State, g: GroupKey, changes: Batch, done: set<string>, s1: State, url: string)
    requires g in s.groups && FiledIn(s.heap, s.groups[g].resources) && url in s.groups[g].resources && url !in done
    requires g in s1.groups && url in s1.groups[g].resources
    requires s1.groups[g].resources[url] == s.groups[g].resources[url]
    requires Contents(s.heap, s.groups[g].resources, changes, done, s1.heap)
    ensures Contents(s.heap, s.groups[g].resources, changes, done + {url}, OneChange(s1, g, changes, url).heap)
  {
    var m := s.groups[g].resources;
    if Renames(changes, url) {
      ContentsStep(s.heap, m, changes, done, s1.heap, url);
      assert OneChange(s1, g, changes, url).heap == s1.heap[m[url] := Renewed(changes[url])];
    } else {
      ContentsIdle(s.heap, m, changes, done, s1.heap, url);
      assert OneChange(s1, g, changes, url).heap == s1.heap;
    }
  }

  lemma ForeignHeapStep(s: State, g: GroupKey, changes: Batch, done: set<string>, s1: State, url: string)
    requires Ready(s, g, changes) && url in changes && url !in done
    requires g in s1.groups && Outcome(s, g, changes, done, s1) && url !in s.groups[g].resources
    ensures Contents(s.heap, s.groups[g].resources, changes, done + {url}, OneChange(s1, g, changes, url).heap)
  {
    var m, m1 := s.groups[g].resources, s1.groups[g].resources;
    GroupIsFiled(s.heap, s.groups, g);
    ContentsIdle(s.heap, m, changes, done, s1.heap, url);
    if url in m1 {
      SecondRenewalIsIdle(s.heap, m, changes, done, s1.heap, m1, url);
    }
    assert OneChange(s1, g, changes, url).heap == s1.heap;
  }

  lemma HeapStep(s: State, g: GroupKey, changes: Batch, done: set<string>, s1: State, url: string)
    requires Ready(s, g, changes) && url in changes && url !in done
    requires g in s1.groups && Outcome(s, g, changes, done, s1)
    ensures Contents(s.heap, s.groups[g].resources, changes, done + {url}, OneChange(s1, g, changes, url).heap)
  {
    if url in s.groups[g].resources {
      GroupIsFiled(s.heap, s.groups, g);
      assert Place(changes, done, url) == Some(url);
      OwnHeapStep(s, g, changes, done, s1, url);
    } else {
      ForeignHeapStep(s, g, changes, done, s1, url);
    }
  }

  lemma SettledIsOrderFree(urls: set<string>, changes: Batch)
    requires Settled(urls, changes)
    ensures OrderFree(urls, changes)
  {
  }

  lemma LinksStep(s: State, g: GroupKey, changes: Batch, done: set<string>, s1: State, url: string)
    requires Ready(s, g, changes) && url in changes && url !in done
    requires g in s1.groups && Outcome(s, g, changes, done, s1)
    ensures LinksAfter(s, EvictedKeys(s, g, s.groups[g].resources.Keys, changes, done + {url}),
                       OneChange(s1, g, changes, url))
  {
    var m, m1 := s.groups[g].resources, s1.groups[g].resources;
    GroupIsFiled(s.heap, s.groups, g);
    SettledIsOrderFree(m.Keys, changes);
    if url in m && Drops(changes, url) {
      assert Place(changes, done, url) == Some(url) && m1[url] == m[url];
      EvictStep(s, g, changes, done, s1, url);
    } else {
      EvictIdle(s, g, m.Keys, changes, done, url);
      if url in m1 && url !in m {
        SecondRenewalIsIdle(s.heap, m, changes, done, s1.heap, m1, url);
      }
    }
  }

  lemma PlacesStep(s: State, g: GroupKey, changes: Batch, done: set<string>, s1: State, url: string)
    requires Ready(s, g, changes) && url in changes && url !in done
    requires g in s1.groups && Outcome(s, g, changes, done, s1)
    ensures IsPlaced(s.groups[g].resources, changes, done + {url}, Apply(s1.groups[g].resources, changes, url))
  {
    StepPlaces(s.groups[g].resources, changes, done, s1.groups[g].resources, url);
  }

  lemma OutcomeOf(s: State, g: GroupKey, changes: Batch, done: set<string>, s1: State, s2: State, m2: Objects)
    requires g in s.groups && g in s1.groups
    requires s1.groups == s.groups[g := s.groups[g].(resources := s1.groups[g].resources)]
    requires s2.groups == s1.groups[g := s1.groups[g].(resources := m2)]
    requires IsPlaced(s.groups[g].resources, changes, done, m2)
    requires Contents(s.heap, s.groups[g].resources, changes, done, s2.heap)
    requires LinksAfter(s, EvictedKeys(s, g, s.groups[g].resources.Keys, changes, done), s2)
    ensures Outcome(s, g, changes, done, s2)
  {
    assert s2.groups[g].resources == m2;
    assert s2.groups == s.groups[g := s.groups[g].(resources := m2)];
  }

  lemma OutcomeStep(s: State, g: GroupKey, changes: Batch, done: set<string>, s1: State, url: string)
    requires Ready(s, g, changes) && url in changes && url !in done
    requires Sound(s1) && g in s1.groups && Outcome(s, g, changes, done, s1)
    ensures g in OneChange(s1, g, changes, url).groups
    ensures Outcome(s, g, changes, done + {url}, OneChange(s1, g, changes, url))
  {
    ChangeKeepsSound(s1, g, changes, url);
    PlacesStep(s, g, changes, done, s1, url);
    HeapStep(s, g, changes, done, s1, url);
    LinksStep(s, g, changes, done, s1, url);
    OutcomeOf(s, g, changes, done + {url}, s1, OneChange(s1, g, changes, url),
              Apply(s1.groups[g].resources, changes, url));
  }

  lemma NothingDone(s: State, g: GroupKey, changes: Batch)
    requires g in s.groups
    ensures Outcome(s, g, changes, {}, s)
  {
    NothingPlaced(s.groups[g].resources, changes);
    assert EvictedKeys(s, g, s.groups[g].resources.Keys, changes, {}) == {};
  }

  lemma {:induction false} ChangesSoFar(s: State, g: GroupKey, changes: Batch, done: seq<string>)
    requires Ready(s, g, changes) && Distinct(done) && forall u :: u in done ==> u in changes
    ensures var s' := AllChanges(s, g, changes, done);
            Sound(s') && g in s'.groups && Outcome(s, g, changes, Values(done), s')
  {
    BatchKeepsSound(s, g, changes, done);
    if done == [] {
      NothingDone(s, g, changes);
    } else {
      var before, url := done[..|done| - 1], done[|done| - 1];
      assert done == before + [url];
      ValuesOfLonger(before, url);
      ChangesSoFar(s, g, changes, before);
      assert url in done;
      OutcomeStep(s, g, changes, Values(before), AllChanges(s, g, changes, before), url);
    }
  }

  lemma BatchOutcome(s: State, g: GroupKey, changes: Batch, order: seq<string>)
    requires Ready(s, g, changes) && IsOrder(order, changes)
    ensures var s' := AllChanges(s, g, changes, order);
            g in s'.groups && Outcome(s, g, changes, changes.Keys, s')
  {
    ChangesSoFar(s, g, changes, order);
    assert Values(order) == changes.Keys;
  }

  lemma ContentsAreUnique(heap: Heap, m: Objects, changes: Batch, done: set<string>, h1: Heap, h2: Heap)
    requires Contents(heap, m, changes, done, h1) && Contents(heap, m, changes, done, h2)
    ensures h1 == h2
  {
    forall o | 0 <= o < |heap| ensures h1[o] == h2[o] {
      if o in m.Values {
        var u :| u in m && m[u] == o;
      }
    }
  }

  /** A settled batch takes the blackboard to one and the same state in every order: groups, objects
      and links. */
  lemma EveryOrderGivesOneState(s: State, g: GroupKey, changes: Batch, order: seq<string>, other: seq<string>)
    requires Ready(s, g, changes) && IsOrder(order, changes) && IsOrder(other, changes)
    ensures AllChanges(s, g, changes, order) == AllChanges(s, g, changes, other)
  {
    var s1, s2 := AllChanges(s, g, changes, order), AllChanges(s, g, changes, other);
    BatchOutcome(s, g, changes, order);
    BatchOutcome(s, g, changes, other);
    SubstitutionIsUnique(s.groups[g].resources, changes, s1.groups[g].resources, s2.groups[g].resources);
    ContentsAreUnique(s.heap, s.groups[g].resources, changes, changes.Keys, s1.heap, s2.heap);
  }

  /** The object that moved from u to x is renamed again by the change at x, if that comes later. */
  lemma LaterChangeWins(s: State, g: GroupKey, changes: Batch, before: seq<string>, u: string)
    requires Sound(s) && g in s.groups && IsBatch(changes) && CollisionFree(s.groups[g].resources.Keys, changes)
    requires Distinct(before) && forall i :: 0 <= i < |before| ==> before[i] in changes
    requires u in s.groups[g].resources && Renames(changes, u) && Renames(changes, NewUrl(changes, u)) && u in before
    ensures var o := s.groups[g].resources[u];
            && o < |AllChanges(s, g, changes, before + [NewUrl(changes, u)]).heap|
            && AllChanges(s, g, changes, before + [NewUrl(changes, u)]).heap[o] == Renewed(changes[NewUrl(changes, u)])
  {
    var m, x := s.groups[g].resources, NewUrl(changes, u);
    var s1 := AllChanges(s, g, changes, before);
    BatchKeepsSound(s, g, changes, before);
    SequencePlaces(m, changes, before);
    assert Place(changes, Values(before), u) == Some(x);
    assert s1.groups[g].resources[x] == m[u];
    GroupIsFiled(s1.heap, s1.groups, g);
    assert (before + [x])[..|before|] == before;
  }

  /** If x names its object otherwise than the change that moves the object to x, then the order in
      which x comes last goes wrong. */
  lemma DisagreementSpoils(s: State, g: GroupKey, changes: Batch, u: string) returns (order: seq<string>)
    requires Sound(s) && g in s.groups && IsBatch(changes) && CollisionFree(s.groups[g].resources.Keys, changes)
    requires u in s.groups[g].resources && Renames(changes, u)
    requires Renames(changes, NewUrl(changes, u)) && Renewed(changes[NewUrl(changes, u)]) != Renewed(changes[u])
    ensures IsOrder(order, changes)
    ensures g in AllChanges(s, g, changes, order).groups
    ensures !Outcome(s, g, changes, changes.Keys, AllChanges(s, g, changes, order))
  {
    var m, x := s.groups[g].resources, NewUrl(changes, u);
    var before := SomeOrder(changes.Keys - {x});
    order := before + [x];
    assert forall i :: 0 <= i < |before| ==> before[i] in before;
    BatchKeepsSound(s, g, changes, order);
    GroupIsFiled(s.heap, s.groups, g);
    LaterChangeWins(s, g, changes, before, u);
  }

  ghost predicate AlwaysSettles(s: State, g: GroupKey, changes: Batch)
    requires g in s.groups
  {
    forall order :: IsOrder(order, changes) && g in AllChanges(s, g, changes, order).groups ==>
      Outcome(s, g, changes, changes.Keys, AllChanges(s, g, changes, order))
  }

  /** Every order of the batch makes all changes as if at once exactly when the batch is settled. */
  lemma SettlesExactly(s: State, g: GroupKey, changes: Batch)
    requires Sound(s) && g in s.groups && IsBatch(changes)
    ensures AlwaysSettles(s, g, changes) <==> Settled(s.groups[g].resources.Keys, changes)
  {
    var m := s.groups[g].resources;
    if Settled(m.Keys, changes) {
      forall order | IsOrder(order, changes) && g in AllChanges(s, g, changes, order).groups
        ensures Outcome(s, g, changes, changes.Keys, AllChanges(s, g, changes, order))
      {
        BatchOutcome(s, g, changes, order);
      }
    } else if !CollisionFree(m.Keys, changes) {
      GroupIsFiled(s.heap, s.groups, g);
      var order := CollisionSpoils(m, changes);
      BatchKeepsSound(s, g, changes, order);
    } else {
      var u :| u in m && Renames(changes, u) && Renames(changes, NewUrl(changes, u)) &&
               Renewed(changes[NewUrl(changes, u)]) != Renewed(changes[u]);
      var order := DisagreementSpoils(s, g, changes, u);
    }
  }

  // ----- Shared objects -----

  /** An object that a link shares with the group is renamed for both: a link that stays still ends at
      an object of the group, filed under the url that the link now shows. */
  lemma LinksFollowTheirObjects(s: State, g: GroupKey, changes: Batch, order: seq<string>, k: LinkKey)
    requires Ready(s, g, changes) && IsOrder(order, changes)
    requires k in AllChanges(s, g, changes, order).changed
    ensures var s' := AllChanges(s, g, changes, order);
            && k in s.changed && s'.changed[k] == s.changed[k] && g in s'.groups
            && var l := s.changed[k];
            && l.In(s'.heap)
            && (l.fromGroup == g && l.fromRes in s.groups[g].resources.Values ==>
                  var url := KeyOf(s'.heap, l).fromRes.url;
                  url in s'.groups[g].resources && s'.groups[g].resources[url] == l.fromRes)
            && (l.toGroup == g && l.toRes in s.groups[g].resources.Values ==>
                  var url := KeyOf(s'.heap, l).toRes.url;
                  url in s'.groups[g].resources && s'.groups[g].resources[url] == l.toRes)
  {
    var s', m := AllChanges(s, g, changes, order), s.groups[g].resources;
    BatchOutcome(s, g, changes, order);
    GroupIsFiled(s.heap, s.groups, g);
    var l := s.changed[k];
    if l.fromGroup == g && l.fromRes in m.Values {
      var u :| u in m && m[u] == l.fromRes;
      ObjectFollows(s, g, changes, s', u);
    }
    if l.toGroup == g && l.toRes in m.Values {
      var u :| u in m && m[u] == l.toRes;
      ObjectFollows(s, g, changes, s', u);
    }
  }

  lemma ObjectFollows(s: State, g: GroupKey, changes: Batch, s': State, u: string)
    requires Ready(s, g, changes) && g in s'.groups && Outcome(s, g, changes, changes.Keys, s')
    requires u in s.groups[g].resources && !Drops(changes, u)
    ensures var o := s.groups[g].resources[u];
            && o < |s'.heap| && s'.heap[o].url == NewUrl(changes, u)
            && NewUrl(changes, u) in s'.groups[g].resources && s'.groups[g].resources[NewUrl(changes, u)] == o
  {
    GroupIsFiled(s.heap, s.groups, g);
    assert Place(changes, changes.Keys, u) == Some(NewUrl(changes, u));
  }
}
