/** The blackboard of one user, and the server's requests on it. Every method is proved against the
    state that BlackboardSpec or BatchSpec gives it. */
module Blackboards {
  import opened Counting
  import opened Refs
  import opened DepiModel
  import opened BoardRuns
  import opened GroupChanges
  import opened BlackboardSpec
  import opened BatchSpec
  import opened RemovalSpec
  import opened StateRuns

  class Blackboard {
    var heap: Heap
    var resources: Groups
    var changedLinks: Links
    var deletedLinks: Links

    function Now(): State
      reads this
    {
      State(heap, resources, changedLinks, deletedLinks)
    }

    constructor ()
      ensures Now() == NOTHING
    {
      heap, resources, changedLinks, deletedLinks := [], map[], map[], map[];
    }

    method AddResource(group: GroupDesc, res: Resource) returns (added: bool)
      modifies this
      ensures (Now(), added) == BlackboardSpec.AddResource(old(Now()), group, res)
    {
      var g := group.Key();
      if g !in resources {
        resources := resources[g := ResourceGroup(group.name, group.version, map[])];
      }
      var toolRg := resources[g];
      heap := heap + [res];
      added := res.url !in toolRg.resources;
      if added {
        resources := resources[g := toolRg.(resources := toolRg.resources[res.url := |heap| - 1])];
      }
    }

    method RemoveResource(ref: ResourceRef) returns (removed: bool)
      modifies this`resources
      ensures (Now(), removed) == BlackboardSpec.RemoveResource(old(Now()), ref)
    {
      var g := GroupOf(ref);
      if g !in resources {
        return false;
      }
      var rg := resources[g];
      removed := ref.url in rg.resources;
      if removed {
        resources := resources[g := rg.(resources := rg.resources - {ref.url})];
      }
    }

    function ExpandResource(ref: ResourceRef): (found: Option<(GroupKey, ObjectId)>)
      reads this
      ensures found.Some? <==> IsFiled(resources, ref)
      ensures found.Some? ==> found.value == (GroupOf(ref), ObjectAt(resources, ref))
    {
      var g := GroupOf(ref);
      if g !in resources then None
      else if ref.url !in resources[g].resources then None
      else Some((g, resources[g].resources[ref.url]))
    }

    method LinkResources(links: seq<LinkWithResources>) returns (updates: seq<Update>)
      requires forall l :: l in links ==> l.In(heap)
      modifies this`changedLinks, this`deletedLinks
      ensures (Now(), updates) == AllDone(old(Now()), links, LinkStep)
    {
      updates := [];
      for i := 0 to |links|
        invariant heap == old(heap)
        invariant (Now(), updates) == AllDone(old(Now()), links[..i], LinkStep)
      {
        var link := links[i];
        assert links[..i + 1][..i] == links[..i] && updates + [] == updates;
        var linkKey := KeyOf(heap, link);
        if linkKey !in changedLinks {
          changedLinks := changedLinks[linkKey := link];
          updates := updates + [AddLink(linkKey)];
          deletedLinks := deletedLinks - {linkKey};
        } else if linkKey in deletedLinks {
          deletedLinks := deletedLinks - {linkKey};
          changedLinks := changedLinks[linkKey := link];
          updates := updates + [AddLink(linkKey)];
        }
      }
      assert links[..|links|] == links;
    }

    method UnlinkResources(links: seq<LinkWithResources>) returns (updates: seq<Update>)
      requires forall l :: l in links ==> l.In(heap)
      modifies this`changedLinks, this`deletedLinks
      ensures (Now(), updates) == AllDone(old(Now()), links, UnlinkStep)
    {
      updates := [];
      for i := 0 to |links|
        invariant heap == old(heap)
        invariant (Now(), updates) == AllDone(old(Now()), links[..i], UnlinkStep)
      {
        var link := links[i];
        assert links[..i + 1][..i] == links[..i] && updates + [] == updates;
        var linkKey := KeyOf(heap, link);
        var known := linkKey in deletedLinks;
        changedLinks := changedLinks[linkKey := link];
        deletedLinks := deletedLinks[linkKey := link];
        if !known {
          updates := updates + [RemoveLink(linkKey)];
        }
      }
      assert links[..|links|] == links;
    }
  }

  // ----- The server's requests -----

  method AddResourcesToBlackboard(blackboard: Blackboard, items: seq<NewItem>) returns (updates: seq<Update>)
    modifies blackboard
    ensures (blackboard.Now(), updates) == AllDone(old(blackboard.Now()), items, AddItem)
  {
    updates := [];
    for i := 0 to |items|
      invariant (blackboard.Now(), updates) == AllDone(old(blackboard.Now()), items[..i], AddItem)
    {
      assert items[..i + 1][..i] == items[..i] && updates + [] == updates;
      var added := blackboard.AddResource(items[i].group, items[i].res);
      if added {
        updates := updates + [Update.AddResource(items[i].Ref(), Info(items[i].res.name, items[i].res.id))];
      }
    }
    assert items[..|items|] == items;
  }

  lemma RemovingKeepsSound(s: State, ref: ResourceRef)
    requires Sound(s)
    ensures Sound(BlackboardSpec.RemoveResource(s, ref).0)
    ensures IsFiled(s.groups, ref) ==>
        ObjectAt(s.groups, ref) < |s.heap| && s.heap[ObjectAt(s.groups, ref)].url == ref.url
  {
    var s' := BlackboardSpec.RemoveResource(s, ref).0;
    if IsFiled(s.groups, ref) {
      assert forall x :: IsFiled(s'.groups, x) <==> IsFiled(s.groups, x) && x != ref;
      assert forall x :: IsFiled(s'.groups, x) ==> ObjectAt(s'.groups, x) == ObjectAt(s.groups, x);
    }
  }

  /** Each resource is expanded before it goes, and the update tells about the object that was there. */
  method RemoveResourcesFromBlackboard(blackboard: Blackboard, refs: seq<ResourceRef>) returns (updates: seq<Update>)
    requires Sound(blackboard.Now())
    modifies blackboard
    ensures (blackboard.Now(), updates) == AllDone(old(blackboard.Now()), refs, RemoveItem)
    ensures Sound(blackboard.Now())
  {
    updates := [];
    for i := 0 to |refs|
      invariant Sound(blackboard.Now())
      invariant (blackboard.Now(), updates) == AllDone(old(blackboard.Now()), refs[..i], RemoveItem)
    {
      assert refs[..i + 1][..i] == refs[..i] && updates + [] == updates;
      RemovingKeepsSound(blackboard.Now(), refs[i]);
      var expanded := blackboard.ExpandResource(refs[i]);
      var removed := blackboard.RemoveResource(refs[i]);
      if removed {
        var (group, obj) := expanded.value;
        updates := updates + [Update.RemoveResource(Ref(group, blackboard.heap[obj].url))];
      }
    }
    assert refs[..|refs|] == refs;
  }

  /** Links with an end that is not on the blackboard are passed over. */
  method LookupLinkResource(blackboard: Blackboard, links: seq<Link>) returns (result: seq<LinkWithResources>)
    ensures result == LookedUp(blackboard.resources, links)
  {
    result := [];
    for i := 0 to |links|
      invariant result == LookedUp(blackboard.resources, links[..i])
    {
      assert links[..i + 1][..i] == links[..i] && result + [] == result;
      var fromRes := blackboard.ExpandResource(links[i].fromRes);
      if fromRes == None {
        continue;
      }
      var toRes := blackboard.ExpandResource(links[i].toRes);
      if toRes == None {
        continue;
      }
      result := result +
        [LinkWithResources(fromRes.value.0, fromRes.value.1, toRes.value.0, toRes.value.1)];
    }
    assert links[..|links|] == links;
  }

  lemma {:induction false} LookedUpIn(heap: Heap, groups: Groups, links: seq<Link>)
    requires ObjectsFiled(heap, groups)
    ensures forall l :: l in LookedUp(groups, links) ==> l.In(heap)
  {
    if links == [] {
    } else {
      LookedUpIn(heap, groups, links[..|links| - 1]);
    }
  }

  method LinkBlackboardResources(blackboard: Blackboard, links: seq<Link>) returns (updates: seq<Update>)
    requires Sound(blackboard.Now())
    modifies blackboard
    ensures var before := old(blackboard.Now());
            (blackboard.Now(), updates) == AllDone(before, LookedUp(before.groups, links), LinkStep)
  {
    var found := LookupLinkResource(blackboard, links);
    LookedUpIn(blackboard.heap, blackboard.resources, links);
    updates := blackboard.LinkResources(found);
  }

  method UnlinkBlackboardResources(blackboard: Blackboard, links: seq<Link>) returns (updates: seq<Update>)
    requires Sound(blackboard.Now())
    modifies blackboard
    ensures var before := old(blackboard.Now());
            (blackboard.Now(), updates) == AllDone(before, LookedUp(before.groups, links), UnlinkStep)
  {
    var found := LookupLinkResource(blackboard, links);
    LookedUpIn(blackboard.heap, blackboard.resources, links);
    updates := blackboard.UnlinkResources(found);
  }

  // ----- A changed resource group -----

  lemma MoveOne(links: Links, keys: set<LinkKey>, k: LinkKey)
    requires k in links
    ensures Moved(links, keys + {k}) == Moved(links, keys)[k := links[k]]
  {
  }

  lemma MoveOneOnto(links: Links, keys: set<LinkKey>, k: LinkKey, deleted: Links)
    requires k in links && k !in keys
    ensures Moved(links, keys + {k}) + deleted
         == if k in Moved(links, keys) + deleted then Moved(links, keys) + deleted
            else (Moved(links, keys) + deleted)[k := links[k]]
  {
  }

  lemma TakeOne(part: set<LinkKey>, rest: set<LinkKey>, k: LinkKey)
    requires k in rest
    ensures part - (rest - {k}) == if k in part then part - rest + {k} else part - rest
  {
  }

  lemma OneMoreRemoval(keys: seq<LinkKey>, key: LinkKey)
    ensures LinkRemovals(keys + [key]) == LinkRemovals(keys) + [RemoveLink(key)]
  {
  }

  lemma OneMoreRename(keys: seq<LinkKey>, key: LinkKey, c: ResourceChange)
    ensures LinkRenames(keys + [key], c) == LinkRenames(keys, c) + [LinkRename(key, c)]
  {
  }

  /** The loop over the changed links for a resource that is removed. */
  method EvictLinks(heap: Heap, changedLinks: Links, deletedLinks: Links, r: ResourceRef)
    returns (newChanged: Links, deleted: Links, updates: seq<Update>)
    requires LinksIn(heap, changedLinks)
    ensures var touching := set k | k in changedLinks && TouchesNow(heap, changedLinks[k], r);
            && newChanged == changedLinks - touching
            && deleted == Moved(changedLinks, touching) + deletedLinks
            && exists ks, keys :: ListsOnce(heap, changedLinks, touching, ks, keys) && updates == LinkRemovals(keys)
  {
    newChanged, deleted, updates := map[], deletedLinks, [];
    ghost var ks: seq<LinkKey>, keys: seq<LinkKey> := [], [];
    var rest := changedLinks.Keys;
    ghost var touching := set k | k in changedLinks && TouchesNow(heap, changedLinks[k], r);
    ghost var others := changedLinks.Keys - touching;
    while rest != {}
      invariant rest <= changedLinks.Keys
      invariant newChanged == Moved(changedLinks, others - rest)
      invariant deleted == Moved(changedLinks, touching - rest) + deletedLinks
      invariant ListsOnce(heap, changedLinks, touching - rest, ks, keys)
      invariant updates == LinkRemovals(keys)
    {
      var key :| key in rest;
      var link := changedLinks[key];
      TakeOne(touching, rest, key);
      TakeOne(others, rest, key);
      if KeyOf(heap, link).Touches(r) {
        updates := updates + [RemoveLink(KeyOf(heap, link))];
        OneMoreRemoval(keys, KeyOf(heap, link));
        ListOneMore(heap, changedLinks, touching - rest, ks, keys, key);
        ks, keys := ks + [key], keys + [KeyOf(heap, link)];
        MoveOneOnto(changedLinks, touching - rest, key, deletedLinks);
        if key !in deleted {
          deleted := deleted[key := link];
        }
      } else {
        MoveOne(changedLinks, others - rest, key);
        newChanged := newChanged[key := link];
      }
      rest := rest - {key};
    }
    assert touching - rest == touching && others - rest == others;
    assert Moved(changedLinks, others) == changedLinks - touching;
  }

  /** The loop over the changed links for a resource that is renamed. */
  method RenameLinks(heap: Heap, changedLinks: Links, r: ResourceRef, c: ResourceChange)
    returns (updates: seq<Update>)
    requires LinksIn(heap, changedLinks)
    ensures var touching := set k | k in changedLinks && TouchesNow(heap, changedLinks[k], r);
            exists ks, keys :: ListsOnce(heap, changedLinks, touching, ks, keys) && updates == LinkRenames(keys, c)
  {
    updates := [];
    ghost var ks: seq<LinkKey>, keys: seq<LinkKey> := [], [];
    var rest := changedLinks.Keys;
    ghost var touching := set k | k in changedLinks && TouchesNow(heap, changedLinks[k], r);
    while rest != {}
      invariant rest <= changedLinks.Keys
      invariant ListsOnce(heap, changedLinks, touching - rest, ks, keys)
      invariant updates == LinkRenames(keys, c)
    {
      var key :| key in rest;
      var link := changedLinks[key];
      TakeOne(touching, rest, key);
      if KeyOf(heap, link).Touches(r) {
        var key' := KeyOf(heap, link);
        var newKey := LinkKey(key'.fromRes.(url := c.newUrl), key'.toRes.(url := c.newUrl));
        updates := updates + [RenameLink(key', newKey, Info(c.newName, c.newId))];
        OneMoreRename(keys, key', c);
        ListOneMore(heap, changedLinks, touching - rest, ks, keys, key);
        ks, keys := ks + [key], keys + [KeyOf(heap, link)];
      }
      rest := rest - {key};
    }
    assert touching - rest == touching;
  }

  /** The body of the loop over the changes of a group. */
  method ChangeResource(blackboard: Blackboard, g: GroupKey, changes: Batch, url: string) returns (updates: seq<Update>)
    requires Sound(blackboard.Now()) && g in blackboard.resources && IsBatch(changes) && url in changes
    modifies blackboard
    ensures blackboard.Now() == OneChange(old(blackboard.Now()), g, changes, url)
    ensures Sends(old(blackboard.Now()), g, changes, url, updates)
  {
    updates := [];
    var rg, c := blackboard.resources[g], changes[url];
    if url !in rg.resources {
      return;
    }
    var obj := rg.resources[url];
    assert IsFiled(blackboard.resources, Ref(g, url)) && ObjectAt(blackboard.resources, Ref(g, url)) == obj;
    var res := blackboard.heap[obj];
    if c.changeType == Removed {
      blackboard.resources := blackboard.resources[g := rg.(resources := rg.resources - {url})];
      var newChanged, deleted, removals :=
        EvictLinks(blackboard.heap, blackboard.changedLinks, blackboard.deletedLinks, Ref(g, res.url));
      updates := [Update.RemoveResource(Ref(g, res.url))] + removals;
      ghost var touching := Touching(old(blackboard.Now()), Ref(g, url));
      ghost var ks, keys :|
        ListsOnce(blackboard.heap, blackboard.changedLinks, touching, ks, keys) && removals == LinkRemovals(keys);
      assert ListsTouching(old(blackboard.Now()), Ref(g, url), keys);
      blackboard.changedLinks, blackboard.deletedLinks := newChanged, deleted;
    } else if c.changeType == Renamed || (c.changeType == Modified || c.url != c.newUrl) {
      var renames := RenameLinks(blackboard.heap, blackboard.changedLinks, Ref(g, c.url), c);
      ghost var touching := Touching(old(blackboard.Now()), Ref(g, url));
      ghost var ks, keys :|
        ListsOnce(blackboard.heap, blackboard.changedLinks, touching, ks, keys) && renames == LinkRenames(keys, c);
      assert ListsTouching(old(blackboard.Now()), Ref(g, url), keys);
      blackboard.resources :=
        blackboard.resources[g := rg.(resources := (rg.resources - {c.url})[c.newUrl := obj])];
      blackboard.heap := blackboard.heap[obj := Resource(c.newName, c.newId, c.newUrl)];
      updates := renames + [RenameResource(c.url, c.newUrl, Info(c.newName, c.newId))];
    }
  }

  /** The loop over the changes, in the order of a Go map. */
  method ChangeResources(blackboard: Blackboard, g: GroupKey, changes: Batch)
    returns (updates: seq<Update>, ghost order: seq<string>, ghost parts: seq<seq<Update>>)
    requires Sound(blackboard.Now()) && g in blackboard.resources && IsBatch(changes)
    modifies blackboard
    ensures IsOrder(order, changes)
    ensures blackboard.Now() == AllChanges(old(blackboard.Now()), g, changes, order)
    ensures SendsAll(old(blackboard.Now()), g, changes, order, parts) && updates == Concat(parts)
  {
    ghost var s := blackboard.Now();
    updates, order, parts := [], [], [];
    var rest := changes.Keys;
    while rest != {}
      invariant rest <= changes.Keys
      invariant Distinct(order) && forall u :: u in order <==> u in changes.Keys - rest
      invariant blackboard.Now() == AllChanges(s, g, changes, order)
      invariant SendsAll(s, g, changes, order, parts) && updates == Concat(parts)
    {
      var url :| url in rest;
      BatchKeepsSound(s, g, changes, order);
      var more := ChangeResource(blackboard, g, changes, url);
      SendsOneMore(s, g, changes, order, parts, url, more);
      assert url !in order;
      updates, order, parts := updates + more, order + [url], parts + [more];
      rest := rest - {url};
    }
  }

  /** The blackboard part of the request: a group that is listed at another version is brought up to
      date. */
  method UpdateResourceGroup(blackboard: Blackboard, g: GroupKey, version: string, changes: Batch)
    returns (updates: seq<Update>)
    requires Sound(blackboard.Now()) && IsBatch(changes)
    modifies blackboard
    ensures GroupUpdated(old(blackboard.Now()), g, version, changes, updates, blackboard.Now())
  {
    updates := [];
    if g !in blackboard.resources || blackboard.resources[g].version == version {
      return;
    }
    ghost var before := blackboard.Now();
    var rg := blackboard.resources[g];
    VersionKeepsSound(before, g, version);
    blackboard.resources := blackboard.resources[g := rg.(version := version)];
    var more;
    ghost var order, parts;
    more, order, parts := ChangeResources(blackboard, g, changes);
    updates := [VersionChanged(g, rg.version, version)] + more;
    assert Updates(before, g, version, changes, order, parts, updates, blackboard.Now());
  }

  // ----- Clearing -----

  method ClearResources(heap: Heap, groups: Groups, g: GroupKey) returns (updates: seq<Update>)
    requires ObjectsFiled(heap, groups) && g in groups
    ensures exists urls :: Distinct(urls) && (forall u :: u in urls <==> u in groups[g].resources)
                           && updates == Removals(RefsIn(g, urls))
  {
    GroupIsFiled(heap, groups, g);
    var rg := groups[g];
    var order := AnyOrder(rg.resources.Keys);
    updates := [];
    for i := 0 to |order|
      invariant updates == Removals(RefsIn(g, order[..i]))
    {
      assert order[i] in order;
      updates := updates + [Update.RemoveResource(Ref(g, heap[rg.resources[order[i]]].url))];
    }
    assert order[..|order|] == order;
  }

  ghost predicate SendsLinks(heap: Heap, links: Links, adding: bool, ks: seq<LinkKey>, updates: seq<Update>)
    requires LinksIn(heap, links)
  {
    && Distinct(ks) && (forall k :: k in ks <==> k in links)
    && updates == if adding then LinkAdditions(Keys(heap, links, ks)) else LinkRemovals(Keys(heap, links, ks))
  }

  method ClearLinks(heap: Heap, links: Links, adding: bool) returns (updates: seq<Update>)
    requires LinksIn(heap, links)
    ensures exists ks :: SendsLinks(heap, links, adding, ks, updates)
  {
    var order := AnyOrder(links.Keys);
    updates := [];
    ghost var ks := order;
    for i := 0 to |order|
      invariant |updates| == i
      invariant forall j :: 0 <= j < i ==>
        updates[j] == if adding then AddLink(Keys(heap, links, ks)[j]) else RemoveLink(Keys(heap, links, ks)[j])
    {
      assert order[i] in order;
      var key := KeyOf(heap, links[order[i]]);
      updates := updates + [if adding then AddLink(key) else RemoveLink(key)];
    }
    assert SendsLinks(heap, links, adding, ks, updates);
  }

  method ClearGroup(blackboard: Blackboard, g: GroupKey) returns (updates: seq<Update>)
    requires Sound(blackboard.Now()) && g in blackboard.resources
    ensures exists urls, ds, cs :: ClearSends(blackboard.Now(), g, urls, ds, cs, updates)
  {
    ghost var s := blackboard.Now();
    var removals := ClearResources(blackboard.heap, blackboard.resources, g);
    var additions := ClearLinks(blackboard.heap, blackboard.deletedLinks, true);
    var linkRemovals := ClearLinks(blackboard.heap, blackboard.changedLinks, false);
    ghost var urls :| Distinct(urls) && (forall u :: u in urls <==> u in s.groups[g].resources)
                      && removals == Removals(RefsIn(g, urls));
    ghost var ds :| SendsLinks(s.heap, s.deleted, true, ds, additions);
    ghost var cs :| SendsLinks(s.heap, s.changed, false, cs, linkRemovals);
    updates := removals + additions + linkRemovals;
    assert ClearSends(blackboard.Now(), g, urls, ds, cs, updates);
  }

  /** The blackboard gives way to a new one. */
  method ClearBlackboard(blackboard: Blackboard)
    returns (cleared: Blackboard, updates: seq<Update>, ghost order: seq<GroupKey>, ghost parts: seq<seq<Update>>)
    requires Sound(blackboard.Now())
    ensures fresh(cleared) && cleared.Now() == NOTHING
    ensures ClearsAll(blackboard.Now(), order, parts) && updates == Concat(parts)
  {
    ghost var s := blackboard.Now();
    var groups := AnyOrder(blackboard.resources.Keys);
    updates, order, parts := [], groups, [];
    for i := 0 to |groups|
      invariant |parts| == i && updates == Concat(parts)
      invariant forall j :: 0 <= j < i ==> ClearsOne(s, groups[j], parts[j])
    {
      var g := groups[i];
      assert g in groups;
      var part := ClearGroup(blackboard, g);
      assert (parts + [part])[..i] == parts;
      updates, parts := updates + part, parts + [part];
    }
    cleared := new Blackboard();
  }
}
