/** What the operations of a blackboard do to its state, and why clients that replay the updates can
    keep up: every operation refines the one that BoardRuns describes. */
module BlackboardSpec {
  import opened Counting
  import opened Refs
  import opened DepiModel
  import opened BoardRuns

  type Groups = map<GroupKey, ResourceGroup>
  type Links = map<LinkKey, LinkWithResources>

  /** Groups hang on to the objects they list, and links to the objects they connect; the nested map
      from tools to urls to groups is laid flat. */
  datatype State = State(heap: Heap, groups: Groups, changed: Links, deleted: Links)

  datatype GroupDesc = GroupDesc(name: string, toolId: string, url: string, version: string)
  {
    function Key(): GroupKey { GroupKey(toolId, url) }
  }

  predicate IsFiled(groups: Groups, r: ResourceRef) {
    GroupOf(r) in groups && r.url in groups[GroupOf(r)].resources
  }

  function ObjectAt(groups: Groups, r: ResourceRef): ObjectId
    requires IsFiled(groups, r)
  {
    groups[GroupOf(r)].resources[r.url]
  }

  /** Objects are filed under their urls, and none is filed twice. */
  ghost predicate ObjectsFiled(heap: Heap, groups: Groups) {
    && (forall r {:trigger IsFiled(groups, r)} :: IsFiled(groups, r) ==>
          ObjectAt(groups, r) < |heap| && heap[ObjectAt(groups, r)].url == r.url)
    && (forall r, s {:trigger ObjectAt(groups, r), ObjectAt(groups, s)} ::
          IsFiled(groups, r) && IsFiled(groups, s) && ObjectAt(groups, r) == ObjectAt(groups, s) ==> r == s)
  }

  /** The listed resources are the filed objects. */
  ghost predicate Lists(heap: Heap, groups: Groups, listed: map<ResourceRef, Info>)
    requires ObjectsFiled(heap, groups)
  {
    && (forall r :: r in listed <==> IsFiled(groups, r))
    && (forall r {:trigger listed[r]} {:trigger ObjectAt(groups, r)} :: r in listed ==>
          listed[r].name == heap[ObjectAt(groups, r)].name && listed[r].id == heap[ObjectAt(groups, r)].id)
  }

  ghost predicate HasVersions(groups: Groups, versions: map<GroupKey, string>) {
    versions.Keys == groups.Keys && forall g :: g in groups ==> versions[g] == groups[g].version
  }

  ghost predicate LinksIn(heap: Heap, links: Links) {
    forall k :: k in links ==> links[k].In(heap)
  }

  /** Every link is filed under the key of its ends as they are now. */
  ghost predicate Keyed(heap: Heap, links: Links) {
    forall k :: k in links ==> links[k].In(heap) && KeyOf(heap, links[k]) == k
  }

  lemma HeapGrows(heap: Heap, groups: Groups, listed: map<ResourceRef, Info>, res: Resource)
    requires ObjectsFiled(heap, groups) && Lists(heap, groups, listed)
    ensures ObjectsFiled(heap + [res], groups) && Lists(heap + [res], groups, listed)
  {
  }

  lemma LinksStay(heap: Heap, links: Links, res: Resource)
    requires Keyed(heap, links)
    ensures Keyed(heap + [res], links)
  {
  }

  lemma LinkFiled(heap: Heap, links: Links, link: LinkWithResources)
    requires Keyed(heap, links) && link.In(heap)
    ensures Keyed(heap, links[KeyOf(heap, link) := link])
    ensures links[KeyOf(heap, link) := link].Keys == links.Keys + {KeyOf(heap, link)}
  {
  }

  lemma LinkDropped(heap: Heap, links: Links, key: LinkKey)
    requires Keyed(heap, links)
    ensures Keyed(heap, links - {key})
    ensures (links - {key}).Keys == links.Keys - {key}
  {
  }

  lemma ObjectFiled(heap: Heap, groups: Groups, listed: map<ResourceRef, Info>, r: ResourceRef, o: ObjectId)
    requires ObjectsFiled(heap, groups) && Lists(heap, groups, listed)
    requires GroupOf(r) in groups && !IsFiled(groups, r)
    requires o < |heap| && heap[o].url == r.url
    requires forall s :: IsFiled(groups, s) ==> ObjectAt(groups, s) != o
    ensures var rg := groups[GroupOf(r)];
            var groups' := groups[GroupOf(r) := rg.(resources := rg.resources[r.url := o])];
            && ObjectsFiled(heap, groups')
            && Lists(heap, groups', listed[r := Info(heap[o].name, heap[o].id)])
  {
    var rg := groups[GroupOf(r)];
    var groups' := groups[GroupOf(r) := rg.(resources := rg.resources[r.url := o])];
    assert forall s :: IsFiled(groups', s) <==> IsFiled(groups, s) || s == r;
    assert forall s :: IsFiled(groups', s) ==> ObjectAt(groups', s) == if s == r then o else ObjectAt(groups, s);
  }

  lemma ObjectDropped(heap: Heap, groups: Groups, listed: map<ResourceRef, Info>, r: ResourceRef)
    requires ObjectsFiled(heap, groups) && Lists(heap, groups, listed) && IsFiled(groups, r)
    ensures var rg := groups[GroupOf(r)];
            var groups' := groups[GroupOf(r) := rg.(resources := rg.resources - {r.url})];
            ObjectsFiled(heap, groups') && Lists(heap, groups', listed - {r})
  {
    var rg := groups[GroupOf(r)];
    var groups' := groups[GroupOf(r) := rg.(resources := rg.resources - {r.url})];
    assert forall s :: IsFiled(groups', s) <==> IsFiled(groups, s) && s != r;
    assert forall s :: IsFiled(groups', s) ==> ObjectAt(groups', s) == ObjectAt(groups, s);
  }

  /** What clients can know of the state is b. */
  ghost predicate Shows(s: State, b: Board) {
    && ObjectsFiled(s.heap, s.groups)
    && HasVersions(s.groups, b.groups) && Lists(s.heap, s.groups, b.resources)
    && LinksIn(s.heap, s.changed) && LinksIn(s.heap, s.deleted)
    && s.changed.Keys == b.changed && s.deleted.Keys == b.deleted
  }

  ghost predicate Current(s: State) {
    Keyed(s.heap, s.changed) && Keyed(s.heap, s.deleted)
  }

  const NOTHING := State([], map[], map[], map[])

  // ----- Resources -----

  function WithGroup(groups: Groups, group: GroupDesc): Groups {
    if group.Key() in groups then groups
    else groups[group.Key() := ResourceGroup(group.name, group.version, map[])]
  }

  /** A new object is made in any case. */
  function AddResource(s: State, group: GroupDesc, res: Resource): (State, bool) {
    var groups := WithGroup(s.groups, group);
    var rg := groups[group.Key()];
    var s1 := s.(heap := s.heap + [res], groups := groups);
    if res.url in rg.resources then (s1, false)
    else (s1.(groups := groups[group.Key() := rg.(resources := rg.resources[res.url := |s.heap|])]), true)
  }

  function RemoveResource(s: State, ref: ResourceRef): (State, bool) {
    if !IsFiled(s.groups, ref) then (s, false) else
    var rg := s.groups[GroupOf(ref)];
    (s.(groups := s.groups[GroupOf(ref) := rg.(resources := rg.resources - {ref.url})]), true)
  }

  lemma EmptyGroupAdded(heap: Heap, groups: Groups, listed: map<ResourceRef, Info>, g: GroupKey, rg: ResourceGroup)
    requires ObjectsFiled(heap, groups) && Lists(heap, groups, listed)
    requires g !in groups && rg.resources == map[]
    ensures ObjectsFiled(heap, groups[g := rg]) && Lists(heap, groups[g := rg], listed)
  {
    var groups' := groups[g := rg];
    assert forall r :: IsFiled(groups', r) == IsFiled(groups, r);
    assert forall r :: IsFiled(groups', r) ==> ObjectAt(groups', r) == ObjectAt(groups, r);
  }

  lemma GroupAdded(s: State, b: Board, group: GroupDesc)
    requires Shows(s, b)
    ensures Shows(s.(groups := WithGroup(s.groups, group)), BoardRuns.WithGroup(b, group.Key(), group.version))
  {
    if group.Key() !in s.groups {
      EmptyGroupAdded(s.heap, s.groups, b.resources, group.Key(), WithGroup(s.groups, group)[group.Key()]);
    }
  }

  lemma ObjectAdded(s: State, b: Board, g: GroupKey, res: Resource)
    requires Shows(s, b) && g in s.groups && res.url !in s.groups[g].resources
    ensures var rg := s.groups[g];
            Shows(s.(heap := s.heap + [res],
                     groups := s.groups[g := rg.(resources := rg.resources[res.url := |s.heap|])]),
                  b.(resources := b.resources[Ref(g, res.url) := Info(res.name, res.id)]))
  {
    HeapGrows(s.heap, s.groups, b.resources, res);
    ObjectFiled(s.heap + [res], s.groups, b.resources, Ref(g, res.url), |s.heap|);
  }

  lemma ObjectUnused(s: State, b: Board, res: Resource)
    requires Shows(s, b)
    ensures Shows(s.(heap := s.heap + [res]), b)
  {
    HeapGrows(s.heap, s.groups, b.resources, res);
  }

  lemma AddingShows(s: State, b: Board, group: GroupDesc, res: Resource)
    requires Shows(s, b)
    ensures var (s', added) := AddResource(s, group, res);
            var r := NewResource(Ref(group.Key(), res.url), Info(res.name, res.id), group.version);
            Shows(s', ResourceAdded(b, r).0) && added == (r.ref !in b.resources)
  {
    var g, b1 := group.Key(), BoardRuns.WithGroup(b, group.Key(), group.version);
    var s1 := s.(groups := WithGroup(s.groups, group));
    GroupAdded(s, b, group);
    assert Ref(g, res.url) in b.resources <==> IsFiled(s.groups, Ref(g, res.url));
    if res.url in s1.groups[g].resources {
      ObjectUnused(s1, b1, res);
    } else {
      ObjectAdded(s1, b1, g, res);
    }
  }

  lemma AddingKeepsCurrent(s: State, group: GroupDesc, res: Resource)
    requires Current(s)
    ensures Current(AddResource(s, group, res).0)
  {
    LinksStay(s.heap, s.changed, res);
    LinksStay(s.heap, s.deleted, res);
  }

  lemma RemovingShows(s: State, b: Board, ref: ResourceRef)
    requires Shows(s, b)
    ensures var (s', removed) := RemoveResource(s, ref);
            Shows(s', ResourceRemoved(b, ref).0) && removed == (ref in b.resources)
    ensures Current(s) ==> Current(RemoveResource(s, ref).0)
  {
    if IsFiled(s.groups, ref) {
      ObjectDropped(s.heap, s.groups, b.resources, ref);
    }
  }

  // ----- Links -----

  function LinkResource(s: State, l: LinkWithResources): (State, seq<Update>)
    requires l.In(s.heap)
  {
    var key := KeyOf(s.heap, l);
    if key !in s.changed || key in s.deleted
    then (s.(changed := s.changed[key := l], deleted := s.deleted - {key}), [AddLink(key)])
    else (s, [])
  }

  function UnlinkResource(s: State, l: LinkWithResources): (State, seq<Update>)
    requires l.In(s.heap)
  {
    var key := KeyOf(s.heap, l);
    (s.(changed := s.changed[key := l], deleted := s.deleted[key := l]),
     if key in s.deleted then [] else [RemoveLink(key)])
  }

  lemma LinkingShows(s: State, b: Board, l: LinkWithResources)
    requires Shows(s, b) && Current(s) && l.In(s.heap)
    ensures var (s', us) := LinkResource(s, l);
            Shows(s', LinkAdded(b, KeyOf(s.heap, l)).0) && us == LinkAdded(b, KeyOf(s.heap, l)).1
    ensures Current(LinkResource(s, l).0)
  {
    var key := KeyOf(s.heap, l);
    LinkFiled(s.heap, s.changed, l);
    LinkDropped(s.heap, s.deleted, key);
    if key in s.changed {
      assert s.changed.Keys + {key} == s.changed.Keys;
    }
  }

  lemma UnlinkingShows(s: State, b: Board, l: LinkWithResources)
    requires Shows(s, b) && Current(s) && l.In(s.heap)
    ensures var (s', us) := UnlinkResource(s, l);
            Shows(s', LinkRemoved(b, KeyOf(s.heap, l)).0) && us == LinkRemoved(b, KeyOf(s.heap, l)).1
    ensures Current(UnlinkResource(s, l).0)
  {
    LinkFiled(s.heap, s.changed, l);
    LinkFiled(s.heap, s.deleted, l);
  }

  // ----- Requests -----

  datatype NewItem = NewItem(group: GroupDesc, res: Resource)
  {
    function Ref(): ResourceRef { DepiModel.Ref(group.Key(), res.url) }
  }

  function AddItem(s: State, x: NewItem): (State, seq<Update>) {
    var (s', added) := AddResource(s, x.group, x.res);
    (s', if added then [Update.AddResource(x.Ref(), Info(x.res.name, x.res.id))] else [])
  }

  function RemoveItem(s: State, ref: ResourceRef): (State, seq<Update>) {
    var (s', removed) := RemoveResource(s, ref);
    (s', if removed then [Update.RemoveResource(ref)] else [])
  }

  /** One item after the other. */
  function AllDone<X>(s: State, xs: seq<X>, step: (State, X) -> (State, seq<Update>)): (State, seq<Update>) {
    if xs == [] then (s, []) else
    var last := |xs| - 1;
    var (s1, us) := AllDone(s, xs[..last], step);
    var (s2, ws) := step(s1, xs[last]);
    (s2, us + ws)
  }

  function Items<X>(xs: seq<X>, item: X -> Item): seq<Item> {
    seq(|xs|, i requires 0 <= i < |xs| => item(xs[i]))
  }

  /** The step does what BoardRuns says about the item. */
  ghost predicate Refines<X(!new)>(step: (State, X) -> (State, seq<Update>), item: X -> Item) {
    forall s, b, x {:trigger step(s, x), ItemDone(b, item(x))} :: Shows(s, b) && Current(s) ==>
      Shows(step(s, x).0, ItemDone(b, item(x)).0) && Current(step(s, x).0) && step(s, x).1 == ItemDone(b, item(x)).1
  }

  lemma {:induction false} AllRefine<X(!new)>(
      s: State, b: Board, xs: seq<X>, step: (State, X) -> (State, seq<Update>), item: X -> Item)
    requires Shows(s, b) && Current(s) && Refines(step, item)
    ensures var (s', us) := AllDone(s, xs, step);
            Shows(s', ItemsDone(b, Items(xs, item)).0) && Current(s') && us == ItemsDone(b, Items(xs, item)).1
  {
    if xs == [] {
    } else {
      var last := |xs| - 1;
      assert Items(xs, item)[..last] == Items(xs[..last], item);
      AllRefine(s, b, xs[..last], step, item);
      var (s1, us) := AllDone(s, xs[..last], step);
      var (b1, ws) := ItemsDone(b, Items(xs[..last], item));
      assert Items(xs, item)[last] == item(xs[last]);
      assert Shows(step(s1, xs[last]).0, ItemDone(b1, item(xs[last])).0);
    }
  }

  function AddOf(x: NewItem): Item { Add(NewResource(x.Ref(), Info(x.res.name, x.res.id), x.group.version)) }

  lemma AddItemRefines()
    ensures Refines(AddItem, AddOf)
  {
    forall s, b, x: NewItem | Shows(s, b) && Current(s)
      ensures Shows(AddItem(s, x).0, ItemDone(b, AddOf(x)).0)
      ensures Current(AddItem(s, x).0) && AddItem(s, x).1 == ItemDone(b, AddOf(x)).1
    {
      AddingShows(s, b, x.group, x.res);
      AddingKeepsCurrent(s, x.group, x.res);
    }
  }

  lemma RemoveItemRefines()
    ensures Refines(RemoveItem, RemoveOf)
  {
    forall s, b, ref: ResourceRef | Shows(s, b) && Current(s)
      ensures Shows(RemoveItem(s, ref).0, ItemDone(b, RemoveOf(ref)).0)
      ensures Current(RemoveItem(s, ref).0) && RemoveItem(s, ref).1 == ItemDone(b, RemoveOf(ref)).1
    {
      RemovingShows(s, b, ref);
    }
  }

  // ----- Requests to link -----

  predicate EndsFiled(groups: Groups, l: Link) { IsFiled(groups, l.fromRes) && IsFiled(groups, l.toRes) }

  function Found(groups: Groups, l: Link): LinkWithResources
    requires EndsFiled(groups, l)
  {
    LinkWithResources(GroupOf(l.fromRes), ObjectAt(groups, l.fromRes), GroupOf(l.toRes), ObjectAt(groups, l.toRes))
  }

  /** The links that can be found on the blackboard, with their groups and objects. */
  function LookedUp(groups: Groups, links: seq<Link>): seq<LinkWithResources> {
    if links == [] then [] else
    var last := |links| - 1;
    LookedUp(groups, links[..last]) + if EndsFiled(groups, links[last]) then [Found(groups, links[last])] else []
  }

  /** Links always hold objects of the heap. */
  function LinkStep(s: State, l: LinkWithResources): (State, seq<Update>) {
    if l.In(s.heap) then LinkResource(s, l) else (s, [])
  }

  function UnlinkStep(s: State, l: LinkWithResources): (State, seq<Update>) {
    if l.In(s.heap) then UnlinkResource(s, l) else (s, [])
  }

  ghost predicate RefinesLink(step: (State, LinkWithResources) -> (State, seq<Update>), item: LinkKey -> Item) {
    && (forall s, l :: step(s, l).0.groups == s.groups && step(s, l).0.heap == s.heap)
    && (forall s: State, b: Board, l: LinkWithResources {:trigger step(s, l), Shows(s, b)} ::
          Shows(s, b) && Current(s) && l.In(s.heap) && EndsListed(b, KeyOf(s.heap, l)) ==>
          var (b', us) := ItemDone(b, item(KeyOf(s.heap, l)));
          Shows(step(s, l).0, b') && Current(step(s, l).0) && step(s, l).1 == us)
    && (forall b, k :: !EndsListed(b, k) ==> ItemDone(b, item(k)) == (b, []))
  }

  lemma FoundKey(s: State, b: Board, l: Link)
    requires Shows(s, b)
    ensures EndsFiled(s.groups, l) <==> EndsListed(b, LinkKeyOf(l))
    ensures EndsFiled(s.groups, l) ==>
              var found := Found(s.groups, l);
              found.In(s.heap) && KeyOf(s.heap, found) == LinkKeyOf(l)
  {
  }

  lemma AllDoneLast<X>(s: State, xs: seq<X>, x: X, step: (State, X) -> (State, seq<Update>))
    ensures var (s1, us) := AllDone(s, xs, step);
            var (s2, ws) := step(s1, x);
            AllDone(s, xs + [x], step) == (s2, us + ws)
  {
    assert (xs + [x])[..|xs|] == xs;
  }

  function FoundStep(
      s: State, l: Link, step: (State, LinkWithResources) -> (State, seq<Update>)): (State, seq<Update>)
  {
    if EndsFiled(s.groups, l) then step(s, Found(s.groups, l)) else (s, [])
  }

  lemma FoundStepRefines(
      s: State, b: Board, l: Link,
      step: (State, LinkWithResources) -> (State, seq<Update>), item: LinkKey -> Item)
    requires Shows(s, b) && Current(s) && RefinesLink(step, item)
    ensures var (s', us) := FoundStep(s, l, step);
            var (b', ws) := ItemDone(b, item(LinkKeyOf(l)));
            Shows(s', b') && Current(s') && s'.groups == s.groups && us == ws
  {
    FoundKey(s, b, l);
  }

  /** Looking the links up first comes to the same as looking each up when its turn comes. */
  lemma {:induction false} LookUpFirst(
      s: State, links: seq<Link>, step: (State, LinkWithResources) -> (State, seq<Update>),
      foundStep: (State, Link) -> (State, seq<Update>))
    requires forall s', l :: step(s', l).0.groups == s'.groups
    requires forall s', l :: foundStep(s', l) == FoundStep(s', l, step)
    ensures AllDone(s, LookedUp(s.groups, links), step) == AllDone(s, links, foundStep)
    ensures AllDone(s, LookedUp(s.groups, links), step).0.groups == s.groups
  {
    if links == [] {
    } else {
      var last := |links| - 1;
      LookUpFirst(s, links[..last], step, foundStep);
      if EndsFiled(s.groups, links[last]) {
        AllDoneLast(s, LookedUp(s.groups, links[..last]), Found(s.groups, links[last]), step);
      } else {
        var found, us := LookedUp(s.groups, links[..last]), AllDone(s, links[..last], foundStep).1;
        assert found + [] == found && us + [] == us;
      }
    }
  }

  lemma FoundLinksRefine(
      s: State, b: Board, links: seq<Link>,
      step: (State, LinkWithResources) -> (State, seq<Update>), item: LinkKey -> Item, itemOf: Link -> Item)
    requires Shows(s, b) && Current(s) && RefinesLink(step, item)
    requires forall l :: itemOf(l) == item(LinkKeyOf(l))
    ensures Answers(AllDone(s, LookedUp(s.groups, links), step), ItemsDone(b, Items(links, itemOf)))
  {
    var foundStep := (s', l) => FoundStep(s', l, step);
    LookUpFirst(s, links, step, foundStep);
    forall s', b', l | Shows(s', b') && Current(s')
      ensures Shows(foundStep(s', l).0, ItemDone(b', itemOf(l)).0)
      ensures Current(foundStep(s', l).0) && foundStep(s', l).1 == ItemDone(b', itemOf(l)).1
    {
      FoundStepRefines(s', b', l, step, item);
    }
    AllRefine(s, b, links, foundStep, itemOf);
  }

  lemma LinkStepShows(s: State, b: Board, l: LinkWithResources)
    requires Shows(s, b) && Current(s) && l.In(s.heap) && EndsListed(b, KeyOf(s.heap, l))
    ensures var (b', us) := ItemDone(b, Connect(KeyOf(s.heap, l)));
            Shows(LinkStep(s, l).0, b') && Current(LinkStep(s, l).0) && LinkStep(s, l).1 == us
  {
    LinkingShows(s, b, l);
  }

  lemma LinkStepRefines()
    ensures RefinesLink(LinkStep, k => Connect(k))
  {
    forall s, b, l: LinkWithResources | Shows(s, b) && Current(s) && l.In(s.heap) && EndsListed(b, KeyOf(s.heap, l))
      ensures var (b', us) := ItemDone(b, Connect(KeyOf(s.heap, l)));
              Shows(LinkStep(s, l).0, b') && Current(LinkStep(s, l).0) && LinkStep(s, l).1 == us
    {
      LinkStepShows(s, b, l);
    }
  }

  lemma UnlinkStepShows(s: State, b: Board, l: LinkWithResources)
    requires Shows(s, b) && Current(s) && l.In(s.heap) && EndsListed(b, KeyOf(s.heap, l))
    ensures var (b', us) := ItemDone(b, Disconnect(KeyOf(s.heap, l)));
            Shows(UnlinkStep(s, l).0, b') && Current(UnlinkStep(s, l).0) && UnlinkStep(s, l).1 == us
  {
    UnlinkingShows(s, b, l);
  }

  lemma UnlinkStepRefines()
    ensures RefinesLink(UnlinkStep, k => Disconnect(k))
  {
    forall s, b, l: LinkWithResources | Shows(s, b) && Current(s) && l.In(s.heap) && EndsListed(b, KeyOf(s.heap, l))
      ensures var (b', us) := ItemDone(b, Disconnect(KeyOf(s.heap, l)));
              Shows(UnlinkStep(s, l).0, b') && Current(UnlinkStep(s, l).0) && UnlinkStep(s, l).1 == us
    {
      UnlinkStepShows(s, b, l);
    }
  }

  // ----- What a request comes to -----

  /** Every request does on the blackboard what BoardRuns says about its items, and sends its updates. */
  lemma RequestsRefine(s: State, b: Board, adds: seq<NewItem>, refs: seq<ResourceRef>, links: seq<Link>)
    requires Shows(s, b) && Current(s)
    ensures Answers(AllDone(s, adds, AddItem), ItemsDone(b, Items(adds, AddOf)))
    ensures Answers(AllDone(s, refs, RemoveItem), ItemsDone(b, Items(refs, RemoveOf)))
    ensures Answers(AllDone(s, LookedUp(s.groups, links), LinkStep), ItemsDone(b, Items(links, ConnectOf)))
    ensures Answers(AllDone(s, LookedUp(s.groups, links), UnlinkStep), ItemsDone(b, Items(links, DisconnectOf)))
  {
    AddItemRefines();
    AllRefine(s, b, adds, AddItem, AddOf);
    RemoveItemRefines();
    AllRefine(s, b, refs, RemoveItem, RemoveOf);
    LinkStepRefines();
    FoundLinksRefine(s, b, links, LinkStep, k => Connect(k), ConnectOf);
    UnlinkStepRefines();
    FoundLinksRefine(s, b, links, UnlinkStep, k => Disconnect(k), DisconnectOf);
  }

  function RemoveOf(ref: ResourceRef): Item { Item.Remove(ref) }

  function ConnectOf(l: Link): Item { Connect(LinkKeyOf(l)) }

  function DisconnectOf(l: Link): Item { Disconnect(LinkKeyOf(l)) }

  ghost predicate Answers(done: (State, seq<Update>), seen: (Board, seq<Update>)) {
    Shows(done.0, seen.0) && Current(done.0) && done.1 == seen.1
  }

  // ----- Clearing -----

  function RefsIn(g: GroupKey, urls: seq<string>): seq<ResourceRef> {
    seq(|urls|, i requires 0 <= i < |urls| => Ref(g, urls[i]))
  }

  function Keys(heap: Heap, links: Links, ks: seq<LinkKey>): seq<LinkKey>
    requires LinksIn(heap, links) && forall k :: k in ks ==> k in links
  {
    seq(|ks|, i requires 0 <= i < |ks| => assert ks[i] in ks; KeyOf(heap, links[ks[i]]))
  }

  /** Some of the links, each once, in an order of their own, with the keys that their objects show. */
  ghost predicate ListsOnce(heap: Heap, links: Links, some: set<LinkKey>, ks: seq<LinkKey>, keys: seq<LinkKey>) {
    && Distinct(ks) && (forall k :: k in ks <==> k in some) && |keys| == |ks|
    && forall i :: 0 <= i < |ks| ==>
         ks[i] in links && links[ks[i]].In(heap) && keys[i] == KeyOf(heap, links[ks[i]])
  }

  lemma ListOneMore(
      heap: Heap, links: Links, some: set<LinkKey>, ks: seq<LinkKey>, keys: seq<LinkKey>, k: LinkKey)
    requires ListsOnce(heap, links, some, ks, keys) && k !in some && k in links && links[k].In(heap)
    ensures ListsOnce(heap, links, some + {k}, ks + [k], keys + [KeyOf(heap, links[k])])
  {
    assert k !in ks;
    forall j ensures j in ks + [k] <==> j in some + {k} {
      assert j in ks <==> j in some;
    }
  }

  /** Links that are filed under their present keys are listed by those. */
  lemma ListsCurrentKeys(heap: Heap, links: Links, some: set<LinkKey>, ks: seq<LinkKey>, keys: seq<LinkKey>)
    requires Keyed(heap, links) && ListsOnce(heap, links, some, ks, keys)
    ensures keys == ks && forall k :: k in keys <==> k in some
  {
  }

  /** What clearBlackboard sends for one group, where the maps are gone through in the orders urls, ds
      and cs. Links show the keys of their objects. */
  ghost predicate ClearSends(
      s: State, g: GroupKey, urls: seq<string>, ds: seq<LinkKey>, cs: seq<LinkKey>, updates: seq<Update>)
    requires g in s.groups && LinksIn(s.heap, s.changed) && LinksIn(s.heap, s.deleted)
  {
    && Distinct(urls) && Distinct(ds) && Distinct(cs)
    && (forall u :: u in urls <==> u in s.groups[g].resources)
    && (forall k :: k in ds <==> k in s.deleted)
    && (forall k :: k in cs <==> k in s.changed)
    && updates == Removals(RefsIn(g, urls)) + LinkAdditions(Keys(s.heap, s.deleted, ds))
                  + LinkRemovals(Keys(s.heap, s.changed, cs))
  }

  lemma KeysAreCurrent(heap: Heap, links: Links, ks: seq<LinkKey>)
    requires Keyed(heap, links) && forall k :: k in ks ==> k in links
    ensures Keys(heap, links, ks) == ks
  {
    forall i | 0 <= i < |ks| ensures Keys(heap, links, ks)[i] == ks[i] {
      assert ks[i] in ks;
    }
  }

  lemma RefsInListed(groups: Groups, g: GroupKey, urls: seq<string>, r: ResourceRef)
    requires g in groups && forall u :: u in urls <==> u in groups[g].resources
    ensures r in RefsIn(g, urls) <==> IsFiled(groups, r) && GroupOf(r) == g
  {
    if IsFiled(groups, r) && GroupOf(r) == g {
      var i :| 0 <= i < |urls| && urls[i] == r.url;
      assert RefsIn(g, urls)[i] == r;
    }
    if r in RefsIn(g, urls) {
      var i :| 0 <= i < |urls| && RefsIn(g, urls)[i] == r;
      assert urls[i] in urls;
    }
  }

  lemma ClearingIsSeen(
      s: State, b: Board, g: GroupKey, urls: seq<string>, ds: seq<LinkKey>, cs: seq<LinkKey>, updates: seq<Update>)
    requires Shows(s, b) && Current(s) && g in s.groups && ClearSends(s, g, urls, ds, cs, updates)
    ensures ClearsGroup(b, g, updates)
  {
    KeysAreCurrent(s.heap, s.deleted, ds);
    KeysAreCurrent(s.heap, s.changed, cs);
    var rs := RefsIn(g, urls);
    forall r ensures r in rs <==> r in b.resources && GroupOf(r) == g {
      RefsInListed(s.groups, g, urls, r);
      assert r in b.resources <==> IsFiled(s.groups, r);
    }
    assert updates == Removals(rs) + LinkAdditions(ds) + LinkRemovals(cs);
  }
}
