/** The edits that the in-memory store behind the blackboard graph makes to its models, and when they
    keep referential integrity and the lists of links free of repetition. */
module GraphApi {
  import opened Refs
  import opened Sequences
  import opened GraphModel

  datatype ApiError = NotInModel(entry: Entry) | NoResource(ref: ResourceRef) | NoGroup(url: string)

  predicate Lists(resources: seq<Resource>, ref: ResourceRef) {
    exists i :: 0 <= i < |resources| && resources[i].ref == ref
  }

  predicate ListsLink(links: seq<Link>, key: LinkKey) {
    exists i :: 0 <= i < |links| && links[i].Key() == key
  }

  lemma ListedRefs(resources: seq<Resource>)
    ensures forall r :: Lists(resources, r) <==> r in RefsOf(resources)
  {
    forall r | Lists(resources, r) ensures r in RefsOf(resources) {
      var i :| 0 <= i < |resources| && resources[i].ref == r;
      assert RefsOf(resources)[i] == r;
    }
  }

  // ----- Linking -----

  function Linked(m: Model, source: Resource, target: Resource): Model {
    if ListsLink(m.links, LinkKey(source.ref, source.ref)) then m else
    var hasSource := Lists(m.resources, source.ref);
    var hasTarget := source.ref != target.ref && Lists(m.resources, target.ref);
    Model(m.groups,
          m.resources + (if hasSource then [] else [source]) + (if hasTarget then [] else [target]),
          m.links + [Link(source, target, false)])
  }

  lemma LinkingKeepsIntegrity(m: Model, source: Resource, target: Resource)
    requires Integrity(m)
    ensures Integrity(Linked(m, source, target))
  {
    var m' := Linked(m, source, target);
    if m' != m {
      assert Keys(m'.links) == Keys(m.links) + [LinkKey(source.ref, target.ref)];
      ListedRefs(m.resources);
      ListedRefs(m'.resources);
      forall r | r in RefsOf(m.resources) ensures r in RefsOf(m'.resources) {
        var i :| 0 <= i < |m.resources| && m.resources[i].ref == r;
        assert m'.resources[i].ref == r;
      }
      var n := |m'.resources|;
      if !Lists(m.resources, source.ref) {
        assert m'.resources[|m.resources|].ref == source.ref;
      }
      if !Lists(m.resources, target.ref) {
        assert m'.resources[n - 1].ref == target.ref;
      }
    }
  }

  /** Linking adds the link and its ends, and nothing else, unless the source is linked to itself. */
  lemma LinkingIsExact(m: Model, source: Resource, target: Resource)
    requires !ListsLink(m.links, LinkKey(source.ref, source.ref))
    ensures var m' := Linked(m, source, target);
            && m'.groups == m.groups && Keys(m'.links) == Keys(m.links) + [LinkKey(source.ref, target.ref)]
            && (forall r :: Lists(m'.resources, r) <==> Lists(m.resources, r) || r == source.ref || r == target.ref)
            && m.resources <= m'.resources
  {
    var m' := Linked(m, source, target);
    var n, n' := |m.resources|, |m'.resources|;
    forall r ensures Lists(m'.resources, r) <==> Lists(m.resources, r) || r == source.ref || r == target.ref {
      if i :| 0 <= i < n && m.resources[i].ref == r {
        assert m'.resources[i].ref == r;
      }
      if !Lists(m.resources, source.ref) {
        assert m'.resources[n] == source;
      }
      if !Lists(m.resources, target.ref) {
        assert m'.resources[n' - 1] == target;
      }
    }
  }

  /** The check for an existing link compares both of its ends with the source, so it stops nothing
      but links from a resource that is linked to itself. Linking keeps the list of links free of
      repetition exactly when it adds no link or the link was not there. */
  lemma LinkingCanRepeat(m: Model, source: Resource, target: Resource)
    requires NoLinkRepeats(m)
    ensures NoLinkRepeats(Linked(m, source, target))
       <==> || ListsLink(m.links, LinkKey(source.ref, source.ref))
            || !ListsLink(m.links, LinkKey(source.ref, target.ref))
  {
    var key, m' := LinkKey(source.ref, target.ref), Linked(m, source, target);
    forall k: LinkKey
      ensures !ListsLink(m.links, LinkKey(source.ref, source.ref)) ==>
                Count(Keys(m'.links), k) == Count(Keys(m.links), k) + if k == key then 1 else 0
    {
      if !ListsLink(m.links, LinkKey(source.ref, source.ref)) {
        assert Keys(m'.links) == Keys(m.links) + [key];
        CountAppend(Keys(m.links), [key], k);
        assert [key][1..] == [];
      }
    }
    CountPositive(Keys(m.links), key);
    if ListsLink(m.links, key) {
      var i :| 0 <= i < |m.links| && m.links[i].Key() == key;
      assert Keys(m.links)[i] == key;
    }
  }

  // ----- Saving -----

  function WithResource(depi: Model, r: Resource): Model {
    var resources := if Lists(depi.resources, r.ref) then depi.resources else depi.resources + [r];
    var known := exists i :: 0 <= i < |depi.groups| && depi.groups[i].url == r.ref.groupUrl;
    var group := Group(r.ref.toolId, r.ref.groupUrl, r.groupName, r.groupVersion);
    Model(if known then depi.groups else depi.groups + [group], resources, depi.links)
  }

  function WithResources(depi: Model, resources: seq<Resource>): Model
    decreases resources
  {
    if resources == [] then depi else WithResources(WithResource(depi, resources[0]), resources[1..])
  }

  function Saved(depi: Model, blackboard: Model): Model {
    var m := WithResources(depi, blackboard.resources);
    m.(links := depi.links + blackboard.links)
  }

  lemma {:induction false} WithResourcesLists(depi: Model, resources: seq<Resource>, ref: ResourceRef)
    ensures Lists(WithResources(depi, resources).resources, ref)
       <==> Lists(depi.resources, ref) || Lists(resources, ref)
    ensures WithResources(depi, resources).links == depi.links
    decreases resources
  {
    if resources == [] {
    } else {
      var m := WithResource(depi, resources[0]);
      assert Lists(m.resources, ref) <==> Lists(depi.resources, ref) || resources[0].ref == ref by {
        if Lists(depi.resources, ref) {
          var i :| 0 <= i < |depi.resources| && depi.resources[i].ref == ref;
          assert m.resources[i].ref == ref;
        }
        if m.resources != depi.resources {
          assert m.resources[|depi.resources|] == resources[0];
        }
      }
      assert Lists(resources, ref) <==> resources[0].ref == ref || Lists(resources[1..], ref) by {
        if i :| 0 < i < |resources| && resources[i].ref == ref {
          assert resources[1..][i - 1].ref == ref;
        }
      }
      WithResourcesLists(m, resources[1..], ref);
    }
  }

  lemma SavingKeepsIntegrity(depi: Model, blackboard: Model)
    requires Integrity(depi) && Integrity(blackboard)
    ensures Integrity(Saved(depi, blackboard))
  {
    var m := Saved(depi, blackboard);
    forall r: ResourceRef
      ensures r in RefsOf(depi.resources) || r in RefsOf(blackboard.resources) ==> r in RefsOf(m.resources)
    {
      WithResourcesLists(depi, blackboard.resources, r);
      ListedRefs(depi.resources);
      ListedRefs(blackboard.resources);
      ListedRefs(m.resources);
    }
    assert Keys(m.links) == Keys(depi.links) + Keys(blackboard.links);
  }

  /** Saving keeps the links free of repetition exactly if none is on both sides. */
  lemma SavingCanRepeat(depi: Model, blackboard: Model)
    requires NoLinkRepeats(depi) && NoLinkRepeats(blackboard)
    ensures NoLinkRepeats(Saved(depi, blackboard))
       <==> forall k :: k in Keys(blackboard.links) ==> k !in Keys(depi.links)
  {
    var m := Saved(depi, blackboard);
    assert Keys(m.links) == Keys(depi.links) + Keys(blackboard.links);
    forall k: LinkKey
      ensures Count(Keys(m.links), k) == Count(Keys(depi.links), k) + Count(Keys(blackboard.links), k)
    {
      CountAppend(Keys(depi.links), Keys(blackboard.links), k);
      CountPositive(Keys(depi.links), k);
      CountPositive(Keys(blackboard.links), k);
    }
    if k :| k in Keys(blackboard.links) && k in Keys(depi.links) {
      CountPositive(Keys(depi.links), k);
      CountPositive(Keys(blackboard.links), k);
      assert Count(Keys(m.links), k) > 1;
    } else {
      forall k: LinkKey ensures Count(Keys(m.links), k) <= 1 {
        CountPositive(Keys(depi.links), k);
        CountPositive(Keys(blackboard.links), k);
      }
    }
  }

  ghost predicate GroupsKnown(m: Model) {
    forall r :: r in m.resources ==> exists g :: g in m.groups && g.url == r.ref.groupUrl
  }

  lemma {:induction false} WithResourcesKnowsGroups(depi: Model, resources: seq<Resource>)
    requires GroupsKnown(depi)
    ensures GroupsKnown(WithResources(depi, resources)) && depi.groups <= WithResources(depi, resources).groups
    decreases resources
  {
    if resources == [] {
    } else {
      var m := WithResource(depi, resources[0]);
      forall r | r in m.resources ensures exists g :: g in m.groups && g.url == r.ref.groupUrl {
        if r in depi.resources {
          var g :| g in depi.groups && g.url == r.ref.groupUrl;
          assert g in m.groups;
        } else if i :| 0 <= i < |depi.groups| && depi.groups[i].url == r.ref.groupUrl {
          assert depi.groups[i] in m.groups;
        } else {
          assert m.groups[|depi.groups|] in m.groups;
        }
      }
      WithResourcesKnowsGroups(m, resources[1..]);
    }
  }

  /** Saving brings every resource and every link of the blackboard, and nothing else; groups are only
      added, and every resource's group url is known. */
  lemma SavingIsExact(depi: Model, blackboard: Model, ref: ResourceRef)
    ensures var m := Saved(depi, blackboard);
            && (Lists(m.resources, ref) <==> Lists(depi.resources, ref) || Lists(blackboard.resources, ref))
            && m.links == depi.links + blackboard.links
            && (GroupsKnown(depi) ==> GroupsKnown(m) && depi.groups <= m.groups)
  {
    WithResourcesLists(depi, blackboard.resources, ref);
    if GroupsKnown(depi) {
      WithResourcesKnowsGroups(depi, blackboard.resources);
    }
  }

  // ----- Removing or renaming a resource group -----

  predicate InGroup(r: Resource, toolId: string, url: string) {
    r.ref.toolId == toolId && r.ref.groupUrl == url
  }

  function OutsideGroup(resources: seq<Resource>, toolId: string, url: string): seq<Resource> {
    if resources == [] then []
    else (if InGroup(resources[0], toolId, url) then [] else [resources[0]])
         + OutsideGroup(resources[1..], toolId, url)
  }

  function LinksOutsideGroup(links: seq<Link>, toolId: string, url: string): seq<Link> {
    if links == [] then []
    else (if InGroup(links[0].source, toolId, url) || InGroup(links[0].target, toolId, url) then []
          else [links[0]]) + LinksOutsideGroup(links[1..], toolId, url)
  }

  function OtherGroups(groups: seq<Group>, toolId: string, url: string): seq<Group> {
    if groups == [] then []
    else (if groups[0].toolId == toolId && groups[0].url == url then [] else [groups[0]])
         + OtherGroups(groups[1..], toolId, url)
  }

  function GroupRemoved(m: Model, toolId: string, url: string): Model {
    Model(OtherGroups(m.groups, toolId, url), OutsideGroup(m.resources, toolId, url),
          LinksOutsideGroup(m.links, toolId, url))
  }

  function Moved(r: Resource, toolId: string, url: string, desc: Group): Resource {
    if !InGroup(r, toolId, url) then r
    else r.(ref := ResourceRef(desc.toolId, desc.url, r.ref.url), groupVersion := desc.version)
  }

  function GroupRenamed(m: Model, toolId: string, url: string, desc: Group): Model {
    Model(
      seq(|m.groups|, i requires 0 <= i < |m.groups| =>
        if m.groups[i].toolId == toolId && m.groups[i].url == url then desc else m.groups[i]),
      seq(|m.resources|, i requires 0 <= i < |m.resources| => Moved(m.resources[i], toolId, url, desc)),
      seq(|m.links|, i requires 0 <= i < |m.links| =>
        m.links[i].(source := Moved(m.links[i].source, toolId, url, desc),
                    target := Moved(m.links[i].target, toolId, url, desc))))
  }

  lemma {:induction false} OutsideGroupKeeps(resources: seq<Resource>, toolId: string, url: string, r: Resource)
    ensures r in OutsideGroup(resources, toolId, url) <==> r in resources && !InGroup(r, toolId, url)
  {
    if resources == [] {
    } else {
      OutsideGroupKeeps(resources[1..], toolId, url, r);
    }
  }

  lemma {:induction false} LinksOutsideGroupKeeps(links: seq<Link>, toolId: string, url: string, l: Link)
    ensures l in LinksOutsideGroup(links, toolId, url)
       <==> l in links && !InGroup(l.source, toolId, url) && !InGroup(l.target, toolId, url)
  {
    if links == [] {
    } else {
      LinksOutsideGroupKeeps(links[1..], toolId, url, l);
    }
  }

  /** A group goes together with exactly its resources and the links that touch one of them. */
  lemma GroupRemovalKeepsIntegrity(m: Model, toolId: string, url: string)
    requires Integrity(m)
    ensures Integrity(GroupRemoved(m, toolId, url))
  {
    var m' := GroupRemoved(m, toolId, url);
    forall i | 0 <= i < |m'.links|
      ensures m'.links[i].source.ref in RefsOf(m'.resources)
      ensures m'.links[i].target.ref in RefsOf(m'.resources)
    {
      var l := m'.links[i];
      LinksOutsideGroupKeeps(m.links, toolId, url, l);
      EndStaysListed(m, toolId, url, l, l.source);
      EndStaysListed(m, toolId, url, l, l.target);
    }
  }

  lemma GroupRemovalIsExact(m: Model, toolId: string, url: string, r: Resource, l: Link)
    ensures var m' := GroupRemoved(m, toolId, url);
            && (r in m'.resources <==> r in m.resources && !InGroup(r, toolId, url))
            && (l in m'.links <==> l in m.links && !InGroup(l.source, toolId, url) && !InGroup(l.target, toolId, url))
  {
    OutsideGroupKeeps(m.resources, toolId, url, r);
    LinksOutsideGroupKeeps(m.links, toolId, url, l);
  }

  lemma EndStaysListed(m: Model, toolId: string, url: string, l: Link, end: Resource)
    requires Integrity(m) && l in m.links && (end == l.source || end == l.target)
    requires !InGroup(end, toolId, url)
    ensures end.ref in RefsOf(GroupRemoved(m, toolId, url).resources)
  {
    var k :| 0 <= k < |m.links| && m.links[k] == l;
    assert Keys(m.links)[k] == l.Key();
    var j :| 0 <= j < |m.resources| && RefsOf(m.resources)[j] == end.ref;
    OutsideGroupKeeps(m.resources, toolId, url, m.resources[j]);
    var rs := GroupRemoved(m, toolId, url).resources;
    var i :| 0 <= i < |rs| && rs[i] == m.resources[j];
    assert RefsOf(rs)[i] == end.ref;
  }

  /** A renamed group takes its resources and the ends of their links along. */
  lemma GroupRenameKeepsIntegrity(m: Model, toolId: string, url: string, desc: Group)
    requires Integrity(m)
    ensures Integrity(GroupRenamed(m, toolId, url, desc))
  {
    var m' := GroupRenamed(m, toolId, url, desc);
    forall i | 0 <= i < |m'.links|
      ensures m'.links[i].source.ref in RefsOf(m'.resources)
      ensures m'.links[i].target.ref in RefsOf(m'.resources)
    {
      assert Keys(m.links)[i] == m.links[i].Key();
      var j :| 0 <= j < |m.resources| && RefsOf(m.resources)[j] == m.links[i].source.ref;
      assert RefsOf(m'.resources)[j] == m'.links[i].source.ref;
      j :| 0 <= j < |m.resources| && RefsOf(m.resources)[j] == m.links[i].target.ref;
      assert RefsOf(m'.resources)[j] == m'.links[i].target.ref;
    }
  }

  function MovedRef(r: ResourceRef, toolId: string, url: string, desc: Group): ResourceRef {
    if r.toolId == toolId && r.groupUrl == url then ResourceRef(desc.toolId, desc.url, r.url) else r
  }

  function MovedKey(k: LinkKey, toolId: string, url: string, desc: Group): LinkKey {
    LinkKey(MovedRef(k.fromRes, toolId, url, desc), MovedRef(k.toRes, toolId, url, desc))
  }

  predicate IsIn(r: ResourceRef, toolId: string, url: string) { r.toolId == toolId && r.groupUrl == url }

  /** The two are in the group of the old name or of the new, under one url. */
  predicate Confused(r: ResourceRef, s: ResourceRef, toolId: string, url: string, desc: Group) {
    && r.url == s.url
    && (IsIn(r, toolId, url) || IsIn(r, desc.toolId, desc.url))
    && (IsIn(s, toolId, url) || IsIn(s, desc.toolId, desc.url))
  }

  lemma MovedAlike(r: ResourceRef, s: ResourceRef, toolId: string, url: string, desc: Group)
    ensures MovedRef(r, toolId, url, desc) == MovedRef(s, toolId, url, desc)
       <==> r == s || Confused(r, s, toolId, url, desc)
  {
  }

  /** Two links that renaming the group would make one. */
  predicate LinksConfused(k: LinkKey, l: LinkKey, toolId: string, url: string, desc: Group) {
    && (k.fromRes == l.fromRes || Confused(k.fromRes, l.fromRes, toolId, url, desc))
    && (k.toRes == l.toRes || Confused(k.toRes, l.toRes, toolId, url, desc))
  }

  lemma MovedKeysAlike(k: LinkKey, l: LinkKey, toolId: string, url: string, desc: Group)
    ensures MovedKey(k, toolId, url, desc) == MovedKey(l, toolId, url, desc)
       <==> k == l || LinksConfused(k, l, toolId, url, desc)
  {
    MovedAlike(k.fromRes, l.fromRes, toolId, url, desc);
    MovedAlike(k.toRes, l.toRes, toolId, url, desc);
  }

  lemma RenamedKeys(m: Model, toolId: string, url: string, desc: Group)
    ensures var keys' := Keys(GroupRenamed(m, toolId, url, desc).links);
            && |keys'| == |m.links|
            && forall i, j :: 0 <= i < |m.links| && 0 <= j < |m.links| ==>
                 var k, l := Keys(m.links)[i], Keys(m.links)[j];
                 keys'[i] == keys'[j] <==> k == l || LinksConfused(k, l, toolId, url, desc)
  {
    var keys, keys' := Keys(m.links), Keys(GroupRenamed(m, toolId, url, desc).links);
    assert forall i :: 0 <= i < |m.links| ==> keys'[i] == MovedKey(keys[i], toolId, url, desc);
    forall i, j | 0 <= i < |keys| && 0 <= j < |keys|
      ensures keys'[i] == keys'[j] <==> keys[i] == keys[j] || LinksConfused(keys[i], keys[j], toolId, url, desc)
    {
      MovedKeysAlike(keys[i], keys[j], toolId, url, desc);
    }
  }

  /** Renaming a group keeps the links free of repetition exactly if no two different links differ only
      in ends that are in the group of the old name and in that of the new. */
  lemma RenamingCanRepeat(m: Model, toolId: string, url: string, desc: Group)
    requires NoLinkRepeats(m)
    ensures NoLinkRepeats(GroupRenamed(m, toolId, url, desc))
       <==> forall k, l :: k in Keys(m.links) && l in Keys(m.links) && k != l ==>
              !LinksConfused(k, l, toolId, url, desc)
  {
    var keys, keys' := Keys(m.links), Keys(GroupRenamed(m, toolId, url, desc).links);
    NoRepeatsIsDistinct(m);
    NoRepeatsIsDistinct(GroupRenamed(m, toolId, url, desc));
    RenamedKeys(m, toolId, url, desc);
    if i, j :| 0 <= i < |keys| && 0 <= j < |keys| && keys[i] != keys[j]
               && LinksConfused(keys[i], keys[j], toolId, url, desc) {
      assert keys'[i] == keys'[j];
    }
  }

  /** The names of the groups. */
  function GroupNames(groups: seq<Group>): seq<(string, string)> {
    seq(|groups|, i requires 0 <= i < |groups| => (groups[i].toolId, groups[i].url))
  }

  /** Nothing in the model is in a group of that name. */
  ghost predicate IsUnused(m: Model, toolId: string, url: string) {
    && (forall r :: r in RefsOf(m.resources) ==> !IsIn(r, toolId, url))
    && (forall k :: k in Keys(m.links) ==> !IsIn(k.fromRes, toolId, url) && !IsIn(k.toRes, toolId, url))
    && (toolId, url) !in GroupNames(m.groups)
  }

  ghost predicate SameNames(m: Model, m': Model) {
    && RefsOf(m'.resources) == RefsOf(m.resources) && Keys(m'.links) == Keys(m.links)
    && GroupNames(m'.groups) == GroupNames(m.groups)
  }

  function MovedName(name: (string, string), toolId: string, url: string, desc: Group): (string, string) {
    if name == (toolId, url) then (desc.toolId, desc.url) else name
  }

  /** The names of a model with a renamed group. */
  lemma RenamedNames(m: Model, toolId: string, url: string, desc: Group)
    ensures var m' := GroupRenamed(m, toolId, url, desc);
            && |m'.resources| == |m.resources| && |m'.links| == |m.links| && |m'.groups| == |m.groups|
            && (forall i :: 0 <= i < |m.resources| ==>
                  RefsOf(m'.resources)[i] == MovedRef(RefsOf(m.resources)[i], toolId, url, desc))
            && (forall i :: 0 <= i < |m.links| ==> Keys(m'.links)[i] == MovedKey(Keys(m.links)[i], toolId, url, desc))
            && (forall i :: 0 <= i < |m.groups| ==>
                  GroupNames(m'.groups)[i] == MovedName(GroupNames(m.groups)[i], toolId, url, desc))
  {
  }

  /** What is renamed and renamed back is itself again unless it had the new name to begin with. */
  lemma BackAgain(
      r: ResourceRef, k: LinkKey, name: (string, string), toolId: string, url: string, desc: Group, desc0: Group)
    requires desc0.toolId == toolId && desc0.url == url && (desc.toolId, desc.url) != (toolId, url)
    ensures MovedRef(MovedRef(r, toolId, url, desc), desc.toolId, desc.url, desc0) == r
       <==> !IsIn(r, desc.toolId, desc.url)
    ensures MovedKey(MovedKey(k, toolId, url, desc), desc.toolId, desc.url, desc0) == k
       <==> !IsIn(k.fromRes, desc.toolId, desc.url) && !IsIn(k.toRes, desc.toolId, desc.url)
    ensures MovedName(MovedName(name, toolId, url, desc), desc.toolId, desc.url, desc0) == name
       <==> name != (desc.toolId, desc.url)
  {
  }

  /** Renaming a group and renaming it back restores the references of all resources, all ends of links
      and the names of all groups exactly if the name stayed the same or nothing had the new name. */
  lemma RenamingBack(m: Model, toolId: string, url: string, desc: Group, desc0: Group)
    requires desc0.toolId == toolId && desc0.url == url
    ensures SameNames(m, GroupRenamed(GroupRenamed(m, toolId, url, desc), desc.toolId, desc.url, desc0))
       <==> (desc.toolId == toolId && desc.url == url) || IsUnused(m, desc.toolId, desc.url)
  {
    var m1 := GroupRenamed(m, toolId, url, desc);
    RenamedNames(m, toolId, url, desc);
    RenamedNames(m1, desc.toolId, desc.url, desc0);
    if !(desc.toolId == toolId && desc.url == url) {
      RestoredExactly(m, toolId, url, desc, desc0);
    }
  }

  lemma RestoredExactly(m: Model, toolId: string, url: string, desc: Group, desc0: Group)
    requires desc0.toolId == toolId && desc0.url == url && (desc.toolId, desc.url) != (toolId, url)
    ensures SameNames(m, GroupRenamed(GroupRenamed(m, toolId, url, desc), desc.toolId, desc.url, desc0))
       <==> IsUnused(m, desc.toolId, desc.url)
  {
    var m1 := GroupRenamed(m, toolId, url, desc);
    var m2 := GroupRenamed(m1, desc.toolId, desc.url, desc0);
    RenamedNames(m, toolId, url, desc);
    RenamedNames(m1, desc.toolId, desc.url, desc0);
    var refs, keys, names := RefsOf(m.resources), Keys(m.links), GroupNames(m.groups);
    forall i | 0 <= i < |refs| ensures RefsOf(m2.resources)[i] == refs[i] <==> !IsIn(refs[i], desc.toolId, desc.url) {
      BackAgain(refs[i], LinkKey(refs[i], refs[i]), (toolId, url), toolId, url, desc, desc0);
    }
    forall i | 0 <= i < |keys|
      ensures Keys(m2.links)[i] == keys[i]
         <==> !IsIn(keys[i].fromRes, desc.toolId, desc.url) && !IsIn(keys[i].toRes, desc.toolId, desc.url)
    {
      BackAgain(keys[i].fromRes, keys[i], (toolId, url), toolId, url, desc, desc0);
    }
    forall i | 0 <= i < |names| ensures GroupNames(m2.groups)[i] == names[i] <==> names[i] != (desc.toolId, desc.url) {
      var r := ResourceRef(toolId, url, "");
      BackAgain(r, LinkKey(r, r), names[i], toolId, url, desc, desc0);
    }
  }

  // ----- The entries that go with a selection -----

  function AsEntries(keys: seq<LinkKey>): seq<Entry> {
    if keys == [] then [] else [LinkEntry(keys[0])] + AsEntries(keys[1..])
  }

  predicate Present(m: Model, e: Entry) {
    match e
    case LinkEntry(key) => ListsLink(m.links, key)
    case ResourceEntry(ref) => Lists(m.resources, ref)
  }

  function WithLoose(m: Model, selected: seq<Entry>): seq<Entry> {
    selected + AsEntries(LooseLinks(Keys(m.links), ResourceEntries(selected), LinkEntries(selected)))
  }

  /** For the blackboard: the selected entries as they stand in the model. */
  function RemovalEntries(m: Model, selected: seq<Entry>): Result<seq<Entry>, ApiError> {
    match FirstMissing(m, selected)
    case Some(e) => Err(NotInModel(e))
    case None => Ok(WithLoose(m, selected))
  }

  function FirstMissing(m: Model, selected: seq<Entry>): Option<Entry> {
    if selected == [] then None
    else if !Present(m, selected[0]) then Some(selected[0]) else FirstMissing(m, selected[1..])
  }

  /** The selected entries before the first that the model lacks. */
  function PresentPrefix(m: Model, selected: seq<Entry>): (prefix: seq<Entry>)
    ensures prefix <= selected && (FirstMissing(m, selected).None? <==> prefix == selected)
    ensures forall e :: e in prefix ==> Present(m, e)
    ensures FirstMissing(m, selected).Some? ==>
              |prefix| < |selected| && selected[|prefix|] == FirstMissing(m, selected).value
  {
    if selected == [] || !Present(m, selected[0]) then []
    else [selected[0]] + PresentPrefix(m, selected[1..])
  }

  function FirstGroup(groups: seq<Group>, url: string): Option<Group> {
    if groups == [] then None
    else if groups[0].url == url then Some(groups[0]) else FirstGroup(groups[1..], url)
  }

  /** The reference sent for a resource takes its tool from the first group with the group's url. */
  function RefInGroups(m: Model, ref: ResourceRef): Result<ResourceRef, ApiError> {
    if !Lists(m.resources, ref) then Err(NoResource(ref)) else
    match FirstGroup(m.groups, ref.groupUrl)
    case None => Err(NoGroup(ref.groupUrl))
    case Some(g) => Ok(ref.(toolId := g.toolId))
  }

  function DeletionEntry(m: Model, e: Entry): Result<Entry, ApiError> {
    match e
    case ResourceEntry(ref) =>
      (match RefInGroups(m, ref)
       case Err(error) => Err(error)
       case Ok(r) => Ok(ResourceEntry(r)))
    case LinkEntry(key) =>
      if !ListsLink(m.links, key) then Err(NotInModel(e)) else
      match (RefInGroups(m, key.fromRes), RefInGroups(m, key.toRes))
      case (Ok(source), Ok(target)) => Ok(LinkEntry(LinkKey(source, target)))
      case (Err(error), _) => Err(error)
      case (_, Err(error)) => Err(error)
  }

  function DeletionEntryList(m: Model, entries: seq<Entry>): Result<seq<Entry>, ApiError> {
    if entries == [] then Ok([]) else
    match (DeletionEntry(m, entries[0]), DeletionEntryList(m, entries[1..]))
    case (Ok(e), Ok(rest)) => Ok([e] + rest)
    case (Err(error), _) => Err(error)
    case (_, Err(error)) => Err(error)
  }

  /** For the depi: references to the selected entries, and to the links that would be left loose. */
  function DeletionEntries(m: Model, selected: seq<Entry>): Result<seq<Entry>, ApiError> {
    match DeletionEntryList(m, selected)
    case Err(error) => Err(error)
    case Ok(refs) =>
      match DeletionEntryList(m, AsEntries(LooseLinks(Keys(m.links), ResourceEntries(refs), LinkEntries(refs))))
      case Err(error) => Err(error)
      case Ok(loose) => Ok(refs + loose)
  }

  /** For every resource, the first group with its group's url is a group of its tool. */
  ghost predicate GroupsAgree(m: Model) {
    forall r :: Lists(m.resources, r) ==> RefInGroups(m, r) == Ok(r)
  }

  lemma {:induction false} LinkEntriesConcat(a: seq<Entry>, b: seq<Entry>)
    ensures LinkEntries(a + b) == LinkEntries(a) + LinkEntries(b)
  {
    if a == [] {
      assert a + b == b;
    } else {
      var first := if a[0].LinkEntry? then [a[0].key] else [];
      var x, y := LinkEntries(a[1..]), LinkEntries(b);
      LinkEntriesConcat(a[1..], b);
      assert (a + b)[1..] == a[1..] + b;
      assert first + (x + y) == first + x + y;
    }
  }

  lemma {:induction false} ResourceEntriesConcat(a: seq<Entry>, b: seq<Entry>)
    ensures ResourceEntries(a + b) == ResourceEntries(a) + ResourceEntries(b)
  {
    if a == [] {
      assert a + b == b;
    } else {
      var first := if a[0].ResourceEntry? then [a[0].ref] else [];
      var x, y := ResourceEntries(a[1..]), ResourceEntries(b);
      ResourceEntriesConcat(a[1..], b);
      assert (a + b)[1..] == a[1..] + b;
      assert first + (x + y) == first + x + y;
    }
  }

  lemma {:induction false} LinkEntriesOfKeys(keys: seq<LinkKey>)
    ensures LinkEntries(AsEntries(keys)) == keys && ResourceEntries(AsEntries(keys)) == []
    ensures forall e :: e in AsEntries(keys) ==> e.LinkEntry? && e.key in keys
  {
    if keys == [] {
    } else {
      LinkEntriesOfKeys(keys[1..]);
      assert AsEntries(keys)[1..] == AsEntries(keys[1..]);
    }
  }

  lemma {:induction false} AllPresent(m: Model, selected: seq<Entry>)
    ensures FirstMissing(m, selected).None? <==> forall e :: e in selected ==> Present(m, e)
  {
    if selected == [] {
    } else {
      AllPresent(m, selected[1..]);
      assert forall e :: e in selected <==> e == selected[0] || e in selected[1..];
    }
  }

  /** The groups lead from the entry to itself. */
  ghost predicate EntryAgrees(m: Model, e: Entry) {
    match e
    case ResourceEntry(ref) => RefInGroups(m, ref) == Ok(ref)
    case LinkEntry(key) => RefInGroups(m, key.fromRes) == Ok(key.fromRes) && RefInGroups(m, key.toRes) == Ok(key.toRes)
  }

  lemma EntryIsOwn(m: Model, e: Entry)
    requires Present(m, e)
    ensures DeletionEntry(m, e) == Ok(e) <==> EntryAgrees(m, e)
  {
  }

  lemma {:induction false} EntriesAreOwn(m: Model, entries: seq<Entry>)
    requires forall e :: e in entries ==> Present(m, e)
    ensures DeletionEntryList(m, entries).Ok? ==> |DeletionEntryList(m, entries).value| == |entries|
    ensures DeletionEntryList(m, entries) == Ok(entries) <==> forall e :: e in entries ==> EntryAgrees(m, e)
  {
    if entries == [] {
    } else {
      EntriesAreOwn(m, entries[1..]);
      EntryIsOwn(m, entries[0]);
      assert entries == [entries[0]] + entries[1..];
      if DeletionEntryList(m, entries) == Ok(entries) {
        var first, rest := DeletionEntry(m, entries[0]).value, DeletionEntryList(m, entries[1..]).value;
        assert [first] + rest == entries;
        assert first == entries[0] && rest == entries[1..];
      }
    }
  }

  lemma {:induction false} LooseLinksAreListed(
      keys: seq<LinkKey>, removedResources: seq<ResourceRef>, removedLinks: seq<LinkKey>, k: LinkKey)
    requires k in LooseLinks(keys, removedResources, removedLinks)
    ensures k in keys
  {
    CountPositive(LooseLinks(keys, removedResources, removedLinks), k);
    if k in LooseLinksOf(keys, removedResources[0], removedLinks) {
      CountPositive(LooseLinksOf(keys, removedResources[0], removedLinks), k);
      LooseLinksOfCounts(keys, removedResources[0], removedLinks, k);
      CountPositive(keys, k);
    } else {
      LooseLinksAreListed(keys, removedResources[1..], removedLinks, k);
    }
  }

  lemma LooseEntriesPresent(m: Model, selected: seq<Entry>)
    ensures forall e :: e in AsEntries(LooseLinks(Keys(m.links), ResourceEntries(selected), LinkEntries(selected))) ==>
              Present(m, e)
  {
    var loose := LooseLinks(Keys(m.links), ResourceEntries(selected), LinkEntries(selected));
    LinkEntriesOfKeys(loose);
    forall e | e in AsEntries(loose) ensures Present(m, e) {
      LooseLinksAreListed(Keys(m.links), ResourceEntries(selected), LinkEntries(selected), e.key);
      var i :| 0 <= i < |Keys(m.links)| && Keys(m.links)[i] == e.key;
      assert m.links[i].Key() == e.key;
    }
  }

  lemma SamePrefix<T>(a: seq<T>, b: seq<T>, c: seq<T>, d: seq<T>)
    requires |a| == |c|
    ensures a + b == c + d <==> a == c && b == d
  {
    assert (a + b)[..|a|] == a && (a + b)[|a|..] == b;
    assert (c + d)[..|c|] == c && (c + d)[|c|..] == d;
  }

  /** Deleting from the depi takes out the same entries as removing from the blackboard does, exactly if
      the groups lead from every selected entry and every loose link to itself. */
  lemma DeletionAgreesExactly(m: Model, selected: seq<Entry>)
    requires RemovalEntries(m, selected).Ok?
    ensures DeletionEntries(m, selected) == RemovalEntries(m, selected)
       <==> forall e :: e in WithLoose(m, selected) ==> EntryAgrees(m, e)
  {
    var loose := AsEntries(LooseLinks(Keys(m.links), ResourceEntries(selected), LinkEntries(selected)));
    AllPresent(m, selected);
    EntriesAreOwn(m, selected);
    LooseEntriesPresent(m, selected);
    EntriesAreOwn(m, loose);
    assert forall e :: e in selected + loose <==> e in selected || e in loose;
    if DeletionEntries(m, selected).Ok? {
      var refs := DeletionEntryList(m, selected).value;
      var refsLoose := AsEntries(LooseLinks(Keys(m.links), ResourceEntries(refs), LinkEntries(refs)));
      SamePrefix(refs, DeletionEntryList(m, refsLoose).value, selected, loose);
    }
  }

  lemma PresentEntriesAgree(m: Model, e: Entry)
    requires Integrity(m) && GroupsAgree(m) && Present(m, e)
    ensures EntryAgrees(m, e)
  {
    if e.LinkEntry? {
      var i :| 0 <= i < |m.links| && m.links[i].Key() == e.key;
      assert Keys(m.links)[i] == e.key;
      ListedRefs(m.resources);
    }
  }

  lemma SoleEntry(m: Model, ref: ResourceRef)
    requires Lists(m.resources, ref)
    ensures RemovalEntries(m, [ResourceEntry(ref)]).Ok? && ResourceEntry(ref) in WithLoose(m, [ResourceEntry(ref)])
  {
    AllPresent(m, [ResourceEntry(ref)]);
  }

  /** It does so for every selection exactly if, for every resource, the first group with its group's url
      belongs to its tool. */
  lemma DeletionAlwaysAgreesExactly(m: Model)
    requires Integrity(m)
    ensures (forall selected :: RemovalEntries(m, selected).Ok? ==>
               DeletionEntries(m, selected) == RemovalEntries(m, selected))
       <==> GroupsAgree(m)
  {
    if GroupsAgree(m) {
      forall selected | RemovalEntries(m, selected).Ok?
        ensures DeletionEntries(m, selected) == RemovalEntries(m, selected)
      {
        DeletionAgreesWithRemoval(m, selected);
      }
    } else {
      var ref :| Lists(m.resources, ref) && RefInGroups(m, ref) != Ok(ref);
      SoleEntry(m, ref);
      DeletionAgreesExactly(m, [ResourceEntry(ref)]);
      assert !EntryAgrees(m, ResourceEntry(ref));
    }
  }

  lemma DeletionAgreesWithRemoval(m: Model, selected: seq<Entry>)
    requires Integrity(m) && GroupsAgree(m) && RemovalEntries(m, selected).Ok?
    ensures DeletionEntries(m, selected) == RemovalEntries(m, selected)
  {
    AllPresent(m, selected);
    LooseEntriesPresent(m, selected);
    forall e | e in WithLoose(m, selected) ensures EntryAgrees(m, e) {
      PresentEntriesAgree(m, e);
    }
    DeletionAgreesExactly(m, selected);
  }

  lemma LooseEntries(m: Model, selected: seq<Entry>)
    ensures ResourceEntries(WithLoose(m, selected)) == ResourceEntries(selected)
    ensures LinkEntries(WithLoose(m, selected))
         == LinkEntries(selected) + LooseLinks(Keys(m.links), ResourceEntries(selected), LinkEntries(selected))
  {
    var loose := LooseLinks(Keys(m.links), ResourceEntries(selected), LinkEntries(selected));
    LinkEntriesOfKeys(loose);
    LinkEntriesConcat(selected, AsEntries(loose));
    ResourceEntriesConcat(selected, AsEntries(loose));
    assert ResourceEntries(selected) + [] == ResourceEntries(selected);
  }

  /** Taking out the selected entries with their loose links is a removal in the sense of GraphModel. */
  lemma EntriesMakeRemoval(m: Model, m': Model, selected: seq<Entry>)
    requires IsTaken(m, m', WithLoose(m, selected))
    ensures IsRemoval(m, m', ResourceEntries(selected), LinkEntries(selected))
  {
    LooseEntries(m, selected);
  }

  const RESOURCE_X := Resource(ResourceRef("git", "repo", "x"), "x", "repo", "1")
  const RESOURCE_Y := Resource(ResourceRef("gsn", "repo", "y"), "y", "repo", "1")

  /** Two groups of different tools under one url: x is linked to y. */
  const DISAGREEING := Model(
    [Group("git", "repo", "repo", "1"), Group("gsn", "repo", "repo", "1")],
    [RESOURCE_X, RESOURCE_Y], [Link(RESOURCE_X, RESOURCE_Y, false)])

  lemma SingleEntry(m: Model, e: Entry)
    requires DeletionEntry(m, e).Ok?
    ensures DeletionEntryList(m, [e]) == Ok([DeletionEntry(m, e).value])
  {
    var rest := [e][1..];
    assert rest == [] && DeletionEntryList(m, rest) == Ok([]);
    var r := DeletionEntry(m, e).value;
    assert [r] + [] == [r];
  }

  /** The loose link from x to y, with the tool that the groups give to y. */
  const MISNAMED := LinkKey(RESOURCE_X.ref, RESOURCE_Y.ref.(toolId := "git"))

  lemma DisagreeingLists()
    ensures var x, y := RESOURCE_X.ref, RESOURCE_Y.ref;
            && RefsOf(DISAGREEING.resources) == [x, y] && Keys(DISAGREEING.links) == [LinkKey(x, y)]
            && Integrity(DISAGREEING)
  {
    var m, x, y := DISAGREEING, RESOURCE_X.ref, RESOURCE_Y.ref;
    assert m.resources[0].ref == x && m.resources[1].ref == y && m.links[0].Key() == LinkKey(x, y);
    assert RefsOf(m.resources) == [x, y] && Keys(m.links) == [LinkKey(x, y)];
  }

  lemma DisagreeingEntries()
    ensures DeletionEntries(DISAGREEING, [ResourceEntry(RESOURCE_X.ref)])
         == Ok([ResourceEntry(RESOURCE_X.ref), LinkEntry(MISNAMED)])
  {
    var m, x, key := DISAGREEING, RESOURCE_X.ref, LinkKey(RESOURCE_X.ref, RESOURCE_Y.ref);
    DisagreeingLists();
    assert m.resources[0].ref == x && m.resources[1].ref == RESOURCE_Y.ref && m.links[0].Key() == key;
    SingleEntry(m, ResourceEntry(x));
    SingleEntry(m, LinkEntry(key));
    var refs := [ResourceEntry(x)];
    assert refs[1..] == [] && ResourceEntries(refs) == [x] && LinkEntries(refs) == [];
    assert [key][1..] == [] && [x][1..] == [];
    assert LooseLinksOf([key], x, []) == [key];
    assert LooseLinks([key], [x], []) == [key];
    assert AsEntries([key]) == [LinkEntry(key)];
    assert DeletionEntry(m, LinkEntry(key)) == Ok(LinkEntry(MISNAMED));
    assert DeletionEntryList(m, [ResourceEntry(x)]) == Ok(refs);
    assert DeletionEntryList(m, [LinkEntry(key)]) == Ok([LinkEntry(MISNAMED)]);
    assert refs + [LinkEntry(MISNAMED)] == [ResourceEntry(x), LinkEntry(MISNAMED)];
  }

  lemma MisnamedIsNotListed()
    ensures WithoutEach([LinkKey(RESOURCE_X.ref, RESOURCE_Y.ref)], [MISNAMED])
        == [LinkKey(RESOURCE_X.ref, RESOURCE_Y.ref)]
    ensures WithoutEach([RESOURCE_X.ref, RESOURCE_Y.ref], [RESOURCE_X.ref]) == [RESOURCE_Y.ref]
  {
    var key := LinkKey(RESOURCE_X.ref, RESOURCE_Y.ref);
    assert key.toRes.toolId[1] != MISNAMED.toRes.toolId[1];
    assert [MISNAMED][1..] == [] && [key][1..] == [] && WithoutFirst([key], MISNAMED) == [key];
    assert [RESOURCE_X.ref][1..] == [];
  }

  /** Where two tools use one group url, the reference to a loose link can name the wrong tool, and
      deleting a resource leaves the link behind. */
  lemma DeletionNeedsAgreeingGroups(m': Model)
    requires var entries := DeletionEntries(DISAGREEING, [ResourceEntry(RESOURCE_X.ref)]);
             entries.Ok? && IsTaken(DISAGREEING, m', entries.value)
    ensures Integrity(DISAGREEING) && !Integrity(m')
  {
    var x, y := RESOURCE_X.ref, RESOURCE_Y.ref;
    var entries := [ResourceEntry(x), LinkEntry(MISNAMED)];
    DisagreeingLists();
    DisagreeingEntries();
    MisnamedIsNotListed();
    var first, second := [ResourceEntry(x)], [LinkEntry(MISNAMED)];
    assert entries == first + second && first[1..] == [] && second[1..] == [];
    LinkEntriesConcat(first, second);
    ResourceEntriesConcat(first, second);
    assert ResourceEntries(entries) == [x] && LinkEntries(entries) == [MISNAMED];
    assert LinkKey(x, y) in Keys(m'.links) && RefsOf(m'.resources) == [y];
    assert x.url[0] != y.url[0];
  }
}
