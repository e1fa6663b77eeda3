/** The models behind the blackboard graph, and the removal of entries from them. */
module GraphModel {
  import opened Counting
  import opened Refs
  import opened Sequences

  datatype Resource = Resource(ref: ResourceRef, name: string, groupName: string, groupVersion: string)

  datatype Link = Link(source: Resource, target: Resource, dirty: bool)
  {
    function Key(): LinkKey { LinkKey(source.ref, target.ref) }
  }

  datatype Group = Group(toolId: string, url: string, name: string, version: string)

  datatype Model = Model(groups: seq<Group>, resources: seq<Resource>, links: seq<Link>)

  datatype Entry = ResourceEntry(ref: ResourceRef) | LinkEntry(key: LinkKey)

  function Keys(links: seq<Link>): (r: seq<LinkKey>)
    ensures |r| == |links| && forall i :: 0 <= i < |r| ==> r[i] == links[i].Key()
  {
    seq(|links|, i requires 0 <= i < |links| => links[i].Key())
  }

  function RefsOf(resources: seq<Resource>): (r: seq<ResourceRef>)
    ensures |r| == |resources| && forall i :: 0 <= i < |r| ==> r[i] == resources[i].ref
  {
    seq(|resources|, i requires 0 <= i < |resources| => resources[i].ref)
  }

  /** Referential integrity: both ends of every link are listed as resources. */
  ghost predicate Integrity(m: Model) {
    forall k :: k in Keys(m.links) ==> k.fromRes in RefsOf(m.resources) && k.toRes in RefsOf(m.resources)
  }

  // ----- Taking the first match out of a list -----

  function WithoutFirst<T(==)>(s: seq<T>, x: T): seq<T> {
    if s == [] then [] else if s[0] == x then s[1..] else [s[0]] + WithoutFirst(s[1..], x)
  }

  lemma {:induction false} WithoutFirstCounts<T>(s: seq<T>, x: T, y: T)
    ensures Count(WithoutFirst(s, x), y) == Count(s, y) - if x == y && x in s then 1 else 0
  {
    if s != [] && s[0] != x {
      WithoutFirstCounts(s[1..], x, y);
      assert ([s[0]] + WithoutFirst(s[1..], x))[1..] == WithoutFirst(s[1..], x);
    }
  }

  /** The list keys left over once the entries' keys are taken out one after the other. */
  function WithoutEach<T(==)>(s: seq<T>, xs: seq<T>): seq<T>
    decreases xs
  {
    if xs == [] then s else WithoutEach(WithoutFirst(s, xs[0]), xs[1..])
  }

  lemma {:induction false} WithoutEachCounts<T>(s: seq<T>, xs: seq<T>, y: T)
    ensures Count(WithoutEach(s, xs), y) == if Count(s, y) > Count(xs, y) then Count(s, y) - Count(xs, y) else 0
    decreases xs
  {
    if xs == [] {
    } else {
      CountPositive(s, y);
      WithoutFirstCounts(s, xs[0], y);
      WithoutEachCounts(WithoutFirst(s, xs[0]), xs[1..], y);
    }
  }

  function LinkEntries(entries: seq<Entry>): seq<LinkKey> {
    if entries == [] then []
    else (if entries[0].LinkEntry? then [entries[0].key] else []) + LinkEntries(entries[1..])
  }

  function ResourceEntries(entries: seq<Entry>): seq<ResourceRef> {
    if entries == [] then []
    else (if entries[0].ResourceEntry? then [entries[0].ref] else []) + ResourceEntries(entries[1..])
  }

  method FindLink(links: seq<Link>, key: LinkKey) returns (idx: int)
    ensures -1 <= idx < |links|
    ensures idx >= 0 ==> links[idx].Key() == key
    ensures forall i :: 0 <= i < (if idx < 0 then |links| else idx) ==> links[i].Key() != key
  {
    for i := 0 to |links|
      invariant forall j :: 0 <= j < i ==> links[j].Key() != key
    {
      if links[i].Key() == key {
        return i;
      }
    }
    return -1;
  }

  method FindResource(resources: seq<Resource>, ref: ResourceRef) returns (idx: int)
    ensures -1 <= idx < |resources|
    ensures idx >= 0 ==> resources[idx].ref == ref
    ensures forall i :: 0 <= i < (if idx < 0 then |resources| else idx) ==> resources[i].ref != ref
  {
    for i := 0 to |resources|
      invariant forall j :: 0 <= j < i ==> resources[j].ref != ref
    {
      if resources[i].ref == ref {
        return i;
      }
    }
    return -1;
  }

  /** Cutting out the first match is WithoutFirst, and so is finding no match. */
  lemma {:induction false} WithoutFirstCuts<T>(s: seq<T>, x: T, idx: int)
    requires -1 <= idx < |s| && (idx >= 0 ==> s[idx] == x)
    requires forall i :: 0 <= i < (if idx < 0 then |s| else idx) ==> s[i] != x
    ensures WithoutFirst(s, x) == if idx < 0 then s else s[..idx] + s[idx + 1..]
  {
    if s != [] && s[0] != x {
      WithoutFirstCuts(s[1..], x, if idx < 0 then -1 else idx - 1);
      if idx > 0 {
        assert s[..idx] == [s[0]] + s[1..][..idx - 1];
      }
    }
  }

  lemma CutLists(links: seq<Link>, resources: seq<Resource>, i: nat, j: nat)
    ensures i < |links| ==> Keys(links[..i] + links[i + 1..]) == Keys(links)[..i] + Keys(links)[i + 1..]
    ensures j < |resources| ==>
              RefsOf(resources[..j] + resources[j + 1..]) == RefsOf(resources)[..j] + RefsOf(resources)[j + 1..]
  {
  }

  method RemoveLink(links: seq<Link>, key: LinkKey) returns (links': seq<Link>)
    ensures Keys(links') == WithoutFirst(Keys(links), key)
    ensures forall l :: l in links' ==> l in links
  {
    var idx := FindLink(links, key);
    WithoutFirstCuts(Keys(links), key, idx);
    if idx > -1 {
      links' := links[..idx] + links[idx + 1..];
      CutLists(links, [], idx, 0);
    } else {
      links' := links;
    }
  }

  method RemoveResource(resources: seq<Resource>, ref: ResourceRef) returns (resources': seq<Resource>)
    ensures RefsOf(resources') == WithoutFirst(RefsOf(resources), ref)
    ensures forall r :: r in resources' ==> r in resources
  {
    var idx := FindResource(resources, ref);
    WithoutFirstCuts(RefsOf(resources), ref, idx);
    if idx > -1 {
      resources' := resources[..idx] + resources[idx + 1..];
      CutLists([], resources, 0, idx);
    } else {
      resources' := resources;
    }
  }

  lemma FirstEntry(entries: seq<Entry>, s: seq<LinkKey>, t: seq<ResourceRef>)
    requires entries != []
    ensures WithoutEach(s, LinkEntries(entries))
         == WithoutEach(if entries[0].LinkEntry? then WithoutFirst(s, entries[0].key) else s,
                        LinkEntries(entries[1..]))
    ensures WithoutEach(t, ResourceEntries(entries))
         == WithoutEach(if entries[0].ResourceEntry? then WithoutFirst(t, entries[0].ref) else t,
                        ResourceEntries(entries[1..]))
  {
    var ls, rs := LinkEntries(entries[1..]), ResourceEntries(entries[1..]);
    match entries[0]
    case LinkEntry(key) =>
      assert LinkEntries(entries) == [key] + ls && ([key] + ls)[1..] == ls;
      assert ResourceEntries(entries) == rs;
    case ResourceEntry(ref) =>
      assert ResourceEntries(entries) == [ref] + rs && ([ref] + rs)[1..] == rs;
      assert LinkEntries(entries) == ls;
  }

  /** Entry by entry, the first link or resource that is the same as the entry goes. */
  method RemoveEntriesByMutation(resources: seq<Resource>, links: seq<Link>, removed: seq<Entry>)
    returns (resources': seq<Resource>, links': seq<Link>)
    ensures RefsOf(resources') == WithoutEach(RefsOf(resources), ResourceEntries(removed))
    ensures Keys(links') == WithoutEach(Keys(links), LinkEntries(removed))
    ensures forall r :: r in resources' ==> r in resources
    ensures forall l :: l in links' ==> l in links
  {
    resources', links' := resources, links;
    for i := 0 to |removed|
      invariant forall r :: r in resources' ==> r in resources
      invariant forall l :: l in links' ==> l in links
      invariant WithoutEach(RefsOf(resources'), ResourceEntries(removed[i..]))
             == WithoutEach(RefsOf(resources), ResourceEntries(removed))
      invariant WithoutEach(Keys(links'), LinkEntries(removed[i..]))
             == WithoutEach(Keys(links), LinkEntries(removed))
    {
      FirstEntry(removed[i..], Keys(links'), RefsOf(resources'));
      assert removed[i..][1..] == removed[i + 1..];
      match removed[i]
      case LinkEntry(key) =>
        links' := RemoveLink(links', key);
      case ResourceEntry(ref) =>
        resources' := RemoveResource(resources', ref);
    }
  }

  // ----- Loose links -----

  function LooseLinksOf(keys: seq<LinkKey>, ref: ResourceRef, removedLinks: seq<LinkKey>): seq<LinkKey> {
    if keys == [] then []
    else (if keys[0].Touches(ref) && keys[0] !in removedLinks then [keys[0]] else [])
         + LooseLinksOf(keys[1..], ref, removedLinks)
  }

  /** For each removed resource, the links that touch it and are not themselves removed. */
  function LooseLinks(keys: seq<LinkKey>, removedResources: seq<ResourceRef>, removedLinks: seq<LinkKey>)
    : seq<LinkKey>
  {
    if removedResources == [] then []
    else LooseLinksOf(keys, removedResources[0], removedLinks)
         + LooseLinks(keys, removedResources[1..], removedLinks)
  }

  method FilterLooseLinks(links: seq<Link>, ref: ResourceRef, removedLinks: seq<LinkKey>)
    returns (result: seq<LinkKey>)
    ensures result == LooseLinksOf(Keys(links), ref, removedLinks)
  {
    result := [];
    ghost var keys := Keys(links);
    for j := 0 to |links|
      invariant result + LooseLinksOf(keys[j..], ref, removedLinks) == LooseLinksOf(keys, ref, removedLinks)
    {
      assert keys[j..][1..] == keys[j + 1..];
      ghost var loose := if keys[j].Touches(ref) && keys[j] !in removedLinks then [keys[j]] else [];
      Regroup(result, loose, LooseLinksOf(keys[j + 1..], ref, removedLinks));
      if links[j].Key().Touches(ref) && links[j].Key() !in removedLinks {
        result := result + [links[j].Key()];
      } else {
        assert result + loose == result;
      }
    }
    assert keys[|links|..] == [];
  }

  method GetAdditionalLooseLinks(links: seq<Link>, removedResources: seq<ResourceRef>, removedLinks: seq<LinkKey>)
    returns (result: seq<LinkKey>)
    ensures result == LooseLinks(Keys(links), removedResources, removedLinks)
  {
    result := [];
    for i := 0 to |removedResources|
      invariant result + LooseLinks(Keys(links), removedResources[i..], removedLinks)
             == LooseLinks(Keys(links), removedResources, removedLinks)
    {
      assert removedResources[i..][1..] == removedResources[i + 1..];
      var loose := FilterLooseLinks(links, removedResources[i], removedLinks);
      ghost var rest := LooseLinks(Keys(links), removedResources[i + 1..], removedLinks);
      assert result + (loose + rest) == result + loose + rest;
      result := result + loose;
    }
  }

  ghost predicate TouchesAny(k: LinkKey, refs: seq<ResourceRef>) {
    k.fromRes in refs || k.toRes in refs
  }

  lemma {:induction false} LooseLinksOfCounts(
      keys: seq<LinkKey>, ref: ResourceRef, removedLinks: seq<LinkKey>, k: LinkKey)
    ensures Count(LooseLinksOf(keys, ref, removedLinks), k)
         == if k.Touches(ref) && k !in removedLinks then Count(keys, k) else 0
  {
    if keys == [] {
    } else {
      LooseLinksOfCounts(keys[1..], ref, removedLinks, k);
      var rest := LooseLinksOf(keys[1..], ref, removedLinks);
      assert ([keys[0]] + rest)[1..] == rest && [] + rest == rest;
    }
  }

  lemma {:induction false} LooseLinksCounts(
      keys: seq<LinkKey>, removedResources: seq<ResourceRef>, removedLinks: seq<LinkKey>, k: LinkKey)
    ensures var loose := Count(LooseLinks(keys, removedResources, removedLinks), k);
            if TouchesAny(k, removedResources) && k !in removedLinks then loose >= Count(keys, k)
            else loose == 0
  {
    if removedResources == [] {
    } else {
      LooseLinksOfCounts(keys, removedResources[0], removedLinks, k);
      LooseLinksCounts(keys, removedResources[1..], removedLinks, k);
      CountAppend(LooseLinksOf(keys, removedResources[0], removedLinks),
                  LooseLinks(keys, removedResources[1..], removedLinks), k);
    }
  }

  // ----- Removing a selection with its loose links -----

  /** What is left of a model. */
  ghost predicate IsRemoval(
      m: Model, m': Model, selectedResources: seq<ResourceRef>, selectedLinks: seq<LinkKey>)
  {
    && RefsOf(m'.resources) == WithoutEach(RefsOf(m.resources), selectedResources)
    && Keys(m'.links) == WithoutEach(Keys(m.links),
         selectedLinks + LooseLinks(Keys(m.links), selectedResources, selectedLinks))
  }

  lemma LinksLeft(m: Model, m': Model, selectedResources: seq<ResourceRef>, selectedLinks: seq<LinkKey>, k: LinkKey)
    requires IsRemoval(m, m', selectedResources, selectedLinks)
    ensures k in Keys(m'.links) <==>
              if k in selectedLinks then Count(Keys(m.links), k) > Count(selectedLinks, k)
              else k in Keys(m.links) && !TouchesAny(k, selectedResources)
  {
    var loose := LooseLinks(Keys(m.links), selectedResources, selectedLinks);
    WithoutEachCounts(Keys(m.links), selectedLinks + loose, k);
    CountAppend(selectedLinks, loose, k);
    LooseLinksCounts(Keys(m.links), selectedResources, selectedLinks, k);
    CountPositive(Keys(m'.links), k);
    CountPositive(Keys(m.links), k);
    CountPositive(selectedLinks, k);
  }

  lemma ResourcesLeft(
      m: Model, m': Model, selectedResources: seq<ResourceRef>, selectedLinks: seq<LinkKey>, r: ResourceRef)
    requires IsRemoval(m, m', selectedResources, selectedLinks)
    ensures r in RefsOf(m'.resources) <==>
              Count(RefsOf(m.resources), r) > Count(selectedResources, r)
  {
    WithoutEachCounts(RefsOf(m.resources), selectedResources, r);
    CountPositive(RefsOf(m'.resources), r);
  }

  ghost predicate Repeats(m: Model, selectedLinks: seq<LinkKey>, k: LinkKey) {
    k in selectedLinks && Count(Keys(m.links), k) > Count(selectedLinks, k)
  }

  ghost predicate Outlasts(m: Model, selectedResources: seq<ResourceRef>, r: ResourceRef) {
    Count(RefsOf(m.resources), r) > Count(selectedResources, r)
  }

  /** Removal keeps referential integrity exactly when no selected link that is listed more often
      than it is selected has an end whose every listing is selected. */
  lemma RemovalKeepsIntegrity(m: Model, m': Model, selectedResources: seq<ResourceRef>, selectedLinks: seq<LinkKey>)
    requires Integrity(m) && IsRemoval(m, m', selectedResources, selectedLinks)
    ensures Integrity(m') <==> forall k :: Repeats(m, selectedLinks, k) ==>
              Outlasts(m, selectedResources, k.fromRes) && Outlasts(m, selectedResources, k.toRes)
  {
    forall k: LinkKey
      ensures k in Keys(m'.links)
         <==> || Repeats(m, selectedLinks, k)
              || (k in Keys(m.links) && k !in selectedLinks && !TouchesAny(k, selectedResources))
    {
      LinksLeft(m, m', selectedResources, selectedLinks, k);
    }
    forall r: ResourceRef
      ensures r in RefsOf(m'.resources) <==> Outlasts(m, selectedResources, r)
      ensures r in RefsOf(m.resources) && r !in selectedResources ==> Outlasts(m, selectedResources, r)
    {
      ResourcesLeft(m, m', selectedResources, selectedLinks, r);
      CountPositive(RefsOf(m.resources), r);
      CountPositive(selectedResources, r);
    }
  }

  ghost predicate NoLinkRepeats(m: Model) {
    forall k :: Count(Keys(m.links), k) <= 1
  }

  /** Where no link is listed twice, removal deletes exactly the selected links and the links that
      touch a selected resource, and referential integrity survives. */
  lemma RemovalIsExact(m: Model, m': Model, selectedResources: seq<ResourceRef>, selectedLinks: seq<LinkKey>)
    requires NoLinkRepeats(m) && IsRemoval(m, m', selectedResources, selectedLinks)
    ensures forall k :: k in Keys(m'.links)
              <==> k in Keys(m.links) && k !in selectedLinks && !TouchesAny(k, selectedResources)
    ensures Integrity(m) ==> Integrity(m')
  {
    forall k: LinkKey
      ensures !Repeats(m, selectedLinks, k)
      ensures k in Keys(m'.links)
         <==> k in Keys(m.links) && k !in selectedLinks && !TouchesAny(k, selectedResources)
    {
      LinksLeft(m, m', selectedResources, selectedLinks, k);
      CountPositive(selectedLinks, k);
    }
    if Integrity(m) {
      RemovalKeepsIntegrity(m, m', selectedResources, selectedLinks);
    }
  }

  // ----- Taking out any entries -----

  ghost predicate IsTaken(m: Model, m': Model, entries: seq<Entry>) {
    && RefsOf(m'.resources) == WithoutEach(RefsOf(m.resources), ResourceEntries(entries))
    && Keys(m'.links) == WithoutEach(Keys(m.links), LinkEntries(entries))
  }

  /** Every link that is listed more often than it is taken out has ends that are listed more often than
      they are taken out. */
  ghost predicate SafeToTake(m: Model, entries: seq<Entry>) {
    forall k :: Count(Keys(m.links), k) > Count(LinkEntries(entries), k) ==>
      Outlasts(m, ResourceEntries(entries), k.fromRes) && Outlasts(m, ResourceEntries(entries), k.toRes)
  }

  /** Taking out entries, whichever they are, keeps referential integrity exactly under that condition. */
  lemma TakingKeepsIntegrity(m: Model, m': Model, entries: seq<Entry>)
    requires Integrity(m) && IsTaken(m, m', entries)
    ensures Integrity(m') <==> SafeToTake(m, entries)
  {
    forall k: LinkKey ensures k in Keys(m'.links) <==> Count(Keys(m.links), k) > Count(LinkEntries(entries), k) {
      WithoutEachCounts(Keys(m.links), LinkEntries(entries), k);
      CountPositive(Keys(m'.links), k);
    }
    forall r: ResourceRef ensures r in RefsOf(m'.resources) <==> Outlasts(m, ResourceEntries(entries), r) {
      WithoutEachCounts(RefsOf(m.resources), ResourceEntries(entries), r);
      CountPositive(RefsOf(m'.resources), r);
    }
  }

  lemma TakingRepeatsNoLink(m: Model, m': Model, entries: seq<Entry>)
    requires NoLinkRepeats(m) && IsTaken(m, m', entries)
    ensures NoLinkRepeats(m')
  {
    forall k: LinkKey ensures Count(Keys(m'.links), k) <= 1 {
      WithoutEachCounts(Keys(m.links), LinkEntries(entries), k);
    }
  }

  lemma DistinctFirst<T>(s: seq<T>)
    requires s != []
    ensures Distinct(s) <==> s[0] !in s[1..] && Distinct(s[1..])
  {
    var rest := s[1..];
    assert forall i :: 0 <= i < |rest| ==> rest[i] == s[i + 1];
    if s[0] !in rest && Distinct(rest) {
      forall i, k | 0 <= i < k < |s| ensures s[i] != s[k] {
        assert s[k] == rest[k - 1];
        assert i > 0 ==> s[i] == rest[i - 1];
      }
    }
    if Distinct(s) {
      forall i, k | 0 <= i < k < |rest| ensures rest[i] != rest[k] {
        assert rest[i] == s[i + 1] && rest[k] == s[k + 1];
      }
    }
  }

  lemma {:induction false} DistinctCounts<T>(s: seq<T>, x: T)
    requires Distinct(s)
    ensures Count(s, x) <= 1
  {
    if s == [] {
    } else {
      DistinctFirst(s);
      CountPositive(s[1..], x);
      DistinctCounts(s[1..], x);
    }
  }

  lemma {:induction false} TwiceCounts<T>(s: seq<T>, i: nat, k: nat)
    requires i < k < |s| && s[i] == s[k]
    ensures Count(s, s[i]) > 1
  {
    if i == 0 {
      assert s[1..][k - 1] == s[i];
      CountPositive(s[1..], s[i]);
    } else {
      TwiceCounts(s[1..], i - 1, k - 1);
    }
  }

  /** In other words, the keys of the links are distinct. */
  lemma NoRepeatsIsDistinct(m: Model)
    ensures NoLinkRepeats(m) <==> Distinct(Keys(m.links))
  {
    var keys := Keys(m.links);
    if Distinct(keys) {
      forall k: LinkKey ensures Count(keys, k) <= 1 {
        DistinctCounts(keys, k);
      }
    } else {
      var i, k :| 0 <= i < k < |keys| && keys[i] == keys[k];
      TwiceCounts(keys, i, k);
    }
  }
}
