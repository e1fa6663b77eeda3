/** Resources, resource groups and links as the depi server keeps them. Resource objects change in
    place while groups and links share them, so an object is named by its place in a heap. */
module DepiModel {
  import opened Refs
  import LinkPaths

  type ObjectId = nat

  datatype Resource = Resource(name: string, id: string, url: string)

  type Heap = seq<Resource>

  datatype GroupKey = GroupKey(toolId: string, url: string)

  datatype ResourceGroup = ResourceGroup(name: string, version: string, resources: map<string, ObjectId>)

  datatype Link = Link(fromRes: ResourceRef, toRes: ResourceRef)

  /** A link that holds on to the groups and the objects it connects. */
  datatype LinkWithResources = LinkWithResources(
    fromGroup: GroupKey, fromRes: ObjectId, toGroup: GroupKey, toRes: ObjectId)
  {
    predicate In(heap: Heap) { fromRes < |heap| && toRes < |heap| }
  }

  function Ref(g: GroupKey, url: string): ResourceRef { ResourceRef(g.toolId, g.url, url) }

  function GroupOf(r: ResourceRef): GroupKey { GroupKey(r.toolId, r.groupUrl) }

  function ToLink(heap: Heap, l: LinkWithResources): Link
    requires l.In(heap)
  {
    Link(Ref(l.fromGroup, heap[l.fromRes].url), Ref(l.toGroup, heap[l.toRes].url))
  }

  function LinkKeyOf(l: Link): LinkKey { LinkKey(l.fromRes, l.toRes) }

  /** The key of a link from the present contents of its objects. */
  function KeyOf(heap: Heap, l: LinkWithResources): LinkKey
    requires l.In(heap)
  {
    LinkKey(Ref(l.fromGroup, heap[l.fromRes].url), Ref(l.toGroup, heap[l.toRes].url))
  }

  // ----- Does a link start at a container of the resource? -----

  /** Path separators by tool id, where configured. */
  type ToolConfig = map<string, string>

  function PathSeparator(config: ToolConfig, toolId: string): string {
    if toolId in config then config[toolId] else "/"
  }

  predicate CompareFromResUrl(l: Link, resUrl: string, config: ToolConfig) {
    if l.fromRes.url == resUrl then true else
    var pathSep := PathSeparator(config, l.fromRes.toolId);
    if LinkPaths.EndsWith(l.fromRes.url, pathSep) then l.fromRes.url <= resUrl
    else l.fromRes.url + pathSep <= resUrl
  }

  predicate CompareFromResUrlOfObjects(heap: Heap, l: LinkWithResources, resUrl: string, config: ToolConfig)
    requires l.In(heap)
  {
    if heap[l.fromRes].url == resUrl then true else
    var pathSep := PathSeparator(config, l.fromGroup.toolId);
    if LinkPaths.EndsWith(heap[l.fromRes].url, pathSep) then heap[l.fromRes].url <= resUrl
    else heap[l.fromRes].url + pathSep <= resUrl
  }

  lemma ComparisonIsCovers(l: Link, resUrl: string, config: ToolConfig)
    ensures CompareFromResUrl(l, resUrl, config)
       <==> LinkPaths.Covers(l.fromRes.url, resUrl, PathSeparator(config, l.fromRes.toolId))
  {
  }

  /** Both forms of a link have one key and answer the comparison alike, whatever happened to the
      objects since the link was made. */
  lemma FormsAgree(heap: Heap, l: LinkWithResources, resUrl: string, config: ToolConfig)
    requires l.In(heap)
    ensures LinkKeyOf(ToLink(heap, l)) == KeyOf(heap, l)
    ensures CompareFromResUrl(ToLink(heap, l), resUrl, config)
       <==> CompareFromResUrlOfObjects(heap, l, resUrl, config)
  {
  }

  /** Where tools separate path segments by one character, the comparison of a link with objects says
      exactly whether its source is the resource or contains it, segment by segment. */
  lemma ComparisonIsSegmentPrefix(heap: Heap, l: LinkWithResources, resUrl: string, config: ToolConfig, c: char)
    requires l.In(heap) && PathSeparator(config, l.fromGroup.toolId) == [c]
    ensures CompareFromResUrlOfObjects(heap, l, resUrl, config)
       <==> || heap[l.fromRes].url == resUrl
            || LinkPaths.IsProperSegmentPrefix(LinkPaths.Trim(heap[l.fromRes].url, [c]), resUrl, c)
  {
    FormsAgree(heap, l, resUrl, config);
    ComparisonIsCovers(ToLink(heap, l), resUrl, config);
    LinkPaths.CoversIsSegmentPrefix(heap[l.fromRes].url, resUrl, c);
  }
}
