/** The model differ: what became of each tracked resource between two versions of a model tree.
    Nodes are identified by guid, resources by the path at which they were last seen. */
module ModelDiff {
  import opened Refs
  import opened Counting

  /** A node as the model core shows it. A pointer leads to a guid or nowhere, and `base` is the
      guid of the node that this one is an instance of. */
  datatype Node = Node(
    guid: string, path: string, attributes: map<string, string>,
    pointers: map<string, Option<string>>, base: Option<string>, children: seq<Node>)
  {
    function Attribute(name: string): Option<string> {
      if name in attributes then Some(attributes[name]) else None
    }

    function PointerTarget(name: string): Option<string> {
      if name in pointers then pointers[name] else None
    }
  }

  datatype Resource = Resource(name: Option<string>, url: string, id: string)

  datatype ChangeType = Modified | Removed

  datatype Change = Change(
    changeType: ChangeType, name: Option<string>, url: string, id: string,
    newName: Option<string>, newUrl: string, newId: string)

  /** The core throws when it is asked about a node that was not found. */
  datatype LoadError = NoSuchNode(url: string)

  // ----- The core's view of a tree -----

  function Preorder(node: Node): (nodes: seq<Node>)
    ensures node in nodes
    decreases node
  {
    [node] + PreorderAll(node.children)
  }

  function PreorderAll(nodes: seq<Node>): seq<Node>
    decreases nodes
  {
    if nodes == [] then [] else Preorder(nodes[0]) + PreorderAll(nodes[1..])
  }

  function FirstWithGuid(nodes: seq<Node>, guid: string): (r: Option<Node>)
    ensures r.Some? ==> r.value in nodes && r.value.guid == guid
    ensures r.None? ==> forall n :: n in nodes ==> n.guid != guid
  {
    if nodes == [] then None
    else if nodes[0].guid == guid then Some(nodes[0]) else FirstWithGuid(nodes[1..], guid)
  }

  function FirstWithPath(nodes: seq<Node>, path: string): (r: Option<Node>)
    ensures r.Some? ==> r.value in nodes && r.value.path == path
    ensures r.None? ==> forall n :: n in nodes ==> n.path != path
  {
    if nodes == [] then None
    else if nodes[0].path == path then Some(nodes[0]) else FirstWithPath(nodes[1..], path)
  }

  function LoadByPath(root: Node, path: string): Option<Node> { FirstWithPath(Preorder(root), path) }

  function Base(root: Node, node: Node): Option<Node> {
    if node.base.None? then None else FirstWithGuid(Preorder(root), node.base.value)
  }

  function InstancesAmong(nodes: seq<Node>, base: Node): (r: seq<Node>)
    ensures forall n :: n in r <==> n in nodes && n.base == Some(base.guid)
  {
    if nodes == [] then []
    else (if nodes[0].base == Some(base.guid) then [nodes[0]] else []) + InstancesAmong(nodes[1..], base)
  }

  /** Guids and paths are unique in a tree, and no path ends in the separator. */
  ghost predicate WellFormed(root: Node) {
    var nodes := Preorder(root);
    && (forall m, n :: m in nodes && n in nodes && (m.guid == n.guid || m.path == n.path) ==> m == n)
    && (forall n :: n in nodes ==> !EndsInSlash(n.path))
  }

  predicate EndsInSlash(s: string) { s != "" && s[|s| - 1] == '/' }

  function WithoutSlash(url: string): string {
    if EndsInSlash(url) then url[..|url| - 1] else url
  }

  // ----- Comparing two versions of a subtree -----

  /** Connections and sets, compared for a resource at the given path. */
  type Relations = (string, Node, Node) -> bool

  /** The names looked at are those of the old node, both times. */
  ghost predicate AttributesAgree(oldNode: Node, newNode: Node) {
    forall a :: a in oldNode.attributes ==> oldNode.Attribute(a) == newNode.Attribute(a)
  }

  ghost predicate PointersAgree(oldNode: Node, newNode: Node) {
    forall p :: p in oldNode.pointers ==> oldNode.PointerTarget(p) == newNode.PointerTarget(p)
  }

  ghost predicate NodesAgree(relations: Relations, path: string, oldNode: Node, newNode: Node) {
    AttributesAgree(oldNode, newNode) && PointersAgree(oldNode, newNode) && relations(path, oldNode, newNode)
  }

  method AttributesSame(oldNode: Node, newNode: Node) returns (same: bool)
    ensures same <==> AttributesAgree(oldNode, newNode)
  {
    var names := oldNode.attributes.Keys;
    while names != {}
      invariant names <= oldNode.attributes.Keys
      invariant forall a :: a in oldNode.attributes && a !in names ==>
                  oldNode.Attribute(a) == newNode.Attribute(a)
      decreases names
    {
      var name :| name in names;
      if oldNode.Attribute(name) != newNode.Attribute(name) {
        return false;
      }
      names := names - {name};
    }
    return true;
  }

  method PointersSame(oldNode: Node, newNode: Node) returns (same: bool)
    ensures same <==> PointersAgree(oldNode, newNode)
  {
    var names := oldNode.pointers.Keys;
    while names != {}
      invariant names <= oldNode.pointers.Keys
      invariant forall p :: p in oldNode.pointers && p !in names ==>
                  oldNode.PointerTarget(p) == newNode.PointerTarget(p)
      decreases names
    {
      var name :| name in names;
      if oldNode.PointerTarget(name) != newNode.PointerTarget(name) {
        return false;
      }
      names := names - {name};
    }
    return true;
  }

  /** Where the comparison of attributes succeeds, the attributes are equal exactly when the new node
      has no name that the old one lacks: an attribute that was merely added goes unnoticed. */
  lemma AddedAttributeGoesUnnoticed(oldNode: Node, newNode: Node)
    requires AttributesAgree(oldNode, newNode)
    ensures oldNode.attributes == newNode.attributes
       <==> newNode.attributes.Keys <= oldNode.attributes.Keys
  {
    if newNode.attributes.Keys <= oldNode.attributes.Keys {
      forall a | a in oldNode.attributes
        ensures a in newNode.attributes && newNode.attributes[a] == oldNode.attributes[a]
      {
        assert oldNode.Attribute(a) == newNode.Attribute(a);
      }
    }
  }

  /** Likewise for pointers: where the comparison succeeds, all targets agree exactly when no pointer
      that the old node lacks leads anywhere from the new one. */
  lemma AddedPointerGoesUnnoticed(oldNode: Node, newNode: Node)
    requires PointersAgree(oldNode, newNode)
    ensures (forall p :: oldNode.PointerTarget(p) == newNode.PointerTarget(p))
       <==> forall p :: newNode.PointerTarget(p).Some? ==> p in oldNode.pointers
  {
    if p :| oldNode.PointerTarget(p) != newNode.PointerTarget(p) {
      assert p !in oldNode.pointers;
    }
  }

  const BARE := Node("n", "/n", map["name" := "door"], map[], None, [])

  const EXTENDED := Node("n", "/n", map["name" := "door", "material" := "oak"], map["frame" := Some("f")], None, [])

  /** A node that gained an attribute and a pointer compares as the same. */
  lemma AdditionsCompareAsSame(path: string)
    ensures SameRec((path, oldNode, newNode) => true, path, BARE, EXTENDED)
    ensures BARE.attributes != EXTENDED.attributes
    ensures BARE.PointerTarget("frame") != EXTENDED.PointerTarget("frame")
  {
    assert "material" in EXTENDED.attributes && "material"[0] != "name"[0];
    assert "material" !in BARE.attributes;
  }

  /** The last child with the guid, as in a JavaScript Map built from the list. */
  function ChildByGuid(children: seq<Node>, guid: string): (r: Option<Node>)
    ensures r.Some? <==> exists i :: 0 <= i < |children| && children[i].guid == guid
    ensures r.Some? ==> r.value in children && r.value.guid == guid
  {
    if children == [] then None
    else
      var last := |children| - 1;
      if children[last].guid == guid then Some(children[last])
      else
        var r := ChildByGuid(children[..last], guid);
        assert forall i :: 0 <= i < last ==> children[..last][i] == children[i];
        r
  }

  ghost predicate SameRec(relations: Relations, path: string, oldNode: Node, newNode: Node)
    decreases oldNode
  {
    && NodesAgree(relations, path, oldNode, newNode)
    && |oldNode.children| == |newNode.children|
    && forall c :: c in oldNode.children ==>
         var match' := ChildByGuid(newNode.children, c.guid);
         match'.Some? && SameRec(relations, path, c, match'.value)
  }

  method MapByGuid(children: seq<Node>) returns (byGuid: map<string, Node>)
    ensures forall g :: g in byGuid <==> ChildByGuid(children, g).Some?
    ensures forall g :: g in byGuid ==> ChildByGuid(children, g) == Some(byGuid[g])
  {
    byGuid := map[];
    for i := 0 to |children|
      invariant forall g :: g in byGuid <==> ChildByGuid(children[..i], g).Some?
      invariant forall g :: g in byGuid ==> ChildByGuid(children[..i], g) == Some(byGuid[g])
    {
      assert children[..i + 1][..i] == children[..i];
      byGuid := byGuid[children[i].guid := children[i]];
    }
    assert children[..|children|] == children;
  }

  /** The new partner of each old child, or nothing when some old child has none. */
  method PairUp(oldChildren: seq<Node>, newChildren: seq<Node>) returns (partners: Option<seq<Node>>)
    ensures partners.None? <==> exists c :: c in oldChildren && ChildByGuid(newChildren, c.guid).None?
    ensures partners.Some? ==> |partners.value| == |oldChildren|
    ensures partners.Some? ==> forall k :: 0 <= k < |oldChildren| ==>
              ChildByGuid(newChildren, oldChildren[k].guid) == Some(partners.value[k])
  {
    var guidToNewChildren := MapByGuid(newChildren);
    var found := [];
    for i := 0 to |oldChildren|
      invariant |found| == i
      invariant forall k :: 0 <= k < i ==>
                  ChildByGuid(newChildren, oldChildren[k].guid) == Some(found[k])
    {
      if oldChildren[i].guid !in guidToNewChildren {
        assert oldChildren[i] in oldChildren;
        return None;
      }
      found := found + [guidToNewChildren[oldChildren[i].guid]];
    }
    partners := Some(found);
  }

  method NodeAndChildrenSameRec(relations: Relations, path: string, oldNode: Node, newNode: Node)
    returns (same: bool)
    ensures same <==> SameRec(relations, path, oldNode, newNode)
    decreases oldNode
  {
    var attributesSame := AttributesSame(oldNode, newNode);
    var pointersSame := PointersSame(oldNode, newNode);
    if !attributesSame || !pointersSame || !relations(path, oldNode, newNode) {
      return false;
    }
    if |oldNode.children| != |newNode.children| {
      return false;
    }
    var partners := PairUp(oldNode.children, newNode.children);
    if partners.None? {
      return false;
    }
    for i := 0 to |oldNode.children|
      invariant forall k :: 0 <= k < i ==> SameRec(relations, path, oldNode.children[k], partners.value[k])
    {
      var childSame := NodeAndChildrenSameRec(relations, path, oldNode.children[i], partners.value[i]);
      if !childSame {
        assert oldNode.children[i] in oldNode.children;
        return false;
      }
    }
    return true;
  }

  // ----- The comparison finds exactly the isomorphic subtrees -----

  ghost predicate IsMatching(matching: seq<nat>, oldChildren: seq<Node>, newChildren: seq<Node>) {
    && |matching| == |oldChildren| == |newChildren|
    && (forall i :: 0 <= i < |matching| ==>
          matching[i] < |newChildren| && oldChildren[i].guid == newChildren[matching[i]].guid)
    && Distinct(matching)
  }

  /** The trees agree node by node under a one-to-one matching of children that keeps guids. */
  ghost predicate Isomorphic(relations: Relations, path: string, oldNode: Node, newNode: Node)
    decreases oldNode
  {
    && NodesAgree(relations, path, oldNode, newNode)
    && exists matching ::
         && IsMatching(matching, oldNode.children, newNode.children)
         && forall i :: 0 <= i < |oldNode.children| ==>
              Isomorphic(relations, path, oldNode.children[i], newNode.children[matching[i]])
  }

  ghost predicate SiblingsDistinct(node: Node)
    decreases node
  {
    && (forall i, j :: 0 <= i < j < |node.children| ==> node.children[i].guid != node.children[j].guid)
    && (forall c :: c in node.children ==> SiblingsDistinct(c))
  }

  /** Where guids are matched one to one, new children with one guid are one child. */
  lemma MatchedGuidsDiffer(matching: seq<nat>, oldChildren: seq<Node>, newChildren: seq<Node>, i: nat, j: nat)
    requires IsMatching(matching, oldChildren, newChildren) && i < |matching| && j < |newChildren|
    requires forall i, j :: 0 <= i < j < |oldChildren| ==> oldChildren[i].guid != oldChildren[j].guid
    requires newChildren[j].guid == oldChildren[i].guid
    ensures j == matching[i]
  {
    DistinctCoverAll(matching, j);
    var k :| 0 <= k < |matching| && matching[k] == j;
    assert oldChildren[k].guid == newChildren[matching[k]].guid == oldChildren[i].guid;
    assert k == i;
  }

  lemma MatchedChildIsFound(matching: seq<nat>, oldChildren: seq<Node>, newChildren: seq<Node>, i: nat)
    requires IsMatching(matching, oldChildren, newChildren) && i < |matching|
    requires forall i, j :: 0 <= i < j < |oldChildren| ==> oldChildren[i].guid != oldChildren[j].guid
    ensures ChildByGuid(newChildren, oldChildren[i].guid) == Some(newChildren[matching[i]])
  {
    assert newChildren[matching[i]].guid == oldChildren[i].guid;
    var found := ChildByGuid(newChildren, oldChildren[i].guid).value;
    var j :| 0 <= j < |newChildren| && newChildren[j] == found;
    MatchedGuidsDiffer(matching, oldChildren, newChildren, i, j);
  }

  lemma {:induction false} InclusionGivesMatching(oldChildren: seq<Node>, newChildren: seq<Node>, n: nat)
    returns (matching: seq<nat>)
    requires n <= |oldChildren|
    requires forall c :: c in oldChildren ==> ChildByGuid(newChildren, c.guid).Some?
    requires forall i, j :: 0 <= i < j < |oldChildren| ==> oldChildren[i].guid != oldChildren[j].guid
    ensures |matching| == n
    ensures forall i :: 0 <= i < n ==>
              && matching[i] < |newChildren|
              && ChildByGuid(newChildren, oldChildren[i].guid) == Some(newChildren[matching[i]])
    ensures Distinct(matching)
  {
    if n == 0 {
      matching := [];
    } else {
      var before := InclusionGivesMatching(oldChildren, newChildren, n - 1);
      assert oldChildren[n - 1] in oldChildren;
      var found := ChildByGuid(newChildren, oldChildren[n - 1].guid).value;
      var j: nat :| j < |newChildren| && newChildren[j] == found;
      matching := before + [j];
    }
  }

  lemma {:induction false} SameRecGivesMatching(relations: Relations, path: string, oldNode: Node, newNode: Node)
    requires SiblingsDistinct(oldNode) && SameRec(relations, path, oldNode, newNode)
    ensures Isomorphic(relations, path, oldNode, newNode)
    decreases oldNode
  {
    var olds, news := oldNode.children, newNode.children;
    var matching := InclusionGivesMatching(olds, news, |olds|);
    forall i | 0 <= i < |olds|
      ensures Isomorphic(relations, path, olds[i], news[matching[i]])
    {
      assert olds[i] in olds;
      SameRecGivesMatching(relations, path, olds[i], news[matching[i]]);
    }
    assert IsMatching(matching, olds, news);
  }

  lemma {:induction false} MatchingGivesSameRec(relations: Relations, path: string, oldNode: Node, newNode: Node)
    requires SiblingsDistinct(oldNode) && Isomorphic(relations, path, oldNode, newNode)
    ensures SameRec(relations, path, oldNode, newNode)
    decreases oldNode
  {
    var olds, news := oldNode.children, newNode.children;
    var matching :| IsMatching(matching, olds, news)
      && forall i :: 0 <= i < |olds| ==> Isomorphic(relations, path, olds[i], news[matching[i]]);
    forall c | c in olds
      ensures ChildByGuid(news, c.guid).Some?
      ensures SameRec(relations, path, c, ChildByGuid(news, c.guid).value)
    {
      var i :| 0 <= i < |olds| && olds[i] == c;
      MatchedChildIsFound(matching, olds, news, i);
      MatchingGivesSameRec(relations, path, c, news[matching[i]]);
    }
  }

  /** The recursive comparison returns true exactly when the two subtrees are isomorphic. Equal
      numbers of children and inclusion of the old guids among the new ones leave no room for a
      child that was added, dropped or replaced, and the order of children plays no part. */
  lemma SameRecIsIsomorphic(relations: Relations, path: string, oldNode: Node, newNode: Node)
    requires SiblingsDistinct(oldNode)
    ensures SameRec(relations, path, oldNode, newNode) <==> Isomorphic(relations, path, oldNode, newNode)
  {
    if SameRec(relations, path, oldNode, newNode) {
      SameRecGivesMatching(relations, path, oldNode, newNode);
    }
    if Isomorphic(relations, path, oldNode, newNode) {
      MatchingGivesSameRec(relations, path, oldNode, newNode);
    }
  }

  ghost predicate Occurs(guid: string, node: Node)
    decreases node
  {
    node.guid == guid || exists c :: c in node.children && Occurs(guid, c)
  }

  lemma OccursMatched(olds: seq<Node>, news: seq<Node>, matching: seq<nat>, guid: string)
    requires IsMatching(matching, olds, news)
    requires forall i :: 0 <= i < |olds| ==> (Occurs(guid, olds[i]) <==> Occurs(guid, news[matching[i]]))
    ensures (exists c :: c in olds && Occurs(guid, c)) <==> (exists c :: c in news && Occurs(guid, c))
  {
    if c :| c in news && Occurs(guid, c) {
      var j :| 0 <= j < |news| && news[j] == c;
      DistinctCoverAll(matching, j);
    }
    if c :| c in olds && Occurs(guid, c) {
      var i :| 0 <= i < |olds| && olds[i] == c;
      assert news[matching[i]] in news;
    }
  }

  lemma {:induction false} IsomorphicKeepsDescendants(
      relations: Relations, path: string, oldNode: Node, newNode: Node, guid: string)
    requires SiblingsDistinct(oldNode) && oldNode.guid == newNode.guid
    requires Isomorphic(relations, path, oldNode, newNode)
    ensures Occurs(guid, oldNode) <==> Occurs(guid, newNode)
    decreases oldNode
  {
    var olds, news := oldNode.children, newNode.children;
    var matching :| IsMatching(matching, olds, news)
      && forall i :: 0 <= i < |olds| ==> Isomorphic(relations, path, olds[i], news[matching[i]]);
    forall i | 0 <= i < |olds|
      ensures Occurs(guid, olds[i]) <==> Occurs(guid, news[matching[i]])
    {
      IsomorphicKeepsDescendants(relations, path, olds[i], news[matching[i]], guid);
    }
    OccursMatched(olds, news, matching, guid);
  }

  /** So subtrees that compare as the same hold the same guids: no descendant was added or lost. */
  lemma SameRecKeepsDescendants(
      relations: Relations, path: string, oldNode: Node, newNode: Node, guid: string)
    requires SiblingsDistinct(oldNode) && oldNode.guid == newNode.guid
    requires SameRec(relations, path, oldNode, newNode)
    ensures Occurs(guid, oldNode) <==> Occurs(guid, newNode)
  {
    SameRecIsIsomorphic(relations, path, oldNode, newNode);
    IsomorphicKeepsDescendants(relations, path, oldNode, newNode, guid);
  }
}
