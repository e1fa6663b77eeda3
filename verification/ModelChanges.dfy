/** The list of changes that the differ reports, and what it means for the tracked resources. */
module ModelChanges {
  import opened Refs
  import opened ModelDiff

  // ----- Finding a node that is no longer where it was -----

  function RemovedChange(r: Resource): Change {
    Change(Removed, r.name, r.url, r.id, Some(""), "", "")
  }

  function MovedChange(r: Resource, node: Node): Change {
    var newUrl := if EndsInSlash(r.url) then node.path + "/" else node.path;
    Change(Modified, r.name, r.url, r.id, node.Attribute("name"), newUrl, r.id)
  }

  function FoundOrRemoved(r: Resource, found: Option<Node>): Change {
    if found.Some? then MovedChange(r, found.value) else RemovedChange(r)
  }

  /** The old node's base, if a node with the base's guid is where the base was. */
  function SurvivingBase(oldRoot: Node, oldNode: Node, newRoot: Node): Option<Node> {
    var oldBase := Base(oldRoot, oldNode);
    if oldBase.None? then None else
    var newBase := LoadByPath(newRoot, oldBase.value.path);
    if newBase.Some? && newBase.value.guid == oldBase.value.guid then newBase else None
  }

  function Relocate(oldRoot: Node, oldNode: Node, newRoot: Node, guid: string): Option<Node> {
    var newBase := SurvivingBase(oldRoot, oldNode, newRoot);
    var nodes := Preorder(newRoot);
    FirstWithGuid(if newBase.Some? then InstancesAmong(nodes, newBase.value) else nodes, guid)
  }

  lemma {:induction false} FirstInAppend(a: seq<Node>, b: seq<Node>, guid: string)
    ensures FirstWithGuid(a + b, guid)
         == if FirstWithGuid(a, guid).Some? then FirstWithGuid(a, guid) else FirstWithGuid(b, guid)
  {
    if a == [] {
      assert a + b == b;
    } else {
      assert (a + b)[1..] == a[1..] + b;
      FirstInAppend(a[1..], b, guid);
    }
  }

  /** The depth-first search, which stops at the first hit. */
  method TraverseTree(node: Node, guid: string) returns (result: Option<Node>)
    ensures result == FirstWithGuid(Preorder(node), guid)
    decreases node
  {
    if node.guid == guid {
      return Some(node);
    }
    result := None;
    for i := 0 to |node.children|
      invariant FirstWithGuid(PreorderAll(node.children), guid)
             == if result.Some? then result else FirstWithGuid(PreorderAll(node.children[i..]), guid)
    {
      if result.Some? {
        return;
      }
      result := TraverseTree(node.children[i], guid);
      FirstInAppend(Preorder(node.children[i]), PreorderAll(node.children[i..][1..]), guid);
      assert node.children[i..][1..] == node.children[i + 1..];
    }
  }

  method SearchList(nodes: seq<Node>, guid: string) returns (result: Option<Node>)
    ensures result == FirstWithGuid(nodes, guid)
  {
    for i := 0 to |nodes|
      invariant FirstWithGuid(nodes, guid) == FirstWithGuid(nodes[i..], guid)
    {
      assert nodes[i..][1..] == nodes[i + 1..];
      if nodes[i].guid == guid {
        return Some(nodes[i]);
      }
    }
    return None;
  }

  method GetMovedOrDeletedResourceChange(r: Resource, oldRoot: Node, oldNode: Node, newRoot: Node)
    returns (change: Change)
    ensures change == FoundOrRemoved(r, Relocate(oldRoot, oldNode, newRoot, r.id))
  {
    var found;
    var oldBase := Base(oldRoot, oldNode);
    if oldBase.Some? {
      var newBase := LoadByPath(newRoot, oldBase.value.path);
      if newBase.Some? && newBase.value.guid == oldBase.value.guid {
        found := SearchList(InstancesAmong(Preorder(newRoot), newBase.value), r.id);
        return FoundOrRemoved(r, found);
      }
    }
    found := TraverseTree(newRoot, r.id);
    change := FoundOrRemoved(r, found);
  }

  // ----- One change, and all changes -----

  ghost function ResourceChange(relations: Relations, r: Resource, oldRoot: Node, newRoot: Node)
    : Result<Option<Change>, LoadError>
  {
    var path := WithoutSlash(r.url);
    match LoadByPath(oldRoot, path)
    case None => Err(NoSuchNode(r.url))
    case Some(oldNode) =>
      var newNode := LoadByPath(newRoot, path);
      if newNode.None? || newNode.value.guid != r.id then
        Ok(Some(FoundOrRemoved(r, Relocate(oldRoot, oldNode, newRoot, r.id))))
      else if !SameRec(relations, oldNode.path, oldNode, newNode.value) then
        Ok(Some(Change(Modified, r.name, r.url, r.id, newNode.value.Attribute("name"), r.url, r.id)))
      else
        Ok(None)
  }

  method GetResourceChange(relations: Relations, r: Resource, oldRoot: Node, newRoot: Node)
    returns (change: Result<Option<Change>, LoadError>)
    ensures change == ResourceChange(relations, r, oldRoot, newRoot)
  {
    var path := WithoutSlash(r.url);
    var oldNode := LoadByPath(oldRoot, path);
    var newNode := LoadByPath(newRoot, path);
    if oldNode.None? {
      return Err(NoSuchNode(r.url));
    }
    if newNode.None? || newNode.value.guid != r.id {
      var moved := GetMovedOrDeletedResourceChange(r, oldRoot, oldNode.value, newRoot);
      return Ok(Some(moved));
    }
    var same := NodeAndChildrenSameRec(relations, oldNode.value.path, oldNode.value, newNode.value);
    if !same {
      return Ok(Some(Change(Modified, r.name, r.url, r.id,
                            newNode.value.Attribute("name"), r.url, r.id)));
    }
    return Ok(None);
  }

  type ChangeOf = Resource -> Result<Option<Change>, LoadError>

  /** One change after the other, until a resource throws. */
  ghost function Collect(changeOf: ChangeOf, resources: seq<Resource>): Result<seq<Change>, LoadError> {
    if resources == [] then Ok([]) else
    match changeOf(resources[0])
    case Err(e) => Err(e)
    case Ok(change) => Prepend(change, Collect(changeOf, resources[1..]))
  }

  function Prepend(change: Option<Change>, rest: Result<seq<Change>, LoadError>): Result<seq<Change>, LoadError> {
    if rest.Err? || change.None? then rest else Ok([change.value] + rest.value)
  }

  ghost function Changes(relations: Relations, resources: seq<Resource>, oldRoot: Node, newRoot: Node)
    : Result<seq<Change>, LoadError>
  {
    Collect(ChangeBetween(relations, oldRoot, newRoot), resources)
  }

  ghost function ChangeBetween(relations: Relations, oldRoot: Node, newRoot: Node): (changeOf: ChangeOf)
    ensures forall r :: changeOf(r) == ResourceChange(relations, r, oldRoot, newRoot)
  {
    r => ResourceChange(relations, r, oldRoot, newRoot)
  }

  /** What Collect gives when the first changes are already known. */
  ghost function CollectOnto(known: seq<Change>, changeOf: ChangeOf, resources: seq<Resource>)
    : Result<seq<Change>, LoadError>
  {
    var rest := Collect(changeOf, resources);
    if rest.Err? then rest else Ok(known + rest.value)
  }

  lemma CollectOntoStep(known: seq<Change>, changeOf: ChangeOf, resources: seq<Resource>)
    requires resources != []
    ensures CollectOnto(known, changeOf, resources)
         == match changeOf(resources[0])
            case Err(e) => Err(e)
            case Ok(None) => CollectOnto(known, changeOf, resources[1..])
            case Ok(Some(c)) => CollectOnto(known + [c], changeOf, resources[1..])
  {
    var first, rest := changeOf(resources[0]), Collect(changeOf, resources[1..]);
    if first.Ok? && first.value.Some? && rest.Ok? {
      assert known + ([first.value.value] + rest.value) == known + [first.value.value] + rest.value;
    }
  }

  method GetResourceChanges(relations: Relations, resources: seq<Resource>, oldRoot: Node, newRoot: Node)
    returns (changes: Result<seq<Change>, LoadError>)
    ensures changes == Changes(relations, resources, oldRoot, newRoot)
  {
    ghost var changeOf := ChangeBetween(relations, oldRoot, newRoot);
    var result: seq<Change> := [];
    ghost var all := Collect(changeOf, resources);
    assert all.Ok? ==> [] + all.value == all.value;
    for i := 0 to |resources|
      invariant all == CollectOnto(result, changeOf, resources[i..])
    {
      CollectOntoStep(result, changeOf, resources[i..]);
      assert resources[i..][1..] == resources[i + 1..];
      var change := GetResourceChange(relations, resources[i], oldRoot, newRoot);
      match change
      case Err(e) =>
        return Err(e);
      case Ok(None) =>
      case Ok(Some(c)) =>
        result := result + [c];
    }
    assert result + [] == result;
    return Ok(result);
  }

  // ----- What the changes achieve -----

  ghost predicate Tracks(root: Node, r: Resource) {
    var node := LoadByPath(root, WithoutSlash(r.url));
    node.Some? && node.value.guid == r.id
  }

  ghost predicate Gone(root: Node, guid: string) {
    forall n :: n in Preorder(root) ==> n.guid != guid
  }

  function Applied(r: Resource, change: Option<Change>): Option<Resource> {
    match change
    case None => Some(r)
    case Some(c) =>
      if c.changeType == Removed then None else Some(Resource(c.newName, c.newUrl, c.newId))
  }

  /** A resource that stays is found in the new tree under its new url, with its guid; and the guid
      of one that is dropped is nowhere in the new tree. */
  ghost predicate Right(newRoot: Node, guid: string, outcome: Option<Resource>) {
    match outcome
    case None => Gone(newRoot, guid)
    case Some(r) => r.id == guid && Tracks(newRoot, r)
  }

  /** If the base of the resource's old node survives, then the node with the resource's guid, where
      there is one, is still an instance of that base. */
  ghost predicate KeepsBase(r: Resource, oldRoot: Node, newRoot: Node) {
    var oldNode := LoadByPath(oldRoot, WithoutSlash(r.url));
    oldNode.Some? ==>
      var newBase := SurvivingBase(oldRoot, oldNode.value, newRoot);
      newBase.Some? ==>
        forall n :: n in Preorder(newRoot) && n.guid == r.id ==> n.base == Some(newBase.value.guid)
  }

  /** The fast search among the instances of the surviving base gives what the search of the whole
      tree gives, exactly for the nodes that keep their base. */
  lemma FastSearchAgreesWithFull(oldRoot: Node, oldNode: Node, newRoot: Node, r: Resource)
    requires WellFormed(newRoot) && LoadByPath(oldRoot, WithoutSlash(r.url)) == Some(oldNode)
    ensures Relocate(oldRoot, oldNode, newRoot, r.id) == FirstWithGuid(Preorder(newRoot), r.id)
       <==> KeepsBase(r, oldRoot, newRoot)
  {
  }

  lemma MovedNodeIsTracked(newRoot: Node, r: Resource, node: Node)
    requires WellFormed(newRoot) && node in Preorder(newRoot) && node.guid == r.id
    ensures Right(newRoot, r.id, Applied(r, Some(MovedChange(r, node))))
  {
    var newUrl := MovedChange(r, node).newUrl;
    assert !EndsInSlash(node.path);
    assert WithoutSlash(newUrl) == node.path by {
      if EndsInSlash(r.url) {
        assert (node.path + "/")[..|node.path|] == node.path;
      }
    }
  }

  lemma RelocationIsRight(r: Resource, oldRoot: Node, oldNode: Node, newRoot: Node)
    requires WellFormed(newRoot) && LoadByPath(oldRoot, WithoutSlash(r.url)) == Some(oldNode)
    ensures var change := FoundOrRemoved(r, Relocate(oldRoot, oldNode, newRoot, r.id));
            Right(newRoot, r.id, Applied(r, Some(change))) <==> KeepsBase(r, oldRoot, newRoot)
  {
    FastSearchAgreesWithFull(oldRoot, oldNode, newRoot, r);
    var found := Relocate(oldRoot, oldNode, newRoot, r.id);
    if found.Some? {
      MovedNodeIsTracked(newRoot, r, found.value);
    }
  }

  /** The change computed for a resource is right exactly when the resource is still where it was or
      its node keeps its base. */
  lemma ChangeIsRight(relations: Relations, r: Resource, oldRoot: Node, newRoot: Node)
    requires WellFormed(newRoot) && Tracks(oldRoot, r)
    ensures ResourceChange(relations, r, oldRoot, newRoot).Ok?
    ensures Right(newRoot, r.id, Applied(r, ResourceChange(relations, r, oldRoot, newRoot).value))
       <==> Tracks(newRoot, r) || KeepsBase(r, oldRoot, newRoot)
  {
    if !Tracks(newRoot, r) {
      RelocationIsRight(r, oldRoot, LoadByPath(oldRoot, WithoutSlash(r.url)).value, newRoot);
    }
  }

  // ----- A node that changes its base is reported as removed -----

  const DOOR := Node("door", "/1", map[], map[], None, [])
  const GATE := Node("gate", "/2", map[], map[], None, [])
  const AS_DOOR := Node("front", "/3", map[], map[], Some("door"), [])
  const AS_GATE := Node("front", "/4", map[], map[], Some("gate"), [])

  const OLD_MODEL := Node("root", "", map[], map[], None, [DOOR, GATE, AS_DOOR])
  const NEW_MODEL := Node("root", "", map[], map[], None, [DOOR, GATE, AS_GATE])

  predicate Apart(m: Node, n: Node) { m.guid != n.guid && m.path != n.path }

  /** A root with three leaves, all of different guids and paths. */
  ghost predicate IsFlat(root: Node, a: Node, b: Node, c: Node) {
    && root.children == [a, b, c] && a.children == b.children == c.children == []
    && Apart(root, a) && Apart(root, b) && Apart(root, c) && Apart(a, b) && Apart(a, c) && Apart(b, c)
    && !EndsInSlash(root.path) && !EndsInSlash(a.path) && !EndsInSlash(b.path) && !EndsInSlash(c.path)
  }

  lemma {:induction false} LeavesInOrder(nodes: seq<Node>)
    requires forall n :: n in nodes ==> n.children == []
    ensures PreorderAll(nodes) == nodes
  {
    if nodes == [] {
    } else {
      LeavesInOrder(nodes[1..]);
      assert Preorder(nodes[0]) == [nodes[0]];
    }
  }

  lemma FlatIsWellFormed(root: Node, a: Node, b: Node, c: Node)
    requires IsFlat(root, a, b, c)
    ensures forall n :: n in Preorder(root) <==> n == root || n == a || n == b || n == c
    ensures WellFormed(root)
  {
    LeavesInOrder(root.children);
    assert forall n :: n in Preorder(root) <==> n == root || n in root.children;
  }

  lemma FoundInPlace(root: Node, n: Node)
    requires WellFormed(root) && n in Preorder(root)
    ensures LoadByPath(root, n.path) == Some(n) && FirstWithGuid(Preorder(root), n.guid) == Some(n)
  {
  }

  lemma ModelsAreFlat()
    ensures IsFlat(OLD_MODEL, DOOR, GATE, AS_DOOR) && IsFlat(NEW_MODEL, DOOR, GATE, AS_GATE)
  {
    assert "root"[0] == 'r' && "door"[0] == 'd' && "gate"[0] == 'g' && "front"[0] == 'f';
    assert "/1"[1] == '1' && "/2"[1] == '2' && "/3"[1] == '3' && "/4"[1] == '4';
  }

  lemma MissedAmongInstances(newRoot: Node, base: Node, guid: string)
    requires forall n :: n in Preorder(newRoot) && n.guid == guid ==> n.base != Some(base.guid)
    ensures FirstWithGuid(InstancesAmong(Preorder(newRoot), base), guid).None?
  {
  }

  lemma NotInPlace(newRoot: Node, newNode: Node, path: string)
    requires WellFormed(newRoot) && newNode in Preorder(newRoot) && newNode.path != path
    ensures var there := LoadByPath(newRoot, path);
            there.None? || there.value.guid != newNode.guid
  {
  }

  lemma RelocationMisses(oldRoot: Node, oldNode: Node, base: Node, newRoot: Node, newNode: Node)
    requires WellFormed(oldRoot) && WellFormed(newRoot)
    requires base in Preorder(oldRoot) && base in Preorder(newRoot) && oldNode.base == Some(base.guid)
    requires newNode in Preorder(newRoot) && newNode.base != Some(base.guid)
    ensures Relocate(oldRoot, oldNode, newRoot, newNode.guid).None?
  {
    FoundInPlace(oldRoot, base);
    FoundInPlace(newRoot, base);
    MissedAmongInstances(newRoot, base, newNode.guid);
  }

  /** Whenever a node moves and changes its base while the old base stays, the search among the instances
      of that base misses the node, and the change says that it is gone. */
  lemma NewBaseIsTakenForRemoval(
      relations: Relations, r: Resource, oldRoot: Node, oldNode: Node, base: Node, newRoot: Node, newNode: Node)
    requires WellFormed(oldRoot) && WellFormed(newRoot)
    requires oldNode in Preorder(oldRoot) && oldNode.path == WithoutSlash(r.url)
    requires base in Preorder(oldRoot) && base in Preorder(newRoot) && oldNode.base == Some(base.guid)
    requires newNode in Preorder(newRoot) && newNode.guid == r.id
    requires newNode.path != oldNode.path && newNode.base != Some(base.guid)
    ensures ResourceChange(relations, r, oldRoot, newRoot) == Ok(Some(RemovedChange(r)))
    ensures !Gone(newRoot, r.id)
  {
    FoundInPlace(oldRoot, oldNode);
    NotInPlace(newRoot, newNode, oldNode.path);
    RelocationMisses(oldRoot, oldNode, base, newRoot, newNode);
  }

  /** Two models in which that happens. */
  lemma SomeBaseChanges(relations: Relations)
    ensures var r := Resource(Some("front"), "/3", "front");
            && WellFormed(OLD_MODEL) && WellFormed(NEW_MODEL) && Tracks(OLD_MODEL, r)
            && ResourceChange(relations, r, OLD_MODEL, NEW_MODEL) == Ok(Some(RemovedChange(r)))
            && !Gone(NEW_MODEL, r.id)
  {
    var r := Resource(Some("front"), "/3", "front");
    ModelsAreFlat();
    FlatIsWellFormed(OLD_MODEL, DOOR, GATE, AS_DOOR);
    FlatIsWellFormed(NEW_MODEL, DOOR, GATE, AS_GATE);
    FoundInPlace(OLD_MODEL, AS_DOOR);
    assert WithoutSlash("/3") == "/3" && "/3"[1] != "/4"[1] && "gate"[0] != "door"[0];
    NewBaseIsTakenForRemoval(relations, r, OLD_MODEL, AS_DOOR, DOOR, NEW_MODEL, AS_GATE);
  }

  /** The change in the list that is about the url. */
  function ChangeFor(changes: seq<Change>, url: string): Option<Change> {
    if changes == [] then None
    else if changes[0].url == url then Some(changes[0]) else ChangeFor(changes[1..], url)
  }

  ghost predicate DistinctUrls(resources: seq<Resource>) {
    forall i, j :: 0 <= i < j < |resources| ==> resources[i].url != resources[j].url
  }

  ghost predicate KeepsUrls(changeOf: ChangeOf) {
    forall r :: changeOf(r).Ok? && changeOf(r).value.Some? ==> changeOf(r).value.value.url == r.url
  }

  lemma {:induction false} OtherUrlsHaveNoChange(changeOf: ChangeOf, resources: seq<Resource>, url: string)
    requires KeepsUrls(changeOf) && Collect(changeOf, resources).Ok?
    requires forall i :: 0 <= i < |resources| ==> resources[i].url != url
    ensures ChangeFor(Collect(changeOf, resources).value, url).None?
  {
    if resources == [] {
    } else {
      OtherUrlsHaveNoChange(changeOf, resources[1..], url);
      var own, rest := changeOf(resources[0]).value, Collect(changeOf, resources[1..]).value;
      assert own.Some? ==> ([own.value] + rest)[1..] == rest;
    }
  }

  lemma {:induction false} ListHoldsOwnChange(changeOf: ChangeOf, resources: seq<Resource>, i: nat)
    requires KeepsUrls(changeOf) && Collect(changeOf, resources).Ok?
    requires DistinctUrls(resources) && i < |resources|
    ensures changeOf(resources[i]) == Ok(ChangeFor(Collect(changeOf, resources).value, resources[i].url))
  {
    var own, rest := changeOf(resources[0]).value, Collect(changeOf, resources[1..]).value;
    assert own.Some? ==> ([own.value] + rest)[1..] == rest;
    if i == 0 {
      OtherUrlsHaveNoChange(changeOf, resources[1..], resources[0].url);
    } else {
      assert resources[0].url != resources[i].url;
      ListHoldsOwnChange(changeOf, resources[1..], i - 1);
    }
  }

  lemma {:induction false} CollectFails(changeOf: ChangeOf, resources: seq<Resource>)
    ensures Collect(changeOf, resources).Err? <==> exists r :: r in resources && changeOf(r).Err?
  {
    if resources == [] {
    } else {
      assert resources == [resources[0]] + resources[1..];
      CollectFails(changeOf, resources[1..]);
    }
  }

  /** The run over all resources fails exactly when some resource is not found in the old tree. */
  lemma FailsExactlyOnLostResources(
      relations: Relations, resources: seq<Resource>, oldRoot: Node, newRoot: Node)
    ensures Changes(relations, resources, oldRoot, newRoot).Err?
       <==> exists r :: r in resources && LoadByPath(oldRoot, WithoutSlash(r.url)).None?
  {
    CollectFails(ChangeBetween(relations, oldRoot, newRoot), resources);
  }

  lemma ChangesKeepUrls(relations: Relations, oldRoot: Node, newRoot: Node)
    ensures KeepsUrls(ChangeBetween(relations, oldRoot, newRoot))
  {
  }

  lemma ResourceIsFollowed(
      relations: Relations, resources: seq<Resource>, i: nat, oldRoot: Node, newRoot: Node)
    requires WellFormed(newRoot) && DistinctUrls(resources) && i < |resources|
    requires Changes(relations, resources, oldRoot, newRoot).Ok? && Tracks(oldRoot, resources[i])
    ensures var r := resources[i];
            var change := ChangeFor(Changes(relations, resources, oldRoot, newRoot).value, r.url);
            Right(newRoot, r.id, Applied(r, change))
            <==> Tracks(newRoot, r) || KeepsBase(r, oldRoot, newRoot)
  {
    ChangesKeepUrls(relations, oldRoot, newRoot);
    ListHoldsOwnChange(ChangeBetween(relations, oldRoot, newRoot), resources, i);
    ChangeIsRight(relations, resources[i], oldRoot, newRoot);
  }

  /** If every tracked resource is found in the old tree with its guid, then applying the list of
      changes is right for a resource exactly when it is still in place or its node keeps its base. */
  lemma EveryResourceIsFollowed(
      relations: Relations, resources: seq<Resource>, oldRoot: Node, newRoot: Node)
    requires WellFormed(newRoot) && DistinctUrls(resources)
    requires forall i :: 0 <= i < |resources| ==> Tracks(oldRoot, resources[i])
    ensures Changes(relations, resources, oldRoot, newRoot).Ok?
    ensures var changes := Changes(relations, resources, oldRoot, newRoot).value;
            forall i :: 0 <= i < |resources| ==>
              (Right(newRoot, resources[i].id, Applied(resources[i], ChangeFor(changes, resources[i].url)))
               <==> Tracks(newRoot, resources[i]) || KeepsBase(resources[i], oldRoot, newRoot))
  {
    FailsExactlyOnLostResources(relations, resources, oldRoot, newRoot);
    var changes := Changes(relations, resources, oldRoot, newRoot).value;
    forall i | 0 <= i < |resources|
      ensures Right(newRoot, resources[i].id, Applied(resources[i], ChangeFor(changes, resources[i].url)))
         <==> Tracks(newRoot, resources[i]) || KeepsBase(resources[i], oldRoot, newRoot)
    {
      ResourceIsFollowed(relations, resources, i, oldRoot, newRoot);
    }
  }
}
