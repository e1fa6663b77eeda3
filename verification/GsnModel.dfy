/** GSN models as flat lists of nodes that are named by paths, and the first pass over them, which
    checks each node and sorts the nodes into namespaces. */
module GsnModel {
  import opened Refs
  import opened Text

  /** A type is one of six words, or else. */
  datatype NodeType = Goal | Strategy | Solution | Assumption | Justification | Context | OtherType(text: string)

  /** An empty id stands for one that is missing or no string. */
  datatype GsnNode = GsnNode(
    id: string, nodeType: NodeType, uuid: Option<string>, summary: Option<string>, info: Option<string>,
    artifacts: Option<seq<string>>, labels: Option<seq<string>>,
    solvedBy: Option<seq<string>>, inContextOf: Option<seq<string>>)

  datatype GsnError =
    | MissingId(index: nat)
    | InvalidId(index: nat, nodeId: string)
    | InvalidType(index: nat, nodeId: string)
    | MissingNode(nodeId: string, path: string)
    | NoRoots(namespace: string)
    | Loops

  predicate IsLetter(c: char) { 'a' <= c <= 'z' || 'A' <= c <= 'Z' }

  predicate IsNameStart(c: char) { IsLetter(c) || c == '_' }

  predicate IsNamePart(c: char) { IsNameStart(c) || '0' <= c <= '9' }

  predicate IsName(s: string) {
    s != [] && IsNameStart(s[0]) && forall i :: 0 <= i < |s| ==> IsNamePart(s[i])
  }

  function Pieces(id: string): (pieces: seq<string>)
    ensures pieces != []
  {
    Split(id, "/")
  }

  predicate ValidId(id: string) {
    |Pieces(id)| >= 2 && forall i :: 0 <= i < |Pieces(id)| ==> IsName(Pieces(id)[i])
  }

  predicate IsRoot(id: string) { |Pieces(id)| == 2 }

  function NamespaceOf(id: string): string { Pieces(id)[0] }

  // ----- The first pass -----

  function NodeErrors(node: GsnNode, index: nat): seq<GsnError> {
    if node.id == "" then [MissingId(index)] else
    (if ValidId(node.id) then [] else [InvalidId(index, node.id)])
    + (if !node.nodeType.OtherType? then [] else [InvalidType(index, node.id)])
  }

  /** The nodes that have an id: only they count towards the index. */
  function WithId(model: seq<GsnNode>): seq<GsnNode> {
    if model == [] then [] else
    var last := model[|model| - 1];
    WithId(model[..|model| - 1]) + if last.id == "" then [] else [last]
  }

  function ModelErrors(model: seq<GsnNode>): seq<GsnError> {
    if model == [] then [] else
    var before := model[..|model| - 1];
    ModelErrors(before) + NodeErrors(model[|model| - 1], |WithId(before)|)
  }

  predicate IsSound(node: GsnNode) {
    node.id != "" && ValidId(node.id) && !node.nodeType.OtherType?
  }

  lemma {:induction false} SoundNodesHaveIds(model: seq<GsnNode>)
    requires AllSound(model)
    ensures WithId(model) == model
  {
    if model == [] {
    } else {
      var before, last := model[..|model| - 1], model[|model| - 1];
      assert AllSound(before) && last.id != "" by { AllSoundLast(model); }
      SoundNodesHaveIds(before);
      assert model == before + [last];
    }
  }

  predicate AllSound(model: seq<GsnNode>) {
    forall i :: 0 <= i < |model| ==> IsSound(model[i])
  }

  lemma AllSoundLast(model: seq<GsnNode>)
    requires model != []
    ensures AllSound(model) <==> AllSound(model[..|model| - 1]) && IsSound(model[|model| - 1])
  {
  }

  lemma SoundHasNoErrors(node: GsnNode, index: nat)
    ensures NodeErrors(node, index) == [] <==> IsSound(node)
  {
  }

  /** The first pass finds no error exactly when every node is sound. */
  lemma {:induction false} NoModelErrors(model: seq<GsnNode>)
    ensures ModelErrors(model) == [] <==> AllSound(model)
  {
    if model == [] {
    } else {
      var last := |model| - 1;
      NoModelErrors(model[..last]);
      SoundHasNoErrors(model[last], |WithId(model[..last])|);
      AllSoundLast(model);
    }
  }

  datatype Namespace = Namespace(name: string, nsType: Option<NodeType>, roots: seq<nat>)

  /** The last node with each path. */
  ghost predicate IsNodeMap(nodes: seq<GsnNode>, nodeMap: map<string, nat>) {
    && (forall p :: p in nodeMap ==> nodeMap[p] < |nodes| && nodes[nodeMap[p]].id == p)
    && (forall i :: 0 <= i < |nodes| ==> nodes[i].id in nodeMap && i <= nodeMap[nodes[i].id])
  }

  function RootsOf(nodes: seq<GsnNode>, name: string): seq<nat> {
    if nodes == [] then [] else
    var last := |nodes| - 1;
    RootsOf(nodes[..last], name)
    + if NamespaceOf(nodes[last].id) == name && IsRoot(nodes[last].id) then [last] else []
  }

  function TypeOf(nodes: seq<GsnNode>, name: string): Option<NodeType> {
    if nodes == [] then None else
    var last := nodes[|nodes| - 1];
    if NamespaceOf(last.id) == name && IsRoot(last.id) then Some(last.nodeType) else TypeOf(nodes[..|nodes| - 1], name)
  }

  lemma {:induction false} RootsAreNodes(nodes: seq<GsnNode>, name: string)
    ensures forall r: nat :: r in RootsOf(nodes, name) <==>
              r < |nodes| && NamespaceOf(nodes[r].id) == name && IsRoot(nodes[r].id)
  {
    if nodes == [] {
    } else {
      RootsAreNodes(nodes[..|nodes| - 1], name);
    }
  }

  /** In the order in which they first occur. */
  function Names(nodes: seq<GsnNode>): seq<string> {
    if nodes == [] then [] else
    var before, name := Names(nodes[..|nodes| - 1]), NamespaceOf(nodes[|nodes| - 1].id);
    before + if name in before then [] else [name]
  }

  lemma RootsGrow(nodes: seq<GsnNode>, node: GsnNode, name: string)
    ensures RootsOf(nodes + [node], name)
         == RootsOf(nodes, name) + if NamespaceOf(node.id) == name && IsRoot(node.id) then [|nodes|] else []
    ensures TypeOf(nodes + [node], name)
         == if NamespaceOf(node.id) == name && IsRoot(node.id) then Some(node.nodeType) else TypeOf(nodes, name)
    ensures Names(nodes + [node])
         == Names(nodes) + if NamespaceOf(node.id) in Names(nodes) then [] else [NamespaceOf(node.id)]
  {
    assert (nodes + [node])[..|nodes|] == nodes;
  }

  lemma {:induction false} NoRootsYet(nodes: seq<GsnNode>, name: string)
    requires name !in Names(nodes)
    ensures RootsOf(nodes, name) == [] && TypeOf(nodes, name) == None
  {
    if nodes == [] {
    } else {
      NoRootsYet(nodes[..|nodes| - 1], name);
    }
  }

  ghost predicate NamespacesFit(nodes: seq<GsnNode>, names: seq<string>, namespaces: map<string, Namespace>) {
    && names == Names(nodes)
    && (forall n :: n in namespaces <==> n in names)
    && (forall n :: n in namespaces ==> namespaces[n] == Namespace(n, TypeOf(nodes, n), RootsOf(nodes, n)))
  }

  method CheckNode(node: GsnNode, index: nat) returns (errors: seq<GsnError>)
    requires node.id != ""
    ensures errors == NodeErrors(node, index)
  {
    errors := [];
    if !ValidId(node.id) {
      errors := errors + [InvalidId(index, node.id)];
    }
    if node.nodeType.OtherType? {
      errors := errors + [InvalidType(index, node.id)];
    }
  }

  method AddToNamespace(
      ghost nodes: seq<GsnNode>, node: GsnNode, index: nat, names0: seq<string>, namespaces0: map<string, Namespace>)
    returns (names: seq<string>, namespaces: map<string, Namespace>)
    requires NamespacesFit(nodes, names0, namespaces0) && index == |nodes|
    ensures NamespacesFit(nodes + [node], names, namespaces)
  {
    names, namespaces := names0, namespaces0;
    var pieces := Split(node.id, "/");
    var name := pieces[0];
    if name !in namespaces {
      NoRootsYet(nodes, name);
      names := names + [name];
      namespaces := namespaces[name := Namespace(name, None, [])];
    }
    if |pieces| == 2 {
      var roots := namespaces[name].roots + [index];
      namespaces := namespaces[name := Namespace(name, Some(node.nodeType), roots)];
    }
    forall n | n in namespaces
      ensures namespaces[n] == Namespace(n, TypeOf(nodes + [node], n), RootsOf(nodes + [node], n))
    {
      RootsGrow(nodes, node, n);
    }
    RootsGrow(nodes, node, name);
  }

  lemma OneMoreNode(model: seq<GsnNode>, node: GsnNode)
    ensures WithId(model + [node]) == WithId(model) + if node.id == "" then [] else [node]
    ensures ModelErrors(model + [node]) == ModelErrors(model) + NodeErrors(node, |WithId(model)|)
  {
    assert (model + [node])[..|model|] == model;
  }

  lemma NodeMapGrows(nodes: seq<GsnNode>, nodeMap: map<string, nat>, node: GsnNode)
    requires IsNodeMap(nodes, nodeMap)
    ensures IsNodeMap(nodes + [node], nodeMap[node.id := |nodes|])
  {
  }

  datatype Assigned = Assigned(
    nodes: seq<GsnNode>, nodeMap: map<string, nat>,
    names: seq<string>, namespaces: map<string, Namespace>, errors: seq<GsnError>)

  /** The state of the first pass once it has seen these nodes. */
  ghost predicate Fits(model: seq<GsnNode>, a: Assigned) {
    && a.nodes == WithId(model) && a.errors == ModelErrors(model)
    && IsNodeMap(a.nodes, a.nodeMap) && NamespacesFit(a.nodes, a.names, a.namespaces)
  }

  method AssignNode(ghost model: seq<GsnNode>, a: Assigned, node: GsnNode) returns (r: Assigned)
    requires Fits(model, a)
    ensures Fits(model + [node], r)
  {
    OneMoreNode(model, node);
    if node.id == "" {
      assert a.nodes + [] == a.nodes;
      return a.(errors := a.errors + [MissingId(|a.nodes|)]);
    }
    var errors := CheckNode(node, |a.nodes|);
    var names, namespaces := AddToNamespace(a.nodes, node, |a.nodes|, a.names, a.namespaces);
    NodeMapGrows(a.nodes, a.nodeMap, node);
    r := Assigned(a.nodes + [node], a.nodeMap[node.id := |a.nodes|], names, namespaces, a.errors + errors);
  }

  method AssignNodes(model: seq<GsnNode>) returns (a: Assigned)
    ensures Fits(model, a)
  {
    a := Assigned([], map[], [], map[], []);
    ghost var seen := [];
    for i := 0 to |model|
      invariant |seen| == i && seen <= model && Fits(seen, a)
    {
      a := AssignNode(seen, a, model[i]);
      seen := seen + [model[i]];
    }
    assert seen == model;
  }
}
