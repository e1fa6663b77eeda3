/** From a GSN model to its forest, or to the list of its errors. */
module GsnForest {
  import opened Refs
  import opened Sequences
  import opened GsnModel
  import opened GsnWalk

  // ----- The search for loops -----

  type Edges = set<(string, string)>

  ghost predicate IsPath(edges: Edges, p: seq<string>) {
    p != [] && forall i :: 0 <= i < |p| - 1 ==> (p[i], p[i + 1]) in edges
  }

  ghost predicate Reaches(edges: Edges, a: string, b: string) {
    exists p :: IsPath(edges, p) && p[0] == a && p[|p| - 1] == b
  }

  /** The contract of Tarjan's algorithm as it is used: it reports a strongly connected component of
      two vertices or more, if there is one. */
  ghost predicate FindsLoops(hasLoops: Edges -> bool) {
    forall edges :: hasLoops(edges) <==> exists a, b :: a != b && Reaches(edges, a, b) && Reaches(edges, b, a)
  }

  // ----- The whole walk -----

  predicate AllNodes(gsn: Gsn, roots: seq<nat>) {
    forall i :: 0 <= i < |roots| ==> roots[i] < |gsn.nodes|
  }

  lemma RootsInRange(gsn: Gsn, name: string)
    ensures AllNodes(gsn, RootsOf(gsn.nodes, name))
  {
    var roots := RootsOf(gsn.nodes, name);
    RootsAreNodes(gsn.nodes, name);
    assert forall i :: 0 <= i < |roots| ==> roots[i] in roots;
  }

  function WalkRoots(gsn: Gsn, roots: seq<nat>): seq<Event>
    requires gsn.Valid() && AllNodes(gsn, roots)
  {
    if roots == [] then [] else Walk(gsn, roots[0]) + WalkRoots(gsn, roots[1..])
  }

  function WalkNamespace(gsn: Gsn, name: string): seq<Event>
    requires gsn.Valid()
  {
    var roots := RootsOf(gsn.nodes, name);
    RootsInRange(gsn, name);
    (if roots == [] then [Unrooted(name)] else []) + WalkRoots(gsn, roots)
  }

  function WalkAll(gsn: Gsn, names: seq<string>): seq<Event>
    requires gsn.Valid()
  {
    if names == [] then [] else WalkNamespace(gsn, names[0]) + WalkAll(gsn, names[1..])
  }

  datatype Forest = Forest(
    gsn: Gsn, names: seq<string>, namespaces: map<string, Namespace>,
    children: seq<seq<nat>>, references: seq<seq<Ref>>)

  function Outcome(a: Assigned, hasLoops: Edges -> bool): Result<Forest, seq<GsnError>>
    requires IsNodeMap(a.nodes, a.nodeMap)
  {
    if a.errors != [] then Err(a.errors) else
    var gsn := Gsn(a.nodes, a.nodeMap);
    var log := WalkAll(gsn, a.names);
    var errors := ErrorsIn(gsn, log);
    if hasLoops(EdgesIn(gsn, log)) then Err([Loops] + errors)
    else if errors != [] then Err(errors)
    else Ok(Forest(gsn, a.names, a.namespaces, AllChildren(gsn, log), AllRefs(gsn, log)))
  }

  method TraverseRoots(t: Traversal, roots: seq<nat>)
    requires t.Valid() && AllNodes(t.gsn, roots)
    modifies t
    ensures t.Valid() && t.log == old(t.log) + WalkRoots(t.gsn, roots)
  {
    var rest: seq<nat> := roots;
    while rest != []
      invariant t.Valid() && AllNodes(t.gsn, rest)
      invariant t.log + WalkRoots(t.gsn, rest) == old(t.log) + WalkRoots(t.gsn, roots)
    {
      Regroup(t.log, Walk(t.gsn, rest[0]), WalkRoots(t.gsn, rest[1..]));
      t.TraverseRec(rest[0]);
      rest := rest[1..];
    }
  }

  method TraverseNamespace(t: Traversal, name: string, roots: seq<nat>)
    requires t.Valid() && roots == RootsOf(t.gsn.nodes, name)
    modifies t
    ensures t.Valid() && t.log == old(t.log) + WalkNamespace(t.gsn, name)
  {
    RootsInRange(t.gsn, name);
    Regroup(t.log, if roots == [] then [Unrooted(name)] else [], WalkRoots(t.gsn, roots));
    assert t.log + [] == t.log;
    if roots == [] {
      t.AddError(Unrooted(name));
    }
    TraverseRoots(t, roots);
  }

  method TraverseAll(t: Traversal, names: seq<string>, namespaces: map<string, Namespace>)
    requires t.Valid() && forall n :: n in names ==> n in namespaces && namespaces[n].roots == RootsOf(t.gsn.nodes, n)
    modifies t
    ensures t.Valid() && t.log == old(t.log) + WalkAll(t.gsn, names)
  {
    var rest := names;
    while rest != []
      invariant t.Valid() && forall n :: n in rest ==> n in namespaces && namespaces[n].roots == RootsOf(t.gsn.nodes, n)
      invariant t.log + WalkAll(t.gsn, rest) == old(t.log) + WalkAll(t.gsn, names)
    {
      Regroup(t.log, WalkNamespace(t.gsn, rest[0]), WalkAll(t.gsn, rest[1..]));
      TraverseNamespace(t, rest[0], namespaces[rest[0]].roots);
      rest := rest[1..];
    }
  }

  method PopulateNamespaces(model: seq<GsnNode>, hasLoops: Edges -> bool)
    returns (result: Result<Forest, seq<GsnError>>)
    ensures exists a :: Fits(model, a) && result == Outcome(a, hasLoops)
  {
    var pass := AssignNodes(model);
    if pass.errors != [] {
      return Err(pass.errors);
    }
    var t := new Traversal(Gsn(pass.nodes, pass.nodeMap));
    TraverseAll(t, pass.names, pass.namespaces);
    assert [] + WalkAll(t.gsn, pass.names) == WalkAll(t.gsn, pass.names);
    var errors := t.errors;
    if hasLoops(t.connections) {
      errors := [Loops] + errors;
    }
    if errors != [] {
      return Err(errors);
    }
    result := Ok(Forest(t.gsn, pass.names, pass.namespaces, t.children, t.references));
  }
}
