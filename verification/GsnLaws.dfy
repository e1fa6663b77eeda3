/** What the forest of a GSN model guarantees, and when there is one. */
module GsnLaws {
  import opened GsnModel
  import opened GsnWalk
  import opened GsnForest

  // ----- Which steps the walk takes -----

  /** Node k is n, or is reached from n by relations that go down. */
  ghost predicate Below(gsn: Gsn, n: nat, k: nat)
    requires gsn.Valid() && n < |gsn.nodes|
    decreases gsn.Room(n)
  {
    k == n || exists path :: path in Relations(gsn.nodes[n]) && Emit(gsn, n, path).Child? &&
                             Below(gsn, Emit(gsn, n, path).child, k)
  }

  ghost predicate EmittedBy(gsn: Gsn, k: nat, e: Event) {
    k < |gsn.nodes| && (e == Enter(k) || exists path :: path in Relations(gsn.nodes[k]) && e == Emit(gsn, k, path))
  }

  lemma {:induction false} InRelations(gsn: Gsn, n: nat, paths: seq<string>, e: Event)
    requires gsn.Valid() && n < |gsn.nodes|
    ensures e in WalkRelations(gsn, n, paths) <==> exists path :: path in paths && e in Follow(gsn, n, path)
  {
    if paths == [] {
    } else {
      InRelations(gsn, n, paths[1..], e);
      if e in Follow(gsn, n, paths[0]) {
        assert paths[0] in paths;
      } else if e in WalkRelations(gsn, n, paths) {
        var path :| path in paths[1..] && e in Follow(gsn, n, path);
        assert path in paths;
      }
    }
  }

  lemma InFollow(gsn: Gsn, n: nat, path: string, e: Event)
    requires gsn.Valid() && n < |gsn.nodes|
    ensures e in Follow(gsn, n, path)
       <==> e == Emit(gsn, n, path) || (Emit(gsn, n, path).Child? && e in Walk(gsn, Emit(gsn, n, path).child))
  {
  }

  lemma {:induction false} StepsAreAskedFor(gsn: Gsn, n: nat, e: Event) returns (k: nat)
    requires gsn.Valid() && n < |gsn.nodes| && e in Walk(gsn, n)
    ensures Below(gsn, n, k) && EmittedBy(gsn, k, e)
    decreases gsn.Room(n)
  {
    if e == Enter(n) {
      return n;
    }
    InRelations(gsn, n, Relations(gsn.nodes[n]), e);
    var path :| path in Relations(gsn.nodes[n]) && e in Follow(gsn, n, path);
    InFollow(gsn, n, path, e);
    if e == Emit(gsn, n, path) {
      k := n;
    } else {
      k := StepsAreAskedFor(gsn, Emit(gsn, n, path).child, e);
    }
  }

  lemma {:induction false} StepsAreTaken(gsn: Gsn, n: nat, k: nat, e: Event)
    requires gsn.Valid() && n < |gsn.nodes| && Below(gsn, n, k) && EmittedBy(gsn, k, e)
    ensures e in Walk(gsn, n)
    decreases gsn.Room(n)
  {
    if e == Enter(n) {
      return;
    }
    var path: string;
    if k == n {
      path :| path in Relations(gsn.nodes[n]) && e == Emit(gsn, n, path);
    } else {
      path :| path in Relations(gsn.nodes[n]) && Emit(gsn, n, path).Child? && Below(gsn, Emit(gsn, n, path).child, k);
      StepsAreTaken(gsn, Emit(gsn, n, path).child, k, e);
    }
    InFollow(gsn, n, path, e);
    InRelations(gsn, n, Relations(gsn.nodes[n]), e);
  }

  /** The walk from n takes exactly the steps that the nodes below n ask for. */
  lemma WalkExactly(gsn: Gsn, n: nat, e: Event)
    requires gsn.Valid() && n < |gsn.nodes|
    ensures e in Walk(gsn, n) <==> exists k: nat :: Below(gsn, n, k) && EmittedBy(gsn, k, e)
  {
    if e in Walk(gsn, n) {
      var k := StepsAreAskedFor(gsn, n, e);
    }
    if k :| Below(gsn, n, k) && EmittedBy(gsn, k, e) {
      StepsAreTaken(gsn, n, k, e);
    }
  }

  lemma {:induction false} RootsExactly(gsn: Gsn, roots: seq<nat>, e: Event)
    requires gsn.Valid() && AllNodes(gsn, roots)
    ensures e in WalkRoots(gsn, roots) <==> exists i :: 0 <= i < |roots| && e in Walk(gsn, roots[i])
  {
    if roots == [] {
    } else {
      RootsExactly(gsn, roots[1..], e);
      if e in Walk(gsn, roots[0]) {
      } else if e in WalkRoots(gsn, roots) {
        var i :| 0 <= i < |roots[1..]| && e in Walk(gsn, roots[1..][i]);
        assert roots[i + 1] == roots[1..][i];
      }
      if i :| 0 <= i < |roots| && e in Walk(gsn, roots[i]) {
        assert i > 0 ==> roots[1..][i - 1] == roots[i];
      }
    }
  }

  lemma {:induction false} NamespacesExactly(gsn: Gsn, names: seq<string>, e: Event)
    requires gsn.Valid()
    ensures e in WalkAll(gsn, names) <==> exists name :: name in names && e in WalkNamespace(gsn, name)
  {
    if names == [] {
    } else {
      NamespacesExactly(gsn, names[1..], e);
      if e in WalkNamespace(gsn, names[0]) {
        assert names[0] in names;
      } else if e in WalkAll(gsn, names) {
        var name :| name in names[1..] && e in WalkNamespace(gsn, name);
        assert name in names;
      }
    }
  }

  /** Node k is a root of one of the namespaces, or below one. */
  ghost predicate Reached(gsn: Gsn, names: seq<string>, k: nat)
    requires gsn.Valid()
  {
    exists name, r :: name in names && r in RootsOf(gsn.nodes, name) && r < |gsn.nodes| && Below(gsn, r, k)
  }

  /** Every step of the whole walk is asked for by a node that is reached, and every one of those is
      taken. */
  lemma WholeWalkExactly(gsn: Gsn, names: seq<string>, e: Event)
    requires gsn.Valid() && !e.Unrooted?
    ensures e in WalkAll(gsn, names) <==> exists k: nat :: Reached(gsn, names, k) && EmittedBy(gsn, k, e)
  {
    NamespacesExactly(gsn, names, e);
    if e in WalkAll(gsn, names) {
      var name :| name in names && e in WalkNamespace(gsn, name);
      var roots := RootsOf(gsn.nodes, name);
      RootsInRange(gsn, name);
      RootsExactly(gsn, roots, e);
      var i :| 0 <= i < |roots| && e in Walk(gsn, roots[i]);
      WalkExactly(gsn, roots[i], e);
      var k :| Below(gsn, roots[i], k) && EmittedBy(gsn, k, e);
      assert roots[i] in roots;
      assert Reached(gsn, names, k);
    }
    if k :| Reached(gsn, names, k) && EmittedBy(gsn, k, e) {
      var name, r :| name in names && r in RootsOf(gsn.nodes, name) && r < |gsn.nodes| && Below(gsn, r, k);
      var roots := RootsOf(gsn.nodes, name);
      RootsInRange(gsn, name);
      var i :| 0 <= i < |roots| && roots[i] == r;
      WalkExactly(gsn, r, e);
      RootsExactly(gsn, roots, e);
      assert e in WalkNamespace(gsn, name);
    }
  }

  // ----- When there is a forest -----

  lemma {:induction false} ErrorsExactly(gsn: Gsn, log: seq<Event>)
    ensures ErrorsIn(gsn, log) == [] <==> forall e :: e in log ==> ErrorOf(gsn, e) == []
  {
    if log == [] {
    } else {
      var before, last := log[..|log| - 1], log[|log| - 1];
      ErrorsExactly(gsn, before);
      assert log == before + [last];
    }
  }

  /** Every namespace has a root, and what reached nodes relate to exists. */
  ghost predicate Complete(gsn: Gsn, names: seq<string>)
    requires gsn.Valid()
  {
    && (forall name :: name in names ==> RootsOf(gsn.nodes, name) != [])
    && (forall k: nat, path: string :: Reached(gsn, names, k) && k < |gsn.nodes| && path in Relations(gsn.nodes[k]) ==>
        path in gsn.nodeMap)
  }

  lemma NodesAreRooted(gsn: Gsn, n: nat, name: string)
    requires gsn.Valid() && n < |gsn.nodes|
    ensures Unrooted(name) !in Walk(gsn, n)
  {
    if Unrooted(name) in Walk(gsn, n) {
      var k := StepsAreAskedFor(gsn, n, Unrooted(name));
    }
  }

  lemma {:induction false} RootsAreRooted(gsn: Gsn, roots: seq<nat>, name: string)
    requires gsn.Valid() && AllNodes(gsn, roots)
    ensures Unrooted(name) !in WalkRoots(gsn, roots)
  {
    if roots == [] {
    } else {
      NodesAreRooted(gsn, roots[0], name);
      RootsAreRooted(gsn, roots[1..], name);
    }
  }

  lemma WalksAreRooted(gsn: Gsn, other: string, name: string)
    requires gsn.Valid()
    ensures Unrooted(name) in WalkNamespace(gsn, other) <==> other == name && RootsOf(gsn.nodes, name) == []
  {
    RootsInRange(gsn, other);
    RootsAreRooted(gsn, RootsOf(gsn.nodes, other), name);
  }

  lemma UnrootedExactly(gsn: Gsn, names: seq<string>, name: string)
    requires gsn.Valid()
    ensures Unrooted(name) in WalkAll(gsn, names) <==> name in names && RootsOf(gsn.nodes, name) == []
  {
    NamespacesExactly(gsn, names, Unrooted(name));
    forall other
      ensures Unrooted(name) in WalkNamespace(gsn, other) <==> other == name && RootsOf(gsn.nodes, name) == []
    {
      WalksAreRooted(gsn, other, name);
    }
  }

  lemma CompleteIsClean(gsn: Gsn, names: seq<string>, e: Event)
    requires gsn.Valid() && Complete(gsn, names) && e in WalkAll(gsn, names)
    ensures ErrorOf(gsn, e) == []
  {
    if e.Unrooted? {
      UnrootedExactly(gsn, names, e.namespace);
    } else {
      WholeWalkExactly(gsn, names, e);
    }
  }

  lemma GapIsReported(gsn: Gsn, names: seq<string>, k: nat, path: string)
    requires gsn.Valid() && Reached(gsn, names, k) && k < |gsn.nodes|
    requires path in Relations(gsn.nodes[k]) && path !in gsn.nodeMap
    ensures Missing(k, path) in WalkAll(gsn, names)
  {
    assert EmittedBy(gsn, k, Missing(k, path)) by {
      assert Missing(k, path) == Emit(gsn, k, path);
    }
    WholeWalkExactly(gsn, names, Missing(k, path));
  }

  lemma CleanIsComplete(gsn: Gsn, names: seq<string>)
    requires gsn.Valid() && forall e :: e in WalkAll(gsn, names) ==> ErrorOf(gsn, e) == []
    ensures Complete(gsn, names)
  {
    forall name | name in names ensures RootsOf(gsn.nodes, name) != [] {
      UnrootedExactly(gsn, names, name);
      assert ErrorOf(gsn, Unrooted(name)) != [];
    }
    forall k: nat, path: string | Reached(gsn, names, k) && k < |gsn.nodes| && path in Relations(gsn.nodes[k])
      ensures path in gsn.nodeMap
    {
      if path !in gsn.nodeMap {
        GapIsReported(gsn, names, k, path);
      }
    }
  }

  lemma WalkIsCleanExactly(gsn: Gsn, names: seq<string>)
    requires gsn.Valid()
    ensures ErrorsIn(gsn, WalkAll(gsn, names)) == [] <==> Complete(gsn, names)
  {
    ErrorsExactly(gsn, WalkAll(gsn, names));
    if ErrorsIn(gsn, WalkAll(gsn, names)) == [] {
      CleanIsComplete(gsn, names);
    }
    if Complete(gsn, names) {
      forall e | e in WalkAll(gsn, names) ensures ErrorOf(gsn, e) == [] {
        CompleteIsClean(gsn, names, e);
      }
    }
  }

  /** There is a forest exactly when every node is sound, every namespace has a root, every relation of
      a reached node exists, and no loop is found among those relations. */
  lemma ForestExactly(model: seq<GsnNode>, a: Assigned, hasLoops: Edges -> bool)
    requires Fits(model, a)
    ensures Outcome(a, hasLoops).Ok?
       <==> var gsn := Gsn(a.nodes, a.nodeMap);
            AllSound(model) && Complete(gsn, a.names) && !hasLoops(EdgesIn(gsn, WalkAll(gsn, a.names)))
  {
    NoModelErrors(model);
    WalkIsCleanExactly(Gsn(a.nodes, a.nodeMap), a.names);
  }

  lemma {:induction false} EdgesExactly(gsn: Gsn, log: seq<Event>, edge: (string, string))
    ensures edge in EdgesIn(gsn, log) <==> exists e :: e in log && edge in EdgeOf(gsn, e)
  {
    if log == [] {
    } else {
      var before, last := log[..|log| - 1], log[|log| - 1];
      EdgesExactly(gsn, before, edge);
      assert log == before + [last];
      if edge in EdgesIn(gsn, before) {
        var e :| e in before && edge in EdgeOf(gsn, e);
        assert e in log;
      } else if edge in EdgeOf(gsn, last) {
        assert last in log;
      }
    }
  }

  /** The relations of the nodes that are reached. */
  ghost predicate IsRelation(gsn: Gsn, names: seq<string>, a: string, b: string)
    requires gsn.Valid()
  {
    exists k: nat ::
      && Reached(gsn, names, k) && k < |gsn.nodes| && gsn.Path(k) == a
      && b in Relations(gsn.nodes[k]) && b in gsn.nodeMap
  }

  lemma EmittedEdge(gsn: Gsn, k: nat, path: string, a: string, b: string)
    requires gsn.Valid() && k < |gsn.nodes|
    ensures (a, b) in EdgeOf(gsn, Emit(gsn, k, path)) <==> path in gsn.nodeMap && a == gsn.Path(k) && b == path
  {
    if path in gsn.nodeMap {
      assert gsn.nodeMap[path] < |gsn.nodes| && gsn.Path(gsn.nodeMap[path]) == path;
    }
  }

  lemma EdgeComesFromRelation(gsn: Gsn, names: seq<string>, a: string, b: string, e: Event)
    requires gsn.Valid() && e in WalkAll(gsn, names) && (a, b) in EdgeOf(gsn, e)
    ensures IsRelation(gsn, names, a, b)
  {
    WholeWalkExactly(gsn, names, e);
    var k: nat :| Reached(gsn, names, k) && EmittedBy(gsn, k, e);
    assert !e.Enter?;
    var path :| path in Relations(gsn.nodes[k]) && e == Emit(gsn, k, path);
    EmittedEdge(gsn, k, path, a, b);
  }

  lemma RelationMakesEdge(gsn: Gsn, names: seq<string>, k: nat, b: string)
    requires gsn.Valid() && Reached(gsn, names, k) && k < |gsn.nodes|
    requires b in Relations(gsn.nodes[k]) && b in gsn.nodeMap
    ensures Emit(gsn, k, b) in WalkAll(gsn, names) && (gsn.Path(k), b) in EdgeOf(gsn, Emit(gsn, k, b))
  {
    assert EmittedBy(gsn, k, Emit(gsn, k, b));
    WholeWalkExactly(gsn, names, Emit(gsn, k, b));
    EmittedEdge(gsn, k, b, gsn.Path(k), b);
  }

  /** The loops are searched for among exactly those relations. */
  lemma LoopsAreAmongRelations(gsn: Gsn, names: seq<string>, a: string, b: string)
    requires gsn.Valid()
    ensures (a, b) in EdgesIn(gsn, WalkAll(gsn, names)) <==> IsRelation(gsn, names, a, b)
  {
    EdgesExactly(gsn, WalkAll(gsn, names), (a, b));
    if e :| e in WalkAll(gsn, names) && (a, b) in EdgeOf(gsn, e) {
      EdgeComesFromRelation(gsn, names, a, b, e);
    }
    if IsRelation(gsn, names, a, b) {
      var k: nat :|
        && Reached(gsn, names, k) && k < |gsn.nodes| && gsn.Path(k) == a
        && b in Relations(gsn.nodes[k]) && b in gsn.nodeMap;
      RelationMakesEdge(gsn, names, k, b);
    }
  }

  // ----- Cycles -----

  lemma {:induction false} ChildrenInLog(log: seq<Event>, n: nat, c: nat)
    ensures c in ChildrenIn(log, n) <==> Child(n, c) in log
  {
    if log == [] {
    } else {
      var before, last := log[..|log| - 1], log[|log| - 1];
      ChildrenInLog(before, n, c);
      assert log == before + [last];
    }
  }

  lemma {:induction false} RefsInLog(gsn: Gsn, log: seq<Event>, n: nat, r: Ref)
    ensures r in RefsIn(gsn, log, n) <==>
              exists t: nat :: t < |gsn.nodes| && Reference(n, t) in log && r == Ref(gsn.nodes[t].nodeType, gsn.Path(t))
  {
    if log == [] {
    } else {
      var before, last := log[..|log| - 1], log[|log| - 1];
      RefsInLog(gsn, before, n, r);
      assert log == before + [last];
    }
  }

  /** Child edges lead to longer paths, whatever the relations say. */
  lemma ChildrenGoDown(gsn: Gsn, names: seq<string>, n: nat, c: nat)
    requires gsn.Valid() && n < |gsn.nodes| && c in AllChildren(gsn, WalkAll(gsn, names))[n]
    ensures c < |gsn.nodes| && IsChildPath(gsn.Path(c), gsn.Path(n)) && gsn.nodeMap[gsn.Path(c)] == c
  {
    var log := WalkAll(gsn, names);
    ChildrenInLog(log, n, c);
    WholeWalkExactly(gsn, names, Child(n, c));
  }

  /** So child edges alone never make a cycle. */
  lemma {:induction false} ChildEdgesNeverCycle(gsn: Gsn, names: seq<string>, p: seq<nat>)
    requires gsn.Valid() && |p| >= 2 && forall i :: 0 <= i < |p| ==> p[i] < |gsn.nodes|
    requires forall i :: 0 <= i < |p| - 1 ==> p[i + 1] in AllChildren(gsn, WalkAll(gsn, names))[p[i]]
    ensures |gsn.Path(p[0])| < |gsn.Path(p[|p| - 1])| && p[0] != p[|p| - 1]
  {
    ChildrenGoDown(gsn, names, p[0], p[1]);
    if |p| > 2 {
      ChildEdgesNeverCycle(gsn, names, p[1..]);
    }
  }

  ghost predicate ChildEdge(gsn: Gsn, log: seq<Event>, n: nat, b: string) {
    exists c :: c in ChildrenIn(log, n) && c < |gsn.nodes| && gsn.Path(c) == b
  }

  ghost predicate RefEdge(gsn: Gsn, log: seq<Event>, n: nat, b: string) {
    exists r :: r in RefsIn(gsn, log, n) && r.path == b
  }

  /** The edges of the forest through children and references, by paths. */
  ghost predicate ForestEdge(gsn: Gsn, log: seq<Event>, a: string, b: string) {
    exists n: nat :: n < |gsn.nodes| && gsn.Path(n) == a && (ChildEdge(gsn, log, n, b) || RefEdge(gsn, log, n, b))
  }

  lemma ForestEdgesAreSearched(gsn: Gsn, log: seq<Event>, a: string, b: string)
    requires ForestEdge(gsn, log, a, b)
    ensures (a, b) in EdgesIn(gsn, log)
  {
    var n: nat :| n < |gsn.nodes| && gsn.Path(n) == a && (ChildEdge(gsn, log, n, b) || RefEdge(gsn, log, n, b));
    if ChildEdge(gsn, log, n, b) {
      var c :| c in ChildrenIn(log, n) && c < |gsn.nodes| && gsn.Path(c) == b;
      ChildrenInLog(log, n, c);
      assert (a, b) in EdgeOf(gsn, Child(n, c));
    } else {
      var r :| r in RefsIn(gsn, log, n) && r.path == b;
      RefsInLog(gsn, log, n, r);
      var t: nat :| t < |gsn.nodes| && Reference(n, t) in log && r == Ref(gsn.nodes[t].nodeType, gsn.Path(t));
      assert (a, b) in EdgeOf(gsn, Reference(n, t));
    }
    EdgesExactly(gsn, log, (a, b));
  }

  lemma PathReaches(edges: Edges, p: seq<string>, i: nat, j: nat)
    requires IsPath(edges, p) && i <= j < |p|
    ensures Reaches(edges, p[i], p[j])
  {
    var q := p[i..j + 1];
    assert IsPath(edges, q) && q[0] == p[i] && q[|q| - 1] == p[j];
  }

  /** A forest has no cycle of two nodes or more through children and references. */
  lemma ForestHasNoCycle(a: Assigned, hasLoops: Edges -> bool, p: seq<string>, i: nat)
    requires FindsLoops(hasLoops) && IsNodeMap(a.nodes, a.nodeMap) && Outcome(a, hasLoops).Ok?
    requires i < |p| && p[0] == p[|p| - 1]
    requires var gsn := Gsn(a.nodes, a.nodeMap);
             forall j :: 0 <= j < |p| - 1 ==> ForestEdge(gsn, WalkAll(gsn, a.names), p[j], p[j + 1])
    ensures p[i] == p[0]
  {
    var gsn := Gsn(a.nodes, a.nodeMap);
    var edges := EdgesIn(gsn, WalkAll(gsn, a.names));
    forall j | 0 <= j < |p| - 1 ensures (p[j], p[j + 1]) in edges {
      ForestEdgesAreSearched(gsn, WalkAll(gsn, a.names), p[j], p[j + 1]);
    }
    PathReaches(edges, p, 0, i);
    PathReaches(edges, p, i, |p| - 1);
  }
}
