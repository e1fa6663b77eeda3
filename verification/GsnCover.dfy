/** In a model where every node is listed once by its parent, every node finds its place in the forest
    exactly once. */
module GsnCover {
  import opened Sequences
  import opened Text
  import opened GsnModel
  import opened GsnWalk
  import opened GsnForest
  import opened GsnLaws

  // ----- Paths -----

  predicate AtOrUnder(path: string, top: string) { top + "/" <= path + "/" }

  predicate IsParentPath(parent: string, path: string) {
    |parent| < |path| && parent + "/" <= path && '/' !in path[|parent| + 1..]
  }

  lemma {:induction false} SplitCounts(s: string, c: char)
    ensures |Split(s, [c])| == Count(s, c) + 1
    decreases |s|
  {
    if c in s {
      var head, rest := FirstOccurrence(s, c);
      SplitAtFirst(head, c, rest);
      SplitCounts(rest, c);
      CountAppend(head + [c], rest, c);
      CountAppend(head, [c], c);
      CountPositive(head, c);
    } else {
      SplitWhole(s, c);
      CountPositive(s, c);
    }
  }

  /** Two paths of the same depth over one path are the same. */
  lemma SameDepthSameTop(path: string, a: string, b: string)
    requires AtOrUnder(path, a) && AtOrUnder(path, b) && Count(a, '/') == Count(b, '/')
    ensures a == b
  {
    if |a| < |b| {
      DeeperTop(path, a, b);
    } else if |b| < |a| {
      DeeperTop(path, b, a);
    } else {
      assert a == (path + "/")[..|a|] == b;
    }
  }

  lemma DeeperTop(path: string, a: string, b: string)
    requires AtOrUnder(path, a) && AtOrUnder(path, b) && |a| < |b|
    ensures Count(a, '/') < Count(b, '/')
  {
    var rest := b[|a| + 1..];
    assert a + "/" == (path + "/")[..|a| + 1] && b == (path + "/")[..|b|];
    assert b == a + "/" + rest;
    CountAppend(a + "/", rest, '/');
    CountAppend(a, "/", '/');
  }

  lemma ParentDepth(parent: string, path: string)
    requires IsParentPath(parent, path)
    ensures Count(path, '/') == Count(parent, '/') + 1 && AtOrUnder(path, parent)
  {
    var name := path[|parent| + 1..];
    assert path == parent + "/" + name;
    CountAppend(parent + "/", name, '/');
    CountAppend(parent, "/", '/');
    CountPositive(name, '/');
    assert parent + "/" <= path + "/";
  }

  /** A path under top whose parent is p: p is top or under it. */
  lemma ParentIsAtOrUnder(top: string, p: string, path: string)
    requires IsParentPath(p, path) && IsChildPath(path, top)
    ensures AtOrUnder(p, top)
  {
    assert path[|top|] == (top + "/")[|top|] == '/';
    assert |top| <= |p|;
    assert top + "/" == path[..|top| + 1] && p + "/" == path[..|p| + 1];
  }

  // ----- Models in which every node has its place -----

  ghost predicate UniqueIds(gsn: Gsn)
    requires gsn.Valid()
  {
    forall i: nat :: i < |gsn.nodes| ==> gsn.nodeMap[gsn.Path(i)] == i
  }

  ghost predicate IsParent(gsn: Gsn, p: nat, k: nat) {
    p < |gsn.nodes| && k < |gsn.nodes| && IsParentPath(gsn.Path(p), gsn.Path(k))
  }

  /** The parent lists the node once, and no other node above it lists it at all. Nodes elsewhere may
      refer to it. */
  ghost predicate Placed(gsn: Gsn, k: nat)
    requires k < |gsn.nodes|
  {
    && (exists p: nat :: IsParent(gsn, p, k) && Count(Relations(gsn.nodes[p]), gsn.Path(k)) == 1)
    && (forall q: nat ::
          q < |gsn.nodes| && IsChildPath(gsn.Path(k), gsn.Path(q)) && gsn.Path(k) in Relations(gsn.nodes[q]) ==>
          IsParent(gsn, q, k))
  }

  ghost predicate Tidy(gsn: Gsn) {
    && gsn.Valid() && UniqueIds(gsn)
    && (forall k: nat :: k < |gsn.nodes| ==> Count(gsn.Path(k), '/') >= 1)
    && (forall k: nat :: k < |gsn.nodes| && Count(gsn.Path(k), '/') > 1 ==> Placed(gsn, k))
  }

  predicate InTree(gsn: Gsn, n: nat, k: nat) {
    n < |gsn.nodes| && k < |gsn.nodes| && AtOrUnder(gsn.Path(k), gsn.Path(n))
  }

  lemma UnderIsDeeper(path: string, top: string)
    requires IsChildPath(path, top)
    ensures Count(path, '/') > Count(top, '/')
  {
    var rest := path[|top| + 1..];
    assert path == top + "/" + rest;
    CountAppend(top + "/", rest, '/');
    CountAppend(top, "/", '/');
  }

  lemma ParentOf(gsn: Gsn, n: nat, k: nat) returns (p: nat)
    requires Tidy(gsn) && n < |gsn.nodes| && k < |gsn.nodes| && IsChildPath(gsn.Path(k), gsn.Path(n))
    ensures IsParent(gsn, p, k) && Count(Relations(gsn.nodes[p]), gsn.Path(k)) == 1
    ensures p == n || IsChildPath(gsn.Path(p), gsn.Path(n))
  {
    UnderIsDeeper(gsn.Path(k), gsn.Path(n));
    assert Placed(gsn, k);
    p :| IsParent(gsn, p, k) && Count(Relations(gsn.nodes[p]), gsn.Path(k)) == 1;
    ParentIsAtOrUnder(gsn.Path(n), gsn.Path(p), gsn.Path(k));
    AtIsNotUnder(gsn.Path(p), gsn.Path(n));
    if gsn.Path(p) == gsn.Path(n) {
      assert gsn.nodeMap[gsn.Path(p)] == p && gsn.nodeMap[gsn.Path(n)] == n;
    }
  }

  lemma AtIsNotUnder(path: string, top: string)
    ensures AtOrUnder(path, top) <==> path == top || IsChildPath(path, top)
  {
    if AtOrUnder(path, top) {
      assert top == (path + "/")[..|top|];
      if |top| == |path| {
        assert path == (path + "/")[..|path|];
      } else {
        assert (path + "/")[..|top| + 1] == path[..|top| + 1];
      }
    }
    if IsChildPath(path, top) {
      assert path[..|top| + 1] == (path + "/")[..|top| + 1];
    }
  }

  /** On the way from n down to k there is exactly one child of n. */
  lemma {:induction false} WayDown(gsn: Gsn, n: nat, k: nat) returns (c: nat)
    requires Tidy(gsn) && n < |gsn.nodes| && k < |gsn.nodes| && IsChildPath(gsn.Path(k), gsn.Path(n))
    ensures IsParent(gsn, n, c) && InTree(gsn, c, k)
    ensures Count(Relations(gsn.nodes[n]), gsn.Path(c)) == 1
    decreases |gsn.Path(k)|
  {
    var p := ParentOf(gsn, n, k);
    if p == n {
      c := k;
    } else {
      c := WayDown(gsn, n, p);
      AtOrUnderUp(gsn.Path(k), gsn.Path(p), gsn.Path(c));
    }
  }

  lemma AtOrUnderUp(path: string, p: string, top: string)
    requires p + "/" <= path && AtOrUnder(p, top)
    ensures AtOrUnder(path, top)
  {
    assert top + "/" <= p + "/" <= path <= path + "/";
  }

  // ----- What each node does -----

  predicate Owns(e: Event, k: nat) { !e.Unrooted? && e.owner == k }

  /** The steps that the walk takes at node k. */
  function Owned(log: seq<Event>, k: nat): seq<Event> {
    if log == [] then [] else
    (if Owns(log[0], k) then [log[0]] else []) + Owned(log[1..], k)
  }

  lemma {:induction false} OwnedAppend(a: seq<Event>, b: seq<Event>, k: nat)
    ensures Owned(a + b, k) == Owned(a, k) + Owned(b, k)
    decreases |a|
  {
    if a == [] {
      assert a + b == b;
    } else {
      assert (a + b)[1..] == a[1..] + b;
      OwnedAppend(a[1..], b, k);
      Regroup(if Owns(a[0], k) then [a[0]] else [], Owned(a[1..], k), Owned(b, k));
    }
  }

  lemma {:induction false} OwnedNone(log: seq<Event>, k: nat)
    requires forall e :: e in log ==> !Owns(e, k)
    ensures Owned(log, k) == []
  {
    if log == [] {
    } else {
      OwnedNone(log[1..], k);
    }
  }

  function StepsAlong(gsn: Gsn, k: nat, paths: seq<string>): seq<Event>
    requires k < |gsn.nodes|
  {
    if paths == [] then [] else [Emit(gsn, k, paths[0])] + StepsAlong(gsn, k, paths[1..])
  }

  /** Node k is entered once and then follows each of its relations once, in order. */
  function Steps(gsn: Gsn, k: nat): seq<Event>
    requires k < |gsn.nodes|
  {
    [Enter(k)] + StepsAlong(gsn, k, Relations(gsn.nodes[k]))
  }

  lemma {:induction false} BelowIsInTree(gsn: Gsn, n: nat, k: nat)
    requires gsn.Valid() && n < |gsn.nodes| && k < |gsn.nodes| && Below(gsn, n, k)
    ensures InTree(gsn, n, k)
    decreases gsn.Room(n)
  {
    if k != n {
      var path :| path in Relations(gsn.nodes[n]) && Emit(gsn, n, path).Child?
          && Below(gsn, Emit(gsn, n, path).child, k);
      var c := Emit(gsn, n, path).child;
      BelowIsInTree(gsn, c, k);
      TopOfTop(gsn.Path(k), gsn.Path(c), gsn.Path(n));
    }
  }

  lemma TopOfTop(path: string, p: string, top: string)
    requires AtOrUnder(path, p) && IsChildPath(p, top)
    ensures AtOrUnder(path, top)
  {
    assert top + "/" <= p <= p + "/" <= path + "/";
  }

  /** The walk from n does nothing at nodes outside its tree. */
  lemma WalkStaysInTree(gsn: Gsn, n: nat, k: nat)
    requires gsn.Valid() && n < |gsn.nodes| && k < |gsn.nodes| && !InTree(gsn, n, k)
    ensures Owned(Walk(gsn, n), k) == []
  {
    forall e | e in Walk(gsn, n) ensures !Owns(e, k) {
      var j := StepsAreAskedFor(gsn, n, e);
      BelowIsInTree(gsn, n, j);
    }
    OwnedNone(Walk(gsn, n), k);
  }

  lemma ChildIsOutside(gsn: Gsn, n: nat, c: nat)
    requires n < |gsn.nodes| && c < |gsn.nodes| && IsChildPath(gsn.Path(c), gsn.Path(n))
    ensures !InTree(gsn, c, n)
  {
  }

  lemma {:induction false} OwnRelations(gsn: Gsn, n: nat, paths: seq<string>)
    requires gsn.Valid() && n < |gsn.nodes|
    ensures Owned(WalkRelations(gsn, n, paths), n) == StepsAlong(gsn, n, paths)
  {
    if paths == [] {
    } else {
      var e := Emit(gsn, n, paths[0]);
      OwnRelations(gsn, n, paths[1..]);
      OwnedAppend(Follow(gsn, n, paths[0]), WalkRelations(gsn, n, paths[1..]), n);
      if e.Child? {
        ChildIsOutside(gsn, n, e.child);
        WalkStaysInTree(gsn, e.child, n);
      }
      assert Owned(Follow(gsn, n, paths[0]), n) == [e];
    }
  }

  lemma RepeatMore<T>(first: seq<T>, s: seq<T>, n: nat, hit: bool)
    requires first == if hit then s else []
    ensures first + Repeat(s, n) == Repeat(s, n + if hit then 1 else 0)
  {
  }

  /** One part more in front of what was put together of s so far. */
  lemma RepeatStep<T>(whole: seq<T>, first: seq<T>, rest: seq<T>, s: seq<T>, n: nat, hit: bool, m: nat)
    requires whole == first + rest && rest == Repeat(s, n)
    requires first == (if hit then s else []) && m == n + if hit then 1 else 0
    ensures whole == Repeat(s, m)
  {
    RepeatMore(first, s, n, hit);
  }

  lemma RepeatOnce<T>(s: seq<T>)
    ensures Repeat(s, 1) == s && Repeat(s, 0) == []
  {
  }

  /** If one relation of n leads to k and no other does, k does what it does below that one. */
  lemma {:induction false} OneRelationLeads(gsn: Gsn, n: nat, paths: seq<string>, k: nat, target: string, s: seq<Event>)
    requires gsn.Valid() && n < |gsn.nodes|
    requires forall i :: 0 <= i < |paths| ==> Owned(Follow(gsn, n, paths[i]), k) == if paths[i] == target then s else []
    ensures Owned(WalkRelations(gsn, n, paths), k) == Repeat(s, Count(paths, target))
  {
    if paths == [] {
    } else {
      var path, rest := paths[0], paths[1..];
      OwnedAppend(Follow(gsn, n, path), WalkRelations(gsn, n, rest), k);
      OneRelationLeads(gsn, n, rest, k, target, s);
      RepeatMore(Owned(Follow(gsn, n, path), k), s, Count(rest, target), path == target);
      assert Count(paths, target) == Count(rest, target) + if path == target then 1 else 0;
      assert WalkRelations(gsn, n, paths) == Follow(gsn, n, path) + WalkRelations(gsn, n, rest);
    }
  }

  // ----- Every node once -----

  lemma RelationLeads(gsn: Gsn, n: nat, path: string, k: nat, c: nat)
    requires Tidy(gsn) && n < |gsn.nodes| && k < |gsn.nodes| && k != n && path in Relations(gsn.nodes[n])
    requires IsParent(gsn, n, c) && InTree(gsn, c, k)
    requires Owned(Walk(gsn, c), k) == Steps(gsn, k)
    ensures Owned(Follow(gsn, n, path), k) == if path == gsn.Path(c) then Steps(gsn, k) else []
  {
    var e := Emit(gsn, n, path);
    if path == gsn.Path(c) {
      assert gsn.nodeMap[path] == c && e == Child(n, c);
      OwnedAppend([e], Walk(gsn, c), k);
      assert Owned([e], k) == [];
    } else if e.Child? {
      OtherChildIsElsewhere(gsn, n, e.child, c, k);
      WalkStaysInTree(gsn, e.child, k);
      OwnedAppend([e], Walk(gsn, e.child), k);
      assert Owned([e], k) == [];
    }
  }

  /** A listed child other than the one on the way to k does not have k in its tree. */
  lemma OtherChildIsElsewhere(gsn: Gsn, n: nat, d: nat, c: nat, k: nat)
    requires Tidy(gsn) && n < |gsn.nodes| && d < |gsn.nodes| && gsn.Path(d) in Relations(gsn.nodes[n])
    requires IsChildPath(gsn.Path(d), gsn.Path(n)) && IsParent(gsn, n, c) && InTree(gsn, c, k)
    requires gsn.Path(d) != gsn.Path(c)
    ensures !InTree(gsn, d, k)
  {
    UnderIsDeeper(gsn.Path(d), gsn.Path(n));
    assert Placed(gsn, d);
    ParentDepth(gsn.Path(n), gsn.Path(d));
    ParentDepth(gsn.Path(n), gsn.Path(c));
    if InTree(gsn, d, k) {
      SameDepthSameTop(gsn.Path(k), gsn.Path(d), gsn.Path(c));
    }
  }

  lemma {:induction false} WalkOwns(gsn: Gsn, n: nat, k: nat)
    requires Tidy(gsn) && InTree(gsn, n, k)
    ensures Owned(Walk(gsn, n), k) == Steps(gsn, k)
    decreases gsn.Room(n)
  {
    var paths := Relations(gsn.nodes[n]);
    OwnedAppend([Enter(n)], WalkRelations(gsn, n, paths), k);
    if k == n {
      OwnRelations(gsn, n, paths);
    } else {
      AtIsNotUnder(gsn.Path(k), gsn.Path(n));
      assert gsn.nodeMap[gsn.Path(k)] == k && gsn.nodeMap[gsn.Path(n)] == n;
      var c := WayDown(gsn, n, k);
      WalkOwns(gsn, c, k);
      forall i | 0 <= i < |paths|
        ensures Owned(Follow(gsn, n, paths[i]), k) == if paths[i] == gsn.Path(c) then Steps(gsn, k) else []
      {
        RelationLeads(gsn, n, paths[i], k, c);
      }
      OneRelationLeads(gsn, n, paths, k, gsn.Path(c), Steps(gsn, k));
      assert Repeat(Steps(gsn, k), 1) == Steps(gsn, k);
    }
  }

  lemma {:induction false} RootAbove(gsn: Gsn, k: nat) returns (r: nat)
    requires Tidy(gsn) && k < |gsn.nodes|
    ensures InTree(gsn, r, k) && Count(gsn.Path(r), '/') == 1
    decreases |gsn.Path(k)|
  {
    if Count(gsn.Path(k), '/') == 1 {
      r := k;
    } else {
      assert Placed(gsn, k);
      var p: nat :| IsParent(gsn, p, k);
      r := RootAbove(gsn, p);
      AtOrUnderUp(gsn.Path(k), gsn.Path(p), gsn.Path(r));
    }
  }

  lemma RootIsShallow(id: string)
    ensures IsRoot(id) <==> Count(id, '/') == 1
  {
    SplitCounts(id, '/');
  }

  lemma RootLeads(gsn: Gsn, root: nat, k: nat, r: nat)
    requires Tidy(gsn) && InTree(gsn, r, k) && Count(gsn.Path(r), '/') == 1
    requires root < |gsn.nodes| && Count(gsn.Path(root), '/') == 1
    ensures Owned(Walk(gsn, root), k) == if root == r then Steps(gsn, k) else []
  {
    if root == r {
      WalkOwns(gsn, r, k);
    } else {
      assert gsn.nodeMap[gsn.Path(root)] == root && gsn.nodeMap[gsn.Path(r)] == r;
      if InTree(gsn, root, k) {
        SameDepthSameTop(gsn.Path(k), gsn.Path(root), gsn.Path(r));
      }
      WalkStaysInTree(gsn, root, k);
    }
  }

  lemma OwnedOfRoots(gsn: Gsn, roots: seq<nat>, k: nat)
    requires gsn.Valid() && AllNodes(gsn, roots) && roots != []
    ensures Owned(WalkRoots(gsn, roots), k) == Owned(Walk(gsn, roots[0]), k) + Owned(WalkRoots(gsn, roots[1..]), k)
  {
    OwnedAppend(Walk(gsn, roots[0]), WalkRoots(gsn, roots[1..]), k);
  }

  /** Of these roots, r does s at k, and no other does anything there. */
  ghost predicate OneLeads(gsn: Gsn, roots: seq<nat>, k: nat, r: nat, s: seq<Event>)
    requires gsn.Valid() && AllNodes(gsn, roots)
  {
    forall i :: 0 <= i < |roots| ==> Owned(Walk(gsn, roots[i]), k) == if roots[i] == r then s else []
  }

  lemma OthersLead(gsn: Gsn, roots: seq<nat>, k: nat, r: nat, s: seq<Event>)
    requires gsn.Valid() && AllNodes(gsn, roots) && roots != [] && OneLeads(gsn, roots, k, r, s)
    ensures AllNodes(gsn, roots[1..]) && OneLeads(gsn, roots[1..], k, r, s)
    ensures Owned(Walk(gsn, roots[0]), k) == if roots[0] == r then s else []
  {
    assert forall i :: 0 <= i < |roots| - 1 ==> roots[1..][i] == roots[i + 1];
  }

  lemma CountOfFirst<T>(s: seq<T>, x: T)
    requires s != []
    ensures Count(s, x) == Count(s[1..], x) + if s[0] == x then 1 else 0
  {
  }

  lemma {:induction false} OneRootLeads(gsn: Gsn, roots: seq<nat>, k: nat, r: nat, s: seq<Event>)
    requires gsn.Valid() && AllNodes(gsn, roots) && OneLeads(gsn, roots, k, r, s)
    ensures Owned(WalkRoots(gsn, roots), k) == Repeat(s, Count(roots, r))
    decreases |roots|
  {
    if roots == [] {
    } else {
      OthersLead(gsn, roots, k, r, s);
      OneRootLeads(gsn, roots[1..], k, r, s);
      OwnedOfRoots(gsn, roots, k);
      CountOfFirst(roots, r);
      RepeatStep(Owned(WalkRoots(gsn, roots), k), Owned(Walk(gsn, roots[0]), k), Owned(WalkRoots(gsn, roots[1..]), k),
                 s, Count(roots[1..], r), roots[0] == r, Count(roots, r));
    }
  }

  lemma {:induction false} RootsOnce(nodes: seq<GsnNode>, name: string, r: nat)
    requires r < |nodes| && IsRoot(nodes[r].id)
    ensures Count(RootsOf(nodes, name), r) == if NamespaceOf(nodes[r].id) == name then 1 else 0
  {
    var last := |nodes| - 1;
    var before := RootsOf(nodes[..last], name);
    var more: seq<nat> := if NamespaceOf(nodes[last].id) == name && IsRoot(nodes[last].id) then [last] else [];
    assert RootsOf(nodes, name) == before + more;
    CountAppend(before, more, r);
    if r == last {
      RootsAreNodes(nodes[..last], name);
      CountPositive(before, r);
    } else {
      RootsOnce(nodes[..last], name, r);
    }
  }

  lemma RootsLead(gsn: Gsn, name: string, k: nat, r: nat)
    requires Tidy(gsn) && InTree(gsn, r, k) && Count(gsn.Path(r), '/') == 1
    requires AllNodes(gsn, RootsOf(gsn.nodes, name))
    ensures var roots := RootsOf(gsn.nodes, name);
            Owned(WalkRoots(gsn, roots), k) == Repeat(Steps(gsn, k), Count(roots, r))
  {
    var roots := RootsOf(gsn.nodes, name);
    forall i | 0 <= i < |roots| ensures Owned(Walk(gsn, roots[i]), k) == if roots[i] == r then Steps(gsn, k) else [] {
      assert roots[i] in roots;
      RootsAreNodes(gsn.nodes, name);
      RootIsShallow(gsn.Path(roots[i]));
      RootLeads(gsn, roots[i], k, r);
    }
    OneRootLeads(gsn, roots, k, r, Steps(gsn, k));
  }

  lemma NamespaceOwns(gsn: Gsn, name: string, k: nat, r: nat)
    requires Tidy(gsn) && InTree(gsn, r, k) && Count(gsn.Path(r), '/') == 1
    ensures Owned(WalkNamespace(gsn, name), k) == if name == NamespaceOf(gsn.Path(r)) then Steps(gsn, k) else []
  {
    var roots := RootsOf(gsn.nodes, name);
    RootIsShallow(gsn.Path(r));
    RootsInRange(gsn, name);
    RootsOnce(gsn.nodes, name, r);
    RootsLead(gsn, name, k, r);
    RepeatOnce(Steps(gsn, k));
    OwnedAppend(if roots == [] then [Unrooted(name)] else [], WalkRoots(gsn, roots), k);
    assert Owned([Unrooted(name)], k) == [];
  }

  lemma NamesLast(nodes: seq<GsnNode>, name: string)
    requires nodes != []
    ensures Count(Names(nodes), name) == Count(Names(nodes[..|nodes| - 1]), name) +
              if NamespaceOf(nodes[|nodes| - 1].id) == name && Count(Names(nodes[..|nodes| - 1]), name) == 0
              then 1 else 0
  {
    var before, own := nodes[..|nodes| - 1], NamespaceOf(nodes[|nodes| - 1].id);
    CountPositive(Names(before), own);
    CountAppend(Names(before), if own in Names(before) then [] else [own], name);
  }

  lemma {:induction false} NamesOnce(nodes: seq<GsnNode>, r: nat, name: string)
    ensures Count(Names(nodes), name) <= 1
    ensures r < |nodes| && NamespaceOf(nodes[r].id) == name ==> Count(Names(nodes), name) == 1
  {
    if nodes == [] {
    } else {
      NamesOnce(nodes[..|nodes| - 1], r, name);
      NamesLast(nodes, name);
    }
  }

  lemma OwnedOfNamespaces(gsn: Gsn, names: seq<string>, k: nat)
    requires gsn.Valid() && names != []
    ensures Owned(WalkAll(gsn, names), k)
         == Owned(WalkNamespace(gsn, names[0]), k) + Owned(WalkAll(gsn, names[1..]), k)
  {
    OwnedAppend(WalkNamespace(gsn, names[0]), WalkAll(gsn, names[1..]), k);
  }

  lemma {:induction false} OneNamespaceLeads(gsn: Gsn, names: seq<string>, k: nat, name: string, s: seq<Event>)
    requires gsn.Valid()
    requires forall i :: 0 <= i < |names| ==>
        Owned(WalkNamespace(gsn, names[i]), k) == if names[i] == name then s else []
    ensures Owned(WalkAll(gsn, names), k) == Repeat(s, Count(names, name))
    decreases |names|
  {
    if names == [] {
    } else {
      OwnedOfNamespaces(gsn, names, k);
      OneNamespaceLeads(gsn, names[1..], k, name, s);
      CountOfFirst(names, name);
      RepeatStep(Owned(WalkAll(gsn, names), k), Owned(WalkNamespace(gsn, names[0]), k),
                 Owned(WalkAll(gsn, names[1..]), k), s, Count(names[1..], name), names[0] == name, Count(names, name));
    }
  }

  /** In a tidy model the whole walk enters every node exactly once, and follows each of its relations
      exactly once. */
  lemma EveryNodeOnce(gsn: Gsn, k: nat)
    requires Tidy(gsn) && k < |gsn.nodes|
    ensures Owned(WalkAll(gsn, Names(gsn.nodes)), k) == Steps(gsn, k)
  {
    var names := Names(gsn.nodes);
    var r := RootAbove(gsn, k);
    var name := NamespaceOf(gsn.Path(r));
    forall i | 0 <= i < |names|
      ensures Owned(WalkNamespace(gsn, names[i]), k) == if names[i] == name then Steps(gsn, k) else []
    {
      NamespaceOwns(gsn, names[i], k, r);
    }
    OneNamespaceLeads(gsn, names, k, name, Steps(gsn, k));
    NamesOnce(gsn.nodes, r, name);
    RepeatOnce(Steps(gsn, k));
  }

  // ----- The finished forest -----

  lemma {:induction false} ChildrenAppend(a: seq<Event>, b: seq<Event>, k: nat)
    ensures ChildrenIn(a + b, k) == ChildrenIn(a, k) + ChildrenIn(b, k)
  {
    if b == [] {
      assert a + b == a;
    } else {
      assert (a + b)[..|a + b| - 1] == a + b[..|b| - 1];
      ChildrenAppend(a, b[..|b| - 1], k);
    }
  }

  lemma {:induction false} ChildrenOfOwned(log: seq<Event>, k: nat)
    ensures ChildrenIn(log, k) == ChildrenIn(Owned(log, k), k)
  {
    if log == [] {
    } else {
      var first, rest := [log[0]], log[1..];
      var own := if Owns(log[0], k) then first else [];
      ChildrenOfOwned(rest, k);
      assert log == first + rest;
      ChildrenAppend(first, rest, k);
      ChildrenAppend(own, Owned(rest, k), k);
      assert ChildrenIn(first, k) == ChildrenIn(own, k);
    }
  }

  function Enters(log: seq<Event>): seq<nat> {
    if log == [] then [] else
    (if log[0].Enter? then [log[0].owner] else []) + Enters(log[1..])
  }

  lemma {:induction false} EntersAppend(a: seq<Event>, b: seq<Event>)
    ensures Enters(a + b) == Enters(a) + Enters(b)
    decreases |a|
  {
    if a == [] {
      assert a + b == b;
    } else {
      assert (a + b)[1..] == a[1..] + b;
      EntersAppend(a[1..], b);
      Regroup(if a[0].Enter? then [a[0].owner] else [], Enters(a[1..]), Enters(b));
    }
  }

  lemma {:induction false} EntersOfOwned(log: seq<Event>, k: nat)
    ensures Count(Enters(log), k) == Count(Enters(Owned(log, k)), k)
  {
    if log == [] {
    } else {
      var first, rest := [log[0]], log[1..];
      var own := if Owns(log[0], k) then first else [];
      EntersOfOwned(rest, k);
      EntersAppend(own, Owned(rest, k));
      CountAppend(if log[0].Enter? then [log[0].owner] else [], Enters(rest), k);
      CountAppend(Enters(own), Enters(Owned(rest, k)), k);
    }
  }

  lemma {:induction false} StepsAlongEnterNothing(gsn: Gsn, k: nat, paths: seq<string>)
    requires k < |gsn.nodes|
    ensures Enters(StepsAlong(gsn, k, paths)) == []
  {
    if paths == [] {
    } else {
      StepsAlongEnterNothing(gsn, k, paths[1..]);
      EntersAppend([Emit(gsn, k, paths[0])], StepsAlong(gsn, k, paths[1..]));
    }
  }

  /** The children of a node in the finished forest are the ones that its own relations give. */
  lemma ChildrenOnce(gsn: Gsn, k: nat)
    requires Tidy(gsn) && k < |gsn.nodes|
    ensures ChildrenIn(WalkAll(gsn, Names(gsn.nodes)), k) == ChildrenIn(Steps(gsn, k), k)
  {
    ChildrenOfOwned(WalkAll(gsn, Names(gsn.nodes)), k);
    EveryNodeOnce(gsn, k);
  }

  /** Every node has one place in the forest. */
  lemma EnteredOnce(gsn: Gsn, k: nat)
    requires Tidy(gsn) && k < |gsn.nodes|
    ensures Count(Enters(WalkAll(gsn, Names(gsn.nodes))), k) == 1
  {
    EntersOfOwned(WalkAll(gsn, Names(gsn.nodes)), k);
    EveryNodeOnce(gsn, k);
    StepsAlongEnterNothing(gsn, k, Relations(gsn.nodes[k]));
    EntersAppend([Enter(k)], StepsAlong(gsn, k, Relations(gsn.nodes[k])));
  }

  lemma {:induction false} ListedChildren(gsn: Gsn, n: nat, paths: seq<string>, c: nat)
    requires gsn.Valid() && n < |gsn.nodes| && c in ChildrenIn(StepsAlong(gsn, n, paths), n)
    ensures c < |gsn.nodes| && gsn.Path(c) in paths && IsChildPath(gsn.Path(c), gsn.Path(n))
  {
    if paths == [] {
    } else {
      var e := Emit(gsn, n, paths[0]);
      ChildrenAppend([e], StepsAlong(gsn, n, paths[1..]), n);
      if c in ChildrenIn([e], n) {
        assert e.Child? && e.child == c;
      } else {
        ListedChildren(gsn, n, paths[1..], c);
      }
    }
  }

  /** In the forest of a tidy model every child sits under its parent. */
  lemma ChildrenSitUnderParents(gsn: Gsn, n: nat, c: nat)
    requires Tidy(gsn) && n < |gsn.nodes| && c in ChildrenIn(WalkAll(gsn, Names(gsn.nodes)), n)
    ensures IsParent(gsn, n, c)
  {
    var paths := Relations(gsn.nodes[n]);
    ChildrenOnce(gsn, n);
    ChildrenAppend([Enter(n)], StepsAlong(gsn, n, paths), n);
    ListedChildren(gsn, n, paths, c);
    UnderIsDeeper(gsn.Path(c), gsn.Path(n));
    assert Placed(gsn, c);
  }
}
