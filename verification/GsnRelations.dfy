/** The relations of a node, as they stand in the finished forest: those that go down are its children,
    the others its references, each as often and in the order in which they are followed. */
module GsnRelations {
  import opened Sequences
  import opened GsnModel
  import opened GsnWalk
  import opened GsnForest
  import opened GsnLaws
  import opened GsnCover

  // ----- References come from the node's own steps -----

  lemma {:induction false} RefsAppend(gsn: Gsn, a: seq<Event>, b: seq<Event>, k: nat)
    ensures RefsIn(gsn, a + b, k) == RefsIn(gsn, a, k) + RefsIn(gsn, b, k)
    decreases |b|
  {
    if b == [] {
      assert a + b == a;
    } else {
      var before, last := b[..|b| - 1], [b[|b| - 1]];
      assert a + b == (a + before) + last && (a + b)[..|a + b| - 1] == a + before;
      RefsAppend(gsn, a, before, k);
    }
  }

  lemma {:induction false} RefsOfOwned(gsn: Gsn, log: seq<Event>, k: nat)
    ensures RefsIn(gsn, log, k) == RefsIn(gsn, Owned(log, k), k)
    decreases |log|
  {
    if log == [] {
    } else {
      var first, rest := [log[0]], log[1..];
      var own := if Owns(log[0], k) then first else [];
      RefsOfOwned(gsn, rest, k);
      assert log == first + rest;
      RefsAppend(gsn, first, rest, k);
      RefsAppend(gsn, own, Owned(rest, k), k);
      assert RefsIn(gsn, first, k) == RefsIn(gsn, own, k);
    }
  }

  /** The references of a node in the finished forest are the ones that its own relations give. */
  lemma RefsOnce(gsn: Gsn, k: nat)
    requires Tidy(gsn) && k < |gsn.nodes|
    ensures RefsIn(gsn, WalkAll(gsn, Names(gsn.nodes)), k) == RefsIn(gsn, Steps(gsn, k), k)
  {
    RefsOfOwned(gsn, WalkAll(gsn, Names(gsn.nodes)), k);
    EveryNodeOnce(gsn, k);
  }

  // ----- Paths of children and references -----

  /** The paths that lie under the owner. */
  function Downward(paths: seq<string>, owner: string): seq<string> {
    if paths == [] then []
    else (if IsChildPath(paths[0], owner) then [paths[0]] else []) + Downward(paths[1..], owner)
  }

  /** The paths that do not. */
  function Sideways(paths: seq<string>, owner: string): seq<string> {
    if paths == [] then []
    else (if IsChildPath(paths[0], owner) then [] else [paths[0]]) + Sideways(paths[1..], owner)
  }

  lemma {:induction false} DownOrSideways(paths: seq<string>, owner: string, p: string)
    ensures Count(Downward(paths, owner), p) + Count(Sideways(paths, owner), p) == Count(paths, p)
  {
    if paths == [] {
    } else {
      var down, side := Downward(paths[1..], owner), Sideways(paths[1..], owner);
      DownOrSideways(paths[1..], owner, p);
      assert ([paths[0]] + down)[1..] == down && ([paths[0]] + side)[1..] == side;
      assert [] + down == down && [] + side == side;
    }
  }

  function NodePaths(gsn: Gsn, cs: seq<nat>): seq<string>
    requires AllNodes(gsn, cs)
  {
    seq(|cs|, i requires 0 <= i < |cs| => gsn.Path(cs[i]))
  }

  function RefPaths(refs: seq<Ref>): seq<string> {
    seq(|refs|, i requires 0 <= i < |refs| => refs[i].path)
  }

  /** The references to nodes at these paths. */
  function RefsTo(gsn: Gsn, paths: seq<string>): seq<Ref>
    requires gsn.Valid() && forall p :: p in paths ==> p in gsn.nodeMap
  {
    seq(|paths|, i requires 0 <= i < |paths| => Ref(gsn.nodes[gsn.nodeMap[paths[i]]].nodeType, paths[i]))
  }

  ghost predicate AllExist(gsn: Gsn, paths: seq<string>) { forall p :: p in paths ==> p in gsn.nodeMap }

  lemma {:induction false} SidewaysExist(gsn: Gsn, paths: seq<string>, owner: string)
    requires AllExist(gsn, paths)
    ensures AllExist(gsn, Sideways(paths, owner))
  {
    if paths == [] {
    } else {
      assert paths[0] in paths && forall p :: p in paths[1..] ==> p in paths;
      SidewaysExist(gsn, paths[1..], owner);
    }
  }

  lemma OneStep(gsn: Gsn, k: nat, path: string)
    requires gsn.Valid() && k < |gsn.nodes| && path in gsn.nodeMap
    ensures var e, down := Emit(gsn, k, path), IsChildPath(path, gsn.Path(k));
            && ChildrenIn([e], k) == (if down then [gsn.nodeMap[path]] else [])
            && RefsIn(gsn, [e], k) == (if down then [] else [Ref(gsn.nodes[gsn.nodeMap[path]].nodeType, path)])
  {
    var e := Emit(gsn, k, path);
    assert [e][..0] == [];
  }

  lemma NodePathsAppend(gsn: Gsn, a: seq<nat>, b: seq<nat>)
    requires AllNodes(gsn, a) && AllNodes(gsn, b)
    ensures AllNodes(gsn, a + b) && NodePaths(gsn, a + b) == NodePaths(gsn, a) + NodePaths(gsn, b)
  {
  }

  lemma RefsToFirst(gsn: Gsn, path: string, rest: seq<string>)
    requires gsn.Valid() && path in gsn.nodeMap && AllExist(gsn, rest)
    ensures AllExist(gsn, [path] + rest)
    ensures RefsTo(gsn, [path] + rest) == [Ref(gsn.nodes[gsn.nodeMap[path]].nodeType, path)] + RefsTo(gsn, rest)
  {
  }

  lemma FirstChildren(gsn: Gsn, k: nat, path: string, rest: seq<string>)
    requires gsn.Valid() && k < |gsn.nodes| && path in gsn.nodeMap
    ensures ChildrenIn(StepsAlong(gsn, k, [path] + rest), k)
         == (if IsChildPath(path, gsn.Path(k)) then [gsn.nodeMap[path]] else [])
             + ChildrenIn(StepsAlong(gsn, k, rest), k)
  {
    assert ([path] + rest)[1..] == rest;
    OneStep(gsn, k, path);
    ChildrenAppend([Emit(gsn, k, path)], StepsAlong(gsn, k, rest), k);
  }

  lemma FirstDownward(path: string, rest: seq<string>, owner: string)
    ensures Downward([path] + rest, owner) == (if IsChildPath(path, owner) then [path] else []) + Downward(rest, owner)
  {
    assert ([path] + rest)[1..] == rest;
  }

  lemma NodePathOf(gsn: Gsn, path: string, down: bool)
    requires gsn.Valid() && path in gsn.nodeMap
    ensures var cs := if down then [gsn.nodeMap[path]] else [];
            AllNodes(gsn, cs) && NodePaths(gsn, cs) == if down then [path] else []
  {
  }

  /** Step by step, relations that go down make children. */
  lemma {:induction false} ChildrenSplit(gsn: Gsn, k: nat, paths: seq<string>)
    requires gsn.Valid() && k < |gsn.nodes| && AllExist(gsn, paths)
    ensures AllNodes(gsn, ChildrenIn(StepsAlong(gsn, k, paths), k))
    ensures NodePaths(gsn, ChildrenIn(StepsAlong(gsn, k, paths), k)) == Downward(paths, gsn.Path(k))
    decreases |paths|
  {
    if paths == [] {
    } else {
      var path, rest := paths[0], paths[1..];
      var down := IsChildPath(path, gsn.Path(k));
      assert path in paths && forall p :: p in rest ==> p in paths;
      ChildrenSplit(gsn, k, rest);
      assert paths == [path] + rest;
      FirstChildren(gsn, k, path, rest);
      FirstDownward(path, rest, gsn.Path(k));
      NodePathOf(gsn, path, down);
      NodePathsAppend(gsn, if down then [gsn.nodeMap[path]] else [], ChildrenIn(StepsAlong(gsn, k, rest), k));
    }
  }

  /** And the others make references. */
  lemma {:induction false} RefsSplit(gsn: Gsn, k: nat, paths: seq<string>)
    requires gsn.Valid() && k < |gsn.nodes| && AllExist(gsn, paths)
    ensures AllExist(gsn, Sideways(paths, gsn.Path(k)))
    ensures RefsIn(gsn, StepsAlong(gsn, k, paths), k) == RefsTo(gsn, Sideways(paths, gsn.Path(k)))
    decreases |paths|
  {
    SidewaysExist(gsn, paths, gsn.Path(k));
    if paths == [] {
    } else {
      var e, steps := Emit(gsn, k, paths[0]), StepsAlong(gsn, k, paths[1..]);
      assert paths[0] in paths && forall p :: p in paths[1..] ==> p in paths;
      RefsSplit(gsn, k, paths[1..]);
      OneStep(gsn, k, paths[0]);
      RefsAppend(gsn, [e], steps, k);
      RefsToFirst(gsn, paths[0], Sideways(paths[1..], gsn.Path(k)));
    }
  }

  /** Entering a node makes neither. */
  lemma StepsOfNode(gsn: Gsn, k: nat)
    requires k < |gsn.nodes|
    ensures ChildrenIn(Steps(gsn, k), k) == ChildrenIn(StepsAlong(gsn, k, Relations(gsn.nodes[k])), k)
    ensures RefsIn(gsn, Steps(gsn, k), k) == RefsIn(gsn, StepsAlong(gsn, k, Relations(gsn.nodes[k])), k)
  {
    var first, rest := [Enter(k)], StepsAlong(gsn, k, Relations(gsn.nodes[k]));
    ChildrenAppend(first, rest, k);
    RefsAppend(gsn, first, rest, k);
    assert first[..0] == [] && ChildrenIn(first, k) == [] && RefsIn(gsn, first, k) == [];
  }

  /** In the finished forest of a tidy model, the children of a node are the nodes at its relations that go
      down, and its references lead to the others with the types of the nodes there: in sorted order, and
      each as often as it is listed. */
  lemma RelationsInForest(gsn: Gsn, k: nat)
    requires Tidy(gsn) && k < |gsn.nodes| && AllExist(gsn, Relations(gsn.nodes[k]))
    ensures var log, paths, own := WalkAll(gsn, Names(gsn.nodes)), Relations(gsn.nodes[k]), gsn.Path(k);
            && AllNodes(gsn, ChildrenIn(log, k)) && NodePaths(gsn, ChildrenIn(log, k)) == Downward(paths, own)
            && AllExist(gsn, Sideways(paths, own)) && RefsIn(gsn, log, k) == RefsTo(gsn, Sideways(paths, own))
  {
    ChildrenOnce(gsn, k);
    RefsOnce(gsn, k);
    StepsOfNode(gsn, k);
    ChildrenSplit(gsn, k, Relations(gsn.nodes[k]));
    RefsSplit(gsn, k, Relations(gsn.nodes[k]));
  }

  /** Whatever a node lists is found as often among its children and references together. */
  lemma EveryRelationCounted(gsn: Gsn, k: nat, p: string)
    requires Tidy(gsn) && k < |gsn.nodes| && AllExist(gsn, Relations(gsn.nodes[k]))
    requires AllNodes(gsn, ChildrenIn(WalkAll(gsn, Names(gsn.nodes)), k))
    ensures Count(NodePaths(gsn, ChildrenIn(WalkAll(gsn, Names(gsn.nodes)), k)), p)
            + Count(RefPaths(RefsIn(gsn, WalkAll(gsn, Names(gsn.nodes)), k)), p)
         == Count(OrNone(gsn.nodes[k].solvedBy) + OrNone(gsn.nodes[k].inContextOf), p)
  {
    var paths, own := Relations(gsn.nodes[k]), gsn.Path(k);
    RelationsInForest(gsn, k);
    assert RefPaths(RefsTo(gsn, Sideways(paths, own))) == Sideways(paths, own);
    DownOrSideways(paths, own, p);
    SortedSorts(OrNone(gsn.nodes[k].solvedBy) + OrNone(gsn.nodes[k].inContextOf), p);
  }

  /** In the forest of a tidy model the children of a node are all the nodes with its path as parent path. */
  lemma ChildrenAreAllBelow(gsn: Gsn, k: nat, c: nat)
    requires Tidy(gsn) && k < |gsn.nodes| && c < |gsn.nodes| && AllExist(gsn, Relations(gsn.nodes[k]))
    ensures c in ChildrenIn(WalkAll(gsn, Names(gsn.nodes)), k) <==> IsParent(gsn, k, c)
  {
    var cs, paths := ChildrenIn(WalkAll(gsn, Names(gsn.nodes)), k), Relations(gsn.nodes[k]);
    RelationsInForest(gsn, k);
    if c in cs {
      ChildrenSitUnderParents(gsn, k, c);
    }
    if IsParent(gsn, k, c) {
      ParentListsChild(gsn, k, c);
      DownOrSideways(paths, gsn.Path(k), gsn.Path(c));
      NotSideways(paths, gsn.Path(k), gsn.Path(c));
      CountPositive(paths, gsn.Path(c));
      CountPositive(NodePaths(gsn, cs), gsn.Path(c));
      var i :| 0 <= i < |cs| && gsn.Path(cs[i]) == gsn.Path(c);
      assert gsn.nodeMap[gsn.Path(cs[i])] == cs[i] && gsn.nodeMap[gsn.Path(c)] == c;
      assert cs[i] in cs;
    }
  }

  lemma {:induction false} NotSideways(paths: seq<string>, owner: string, p: string)
    requires IsChildPath(p, owner)
    ensures Count(Sideways(paths, owner), p) == 0
  {
    if paths == [] {
    } else {
      NotSideways(paths[1..], owner, p);
      assert ([paths[0]] + Sideways(paths[1..], owner))[1..] == Sideways(paths[1..], owner);
      assert [] + Sideways(paths[1..], owner) == Sideways(paths[1..], owner);
    }
  }

  lemma OneParentPath(a: string, b: string, path: string)
    requires IsParentPath(a, path) && IsParentPath(b, path) && |a| <= |b|
    ensures a == b
  {
    assert path[|b|] == (b + "/")[|b|] == '/';
    assert forall i :: |a| < i < |path| ==> path[|a| + 1..][i - |a| - 1] == path[i];
    assert a == (a + "/")[..|a|] == path[..|a|] && b == (b + "/")[..|b|] == path[..|b|];
  }

  lemma ParentListsChild(gsn: Gsn, k: nat, c: nat)
    requires Tidy(gsn) && IsParent(gsn, k, c)
    ensures gsn.Path(c) in Relations(gsn.nodes[k]) && IsChildPath(gsn.Path(c), gsn.Path(k))
  {
    assert IsChildPath(gsn.Path(c), gsn.Path(k));
    UnderIsDeeper(gsn.Path(c), gsn.Path(k));
    assert Placed(gsn, c);
    var p: nat :| IsParent(gsn, p, c) && Count(Relations(gsn.nodes[p]), gsn.Path(c)) == 1;
    if |gsn.Path(p)| <= |gsn.Path(k)| {
      OneParentPath(gsn.Path(p), gsn.Path(k), gsn.Path(c));
    } else {
      OneParentPath(gsn.Path(k), gsn.Path(p), gsn.Path(c));
    }
    assert gsn.nodeMap[gsn.Path(p)] == p && gsn.nodeMap[gsn.Path(k)] == k;
    CountPositive(Relations(gsn.nodes[k]), gsn.Path(c));
  }

  lemma NodeIsReached(gsn: Gsn, k: nat)
    requires Tidy(gsn) && k < |gsn.nodes|
    ensures Reached(gsn, Names(gsn.nodes), k)
  {
    EveryNodeOnce(gsn, k);
    OwnedIsInLog(WalkAll(gsn, Names(gsn.nodes)), k, Enter(k));
    WholeWalkExactly(gsn, Names(gsn.nodes), Enter(k));
    var j: nat :| Reached(gsn, Names(gsn.nodes), j) && EmittedBy(gsn, j, Enter(k));
    OnlyOwnEntry(gsn, j, k);
  }

  lemma OnlyOwnEntry(gsn: Gsn, j: nat, k: nat)
    requires EmittedBy(gsn, j, Enter(k))
    ensures j == k
  {
  }

  /** Where there is a forest of a tidy model, all relations of all nodes exist. */
  lemma RelationsExist(gsn: Gsn, k: nat)
    requires Tidy(gsn) && k < |gsn.nodes| && Complete(gsn, Names(gsn.nodes))
    ensures AllExist(gsn, Relations(gsn.nodes[k]))
  {
    NodeIsReached(gsn, k);
  }

  lemma {:induction false} OwnedIsInLog(log: seq<Event>, k: nat, e: Event)
    requires e in Owned(log, k)
    ensures e in log
  {
    if log == [] {
    } else if Owns(log[0], k) && e == log[0] {
    } else {
      OwnedIsInLog(log[1..], k, e);
    }
  }
}
