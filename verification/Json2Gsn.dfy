/** The whole compiler, and what can be read from its texts. */
module Json2Gsn {
  import opened Refs
  import opened Sequences
  import opened Text
  import opened GsnModel
  import opened GsnWalk
  import opened GsnForest
  import opened GsnLaws
  import opened GsnCover
  import opened GsnText
  import opened GsnPrinter
  import opened GsnReadBack
  import opened GsnRoundTrip
  import opened GsnPlain
  import opened GsnRelations

  // ----- The forest that is printed -----

  function ForestOf(gsn: Gsn, namespaces: map<string, Namespace>): Forest
    requires gsn.Valid()
  {
    var names := Names(gsn.nodes);
    var log := WalkAll(gsn, names);
    Forest(gsn, names, namespaces, AllChildren(gsn, log), AllRefs(gsn, log))
  }

  lemma ForestGrows(gsn: Gsn, namespaces: map<string, Namespace>)
    requires gsn.Valid()
    ensures Grows(ForestOf(gsn, namespaces))
  {
    var f := ForestOf(gsn, namespaces);
    forall n: nat | n < |gsn.nodes| ensures Longer(gsn, n, f.children[n]) {
      forall i | 0 <= i < |f.children[n]|
        ensures f.children[n][i] < |gsn.nodes| && |gsn.Path(n)| < |gsn.Path(f.children[n][i])|
      {
        ChildrenGoDown(gsn, f.names, n, f.children[n][i]);
      }
    }
  }

  lemma {:induction false} LastPiece(parent: string, name: string)
    requires '/' !in name
    ensures NameOf(parent + "/" + name) == name
    decreases |parent|
  {
    if '/' in parent {
      var head, rest := FirstOccurrence(parent, '/');
      assert parent + "/" + name == head + "/" + (rest + "/" + name);
      SplitAtFirst(head, '/', rest + "/" + name);
      LastPiece(rest, name);
    } else {
      SplitAtFirst(parent, '/', name);
      SplitWhole(name, '/');
    }
  }

  lemma ParentNames(gsn: Gsn, n: nat, c: nat)
    requires IsParent(gsn, n, c)
    ensures gsn.Path(c) == gsn.Path(n) + "/" + NameOf(gsn.Path(c))
  {
    var name := gsn.Path(c)[|gsn.Path(n)| + 1..];
    assert gsn.Path(c) == gsn.Path(n) + "/" + name;
    LastPiece(gsn.Path(n), name);
  }

  lemma ForestIsDirect(gsn: Gsn, namespaces: map<string, Namespace>)
    requires Tidy(gsn)
    ensures Grows(ForestOf(gsn, namespaces)) && Direct(ForestOf(gsn, namespaces))
  {
    ForestGrows(gsn, namespaces);
    var f := ForestOf(gsn, namespaces);
    forall n: nat | n < |gsn.nodes| ensures Named(gsn, gsn.Path(n), f.children[n]) {
      forall i | 0 <= i < |f.children[n]|
        ensures f.children[n][i] < |gsn.nodes|
        ensures gsn.Path(f.children[n][i]) == gsn.Path(n) + "/" + NameOf(gsn.Path(f.children[n][i]))
      {
        assert f.children[n][i] in ChildrenIn(WalkAll(gsn, f.names), n);
        ChildrenSitUnderParents(gsn, n, f.children[n][i]);
        ParentNames(gsn, n, f.children[n][i]);
      }
    }
  }

  lemma RootName(id: string)
    requires IsRoot(id)
    ensures id == NamespaceOf(id) + "/" + NameOf(id)
  {
    JoinSplit(id, "/");
    var pieces := Pieces(id);
    assert Join(pieces, "/") == pieces[0] + "/" + Join(pieces[1..], "/");
    assert Join(pieces[1..], "/") == pieces[1];
  }

  lemma RootsAreNamed(gsn: Gsn, name: string)
    requires gsn.Valid()
    ensures AllNodes(gsn, RootsOf(gsn.nodes, name)) && Named(gsn, name, RootsOf(gsn.nodes, name))
  {
    var roots := RootsOf(gsn.nodes, name);
    RootsInRange(gsn, name);
    RootsAreNodes(gsn.nodes, name);
    forall i | 0 <= i < |roots| ensures gsn.Path(roots[i]) == name + "/" + NameOf(gsn.Path(roots[i])) {
      assert roots[i] in roots;
      RootName(gsn.Path(roots[i]));
    }
  }

  // ----- The lines about one node -----

  function LinesAbout(located: seq<Located>, id: string): seq<Line> {
    if located == [] then [] else
    (if located[0].id == id then [located[0].line] else []) + LinesAbout(located[1..], id)
  }

  lemma {:induction false} LinesAboutAppend(a: seq<Located>, b: seq<Located>, id: string)
    ensures LinesAbout(a + b, id) == LinesAbout(a, id) + LinesAbout(b, id)
    decreases |a|
  {
    if a == [] {
      assert a + b == b;
    } else {
      assert (a + b)[1..] == a[1..] + b;
      LinesAboutAppend(a[1..], b, id);
      Regroup(if a[0].id == id then [a[0].line] else [], LinesAbout(a[1..], id), LinesAbout(b, id));
    }
  }

  lemma {:induction false} LinesAboutAt(owner: string, ls: seq<Line>, id: string)
    ensures LinesAbout(At(owner, ls), id) == if owner == id then ls else []
  {
    if ls == [] {
    } else {
      LinesAboutAt(owner, ls[1..], id);
      assert At(owner, ls)[1..] == At(owner, ls[1..]);
      assert ls == [ls[0]] + ls[1..];
    }
  }

  /** All that the text says of a node itself. */
  function OwnLines(node: GsnNode, random: string, refs: seq<Ref>): seq<Line> {
    [NodeLine(node.nodeType, NameOf(node.id))] + AttributeLines(node, random) + RefLines(refs)
  }

  lemma LinesOfNode(node: GsnNode, random: string, refs: seq<Ref>, children: seq<Located>, id: string)
    ensures LinesAbout([Located(node.id, NodeLine(node.nodeType, NameOf(node.id)))]
        + At(node.id, AttributeLines(node, random))
                       + children + At(node.id, RefLines(refs)), id)
         == if node.id == id
            then [NodeLine(node.nodeType, NameOf(node.id))] + AttributeLines(node, random)
                + LinesAbout(children, id) + RefLines(refs)
            else LinesAbout(children, id)
  {
    var first := [Located(node.id, NodeLine(node.nodeType, NameOf(node.id)))];
    var attributes, after := At(node.id, AttributeLines(node, random)), At(node.id, RefLines(refs));
    LinesAboutAppend(first, attributes, id);
    LinesAboutAppend(first + attributes, children, id);
    LinesAboutAppend(first + attributes + children, after, id);
    LinesAboutAt(node.id, [first[0].line], id);
    assert At(node.id, [first[0].line]) == first;
    LinesAboutAt(node.id, AttributeLines(node, random), id);
    LinesAboutAt(node.id, RefLines(refs), id);
  }

  // ----- Enters -----

  function EntersOfAll(gsn: Gsn, cs: seq<nat>): seq<nat>
    requires gsn.Valid() && AllNodes(gsn, cs)
  {
    if cs == [] then [] else Enters(Walk(gsn, cs[0])) + EntersOfAll(gsn, cs[1..])
  }

  function ChildOf(e: Event): seq<nat> { if e.Child? then [e.child] else [] }

  lemma FirstChild(gsn: Gsn, n: nat, paths: seq<string>)
    requires gsn.Valid() && n < |gsn.nodes| && paths != []
    ensures ChildrenIn(StepsAlong(gsn, n, paths), n)
         == ChildOf(Emit(gsn, n, paths[0])) + ChildrenIn(StepsAlong(gsn, n, paths[1..]), n)
  {
    var e := Emit(gsn, n, paths[0]);
    ChildrenAppend([e], StepsAlong(gsn, n, paths[1..]), n);
    assert [e][..0] == [] && ChildrenIn([e], n) == ChildOf(e);
  }

  lemma EntersOfFollow(gsn: Gsn, n: nat, path: string)
    requires gsn.Valid() && n < |gsn.nodes|
    ensures AllNodes(gsn, ChildOf(Emit(gsn, n, path)))
    ensures Enters(Follow(gsn, n, path)) == EntersOfAll(gsn, ChildOf(Emit(gsn, n, path)))
  {
    var e := Emit(gsn, n, path);
    assert Enters([e]) == [];
    if e.Child? {
      EntersAppend([e], Walk(gsn, e.child));
      assert EntersOfAll(gsn, [e.child][1..]) == [];
    }
  }

  lemma EntersOfAllAppend(gsn: Gsn, a: seq<nat>, b: seq<nat>)
    requires gsn.Valid() && AllNodes(gsn, a) && AllNodes(gsn, b) && |a| <= 1
    ensures AllNodes(gsn, a + b) && EntersOfAll(gsn, a + b) == EntersOfAll(gsn, a) + EntersOfAll(gsn, b)
  {
    if a == [] {
      assert a + b == b;
      assert EntersOfAll(gsn, []) + EntersOfAll(gsn, b) == EntersOfAll(gsn, b);
    } else {
      assert (a + b)[0] == a[0] && (a + b)[1..] == b && a[1..] == [];
      assert EntersOfAll(gsn, a) == Enters(Walk(gsn, a[0])) + EntersOfAll(gsn, []) == Enters(Walk(gsn, a[0]));
    }
  }

  lemma {:induction false} EntersAlong(gsn: Gsn, n: nat, paths: seq<string>)
    requires gsn.Valid() && n < |gsn.nodes|
    ensures AllNodes(gsn, ChildrenIn(StepsAlong(gsn, n, paths), n))
    ensures Enters(WalkRelations(gsn, n, paths)) == EntersOfAll(gsn, ChildrenIn(StepsAlong(gsn, n, paths), n))
  {
    if paths == [] {
    } else {
      EntersAlong(gsn, n, paths[1..]);
      FirstChild(gsn, n, paths);
      EntersOfFollow(gsn, n, paths[0]);
      EntersAppend(Follow(gsn, n, paths[0]), WalkRelations(gsn, n, paths[1..]));
      EntersOfAllAppend(gsn, ChildOf(Emit(gsn, n, paths[0])), ChildrenIn(StepsAlong(gsn, n, paths[1..]), n));
    }
  }

  lemma ChildrenOfSteps(gsn: Gsn, n: nat)
    requires n < |gsn.nodes|
    ensures ChildrenIn(Steps(gsn, n), n) == ChildrenIn(StepsAlong(gsn, n, Relations(gsn.nodes[n])), n)
  {
    var first, rest := [Enter(n)], StepsAlong(gsn, n, Relations(gsn.nodes[n]));
    ChildrenAppend(first, rest, n);
    assert first[..0] == [] && ChildrenIn(first, n) == [];
    assert [] + ChildrenIn(rest, n) == ChildrenIn(rest, n);
  }

  lemma EntersOfNode(gsn: Gsn, n: nat)
    requires gsn.Valid() && n < |gsn.nodes|
    ensures AllNodes(gsn, ChildrenIn(Steps(gsn, n), n))
    ensures Enters(Walk(gsn, n)) == [n] + EntersOfAll(gsn, ChildrenIn(Steps(gsn, n), n))
  {
    var paths := Relations(gsn.nodes[n]);
    EntersAlong(gsn, n, paths);
    ChildrenOfSteps(gsn, n);
    EntersAppend([Enter(n)], WalkRelations(gsn, n, paths));
    assert [Enter(n)][1..] == [] && Enters([Enter(n)]) == [n];
  }

  lemma NotBelowItself(gsn: Gsn, n: nat, c: nat)
    requires gsn.Valid() && n < |gsn.nodes| && c < |gsn.nodes| && |gsn.Path(n)| < |gsn.Path(c)|
    ensures Count(Enters(Walk(gsn, c)), n) == 0
  {
    WalkStaysInTree(gsn, c, n);
    EntersOfOwned(Walk(gsn, c), n);
  }

  lemma {:induction false} NoneBelowItself(gsn: Gsn, n: nat, cs: seq<nat>)
    requires gsn.Valid() && Longer(gsn, n, cs) && AllNodes(gsn, cs)
    ensures Count(EntersOfAll(gsn, cs), n) == 0
  {
    if cs == [] {
    } else {
      NotBelowItself(gsn, n, cs[0]);
      NoneBelowItself(gsn, n, cs[1..]);
      CountAppend(Enters(Walk(gsn, cs[0])), EntersOfAll(gsn, cs[1..]), n);
    }
  }

  // ----- Each node's lines once -----

  lemma {:induction false} RepeatSum<T>(s: seq<T>, a: nat, b: nat)
    ensures Repeat(s, a + b) == Repeat(s, a) + Repeat(s, b)
  {
    if a == 0 {
      assert [] + Repeat(s, b) == Repeat(s, b);
    } else {
      RepeatSum(s, a - 1, b);
      Regroup(s, Repeat(s, a - 1), Repeat(s, b));
    }
  }

  /** Every node's children are those that its own relations give. */
  ghost predicate OwnChildren(f: Forest) {
    && Grows(f) && f.gsn.Valid() && UniqueIds(f.gsn)
    && forall n: nat :: n < |f.gsn.nodes| ==> f.children[n] == ChildrenIn(Steps(f.gsn, n), n)
  }

  function Own(f: Forest, random: nat -> string, k: nat): seq<Line>
    requires Grows(f) && k < |f.gsn.nodes|
  {
    OwnLines(f.gsn.nodes[k], random(k), f.references[k])
  }

  ghost predicate SaysOf(f: Forest, random: nat -> string, located: seq<Located>, entered: seq<nat>, k: nat)
    requires Grows(f) && k < |f.gsn.nodes|
  {
    LinesAbout(located, f.gsn.Path(k)) == Repeat(Own(f, random, k), Count(entered, k))
  }

  lemma SaysOfBoth(
      f: Forest, random: nat -> string, a: seq<Located>, b: seq<Located>, ea: seq<nat>, eb: seq<nat>, k: nat)
    requires Grows(f) && k < |f.gsn.nodes| && SaysOf(f, random, a, ea, k) && SaysOf(f, random, b, eb, k)
    ensures SaysOf(f, random, a + b, ea + eb, k)
  {
    LinesAboutAppend(a, b, f.gsn.Path(k));
    CountAppend(ea, eb, k);
    RepeatSum(Own(f, random, k), Count(ea, k), Count(eb, k));
  }

  lemma OwnLinesOnce(node: GsnNode, random: string, refs: seq<Ref>, children: seq<Located>)
    requires LinesAbout(children, node.id) == []
    ensures LinesAbout([Located(node.id, NodeLine(node.nodeType, NameOf(node.id)))]
        + At(node.id, AttributeLines(node, random))
                       + children + At(node.id, RefLines(refs)), node.id)
         == OwnLines(node, random, refs)
  {
    LinesOfNode(node, random, refs, children, node.id);
    var head := [NodeLine(node.nodeType, NameOf(node.id))] + AttributeLines(node, random);
    assert head + [] == head;
  }

  lemma CountFirst(n: nat, entered: seq<nat>, k: nat)
    ensures Count([n] + entered, k) == Count(entered, k) + if n == k then 1 else 0
  {
    assert ([n] + entered)[1..] == entered;
  }

  lemma NodeSays(f: Forest, random: nat -> string, n: nat, k: nat, entered: seq<nat>)
    requires OwnChildren(f) && n < |f.gsn.nodes| && k < |f.gsn.nodes|
    requires SaysOf(f, random, LocatedChildren(f, random, n, f.children[n]), entered, k)
    requires n == k ==> Count(entered, n) == 0
    ensures SaysOf(f, random, LocatedNode(f, random, n), [n] + entered, k)
  {
    var node, children := f.gsn.nodes[n], LocatedChildren(f, random, n, f.children[n]);
    CountFirst(n, entered, k);
    if n == k {
      RepeatOnce(Own(f, random, k));
      OwnLinesOnce(node, random(n), f.references[n], children);
    } else {
      assert f.gsn.nodeMap[f.gsn.Path(n)] == n && f.gsn.nodeMap[f.gsn.Path(k)] == k;
      LinesOfNode(node, random(n), f.references[n], children, f.gsn.Path(k));
    }
  }

  /** The lines of n's tree say of k what k's own lines are, as often as the walk from n enters k. */
  ghost predicate NodeSaysOf(f: Forest, random: nat -> string, n: nat, k: nat)
    requires OwnChildren(f) && n < |f.gsn.nodes| && k < |f.gsn.nodes|
  {
    SaysOf(f, random, LocatedNode(f, random, n), Enters(Walk(f.gsn, n)), k)
  }

  ghost predicate ChildrenSayOf(f: Forest, random: nat -> string, n: nat, cs: seq<nat>, k: nat)
    requires OwnChildren(f) && k < |f.gsn.nodes|
  {
    && Longer(f.gsn, n, cs) && AllNodes(f.gsn, cs)
    && SaysOf(f, random, LocatedChildren(f, random, n, cs), EntersOfAll(f.gsn, cs), k)
  }

  lemma NothingSaid(f: Forest, random: nat -> string, k: nat)
    requires Grows(f) && k < |f.gsn.nodes|
    ensures SaysOf(f, random, [], [], k)
  {
  }

  lemma NoChildrenSay(f: Forest, random: nat -> string, n: nat, cs: seq<nat>, k: nat)
    requires OwnChildren(f) && Longer(f.gsn, n, cs) && k < |f.gsn.nodes| && cs == []
    ensures ChildrenSayOf(f, random, n, cs, k)
  {
    NothingSaid(f, random, k);
  }

  lemma OneMoreChildSays(f: Forest, random: nat -> string, n: nat, cs: seq<nat>, k: nat)
    requires OwnChildren(f) && Longer(f.gsn, n, cs) && k < |f.gsn.nodes| && cs != []
    requires NodeSaysOf(f, random, cs[0], k) && ChildrenSayOf(f, random, n, cs[1..], k)
    ensures ChildrenSayOf(f, random, n, cs, k)
  {
    assert AllNodes(f.gsn, cs);
    SaysOfBoth(f, random, LocatedNode(f, random, cs[0]), LocatedChildren(f, random, n, cs[1..]),
               Enters(Walk(f.gsn, cs[0])), EntersOfAll(f.gsn, cs[1..]), k);
  }

  lemma {:induction false} ChildrenSay(f: Forest, random: nat -> string, n: nat, cs: seq<nat>, k: nat)
    requires OwnChildren(f) && Longer(f.gsn, n, cs) && k < |f.gsn.nodes|
    requires forall i :: 0 <= i < |cs| ==> NodeSaysOf(f, random, cs[i], k)
    ensures ChildrenSayOf(f, random, n, cs, k)
    decreases |cs|
  {
    if cs == [] {
      NoChildrenSay(f, random, n, cs, k);
    } else {
      ChildrenSay(f, random, n, cs[1..], k);
      OneMoreChildSays(f, random, n, cs, k);
    }
  }

  lemma {:induction false} NodeSaysOnce(f: Forest, random: nat -> string, n: nat, k: nat)
    requires OwnChildren(f) && n < |f.gsn.nodes| && k < |f.gsn.nodes|
    ensures NodeSaysOf(f, random, n, k)
    decreases f.gsn.Room(n)
  {
    var cs := f.children[n];
    forall i | 0 <= i < |cs| ensures NodeSaysOf(f, random, cs[i], k) {
      NodeSaysOnce(f, random, cs[i], k);
    }
    ChildrenSay(f, random, n, cs, k);
    NodeAndChildrenSay(f, random, n, k);
  }

  lemma NodeAndChildrenSay(f: Forest, random: nat -> string, n: nat, k: nat)
    requires OwnChildren(f) && n < |f.gsn.nodes| && k < |f.gsn.nodes|
    requires ChildrenSayOf(f, random, n, f.children[n], k)
    ensures NodeSaysOf(f, random, n, k)
  {
    EntersOfNode(f.gsn, n);
    NoneBelowItself(f.gsn, n, f.children[n]);
    NodeSays(f, random, n, k, EntersOfAll(f.gsn, f.children[n]));
  }

  lemma {:induction false} RootsSayOnce(f: Forest, random: nat -> string, roots: seq<nat>, k: nat)
    requires OwnChildren(f) && AllNodes(f.gsn, roots) && k < |f.gsn.nodes|
    ensures SaysOf(f, random, LocatedRoots(f, random, roots), Enters(WalkRoots(f.gsn, roots)), k)
  {
    if roots == [] {
      NothingSaid(f, random, k);
    } else {
      NodeSaysOnce(f, random, roots[0], k);
      RootsSayOnce(f, random, roots[1..], k);
      EntersAppend(Walk(f.gsn, roots[0]), WalkRoots(f.gsn, roots[1..]));
      SaysOfBoth(f, random, LocatedNode(f, random, roots[0]), LocatedRoots(f, random, roots[1..]),
                 Enters(Walk(f.gsn, roots[0])), Enters(WalkRoots(f.gsn, roots[1..])), k);
    }
  }

  /** What is read from the texts of all namespaces. */
  function Everything(f: Forest, random: nat -> string, names: seq<string>): seq<Located>
    requires Grows(f)
  {
    if names == [] then [] else
    RootsInRange(f.gsn, names[0]);
    LocatedRoots(f, random, RootsOf(f.gsn.nodes, names[0])) + Everything(f, random, names[1..])
  }

  lemma EntersOfNamespace(gsn: Gsn, name: string)
    requires gsn.Valid()
    ensures AllNodes(gsn, RootsOf(gsn.nodes, name))
    ensures Enters(WalkNamespace(gsn, name)) == Enters(WalkRoots(gsn, RootsOf(gsn.nodes, name)))
  {
    var roots := RootsOf(gsn.nodes, name);
    RootsInRange(gsn, name);
    EntersAppend(if roots == [] then [Unrooted(name)] else [], WalkRoots(gsn, roots));
    assert Enters([Unrooted(name)]) == [];
  }

  lemma {:induction false} EverythingSays(f: Forest, random: nat -> string, names: seq<string>, k: nat)
    requires OwnChildren(f) && k < |f.gsn.nodes|
    ensures SaysOf(f, random, Everything(f, random, names), Enters(WalkAll(f.gsn, names)), k)
  {
    if names == [] {
      NothingSaid(f, random, k);
    } else {
      var roots := RootsOf(f.gsn.nodes, names[0]);
      EntersOfNamespace(f.gsn, names[0]);
      RootsSayOnce(f, random, roots, k);
      EverythingSays(f, random, names[1..], k);
      EntersAppend(WalkNamespace(f.gsn, names[0]), WalkAll(f.gsn, names[1..]));
      SaysOfBoth(f, random, LocatedRoots(f, random, roots), Everything(f, random, names[1..]),
                 Enters(WalkRoots(f.gsn, roots)), Enters(WalkAll(f.gsn, names[1..])), k);
    }
  }

  /** In a tidy model, what all the texts say of a node is its own lines, once: one node line with its
      type and name, its attributes, and its references. */
  lemma EveryNodeIsSaidOnce(gsn: Gsn, namespaces: map<string, Namespace>, random: nat -> string, k: nat)
    requires Tidy(gsn) && k < |gsn.nodes| && Grows(ForestOf(gsn, namespaces))
    ensures var f := ForestOf(gsn, namespaces);
            var about := LinesAbout(Everything(f, random, f.names), gsn.Path(k));
            about == OwnLines(gsn.nodes[k], random(k), f.references[k])
  {
    var f := ForestOf(gsn, namespaces);
    forall n: nat | n < |gsn.nodes| ensures f.children[n] == ChildrenIn(Steps(gsn, n), n) {
      ChildrenOnce(gsn, n);
    }
    EverythingSays(f, random, f.names, k);
    EnteredOnce(gsn, k);
    RepeatOnce(Own(f, random, k));
  }

  // ----- Reading the texts -----

  lemma {:induction false} PlainRefsAppend(a: seq<Ref>, b: seq<Ref>)
    requires PlainRefs(a) && PlainRefs(b)
    ensures PlainRefs(a + b)
    decreases |a|
  {
    if a == [] {
      assert a + b == b;
    } else {
      assert (a + b)[1..] == a[1..] + b;
      PlainRefsAppend(a[1..], b);
    }
  }

  lemma {:induction false} RefsArePlain(gsn: Gsn, log: seq<Event>, n: nat)
    requires AllSound(gsn.nodes)
    ensures PlainRefs(RefsIn(gsn, log, n))
  {
    if log == [] {
    } else {
      var e := log[|log| - 1];
      RefsArePlain(gsn, log[..|log| - 1], n);
      if e.Reference? && e.owner == n && e.target < |gsn.nodes| {
        assert IsSound(gsn.nodes[e.target]);
        ValidIdIsPlain(gsn.Path(e.target));
        var last := [Ref(gsn.nodes[e.target].nodeType, gsn.Path(e.target))];
        assert last[1..] == [];
        PlainRefsAppend(RefsIn(gsn, log[..|log| - 1], n), last);
      } else {
        var before := RefsIn(gsn, log[..|log| - 1], n);
        assert before + [] == before;
      }
    }
  }

  lemma ForestIsPlain(gsn: Gsn, namespaces: map<string, Namespace>, random: nat -> string)
    requires gsn.Valid() && Grows(ForestOf(gsn, namespaces)) && AllSound(gsn.nodes)
    requires forall n: nat :: n < |gsn.nodes| ==> PlainAttributes(gsn.nodes[n], random(n))
    ensures PlainForest(ForestOf(gsn, namespaces), random)
  {
    var f := ForestOf(gsn, namespaces);
    forall n: nat | n < |gsn.nodes| ensures PlainNode(gsn.nodes[n], random(n), f.references[n]) {
      assert IsSound(gsn.nodes[n]);
      ValidIdIsPlain(gsn.Path(n));
      RefsArePlain(gsn, WalkAll(gsn, f.names), n);
    }
  }

  /** The text of each namespace of a tidy and sound model reads back as the lines of its nodes, with
      their ids, when no attribute holds a line break and the indentation is not mistaken for text. */
  lemma NamespaceReadsBack(
      gsn: Gsn, namespaces: map<string, Namespace>, random: nat -> string, indent: string, name: string)
    requires Tidy(gsn) && AllSound(gsn.nodes) && IsIndent(indent) && '\n' !in name
    requires forall n: nat :: n < |gsn.nodes| ==> PlainAttributes(gsn.nodes[n], random(n))
    requires name in namespaces && namespaces[name].name == name && namespaces[name].roots == RootsOf(gsn.nodes, name)
    ensures Grows(ForestOf(gsn, namespaces)) && AllNodes(gsn, namespaces[name].roots)
    ensures ReadText(indent, Join(NamespaceTexts(ForestOf(gsn, namespaces), random, namespaces[name], indent), "\n"))
         == Some((name, LocatedRoots(ForestOf(gsn, namespaces), random, namespaces[name].roots)))
  {
    var f := ForestOf(gsn, namespaces);
    ForestIsDirect(gsn, namespaces);
    ForestIsPlain(gsn, namespaces, random);
    RootsAreNamed(gsn, name);
    RootsFit(f, random, namespaces[name].roots);
    TextReadsBack(f, random, namespaces[name], indent);
  }

  // ----- The compiler -----

  ghost predicate Printable(f: Forest, name: string) {
    name in f.namespaces && AllNodes(f.gsn, f.namespaces[name].roots)
  }

  ghost predicate IsTextOf(f: Forest, random: nat -> string, indent: string, name: string, text: string)
    requires Grows(f)
  {
    Printable(f, name) && text == Join(NamespaceTexts(f, random, f.namespaces[name], indent), "\n")
  }

  method PrintAll(f: Forest, random: nat -> string, indent: string) returns (contents: map<string, string>)
    requires Grows(f) && forall n :: n in f.names ==> Printable(f, n)
    ensures forall n :: n in contents <==> n in f.names
    ensures forall n :: n in contents ==> IsTextOf(f, random, indent, n, contents[n])
  {
    contents := map[];
    var rest := f.names;
    while rest != []
      invariant forall n :: n in f.names <==> n in contents || n in rest
      invariant forall n :: n in contents ==> IsTextOf(f, random, indent, n, contents[n])
    {
      var name := rest[0];
      assert Printable(f, name);
      var text := GenerateGsnText(f, random, f.namespaces[name], indent);
      contents := contents[name := text];
      rest := rest[1..];
    }
  }

  lemma OutcomeIsPrintable(model: seq<GsnNode>, a: Assigned, hasLoops: Edges -> bool)
    requires Fits(model, a) && Outcome(a, hasLoops).Ok?
    ensures var f := Outcome(a, hasLoops).value;
            && f == ForestOf(Gsn(a.nodes, a.nodeMap), a.namespaces) && Grows(f)
            && forall n :: n in f.names ==> Printable(f, n)
  {
    var f := Outcome(a, hasLoops).value;
    ForestGrows(f.gsn, a.namespaces);
    forall n | n in f.names ensures Printable(f, n) {
      RootsInRange(f.gsn, n);
    }
  }

  ghost predicate IsResult(
      a: Assigned, random: nat -> string, indent: string, hasLoops: Edges -> bool,
      result: Result<map<string, string>, seq<GsnError>>)
    requires IsNodeMap(a.nodes, a.nodeMap)
  {
    match Outcome(a, hasLoops)
    case Err(errors) => result == Err(errors)
    case Ok(f) =>
      && f == ForestOf(Gsn(a.nodes, a.nodeMap), a.namespaces) && Grows(f)
      && result.Ok? && (forall n :: n in result.value <==> n in f.names)
      && forall n :: n in result.value ==> IsTextOf(f, random, indent, n, result.value[n])
  }

  /** The texts by namespace, or the errors. */
  method ToGsn(model: seq<GsnNode>, random: nat -> string, indent: string, hasLoops: Edges -> bool)
    returns (result: Result<map<string, string>, seq<GsnError>>)
    ensures exists a :: Fits(model, a) && IsResult(a, random, indent, hasLoops, result)
  {
    var populated := PopulateNamespaces(model, hasLoops);
    ghost var a :| Fits(model, a) && populated == Outcome(a, hasLoops);
    if populated.Err? {
      result := Err(populated.error);
    } else {
      OutcomeIsPrintable(model, a, hasLoops);
      var contents := PrintAll(populated.value, random, indent);
      result := Ok(contents);
    }
    assert IsResult(a, random, indent, hasLoops, result);
  }

  lemma {:induction false} NamesArePlain(nodes: seq<GsnNode>, name: string)
    requires AllSound(nodes) && name in Names(nodes)
    ensures '\n' !in name
  {
    var before, last := nodes[..|nodes| - 1], nodes[|nodes| - 1];
    AllSoundLast(nodes);
    if name in Names(before) {
      NamesArePlain(before, name);
    } else {
      NameIsPlain(Pieces(last.id)[0], '\n');
    }
  }

  lemma ResultIsSound(model: seq<GsnNode>, a: Assigned, hasLoops: Edges -> bool)
    requires Fits(model, a) && Outcome(a, hasLoops).Ok?
    ensures a.nodes == model && AllSound(model)
  {
    NoModelErrors(model);
    SoundNodesHaveIds(model);
  }

  /** Whenever the compiler returns texts for a tidy model, each of them reads back as its namespace. */
  lemma ContentsReadBack(
      model: seq<GsnNode>, a: Assigned, random: nat -> string, indent: string, hasLoops: Edges -> bool,
      result: Result<map<string, string>, seq<GsnError>>, name: string)
    requires Fits(model, a) && IsResult(a, random, indent, hasLoops, result) && result.Ok? && name in result.value
    requires Tidy(Gsn(a.nodes, a.nodeMap)) && IsIndent(indent)
    requires forall n: nat :: n < |model| ==> PlainAttributes(model[n], random(n))
    ensures var f := ForestOf(Gsn(a.nodes, a.nodeMap), a.namespaces);
            && Grows(f) && Printable(f, name)
            && ReadText(indent, result.value[name]) == Some((name, LocatedRoots(f, random, f.namespaces[name].roots)))
  {
    ResultIsSound(model, a, hasLoops);
    NamesArePlain(a.nodes, name);
    NamespaceReadsBack(Gsn(a.nodes, a.nodeMap), a.namespaces, random, indent, name);
  }

  /** Reading the texts of the namespaces one after the other. */
  function ReadAll(indent: string, contents: map<string, string>, names: seq<string>): Option<seq<Located>>
    requires indent != []
  {
    if names == [] then Some([])
    else if names[0] !in contents then None
    else match (ReadText(indent, contents[names[0]]), ReadAll(indent, contents, names[1..]))
      case (Some((_, located)), Some(rest)) => Some(located + rest)
      case _ => None
  }

  /** Every text can be read, as the lines of its roots' trees. */
  ghost predicate EachReads(
      f: Forest, random: nat -> string, indent: string, contents: map<string, string>, names: seq<string>)
    requires Grows(f) && indent != []
  {
    forall name :: name in names ==>
      && name in contents && AllNodes(f.gsn, RootsOf(f.gsn.nodes, name))
      && ReadText(indent, contents[name]) == Some((name, LocatedRoots(f, random, RootsOf(f.gsn.nodes, name))))
  }

  lemma {:induction false} ReadAllIsEverything(
      f: Forest, random: nat -> string, indent: string, contents: map<string, string>, names: seq<string>)
    requires Grows(f) && indent != [] && EachReads(f, random, indent, contents, names)
    ensures ReadAll(indent, contents, names) == Some(Everything(f, random, names))
  {
    if names == [] {
    } else {
      assert names[0] in names && forall name :: name in names[1..] ==> name in names;
      ReadAllIsEverything(f, random, indent, contents, names[1..]);
    }
  }

  lemma ResultReads(
      model: seq<GsnNode>, a: Assigned, random: nat -> string, indent: string, hasLoops: Edges -> bool,
      result: Result<map<string, string>, seq<GsnError>>)
    requires Fits(model, a) && IsResult(a, random, indent, hasLoops, result) && result.Ok?
    requires Tidy(Gsn(a.nodes, a.nodeMap)) && IsIndent(indent)
    requires forall n: nat :: n < |model| ==> PlainAttributes(model[n], random(n))
    ensures var f := ForestOf(Gsn(a.nodes, a.nodeMap), a.namespaces);
            Grows(f) && EachReads(f, random, indent, result.value, f.names)
  {
    var f := ForestOf(Gsn(a.nodes, a.nodeMap), a.namespaces);
    forall name | name in f.names
      ensures name in result.value && AllNodes(f.gsn, RootsOf(f.gsn.nodes, name))
      ensures ReadText(indent, result.value[name])
           == Some((name, LocatedRoots(f, random, RootsOf(f.gsn.nodes, name))))
    {
      ContentsReadBack(model, a, random, indent, hasLoops, result, name);
    }
  }

  lemma ReadTextsSayOnce(
      gsn: Gsn, namespaces: map<string, Namespace>, random: nat -> string, indent: string,
      contents: map<string, string>, k: nat)
    requires Tidy(gsn) && k < |gsn.nodes| && Grows(ForestOf(gsn, namespaces)) && indent != []
    requires EachReads(ForestOf(gsn, namespaces), random, indent, contents, Names(gsn.nodes))
    ensures var read := ReadAll(indent, contents, Names(gsn.nodes));
            && read.Some?
            && LinesAbout(read.value, gsn.Path(k))
            == OwnLines(gsn.nodes[k], random(k), ForestOf(gsn, namespaces).references[k])
  {
    ReadAllIsEverything(ForestOf(gsn, namespaces), random, indent, contents, Names(gsn.nodes));
    EveryNodeIsSaidOnce(gsn, namespaces, random, k);
  }

  /** The references of a node, as its own relations have them. */
  function OwnRefs(gsn: Gsn, k: nat): seq<Ref>
    requires gsn.Valid() && k < |gsn.nodes| && AllExist(gsn, Relations(gsn.nodes[k]))
  {
    SidewaysExist(gsn, Relations(gsn.nodes[k]), gsn.Path(k));
    RefsTo(gsn, Sideways(Relations(gsn.nodes[k]), gsn.Path(k)))
  }

  lemma ResultIsComplete(
      model: seq<GsnNode>, a: Assigned, random: nat -> string, indent: string, hasLoops: Edges -> bool,
      result: Result<map<string, string>, seq<GsnError>>)
    requires Fits(model, a) && IsResult(a, random, indent, hasLoops, result) && result.Ok?
    ensures a.nodes == model && Complete(Gsn(a.nodes, a.nodeMap), Names(a.nodes))
    ensures forall name :: name in result.value <==> name in Names(model)
  {
    ResultIsSound(model, a, hasLoops);
    ForestExactly(model, a, hasLoops);
  }

  lemma ForestRefs(gsn: Gsn, namespaces: map<string, Namespace>, k: nat)
    requires Tidy(gsn) && k < |gsn.nodes| && Complete(gsn, Names(gsn.nodes))
    ensures AllExist(gsn, Relations(gsn.nodes[k]))
    ensures ForestOf(gsn, namespaces).references[k] == OwnRefs(gsn, k)
  {
    RelationsExist(gsn, k);
    RelationsInForest(gsn, k);
  }

  /** Whenever the compiler returns texts for a tidy model, all of them can be read, and what is read of
      any node from all of them together is its own lines, once: a node line with its type and name,
      its attributes, and references to all its relations that do not go down. Those that do are the
      nodes with its path as parent path. */
  lemma TextsSayEveryNodeOnce(
      model: seq<GsnNode>, a: Assigned, random: nat -> string, indent: string, hasLoops: Edges -> bool,
      result: Result<map<string, string>, seq<GsnError>>, k: nat)
    requires Fits(model, a) && IsResult(a, random, indent, hasLoops, result) && result.Ok?
    requires Tidy(Gsn(a.nodes, a.nodeMap)) && IsIndent(indent) && k < |a.nodes|
    requires forall n: nat :: n < |model| ==> PlainAttributes(model[n], random(n))
    ensures a.nodes == model && forall name :: name in result.value <==> name in Names(model)
    ensures AllExist(Gsn(a.nodes, a.nodeMap), Relations(model[k]))
    ensures var read := ReadAll(indent, result.value, Names(model));
            && read.Some?
            && LinesAbout(read.value, model[k].id)
            == OwnLines(model[k], random(k), OwnRefs(Gsn(a.nodes, a.nodeMap), k))
  {
    ResultIsComplete(model, a, random, indent, hasLoops, result);
    ResultReads(model, a, random, indent, hasLoops, result);
    ReadTextsSayOnce(Gsn(a.nodes, a.nodeMap), a.namespaces, random, indent, result.value, k);
    ForestRefs(Gsn(a.nodes, a.nodeMap), a.namespaces, k);
  }
}
