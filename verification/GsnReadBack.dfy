/** The text of a namespace can be read back: every line tells which node it belongs to. */
module GsnReadBack {
  import opened Refs
  import opened Sequences
  import opened GsnModel
  import opened GsnWalk
  import opened GsnForest
  import opened GsnText

  /** A line, and the id of the node that it is about. */
  datatype Located = Located(id: string, line: Line)

  // ----- The reader -----

  /** The id of the last node line at each depth; the namespace stands at depth 0. */
  type Last = map<nat, string>

  /** A line hangs on the last node one level out. A line that hangs on nothing is about no node. */
  function Owner(last: Last, e: Entry): string {
    if e.depth == 0 || e.depth - 1 !in last then ""
    else if e.line.NodeLine? then last[e.depth - 1] + "/" + e.line.name
    else last[e.depth - 1]
  }

  function Push(last: Last, e: Entry): Last {
    if e.line.NodeLine? then last[e.depth := Owner(last, e)] else last
  }

  function LastAfter(last: Last, entries: seq<Entry>): Last
    decreases entries
  {
    if entries == [] then last else LastAfter(Push(last, entries[0]), entries[1..])
  }

  function Locate(last: Last, entries: seq<Entry>): seq<Located>
    decreases entries
  {
    if entries == [] then [] else
    [Located(Owner(last, entries[0]), entries[0].line)] + Locate(Push(last, entries[0]), entries[1..])
  }

  lemma {:induction false} LocateAppend(last: Last, a: seq<Entry>, b: seq<Entry>)
    ensures Locate(last, a + b) == Locate(last, a) + Locate(LastAfter(last, a), b)
    ensures LastAfter(last, a + b) == LastAfter(LastAfter(last, a), b)
    decreases |a|
  {
    if a == [] {
      assert a + b == b;
    } else {
      assert (a + b)[1..] == a[1..] + b;
      var last1 := Push(last, a[0]);
      LocateAppend(last1, a[1..], b);
      Regroup([Located(Owner(last, a[0]), a[0].line)], Locate(last1, a[1..]), Locate(LastAfter(last, a), b));
    }
  }

  lemma LocateFour(last: Last, a: seq<Entry>, b: seq<Entry>, c: seq<Entry>, d: seq<Entry>,
                   last1: Last, last2: Last, last3: Last)
    requires LastAfter(last, a) == last1 && LastAfter(last1, b) == last2 && LastAfter(last2, c) == last3
    ensures Locate(last, a + b + c + d) == Locate(last, a) + Locate(last1, b) + Locate(last2, c) + Locate(last3, d)
    ensures LastAfter(last, a + b + c + d) == LastAfter(last3, d)
  {
    LocateAppend(last, a, b);
    LocateAppend(last, a + b, c);
    LocateAppend(last, a + b + c, d);
  }

  // ----- What the lines are about -----

  function At(id: string, ls: seq<Line>): seq<Located> {
    if ls == [] then [] else [Located(id, ls[0])] + At(id, ls[1..])
  }

  /** The lines of node n and of everything below it, each with the id that the model has. */
  function LocatedNode(f: Forest, random: nat -> string, n: nat): seq<Located>
    requires Grows(f) && n < |f.gsn.nodes|
    decreases f.gsn.Room(n), 1, 0
  {
    var node := f.gsn.nodes[n];
    [Located(node.id, NodeLine(node.nodeType, NameOf(node.id)))]
    + At(node.id, AttributeLines(node, random(n)))
    + LocatedChildren(f, random, n, f.children[n])
    + At(node.id, RefLines(f.references[n]))
  }

  function LocatedChildren(f: Forest, random: nat -> string, n: nat, cs: seq<nat>): seq<Located>
    requires Grows(f) && Longer(f.gsn, n, cs)
    decreases f.gsn.Room(n), 0, |cs|
  {
    if cs == [] then [] else LocatedNode(f, random, cs[0]) + LocatedChildren(f, random, n, cs[1..])
  }

  function LocatedRoots(f: Forest, random: nat -> string, roots: seq<nat>): seq<Located>
    requires Grows(f) && AllNodes(f.gsn, roots)
  {
    if roots == [] then [] else LocatedNode(f, random, roots[0]) + LocatedRoots(f, random, roots[1..])
  }

  // ----- Attributes and references -----

  /** No line of a node of its own. */
  ghost predicate NoNodes(ls: seq<Line>) {
    ls == [] || (!ls[0].NodeLine? && NoNodes(ls[1..]))
  }

  lemma {:induction false} InsideReads(last: Last, ls: seq<Line>, depth: nat)
    requires NoNodes(ls) && depth >= 1 && depth - 1 in last
    ensures Locate(last, Indented(ls, depth)) == At(last[depth - 1], ls)
    ensures LastAfter(last, Indented(ls, depth)) == last
  {
    if ls == [] {
    } else {
      InsideReads(last, ls[1..], depth);
      var e := Entry(depth, ls[0]);
      assert Indented(ls, depth)[0] == e && Indented(ls, depth)[1..] == Indented(ls[1..], depth);
    }
  }

  lemma {:induction false} ListHasNoNodes(texts: seq<string>, toLine: string -> Line)
    requires forall s :: !toLine(s).NodeLine?
    ensures NoNodes(ListLines(texts, toLine))
  {
    if texts == [] {
    } else {
      ListHasNoNodes(texts[1..], toLine);
    }
  }

  lemma {:induction false} RefsHaveNoNodes(refs: seq<Ref>)
    ensures NoNodes(RefLines(refs))
  {
    if refs == [] {
    } else {
      RefsHaveNoNodes(refs[1..]);
    }
  }

  lemma {:induction false} NoNodesAppend(a: seq<Line>, b: seq<Line>)
    requires NoNodes(a) && NoNodes(b)
    ensures NoNodes(a + b)
    decreases |a|
  {
    if a == [] {
      assert a + b == b;
    } else {
      assert (a + b)[1..] == a[1..] + b;
      NoNodesAppend(a[1..], b);
    }
  }

  lemma AttributesHaveNoNodes(node: GsnNode, random: string)
    ensures NoNodes(AttributeLines(node, random))
  {
    var uuid := OptionalLine(Some(UuidOf(node, random)), s => UuidLine(s));
    var summary, info := OptionalLine(node.summary, s => SummaryLine(s)), OptionalLine(node.info, s => InfoLine(s));
    var labels := ListLines(OrNone(node.labels), s => LabelLine(s));
    ListHasNoNodes(OrNone(node.labels), s => LabelLine(s));
    ListHasNoNodes(OrNone(node.artifacts), s => ArtifactLine(s));
    NoNodesAppend(uuid, summary);
    NoNodesAppend(uuid + summary, info);
    NoNodesAppend(uuid + summary + info, labels);
    NoNodesAppend(uuid + summary + info + labels, ListLines(OrNone(node.artifacts), s => ArtifactLine(s)));
  }

  // ----- Nodes -----

  /** Their ids are the parent's id, a slash and their names. */
  ghost predicate Named(gsn: Gsn, parent: string, cs: seq<nat>) {
    forall i :: 0 <= i < |cs| ==> cs[i] < |gsn.nodes| && gsn.Path(cs[i]) == parent + "/" + NameOf(gsn.Path(cs[i]))
  }

  /** Every child hangs on its parent directly. */
  ghost predicate Direct(f: Forest)
    requires Grows(f)
  {
    forall n: nat :: n < |f.gsn.nodes| ==> Named(f.gsn, f.gsn.Path(n), f.children[n])
  }

  ghost predicate Keeps(last: Last, last': Last, depth: nat) {
    forall i :: 0 <= i < depth && i in last ==> i in last' && last'[i] == last[i]
  }

  /** The lines of node n read as what they are about, and leave the outer nodes where they are. */
  ghost predicate NodeReads(f: Forest, random: nat -> string, n: nat, depth: nat, last: Last)
    requires Grows(f) && n < |f.gsn.nodes|
  {
    && Locate(last, NodeLines(f, random, n, depth)) == LocatedNode(f, random, n)
    && Keeps(last, LastAfter(last, NodeLines(f, random, n, depth)), depth)
  }

  ghost predicate ChildrenRead(f: Forest, random: nat -> string, n: nat, cs: seq<nat>, depth: nat, last: Last)
    requires Grows(f) && Longer(f.gsn, n, cs)
  {
    && Locate(last, ChildLines(f, random, n, cs, depth)) == LocatedChildren(f, random, n, cs)
    && Keeps(last, LastAfter(last, ChildLines(f, random, n, cs, depth)), depth)
  }

  lemma {:induction false} NodeReadsBack(f: Forest, random: nat -> string, n: nat, depth: nat, last: Last)
    requires Grows(f) && Direct(f) && n < |f.gsn.nodes| && depth >= 1 && depth - 1 in last
    requires f.gsn.Path(n) == last[depth - 1] + "/" + NameOf(f.gsn.Path(n))
    ensures NodeReads(f, random, n, depth, last)
    decreases f.gsn.Room(n), 1, 0
  {
    ChildrenReadBack(f, random, n, f.children[n], depth + 1, last[depth := f.gsn.Path(n)]);
    NodeAroundChildren(f, random, n, depth, last);
  }

  lemma NodeAroundChildren(f: Forest, random: nat -> string, n: nat, depth: nat, last: Last)
    requires Grows(f) && n < |f.gsn.nodes| && depth >= 1 && depth - 1 in last
    requires f.gsn.Path(n) == last[depth - 1] + "/" + NameOf(f.gsn.Path(n))
    requires ChildrenRead(f, random, n, f.children[n], depth + 1, last[depth := f.gsn.Path(n)])
    ensures NodeReads(f, random, n, depth, last)
  {
    OwnLinesReadBack(last, depth, f.gsn.nodes[n], random(n), ChildLines(f, random, n, f.children[n], depth + 1),
        f.references[n]);
  }

  lemma OwnLinesReadBack(last: Last, depth: nat, node: GsnNode, random: string, children: seq<Entry>, refs: seq<Ref>)
    requires depth >= 1 && depth - 1 in last && node.id == last[depth - 1] + "/" + NameOf(node.id)
    requires Keeps(last[depth := node.id], LastAfter(last[depth := node.id], children), depth + 1)
    ensures Locate(last, [Entry(depth, NodeLine(node.nodeType, NameOf(node.id)))]
        + Indented(AttributeLines(node, random), depth + 1)
                         + children + Indented(RefLines(refs), depth + 1))
         == [Located(node.id, NodeLine(node.nodeType, NameOf(node.id)))] + At(node.id, AttributeLines(node, random))
            + Locate(last[depth := node.id], children) + At(node.id, RefLines(refs))
    ensures Keeps(last, LastAfter(last, [Entry(depth, NodeLine(node.nodeType, NameOf(node.id)))]
        + Indented(AttributeLines(node, random), depth + 1)
                                        + children + Indented(RefLines(refs), depth + 1)), depth)
  {
    AttributesHaveNoNodes(node, random);
    RefsHaveNoNodes(refs);
    LinesReadBack(last, depth, node.nodeType, NameOf(node.id), node.id, AttributeLines(node, random), children,
        RefLines(refs));
  }

  lemma OneLine(last: Last, depth: nat, t: NodeType, name: string, id: string)
    requires depth >= 1 && depth - 1 in last && id == last[depth - 1] + "/" + name
    ensures LastAfter(last, [Entry(depth, NodeLine(t, name))]) == last[depth := id]
    ensures Locate(last, [Entry(depth, NodeLine(t, name))]) == [Located(id, NodeLine(t, name))]
  {
    var e := Entry(depth, NodeLine(t, name));
    assert [e][1..] == [];
    assert Locate(Push(last, e), []) == [];
  }

  lemma LinesReadBack(last: Last, depth: nat, t: NodeType, name: string, id: string,
                      attributes: seq<Line>, children: seq<Entry>, refs: seq<Line>)
    requires depth >= 1 && depth - 1 in last && id == last[depth - 1] + "/" + name
    requires NoNodes(attributes) && NoNodes(refs)
    requires Keeps(last[depth := id], LastAfter(last[depth := id], children), depth + 1)
    ensures Locate(last, [Entry(depth, NodeLine(t, name))] + Indented(attributes, depth + 1) + children
        + Indented(refs, depth + 1))
         == [Located(id, NodeLine(t, name))] + At(id, attributes) + Locate(last[depth := id], children) + At(id, refs)
    ensures Keeps(last, LastAfter(last, [Entry(depth, NodeLine(t, name))] + Indented(attributes, depth + 1) + children
                                        + Indented(refs, depth + 1)), depth)
  {
    var last1 := last[depth := id];
    var last2 := LastAfter(last1, children);
    OneLine(last, depth, t, name, id);
    InsideReads(last1, attributes, depth + 1);
    InsideReads(last2, refs, depth + 1);
    LocateFour(last, [Entry(depth, NodeLine(t, name))], Indented(attributes, depth + 1), children,
               Indented(refs, depth + 1),
               last1, last1, last2);
  }

  lemma {:induction false} ChildrenReadBack(
      f: Forest, random: nat -> string, n: nat, cs: seq<nat>, depth: nat, last: Last)
    requires Grows(f) && Direct(f) && n < |f.gsn.nodes| && depth >= 1 && depth - 1 in last
    requires last[depth - 1] == f.gsn.Path(n)
    requires Longer(f.gsn, n, cs) && Named(f.gsn, f.gsn.Path(n), cs)
    ensures ChildrenRead(f, random, n, cs, depth, last)
    decreases f.gsn.Room(n), 0, |cs|
  {
    if cs == [] {
    } else {
      NodeReadsBack(f, random, cs[0], depth, last);
      var first, rest := NodeLines(f, random, cs[0], depth), ChildLines(f, random, n, cs[1..], depth);
      var last1 := LastAfter(last, first);
      ChildrenReadBack(f, random, n, cs[1..], depth, last1);
      LocateAppend(last, first, rest);
    }
  }

  lemma {:induction false} RootsReadBack(f: Forest, random: nat -> string, name: string, roots: seq<nat>, last: Last)
    requires Grows(f) && Direct(f) && AllNodes(f.gsn, roots) && 0 in last && last[0] == name
    requires Named(f.gsn, name, roots)
    ensures Locate(last, RootLines(f, random, roots)) == LocatedRoots(f, random, roots)
    decreases |roots|
  {
    if roots == [] {
    } else {
      NodeReadsBack(f, random, roots[0], 1, last);
      var first, rest := NodeLines(f, random, roots[0], 1), RootLines(f, random, roots[1..]);
      var last1 := LastAfter(last, first);
      RootsReadBack(f, random, name, roots[1..], last1);
      LocateAppend(last, first, rest);
    }
  }
}
