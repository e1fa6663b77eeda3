/** The second pass over a GSN model: from the roots down, relations become children where the path
    goes down and references where it does not. */
module GsnWalk {
  import opened Refs
  import opened Sequences
  import opened GsnModel

  // ----- Relations of a node -----

  /** Comparison character by character. */
  predicate AtMost(a: string, b: string) {
    a == [] || (b != [] && (a[0] < b[0] || (a[0] == b[0] && AtMost(a[1..], b[1..]))))
  }

  function Insert(x: string, s: seq<string>): seq<string> {
    if s == [] || AtMost(x, s[0]) then [x] + s else [s[0]] + Insert(x, s[1..])
  }

  /** What Array.sort makes of a list of strings. */
  function Sorted(s: seq<string>): seq<string> {
    if s == [] then [] else Insert(s[0], Sorted(s[1..]))
  }

  lemma {:induction false} InsertCounts(x: string, s: seq<string>, y: string)
    ensures Count(Insert(x, s), y) == Count(s, y) + if x == y then 1 else 0
  {
    if s == [] || AtMost(x, s[0]) {
      assert ([x] + s)[1..] == s;
    } else {
      InsertCounts(x, s[1..], y);
      assert ([s[0]] + Insert(x, s[1..]))[1..] == Insert(x, s[1..]);
    }
  }

  ghost predicate InOrder(s: seq<string>) {
    forall i :: 0 <= i < |s| - 1 ==> AtMost(s[i], s[i + 1])
  }

  lemma {:induction false} AtMostIsTotal(a: string, b: string)
    ensures AtMost(a, b) || AtMost(b, a)
  {
    if a != [] && b != [] && a[0] == b[0] {
      AtMostIsTotal(a[1..], b[1..]);
    }
  }

  lemma {:induction false} InsertKeepsOrder(x: string, s: seq<string>)
    requires InOrder(s)
    ensures InOrder(Insert(x, s))
    ensures Insert(x, s) != [] && (Insert(x, s)[0] == x || (s != [] && Insert(x, s)[0] == s[0]))
  {
    if s != [] && !AtMost(x, s[0]) {
      AtMostIsTotal(x, s[0]);
      var rest := s[1..];
      assert InOrder(rest) by {
        assert forall i :: 0 <= i < |rest| ==> rest[i] == s[i + 1];
      }
      InsertKeepsOrder(x, rest);
      var r := Insert(x, rest);
      assert r[0] == x || r[0] == s[1];
    }
  }

  /** Sorting orders the list and keeps every entry as often as it occurs. */
  lemma {:induction false} SortedSorts(s: seq<string>, y: string)
    ensures InOrder(Sorted(s)) && Count(Sorted(s), y) == Count(s, y)
  {
    if s == [] {
    } else {
      SortedSorts(s[1..], y);
      InsertCounts(s[0], Sorted(s[1..]), y);
      InsertKeepsOrder(s[0], Sorted(s[1..]));
    }
  }

  function OrNone(s: Option<seq<string>>): seq<string> {
    match s case None => [] case Some(v) => v
  }

  function Relations(node: GsnNode): seq<string> {
    Sorted(OrNone(node.solvedBy) + OrNone(node.inContextOf))
  }

  predicate IsChildPath(path: string, owner: string) { owner + "/" <= path }

  // ----- The walk -----

  datatype Gsn = Gsn(nodes: seq<GsnNode>, nodeMap: map<string, nat>)
  {
    ghost predicate Valid() { IsNodeMap(nodes, nodeMap) }

    function Path(n: nat): string
      requires n < |nodes|
    {
      nodes[n].id
    }

    /** How much longer paths can get. */
    ghost function Room(n: nat): nat
      requires n < |nodes|
    {
      PathFits(nodes, n);
      Longest(nodes) - |Path(n)|
    }
  }

  ghost function Longest(nodes: seq<GsnNode>): nat {
    if nodes == [] then 0 else
    var rest, own := Longest(nodes[1..]), |nodes[0].id|;
    if own < rest then rest else own
  }

  lemma {:induction false} PathFits(nodes: seq<GsnNode>, n: nat)
    requires n < |nodes|
    ensures |nodes[n].id| <= Longest(nodes)
    decreases n
  {
    if n == 0 {
    } else {
      PathFits(nodes[1..], n - 1);
    }
  }

  datatype Event =
    | Enter(owner: nat)
    | Child(owner: nat, child: nat)
    | Reference(owner: nat, target: nat)
    | Missing(owner: nat, path: string)
    | Unrooted(namespace: string)

  /** What the traversal does at node n and below, step by step. */
  function Walk(gsn: Gsn, n: nat): seq<Event>
    requires gsn.Valid() && n < |gsn.nodes|
    decreases gsn.Room(n), 2, 0
  {
    [Enter(n)] + WalkRelations(gsn, n, Relations(gsn.nodes[n]))
  }

  function WalkRelations(gsn: Gsn, n: nat, paths: seq<string>): seq<Event>
    requires gsn.Valid() && n < |gsn.nodes|
    decreases gsn.Room(n), 1, |paths|
  {
    if paths == [] then [] else
    Follow(gsn, n, paths[0]) + WalkRelations(gsn, n, paths[1..])
  }

  /** What a relation of node n comes to. */
  function Emit(gsn: Gsn, n: nat, path: string): Event
    requires n < |gsn.nodes|
  {
    if path !in gsn.nodeMap then Missing(n, path)
    else if IsChildPath(path, gsn.Path(n)) then Child(n, gsn.nodeMap[path])
    else Reference(n, gsn.nodeMap[path])
  }

  function Follow(gsn: Gsn, n: nat, path: string): seq<Event>
    requires gsn.Valid() && n < |gsn.nodes|
    decreases gsn.Room(n), 0, 0
  {
    var e := Emit(gsn, n, path);
    if e.Child? then [e] + Walk(gsn, e.child) else [e]
  }

  datatype Ref = Ref(refType: NodeType, path: string)

  function ChildrenIn(log: seq<Event>, n: nat): seq<nat> {
    if log == [] then [] else
    var e := log[|log| - 1];
    ChildrenIn(log[..|log| - 1], n) + if e.Child? && e.owner == n then [e.child] else []
  }

  function RefsIn(gsn: Gsn, log: seq<Event>, n: nat): seq<Ref> {
    if log == [] then [] else
    var e := log[|log| - 1];
    RefsIn(gsn, log[..|log| - 1], n) +
    if e.Reference? && e.owner == n && e.target < |gsn.nodes|
    then [Ref(gsn.nodes[e.target].nodeType, gsn.Path(e.target))] else []
  }

  function ErrorOf(gsn: Gsn, e: Event): seq<GsnError> {
    match e
    case Missing(n, path) => if n < |gsn.nodes| then [MissingNode(gsn.Path(n), path)] else []
    case Unrooted(name) => [NoRoots(name)]
    case _ => []
  }

  function ErrorsIn(gsn: Gsn, log: seq<Event>): seq<GsnError> {
    if log == [] then [] else
    ErrorsIn(gsn, log[..|log| - 1]) + ErrorOf(gsn, log[|log| - 1])
  }

  /** The edge that an event hands to the search for loops. */
  function EdgeOf(gsn: Gsn, e: Event): set<(string, string)> {
    match e
    case Child(n, c) => if n < |gsn.nodes| && c < |gsn.nodes| then {(gsn.Path(n), gsn.Path(c))} else {}
    case Reference(n, c) => if n < |gsn.nodes| && c < |gsn.nodes| then {(gsn.Path(n), gsn.Path(c))} else {}
    case _ => {}
  }

  function EdgesIn(gsn: Gsn, log: seq<Event>): set<(string, string)> {
    if log == [] then {} else
    EdgesIn(gsn, log[..|log| - 1]) + EdgeOf(gsn, log[|log| - 1])
  }

  function AllChildren(gsn: Gsn, log: seq<Event>): (all: seq<seq<nat>>)
    ensures |all| == |gsn.nodes| && forall n :: 0 <= n < |gsn.nodes| ==> all[n] == ChildrenIn(log, n)
  {
    seq(|gsn.nodes|, n requires 0 <= n < |gsn.nodes| => ChildrenIn(log, n))
  }

  function AllRefs(gsn: Gsn, log: seq<Event>): (all: seq<seq<Ref>>)
    ensures |all| == |gsn.nodes| && forall n :: 0 <= n < |gsn.nodes| ==> all[n] == RefsIn(gsn, log, n)
  {
    seq(|gsn.nodes|, n requires 0 <= n < |gsn.nodes| => RefsIn(gsn, log, n))
  }

  lemma OneMoreEvent(gsn: Gsn, log: seq<Event>, e: Event)
    ensures forall n :: ChildrenIn(log + [e], n) ==
              if e.Child? && e.owner == n then ChildrenIn(log, n) + [e.child] else ChildrenIn(log, n)
    ensures forall n :: RefsIn(gsn, log + [e], n) ==
              if e.Reference? && e.owner == n && e.target < |gsn.nodes|
              then RefsIn(gsn, log, n) + [Ref(gsn.nodes[e.target].nodeType, gsn.Path(e.target))]
              else RefsIn(gsn, log, n)
    ensures ErrorsIn(gsn, log + [e]) == ErrorsIn(gsn, log) + ErrorOf(gsn, e)
    ensures EdgesIn(gsn, log + [e]) == EdgesIn(gsn, log) + EdgeOf(gsn, e)
  {
    assert (log + [e])[..|log|] == log;
    forall n ensures ChildrenIn(log, n) + [] == ChildrenIn(log, n) {}
    forall n ensures RefsIn(gsn, log, n) + [] == RefsIn(gsn, log, n) {}
  }

  lemma SameChildren(gsn: Gsn, log: seq<Event>, log': seq<Event>)
    requires forall n :: ChildrenIn(log', n) == ChildrenIn(log, n)
    ensures AllChildren(gsn, log') == AllChildren(gsn, log)
  {
  }

  lemma SameRefs(gsn: Gsn, log: seq<Event>, log': seq<Event>)
    requires forall n :: RefsIn(gsn, log', n) == RefsIn(gsn, log, n)
    ensures AllRefs(gsn, log') == AllRefs(gsn, log)
  {
  }

  lemma ErrorEvent(gsn: Gsn, log: seq<Event>, e: Event)
    requires e.Enter? || e.Missing? || e.Unrooted?
    ensures AllChildren(gsn, log + [e]) == AllChildren(gsn, log)
    ensures AllRefs(gsn, log + [e]) == AllRefs(gsn, log)
    ensures ErrorsIn(gsn, log + [e]) == ErrorsIn(gsn, log) + ErrorOf(gsn, e)
    ensures EdgesIn(gsn, log + [e]) == EdgesIn(gsn, log)
  {
    OneMoreEvent(gsn, log, e);
    SameChildren(gsn, log, log + [e]);
    SameRefs(gsn, log, log + [e]);
  }

  lemma ChildEvent(gsn: Gsn, log: seq<Event>, n: nat, c: nat)
    requires n < |gsn.nodes| && c < |gsn.nodes|
    ensures AllChildren(gsn, log + [Child(n, c)]) == AllChildren(gsn, log)[n := AllChildren(gsn, log)[n] + [c]]
    ensures AllRefs(gsn, log + [Child(n, c)]) == AllRefs(gsn, log)
    ensures ErrorsIn(gsn, log + [Child(n, c)]) == ErrorsIn(gsn, log)
    ensures EdgesIn(gsn, log + [Child(n, c)]) == EdgesIn(gsn, log) + {(gsn.Path(n), gsn.Path(c))}
  {
    OneMoreEvent(gsn, log, Child(n, c));
    SameRefs(gsn, log, log + [Child(n, c)]);
  }

  lemma ReferenceEvent(gsn: Gsn, log: seq<Event>, n: nat, c: nat)
    requires n < |gsn.nodes| && c < |gsn.nodes|
    ensures AllChildren(gsn, log + [Reference(n, c)]) == AllChildren(gsn, log)
    ensures AllRefs(gsn, log + [Reference(n, c)])
         == AllRefs(gsn, log)[n := AllRefs(gsn, log)[n] + [Ref(gsn.nodes[c].nodeType, gsn.Path(c))]]
    ensures ErrorsIn(gsn, log + [Reference(n, c)]) == ErrorsIn(gsn, log)
    ensures EdgesIn(gsn, log + [Reference(n, c)]) == EdgesIn(gsn, log) + {(gsn.Path(n), gsn.Path(c))}
  {
    OneMoreEvent(gsn, log, Reference(n, c));
    SameChildren(gsn, log, log + [Reference(n, c)]);
  }

  class Traversal {
    const gsn: Gsn
    var children: seq<seq<nat>>
    var references: seq<seq<Ref>>
    var errors: seq<GsnError>
    var connections: set<(string, string)>

    /** What happened so far. */
    ghost var log: seq<Event>

    ghost predicate Valid()
      reads this
    {
      && gsn.Valid() && children == AllChildren(gsn, log) && references == AllRefs(gsn, log)
      && errors == ErrorsIn(gsn, log) && connections == EdgesIn(gsn, log)
    }

    constructor (g: Gsn)
      requires g.Valid()
      ensures Valid() && gsn == g && log == []
    {
      gsn := g;
      children := seq(|g.nodes|, _ => []);
      references := seq(|g.nodes|, _ => []);
      errors, connections, log := [], {}, [];
    }

    method AddError(e: Event)
      requires Valid() && (e.Missing? ==> e.owner < |gsn.nodes|) && (e.Missing? || e.Unrooted?)
      modifies this`errors, this`log
      ensures Valid() && log == old(log) + [e]
    {
      ErrorEvent(gsn, log, e);
      errors := errors + ErrorOf(gsn, e);
      log := log + [e];
    }

    method AddChild(n: nat, c: nat)
      requires Valid() && n < |gsn.nodes| && c < |gsn.nodes|
      modifies this`children, this`connections, this`log
      ensures Valid() && log == old(log) + [Child(n, c)]
    {
      ChildEvent(gsn, log, n, c);
      connections := connections + {(gsn.Path(n), gsn.Path(c))};
      children := children[n := children[n] + [c]];
      log := log + [Child(n, c)];
    }

    method AddReference(n: nat, c: nat)
      requires Valid() && n < |gsn.nodes| && c < |gsn.nodes|
      modifies this`references, this`connections, this`log
      ensures Valid() && log == old(log) + [Reference(n, c)]
    {
      ReferenceEvent(gsn, log, n, c);
      connections := connections + {(gsn.Path(n), gsn.Path(c))};
      references := references[n := references[n] + [Ref(gsn.nodes[c].nodeType, gsn.Path(c))]];
      log := log + [Reference(n, c)];
    }

    method FollowRelation(n: nat, path: string)
      requires Valid() && n < |gsn.nodes|
      modifies this
      ensures Valid() && log == old(log) + Follow(gsn, n, path)
      decreases gsn.Room(n), 0
    {
      if path !in gsn.nodeMap {
        AddError(Missing(n, path));
        return;
      }
      var child := gsn.nodeMap[path];
      if IsChildPath(path, gsn.Path(n)) {
        AddChild(n, child);
        TraverseRec(child);
        Regroup(old(log), [Child(n, child)], Walk(gsn, child));
      } else {
        AddReference(n, child);
      }
    }

    /** Terminates for any relations, cycles included: a child's path is longer. */
    method TraverseRec(n: nat)
      requires Valid() && n < |gsn.nodes|
      modifies this
      ensures Valid() && log == old(log) + Walk(gsn, n)
      decreases gsn.Room(n), 1
    {
      var relations := Relations(gsn.nodes[n]);
      ErrorEvent(gsn, log, Enter(n));
      assert errors + [] == errors;
      Regroup(log, [Enter(n)], WalkRelations(gsn, n, relations));
      log := log + [Enter(n)];
      while relations != []
        invariant Valid()
        invariant log + WalkRelations(gsn, n, relations) == old(log) + Walk(gsn, n)
      {
        Regroup(log, Follow(gsn, n, relations[0]), WalkRelations(gsn, n, relations[1..]));
        FollowRelation(n, relations[0]);
        relations := relations[1..];
      }
    }
  }
}
