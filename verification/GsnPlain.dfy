/** Which models have texts that can be read back. */
module GsnPlain {
  import opened Refs
  import opened Text
  import opened GsnModel
  import opened GsnWalk
  import opened GsnForest
  import opened GsnText
  import opened GsnRoundTrip

  /** A path of names and slashes. */
  predicate PlainPath(path: string) { '.' !in path && '\n' !in path }

  lemma NameIsPlain(name: string, c: char)
    requires IsName(name) && !IsNamePart(c)
    ensures c !in name
  {
  }

  lemma {:induction false} JoinedNames(pieces: seq<string>, c: char)
    requires forall i :: 0 <= i < |pieces| ==> c !in pieces[i]
    requires c != '/'
    ensures c !in Join(pieces, "/")
  {
    if |pieces| <= 1 {
    } else {
      JoinedNames(pieces[1..], c);
    }
  }

  lemma ValidIdIsPlain(id: string)
    requires ValidId(id)
    ensures PlainPath(id) && PlainPath(NameOf(id))
  {
    var pieces := Pieces(id);
    forall i | 0 <= i < |pieces| ensures '.' !in pieces[i] && '\n' !in pieces[i] {
      NameIsPlain(pieces[i], '.');
      NameIsPlain(pieces[i], '\n');
    }
    JoinSplit(id, "/");
    JoinedNames(pieces, '.');
    JoinedNames(pieces, '\n');
  }

  // ----- Nodes whose lines fit -----

  predicate NoBreak(text: Option<string>) { text.Some? ==> '\n' !in text.value }

  predicate NoBreaks(texts: Option<seq<string>>) {
    texts.Some? ==> forall i :: 0 <= i < |texts.value| ==> '\n' !in texts.value[i]
  }

  /** No attribute holds a line break. */
  predicate PlainAttributes(node: GsnNode, random: string) {
    && '\n' !in UuidOf(node, random) && NoBreak(node.summary) && NoBreak(node.info)
    && NoBreaks(node.labels) && NoBreaks(node.artifacts)
  }

  predicate PlainRefs(refs: seq<Ref>) {
    refs == [] || (!refs[0].refType.OtherType? && PlainPath(refs[0].path) && PlainRefs(refs[1..]))
  }

  predicate Fit(ls: seq<Line>) {
    ls == [] || (FitsLine(ls[0]) && Fit(ls[1..]))
  }

  lemma {:induction false} FitAppend(a: seq<Line>, b: seq<Line>)
    requires Fit(a) && Fit(b)
    ensures Fit(a + b)
    decreases |a|
  {
    if a == [] {
      assert a + b == b;
    } else {
      assert (a + b)[1..] == a[1..] + b;
      FitAppend(a[1..], b);
    }
  }

  lemma {:induction false} AllFitAppend(a: seq<Entry>, b: seq<Entry>)
    requires AllFit(a) && AllFit(b)
    ensures AllFit(a + b)
    decreases |a|
  {
    if a == [] {
      assert a + b == b;
    } else {
      assert (a + b)[1..] == a[1..] + b;
      AllFitAppend(a[1..], b);
    }
  }

  lemma {:induction false} IndentedFit(ls: seq<Line>, depth: nat)
    requires Fit(ls)
    ensures AllFit(Indented(ls, depth))
  {
    if ls == [] {
    } else {
      IndentedFit(ls[1..], depth);
      assert Indented(ls, depth)[1..] == Indented(ls[1..], depth);
    }
  }

  ghost predicate MakesFit(toLine: string -> Line) {
    forall s {:trigger toLine(s)} :: '\n' !in s ==> FitsLine(toLine(s))
  }

  lemma {:induction false} ListFits(texts: seq<string>, toLine: string -> Line)
    requires forall i :: 0 <= i < |texts| ==> '\n' !in texts[i]
    requires MakesFit(toLine)
    ensures Fit(ListLines(texts, toLine))
  {
    if texts == [] {
    } else {
      ListFits(texts[1..], toLine);
    }
  }

  lemma {:induction false} ReplaceAddsNo(s: string, x: char)
    requires x !in s && x != '.'
    ensures x !in Replace(s, '/', '.')
  {
    if s == [] {
    } else {
      ReplaceAddsNo(s[1..], x);
    }
  }

  lemma {:induction false} RefsFit(refs: seq<Ref>)
    requires PlainRefs(refs)
    ensures Fit(RefLines(refs))
  {
    if refs == [] {
    } else {
      RefsFit(refs[1..]);
      TypeIsPlain(refs[0].refType);
      ReplaceAddsNo(refs[0].path, '\n');
      assert RefLines(refs)[1..] == RefLines(refs[1..]);
    }
  }

  lemma TypeIsPlain(t: NodeType)
    requires !t.OtherType?
    ensures '\n' !in LowerCase(t)
  {
  }

  lemma WordIsPlain(l: Line)
    requires Readable(l)
    ensures '\n' !in WordOf(l)
  {
    match l
    case NodeLine(t, _) => TypeIsPlain(t);
    case RefLine(t, _) => TypeIsPlain(t);
    case _ =>
  }

  lemma PlainLineFits(l: Line)
    requires Readable(l) && '\n' !in RestOf(l)
    ensures FitsLine(l)
  {
    WordIsPlain(l);
  }

  lemma OptionalFits(text: Option<string>, toLine: string -> Line)
    requires NoBreak(text) && MakesFit(toLine)
    ensures Fit(OptionalLine(text, toLine))
  {
    if text.Some? && text.value != "" {
      assert FitsLine(toLine(text.value));
      assert OptionalLine(text, toLine)[1..] == [];
    }
  }

  lemma LineMakerFits(toLine: string -> Line)
    requires forall s {:trigger toLine(s)} :: Readable(toLine(s)) && ('\n' !in s ==> '\n' !in RestOf(toLine(s)))
    ensures MakesFit(toLine)
  {
    forall s | '\n' !in s ensures FitsLine(toLine(s)) {
      PlainLineFits(toLine(s));
    }
  }

  lemma QuotedIsPlain(s: string)
    requires '\n' !in s
    ensures '\n' !in "\"" + s + "\""
  {
  }

  lemma QuotedLinesFit()
    ensures MakesFit(s => SummaryLine(s)) && MakesFit(s => InfoLine(s)) && MakesFit(s => ArtifactLine(s))
  {
    forall s: string | '\n' !in s ensures '\n' !in "\"" + s + "\"" {
      QuotedIsPlain(s);
    }
    LineMakerFits(s => SummaryLine(s));
    LineMakerFits(s => InfoLine(s));
    LineMakerFits(s => ArtifactLine(s));
  }

  lemma TextLinesFit()
    ensures MakesFit(s => UuidLine(s)) && MakesFit(s => LabelLine(s))
  {
    LineMakerFits(s => UuidLine(s));
    LineMakerFits(s => LabelLine(s));
  }

  lemma FiveFit(a: seq<Line>, b: seq<Line>, c: seq<Line>, d: seq<Line>, e: seq<Line>)
    requires Fit(a) && Fit(b) && Fit(c) && Fit(d) && Fit(e)
    ensures Fit(a + b + c + d + e)
  {
    FitAppend(a, b);
    FitAppend(a + b, c);
    FitAppend(a + b + c, d);
    FitAppend(a + b + c + d, e);
  }

  lemma AttributesFit(node: GsnNode, random: string)
    requires PlainAttributes(node, random)
    ensures Fit(AttributeLines(node, random))
  {
    TextLinesFit();
    QuotedLinesFit();
    OptionalFits(Some(UuidOf(node, random)), s => UuidLine(s));
    OptionalFits(node.summary, s => SummaryLine(s));
    OptionalFits(node.info, s => InfoLine(s));
    ListFits(OrNone(node.labels), s => LabelLine(s));
    ListFits(OrNone(node.artifacts), s => ArtifactLine(s));
    FiveFit(OptionalLine(Some(UuidOf(node, random)), s => UuidLine(s)), OptionalLine(node.summary, s => SummaryLine(s)),
            OptionalLine(node.info, s => InfoLine(s)), ListLines(OrNone(node.labels), s => LabelLine(s)),
            ListLines(OrNone(node.artifacts), s => ArtifactLine(s)));
  }

  // ----- Forests whose lines fit -----

  ghost predicate PlainForest(f: Forest, random: nat -> string)
    requires Grows(f)
  {
    forall n: nat :: n < |f.gsn.nodes| ==> PlainNode(f.gsn.nodes[n], random(n), f.references[n])
  }

  predicate PlainNode(node: GsnNode, random: string, refs: seq<Ref>) {
    !node.nodeType.OtherType? && '\n' !in NameOf(node.id) && PlainAttributes(node, random) && PlainRefs(refs)
  }

  lemma OwnLinesFit(node: GsnNode, random: string, refs: seq<Ref>, depth: nat, children: seq<Entry>)
    requires PlainNode(node, random, refs) && AllFit(children)
    ensures AllFit([Entry(depth, NodeLine(node.nodeType, NameOf(node.id)))]
        + Indented(AttributeLines(node, random), depth + 1)
                   + children + Indented(RefLines(refs), depth + 1))
  {
    var first := NodeLine(node.nodeType, NameOf(node.id));
    PlainLineFits(first);
    assert [Entry(depth, first)][1..] == [];
    AttributesFit(node, random);
    RefsFit(refs);
    FourFit([Entry(depth, first)], AttributeLines(node, random), children, RefLines(refs), depth + 1);
  }

  lemma FourFit(first: seq<Entry>, attributes: seq<Line>, children: seq<Entry>, refs: seq<Line>, depth: nat)
    requires AllFit(first) && Fit(attributes) && AllFit(children) && Fit(refs)
    ensures AllFit(first + Indented(attributes, depth) + children + Indented(refs, depth))
  {
    IndentedFit(attributes, depth);
    IndentedFit(refs, depth);
    AllFitAppend(first, Indented(attributes, depth));
    AllFitAppend(first + Indented(attributes, depth), children);
    AllFitAppend(first + Indented(attributes, depth) + children, Indented(refs, depth));
  }

  lemma {:induction false} NodeFits(f: Forest, random: nat -> string, n: nat, depth: nat)
    requires Grows(f) && PlainForest(f, random) && n < |f.gsn.nodes|
    ensures AllFit(NodeLines(f, random, n, depth))
    decreases f.gsn.Room(n), 1, 0
  {
    ChildrenFit(f, random, n, f.children[n], depth + 1);
    OwnLinesFit(f.gsn.nodes[n], random(n), f.references[n], depth, ChildLines(f, random, n, f.children[n], depth + 1));
  }

  lemma {:induction false} ChildrenFit(f: Forest, random: nat -> string, n: nat, cs: seq<nat>, depth: nat)
    requires Grows(f) && PlainForest(f, random) && Longer(f.gsn, n, cs)
    ensures AllFit(ChildLines(f, random, n, cs, depth))
    decreases f.gsn.Room(n), 0, |cs|
  {
    if cs == [] {
    } else {
      NodeFits(f, random, cs[0], depth);
      ChildrenFit(f, random, n, cs[1..], depth);
      AllFitAppend(NodeLines(f, random, cs[0], depth), ChildLines(f, random, n, cs[1..], depth));
    }
  }

  lemma {:induction false} RootsFit(f: Forest, random: nat -> string, roots: seq<nat>)
    requires Grows(f) && PlainForest(f, random) && AllNodes(f.gsn, roots)
    ensures AllFit(RootLines(f, random, roots))
  {
    if roots == [] {
    } else {
      NodeFits(f, random, roots[0], 1);
      RootsFit(f, random, roots[1..]);
      AllFitAppend(NodeLines(f, random, roots[0], 1), RootLines(f, random, roots[1..]));
    }
  }
}
