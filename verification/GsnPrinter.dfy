/** The printer of a namespace: it collects lines under an indentation that it lengthens and shortens
    as it goes down and up. */
module GsnPrinter {
  import opened Refs
  import opened Sequences
  import opened Text
  import opened GsnModel
  import opened GsnWalk
  import opened GsnForest
  import opened GsnText

  class Printer {
    const indent: string
    var lines: seq<string>
    var currentIndent: string

    constructor (i: string)
      ensures indent == i && lines == [] && currentIndent == ""
    {
      indent := i;
      lines, currentIndent := [], "";
    }

    method IncreaseIndent(ghost depth: nat)
      requires currentIndent == Repeat(indent, depth)
      modifies this`currentIndent
      ensures currentIndent == Repeat(indent, depth + 1)
    {
      RepeatFromTheRight(indent, depth);
      currentIndent := currentIndent + indent;
    }

    method DecreaseIndent(ghost depth: nat)
      requires currentIndent == Repeat(indent, depth + 1)
      modifies this`currentIndent
      ensures currentIndent == Repeat(indent, depth)
    {
      currentIndent := currentIndent[|indent|..];
    }

    /** A line at the outermost level. */
    method AddText(text: string)
      requires currentIndent == Repeat(indent, 0)
      modifies this`lines
      ensures lines == old(lines) + [text]
    {
      assert currentIndent + text == text;
      lines := lines + [currentIndent + text];
    }

    method AddLine(l: Line, ghost depth: nat)
      requires currentIndent == Repeat(indent, depth)
      modifies this`lines
      ensures lines == old(lines) + TextsAt(indent, [l], depth)
    {
      OneText(indent, l, depth);
      lines := lines + [currentIndent + Body(l)];
    }

    method AddOptional(text: Option<string>, toLine: string -> Line, ghost depth: nat)
      requires currentIndent == Repeat(indent, depth)
      modifies this`lines
      ensures lines == old(lines) + TextsAt(indent, OptionalLine(text, toLine), depth)
    {
      if text.Some? && text.value != "" {
        AddLine(toLine(text.value), depth);
      } else {
        assert lines + [] == lines;
      }
    }

    method AddEach(texts: seq<string>, toLine: string -> Line, ghost depth: nat)
      requires currentIndent == Repeat(indent, depth)
      modifies this`lines
      ensures lines == old(lines) + TextsAt(indent, ListLines(texts, toLine), depth)
    {
      var rest := texts;
      while rest != []
        invariant lines + TextsAt(indent, ListLines(rest, toLine), depth)
               == old(lines) + TextsAt(indent, ListLines(texts, toLine), depth)
      {
        TextsAtAppend(indent, [toLine(rest[0])], ListLines(rest[1..], toLine), depth, lines);
        AddLine(toLine(rest[0]), depth);
        rest := rest[1..];
      }
    }

    method AddRefs(refs: seq<Ref>, ghost depth: nat)
      requires currentIndent == Repeat(indent, depth)
      modifies this`lines
      ensures lines == old(lines) + TextsAt(indent, RefLines(refs), depth)
    {
      var rest := refs;
      while rest != []
        invariant lines + TextsAt(indent, RefLines(rest), depth) == old(lines) + TextsAt(indent, RefLines(refs), depth)
      {
        TextsAtAppend(indent, [RefLine(rest[0].refType, rest[0].path)], RefLines(rest[1..]), depth, lines);
        AddLine(RefLine(rest[0].refType, rest[0].path), depth);
        rest := rest[1..];
      }
    }

    method AddAttributes(node: GsnNode, random: string, ghost depth: nat)
      requires currentIndent == Repeat(indent, depth)
      modifies this`lines
      ensures lines == old(lines) + TextsAt(indent, AttributeLines(node, random), depth)
    {
      AttributeTexts(indent, node, random, depth, lines);
      AddOptional(Some(UuidOf(node, random)), s => UuidLine(s), depth);
      AddOptional(node.summary, s => SummaryLine(s), depth);
      AddOptional(node.info, s => InfoLine(s), depth);
      AddEach(OrNone(node.labels), s => LabelLine(s), depth);
      AddEach(OrNone(node.artifacts), s => ArtifactLine(s), depth);
    }

    method SerializeNodeRec(f: Forest, random: nat -> string, n: nat, ghost depth: nat)
      requires Grows(f) && n < |f.gsn.nodes| && currentIndent == Repeat(indent, depth)
      modifies this
      ensures currentIndent == Repeat(indent, depth)
      ensures lines == old(lines) + Texts(indent, NodeLines(f, random, n, depth))
      decreases f.gsn.Room(n), 1
    {
      var node := f.gsn.nodes[n];
      NodeTexts(indent, f, random, n, depth, lines);
      AddLine(NodeLine(node.nodeType, NameOf(node.id)), depth);
      IncreaseIndent(depth);
      AddAttributes(node, random(n), depth + 1);
      SerializeChildren(f, random, n, depth + 1);
      AddRefs(f.references[n], depth + 1);
      DecreaseIndent(depth);
    }

    method SerializeChildren(f: Forest, random: nat -> string, n: nat, ghost depth: nat)
      requires Grows(f) && n < |f.gsn.nodes| && currentIndent == Repeat(indent, depth)
      modifies this
      ensures currentIndent == Repeat(indent, depth)
      ensures lines == old(lines) + Texts(indent, ChildLines(f, random, n, f.children[n], depth))
      decreases f.gsn.Room(n), 0
    {
      var rest: seq<nat> := f.children[n];
      while rest != []
        invariant currentIndent == Repeat(indent, depth)
        invariant Longer(f.gsn, n, rest)
        invariant lines + Texts(indent, ChildLines(f, random, n, rest, depth))
               == old(lines) + Texts(indent, ChildLines(f, random, n, f.children[n], depth))
      {
        ChildTexts(indent, f, random, n, rest, depth, lines);
        SerializeNodeRec(f, random, rest[0], depth);
        rest := rest[1..];
      }
    }

    method SerializeRoots(f: Forest, random: nat -> string, roots: seq<nat>)
      requires Grows(f) && AllNodes(f.gsn, roots) && currentIndent == Repeat(indent, 1)
      modifies this
      ensures currentIndent == Repeat(indent, 1)
      ensures lines == old(lines) + Texts(indent, RootLines(f, random, roots))
    {
      var rest: seq<nat> := roots;
      while rest != []
        invariant currentIndent == Repeat(indent, 1) && AllNodes(f.gsn, rest)
        invariant lines + Texts(indent, RootLines(f, random, rest))
               == old(lines) + Texts(indent, RootLines(f, random, roots))
      {
        RootTexts(indent, f, random, rest, lines);
        SerializeNodeRec(f, random, rest[0], 1);
        rest := rest[1..];
      }
    }
  }

  lemma {:induction false} RepeatFromTheRight(s: string, n: nat)
    ensures Repeat(s, n + 1) == Repeat(s, n) + s
  {
    if n == 0 {
      assert s + [] == [] + s;
    } else {
      RepeatFromTheRight(s, n - 1);
      Regroup(s, Repeat(s, n - 1), s);
    }
  }

  function TextsAt(indent: string, ls: seq<Line>, depth: nat): seq<string> {
    Texts(indent, Indented(ls, depth))
  }

  lemma OneText(indent: string, l: Line, depth: nat)
    ensures TextsAt(indent, [l], depth) == [Repeat(indent, depth) + Body(l)]
  {
    var e := Entry(depth, l);
    assert Indented([l], depth) == [e];
    assert Texts(indent, [e]) == [TextOf(indent, e)];
  }

  lemma TextsAtAppend(indent: string, a: seq<Line>, b: seq<Line>, depth: nat, lines: seq<string>)
    ensures lines + TextsAt(indent, a + b, depth) == lines + TextsAt(indent, a, depth) + TextsAt(indent, b, depth)
  {
    IndentedAppend(a, b, depth);
    TextsAppend(indent, Indented(a, depth), Indented(b, depth));
    Regroup(lines, TextsAt(indent, a, depth), TextsAt(indent, b, depth));
  }

  lemma FiveTexts(
      indent: string, a: seq<Line>, b: seq<Line>, c: seq<Line>, d: seq<Line>, e: seq<Line>, depth: nat,
      lines: seq<string>)
    ensures lines + TextsAt(indent, a + b + c + d + e, depth)
         == lines + TextsAt(indent, a, depth) + TextsAt(indent, b, depth) + TextsAt(indent, c, depth)
                  + TextsAt(indent, d, depth) + TextsAt(indent, e, depth)
  {
    TextsAtAppend(indent, a, b, depth, lines);
    TextsAtAppend(indent, a + b, c, depth, lines);
    TextsAtAppend(indent, a + b + c, d, depth, lines);
    TextsAtAppend(indent, a + b + c + d, e, depth, lines);
  }

  lemma AttributeTexts(indent: string, node: GsnNode, random: string, depth: nat, lines: seq<string>)
    ensures lines + TextsAt(indent, AttributeLines(node, random), depth)
         == lines + TextsAt(indent, OptionalLine(Some(UuidOf(node, random)), s => UuidLine(s)), depth)
                  + TextsAt(indent, OptionalLine(node.summary, s => SummaryLine(s)), depth)
                  + TextsAt(indent, OptionalLine(node.info, s => InfoLine(s)), depth)
                  + TextsAt(indent, ListLines(OrNone(node.labels), s => LabelLine(s)), depth)
                  + TextsAt(indent, ListLines(OrNone(node.artifacts), s => ArtifactLine(s)), depth)
  {
    FiveTexts(indent, OptionalLine(Some(UuidOf(node, random)), s => UuidLine(s)),
              OptionalLine(node.summary, s => SummaryLine(s)), OptionalLine(node.info, s => InfoLine(s)),
              ListLines(OrNone(node.labels), s => LabelLine(s)),
              ListLines(OrNone(node.artifacts), s => ArtifactLine(s)), depth, lines);
  }

  lemma NodeTexts(indent: string, f: Forest, random: nat -> string, n: nat, depth: nat, lines: seq<string>)
    requires Grows(f) && n < |f.gsn.nodes|
    ensures lines + Texts(indent, NodeLines(f, random, n, depth))
         == lines + TextsAt(indent, [NodeLine(f.gsn.nodes[n].nodeType, NameOf(f.gsn.Path(n)))], depth)
                  + TextsAt(indent, AttributeLines(f.gsn.nodes[n], random(n)), depth + 1)
                  + Texts(indent, ChildLines(f, random, n, f.children[n], depth + 1))
                  + TextsAt(indent, RefLines(f.references[n]), depth + 1)
  {
    var node := f.gsn.nodes[n];
    assert Indented([NodeLine(node.nodeType, NameOf(node.id))], depth)
        == [Entry(depth, NodeLine(node.nodeType, NameOf(node.id)))];
    FourTexts(indent, [Entry(depth, NodeLine(node.nodeType, NameOf(node.id)))],
              Indented(AttributeLines(node, random(n)), depth + 1),
              ChildLines(f, random, n, f.children[n], depth + 1),
              Indented(RefLines(f.references[n]), depth + 1), lines);
  }

  lemma ChildTexts(
      indent: string, f: Forest, random: nat -> string, n: nat, cs: seq<nat>, depth: nat, lines: seq<string>)
    requires Grows(f) && Longer(f.gsn, n, cs) && cs != []
    ensures Longer(f.gsn, n, cs[1..])
    ensures lines + Texts(indent, ChildLines(f, random, n, cs, depth))
         == lines + Texts(indent, NodeLines(f, random, cs[0], depth))
                  + Texts(indent, ChildLines(f, random, n, cs[1..], depth))
  {
    var first, others := NodeLines(f, random, cs[0], depth), ChildLines(f, random, n, cs[1..], depth);
    TextsAppend(indent, first, others);
    Regroup(lines, Texts(indent, first), Texts(indent, others));
  }

  lemma RootTexts(indent: string, f: Forest, random: nat -> string, roots: seq<nat>, lines: seq<string>)
    requires Grows(f) && AllNodes(f.gsn, roots) && roots != []
    ensures AllNodes(f.gsn, roots[1..])
    ensures lines + Texts(indent, RootLines(f, random, roots))
         == lines + Texts(indent, NodeLines(f, random, roots[0], 1)) + Texts(indent, RootLines(f, random, roots[1..]))
  {
    var first, others := NodeLines(f, random, roots[0], 1), RootLines(f, random, roots[1..]);
    TextsAppend(indent, first, others);
    Regroup(lines, Texts(indent, first), Texts(indent, others));
  }

  lemma FourTexts(indent: string, a: seq<Entry>, b: seq<Entry>, c: seq<Entry>, d: seq<Entry>, lines: seq<string>)
    ensures lines + Texts(indent, a + b + c + d)
         == lines + Texts(indent, a) + Texts(indent, b) + Texts(indent, c) + Texts(indent, d)
  {
    TextsAppend(indent, a, b);
    TextsAppend(indent, a + b, c);
    TextsAppend(indent, a + b + c, d);
    Regroup(lines, Texts(indent, a), Texts(indent, b));
    Regroup(lines, Texts(indent, a + b), Texts(indent, c));
    Regroup(lines, Texts(indent, a + b + c), Texts(indent, d));
  }

  method NamespaceLines(f: Forest, random: nat -> string, ns: Namespace, indent: string) returns (lines: seq<string>)
    requires Grows(f) && AllNodes(f.gsn, ns.roots)
    ensures lines == NamespaceTexts(f, random, ns, indent)
  {
    var p := new Printer(indent);
    var header := Keyword(ns.nsType) + " " + ns.name;
    p.AddText(header);
    assert p.lines == [header];
    p.IncreaseIndent(0);
    p.SerializeRoots(f, random, ns.roots);
    p.DecreaseIndent(0);
    p.AddText("");
    lines := p.lines;
  }

  method GenerateGsnText(f: Forest, random: nat -> string, ns: Namespace, indent: string) returns (text: string)
    requires Grows(f) && AllNodes(f.gsn, ns.roots)
    ensures text == Join(NamespaceTexts(f, random, ns, indent), "\n")
  {
    var lines := NamespaceLines(f, random, ns, indent);
    text := Join(lines, "\n");
  }
}
