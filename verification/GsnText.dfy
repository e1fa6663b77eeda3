/** The text of a namespace, line by line, and how to read it back. */
module GsnText {
  import opened Refs
  import opened Sequences
  import opened Text
  import opened GsnModel
  import opened GsnWalk
  import opened GsnForest

  // ----- Lines -----

  datatype Line =
    | NodeLine(nodeType: NodeType, name: string)
    | UuidLine(text: string)
    | SummaryLine(text: string)
    | InfoLine(text: string)
    | LabelLine(text: string)
    | ArtifactLine(text: string)
    | RefLine(nodeType: NodeType, path: string)

  /** A type in lower case. */
  function LowerCase(t: NodeType): string {
    match t
    case Goal => "goal"
    case Strategy => "strategy"
    case Solution => "solution"
    case Assumption => "assumption"
    case Justification => "justification"
    case Context => "context"
    case OtherType(text) => text
  }

  function Replace(s: string, c: char, d: char): string {
    if s == [] then [] else [if s[0] == c then d else s[0]] + Replace(s[1..], c, d)
  }

  /** A line is a word, a space and the rest. */
  function WordOf(l: Line): string {
    match l
    case NodeLine(t, _) => LowerCase(t)
    case UuidLine(_) => "uuid"
    case SummaryLine(_) => "summary"
    case InfoLine(_) => "info"
    case LabelLine(_) => "label"
    case ArtifactLine(_) => "artifact"
    case RefLine(t, _) => "ref_" + LowerCase(t)
  }

  function RestOf(l: Line): string {
    match l
    case NodeLine(_, name) => name
    case UuidLine(text) => text
    case SummaryLine(text) => "\"" + text + "\""
    case InfoLine(text) => "\"" + text + "\""
    case LabelLine(text) => text
    case ArtifactLine(text) => "\"" + text + "\""
    case RefLine(_, path) => Replace(path, '/', '.')
  }

  function Body(l: Line): string { WordOf(l) + " " + RestOf(l) }

  // ----- Reading a line -----

  function TypeNamed(word: string): Option<NodeType> {
    if word == "goal" then Some(Goal)
    else if word == "strategy" then Some(Strategy)
    else if word == "solution" then Some(Solution)
    else if word == "assumption" then Some(Assumption)
    else if word == "justification" then Some(Justification)
    else if word == "context" then Some(Context)
    else None
  }

  function Unquoted(s: string): Option<string> {
    if |s| >= 2 && s[0] == '"' && s[|s| - 1] == '"' then Some(s[1..|s| - 1]) else None
  }

  function ReadWord(word: string, rest: string): Option<Line> {
    if word == "uuid" then Some(UuidLine(rest))
    else if word == "label" then Some(LabelLine(rest))
    else if word == "summary" || word == "info" || word == "artifact" then
      match Unquoted(rest)
      case None => None
      case Some(text) =>
        Some(if word == "summary" then SummaryLine(text) else if word == "info" then InfoLine(text)
            else ArtifactLine(text))
    else if "ref_" <= word then
      match TypeNamed(word[4..])
      case None => None
      case Some(t) => Some(RefLine(t, Replace(rest, '.', '/')))
    else
      match TypeNamed(word)
      case None => None
      case Some(t) => Some(NodeLine(t, rest))
  }

  lemma TypeIsNamed(t: NodeType)
    requires !t.OtherType?
    ensures TypeNamed(LowerCase(t)) == Some(t)
    ensures ' ' !in LowerCase(t) && LowerCase(t) != []
  {
    match t
    case Goal =>
    case Strategy =>
    case Solution =>
    case Assumption =>
    case Justification =>
    case Context =>
    case OtherType(_) =>
  }

  lemma TypeIsNoKeyword(t: NodeType)
    requires !t.OtherType?
    ensures LowerCase(t) != "uuid" && LowerCase(t) != "label" && LowerCase(t) != "summary"
    ensures LowerCase(t) != "info" && LowerCase(t) != "artifact" && !("ref_" <= LowerCase(t))
  {
    assert LowerCase(t)[0] != 'r';
  }

  lemma {:induction false} ReplaceBack(s: string, c: char, d: char)
    requires d !in s
    ensures Replace(Replace(s, c, d), d, c) == s
  {
    if s == [] {
    } else {
      ReplaceBack(s[1..], c, d);
      assert Replace(s, c, d)[1..] == Replace(s[1..], c, d);
    }
  }

  /** The lines that can be read back: no type but the six, and no dot in a path. */
  predicate Readable(l: Line) {
    match l
    case NodeLine(t, _) => !t.OtherType?
    case RefLine(t, path) => !t.OtherType? && '.' !in path
    case _ => true
  }

  lemma WordReadsBack(l: Line)
    requires Readable(l)
    ensures ReadWord(WordOf(l), RestOf(l)) == Some(l)
    ensures ' ' !in WordOf(l)
  {
    match l
    case NodeLine(t, _) =>
      TypeIsNamed(t);
      TypeIsNoKeyword(t);
    case RefLine(t, path) =>
      TypeIsNamed(t);
      assert WordOf(l)[4..] == LowerCase(t) && WordOf(l)[..4] == "ref_";
      ReplaceBack(path, '/', '.');
    case SummaryLine(text) =>
      assert Unquoted(RestOf(l)) == Some(text);
    case InfoLine(text) =>
      assert Unquoted(RestOf(l)) == Some(text);
    case ArtifactLine(text) =>
      assert Unquoted(RestOf(l)) == Some(text);
    case _ =>
  }

  /** Up to the first space, and from there on. */
  function ReadBody(body: string): Option<Line> {
    var i := IndexOf(body, " ");
    if i < 0 then None else ReadWord(body[..i], body[i + 1..])
  }

  lemma BodyReadsBack(l: Line)
    requires Readable(l)
    ensures ReadBody(Body(l)) == Some(l)
  {
    WordReadsBack(l);
    DelimitedByOne(WordOf(l), ' ');
    IndexOfDelimited(WordOf(l), " ", RestOf(l));
    assert Body(l)[..|WordOf(l)|] == WordOf(l);
    assert Body(l)[|WordOf(l)| + 1..] == RestOf(l);
  }

  // ----- Indentation -----

  datatype Entry = Entry(depth: nat, line: Line)

  function TextOf(indent: string, e: Entry): string { Repeat(indent, e.depth) + Body(e.line) }

  /** How often a line starts with the indentation, and what follows. */
  function ReadIndent(indent: string, s: string): (nat, string)
    requires indent != []
    decreases |s|
  {
    if indent <= s then
      var (depth, body) := ReadIndent(indent, s[|indent|..]);
      (depth + 1, body)
    else (0, s)
  }

  function ReadEntry(indent: string, s: string): Option<Entry>
    requires indent != []
  {
    var (depth, body) := ReadIndent(indent, s);
    match ReadBody(body)
    case None => None
    case Some(l) => Some(Entry(depth, l))
  }

  lemma {:induction false} IndentReadsBack(indent: string, depth: nat, body: string)
    requires indent != [] && !(indent <= body)
    ensures ReadIndent(indent, Repeat(indent, depth) + body) == (depth, body)
  {
    if depth == 0 {
      assert Repeat(indent, 0) + body == body;
    } else {
      var s := Repeat(indent, depth) + body;
      Regroup(indent, Repeat(indent, depth - 1), body);
      assert s[|indent|..] == Repeat(indent, depth - 1) + body;
      IndentReadsBack(indent, depth - 1, body);
    }
  }

  /** An indentation that cannot be mistaken for the start of a line. */
  predicate IsIndent(indent: string) { indent != [] && !IsLetter(indent[0]) && '\n' !in indent }

  lemma EntryReadsBack(indent: string, e: Entry)
    requires IsIndent(indent) && Readable(e.line)
    ensures ReadEntry(indent, TextOf(indent, e)) == Some(e)
  {
    BodyReadsBack(e.line);
    BodyStartsWithLetter(e.line);
    IndentReadsBack(indent, e.depth, Body(e.line));
  }

  lemma BodyStartsWithLetter(l: Line)
    requires Readable(l)
    ensures Body(l) != [] && IsLetter(Body(l)[0])
  {
    assert WordOf(l) != [] && IsLetter(WordOf(l)[0]);
  }

  // ----- The lines of a forest -----

  /** Nodes with longer paths than n has. */
  predicate Longer(gsn: Gsn, n: nat, cs: seq<nat>) {
    n < |gsn.nodes| && forall i :: 0 <= i < |cs| ==> cs[i] < |gsn.nodes| && |gsn.Path(n)| < |gsn.Path(cs[i])|
  }

  /** Children have longer paths, as GsnLaws shows. */
  ghost predicate Grows(f: Forest) {
    && |f.children| == |f.gsn.nodes| && |f.references| == |f.gsn.nodes|
    && forall n: nat :: n < |f.gsn.nodes| ==> Longer(f.gsn, n, f.children[n])
  }

  function NameOf(id: string): string { Pieces(id)[|Pieces(id)| - 1] }

  /** The uuid of the node, or else a random one. */
  function UuidOf(node: GsnNode, random: string): string {
    if node.uuid.Some? && node.uuid.value != "" then node.uuid.value else random
  }

  function OptionalLine(text: Option<string>, toLine: string -> Line): seq<Line> {
    if text.Some? && text.value != "" then [toLine(text.value)] else []
  }

  function ListLines(texts: seq<string>, toLine: string -> Line): seq<Line> {
    if texts == [] then [] else [toLine(texts[0])] + ListLines(texts[1..], toLine)
  }

  function AttributeLines(node: GsnNode, random: string): seq<Line> {
    OptionalLine(Some(UuidOf(node, random)), s => UuidLine(s))
    + OptionalLine(node.summary, s => SummaryLine(s))
    + OptionalLine(node.info, s => InfoLine(s))
    + ListLines(OrNone(node.labels), s => LabelLine(s))
    + ListLines(OrNone(node.artifacts), s => ArtifactLine(s))
  }

  function RefLines(refs: seq<Ref>): seq<Line> {
    if refs == [] then [] else [RefLine(refs[0].refType, refs[0].path)] + RefLines(refs[1..])
  }

  function Indented(ls: seq<Line>, depth: nat): seq<Entry> {
    if ls == [] then [] else [Entry(depth, ls[0])] + Indented(ls[1..], depth)
  }

  function NodeLines(f: Forest, random: nat -> string, n: nat, depth: nat): seq<Entry>
    requires Grows(f) && n < |f.gsn.nodes|
    decreases f.gsn.Room(n), 1, 0
  {
    var node := f.gsn.nodes[n];
    [Entry(depth, NodeLine(node.nodeType, NameOf(node.id)))]
    + Indented(AttributeLines(node, random(n)), depth + 1)
    + ChildLines(f, random, n, f.children[n], depth + 1)
    + Indented(RefLines(f.references[n]), depth + 1)
  }

  function ChildLines(f: Forest, random: nat -> string, n: nat, cs: seq<nat>, depth: nat): seq<Entry>
    requires Grows(f) && Longer(f.gsn, n, cs)
    decreases f.gsn.Room(n), 0, |cs|
  {
    if cs == [] then [] else NodeLines(f, random, cs[0], depth) + ChildLines(f, random, n, cs[1..], depth)
  }

  function RootLines(f: Forest, random: nat -> string, roots: seq<nat>): seq<Entry>
    requires Grows(f) && AllNodes(f.gsn, roots)
  {
    if roots == [] then [] else NodeLines(f, random, roots[0], 1) + RootLines(f, random, roots[1..])
  }

  function Texts(indent: string, entries: seq<Entry>): seq<string> {
    if entries == [] then [] else [TextOf(indent, entries[0])] + Texts(indent, entries[1..])
  }

  /** The keyword for a namespace: that of its last root. */
  function Keyword(t: Option<NodeType>): string {
    match t
    case Some(Goal) => "GOALS"
    case Some(Strategy) => "STRATEGIES"
    case Some(Solution) => "SOLUTIONS"
    case Some(Assumption) => "ASSUMPTIONS"
    case Some(Justification) => "JUSTIFICATIONS"
    case Some(Context) => "CONTEXTS"
    case _ => "undefined"
  }

  function NamespaceTexts(f: Forest, random: nat -> string, ns: Namespace, indent: string): seq<string>
    requires Grows(f) && AllNodes(f.gsn, ns.roots)
  {
    [Keyword(ns.nsType) + " " + ns.name] + Texts(indent, RootLines(f, random, ns.roots)) + [""]
  }

  // ----- Printing -----

  lemma {:induction false} TextsAppend(indent: string, a: seq<Entry>, b: seq<Entry>)
    ensures Texts(indent, a + b) == Texts(indent, a) + Texts(indent, b)
    decreases |a|
  {
    if a == [] {
      assert a + b == b;
    } else {
      assert (a + b)[1..] == a[1..] + b;
      TextsAppend(indent, a[1..], b);
      Regroup([TextOf(indent, a[0])], Texts(indent, a[1..]), Texts(indent, b));
    }
  }

  lemma {:induction false} IndentedAppend(a: seq<Line>, b: seq<Line>, depth: nat)
    ensures Indented(a + b, depth) == Indented(a, depth) + Indented(b, depth)
    decreases |a|
  {
    if a == [] {
      assert a + b == b;
    } else {
      assert (a + b)[1..] == a[1..] + b;
      IndentedAppend(a[1..], b, depth);
      Regroup([Entry(depth, a[0])], Indented(a[1..], depth), Indented(b, depth));
    }
  }
}
