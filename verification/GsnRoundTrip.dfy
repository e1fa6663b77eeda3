/** From the model to the texts and back: what a reader of the texts learns. */
module GsnRoundTrip {
  import opened Refs
  import opened Sequences
  import opened Text
  import opened GsnModel
  import opened GsnForest
  import opened GsnText
  import opened GsnReadBack

  // ----- The text of a namespace -----

  function ReadEntries(indent: string, lines: seq<string>): Option<seq<Entry>>
    requires indent != []
  {
    if lines == [] then Some([]) else
    match (ReadEntry(indent, lines[0]), ReadEntries(indent, lines[1..]))
    case (Some(e), Some(rest)) => Some([e] + rest)
    case _ => None
  }

  /** What follows the first space. */
  function AfterSpace(line: string): Option<string> {
    var i := IndexOf(line, " ");
    if i < 0 then None else Some(line[i + 1..])
  }

  /** The name after the keyword, and what each of the other lines is about. The last line is empty. */
  function ReadLines(indent: string, lines: seq<string>): Option<(string, seq<Located>)>
    requires indent != []
  {
    if |lines| < 2 || lines[|lines| - 1] != "" then None else
    match (AfterSpace(lines[0]), ReadEntries(indent, lines[1..|lines| - 1]))
    case (Some(name), Some(entries)) => Some((name, Locate(map[0 := name], entries)))
    case _ => None
  }

  function ReadText(indent: string, text: string): Option<(string, seq<Located>)>
    requires indent != []
  {
    ReadLines(indent, Split(text, "\n"))
  }

  predicate FitsLine(l: Line) { Readable(l) && '\n' !in Body(l) }

  predicate AllFit(entries: seq<Entry>) {
    entries == [] || (FitsLine(entries[0].line) && AllFit(entries[1..]))
  }

  ghost predicate OneLineEach(lines: seq<string>) {
    forall i :: 0 <= i < |lines| ==> '\n' !in lines[i]
  }

  lemma {:induction false} RepeatHasNo(indent: string, depth: nat, c: char)
    requires c !in indent
    ensures c !in Repeat(indent, depth)
  {
    if depth == 0 {
    } else {
      RepeatHasNo(indent, depth - 1, c);
    }
  }

  lemma EntryFits(indent: string, e: Entry)
    requires IsIndent(indent) && FitsLine(e.line)
    ensures ReadEntry(indent, TextOf(indent, e)) == Some(e) && '\n' !in TextOf(indent, e)
  {
    EntryReadsBack(indent, e);
    RepeatHasNo(indent, e.depth, '\n');
  }

  lemma OneLineFirst(line: string, lines: seq<string>)
    requires '\n' !in line && OneLineEach(lines)
    ensures OneLineEach([line] + lines)
  {
  }

  lemma {:induction false} EntriesReadBack(indent: string, entries: seq<Entry>)
    requires IsIndent(indent) && AllFit(entries)
    ensures ReadEntries(indent, Texts(indent, entries)) == Some(entries)
    ensures OneLineEach(Texts(indent, entries))
  {
    if entries == [] {
    } else {
      var e, rest := entries[0], entries[1..];
      EntriesReadBack(indent, rest);
      EntryFits(indent, e);
      OneLineFirst(TextOf(indent, e), Texts(indent, rest));
      assert entries == [e] + rest;
      assert Texts(indent, entries)[1..] == Texts(indent, rest);
    }
  }

  lemma LinesSplitBack(lines: seq<string>)
    requires OneLineEach(lines) && lines != []
    ensures Split(Join(lines, "\n"), "\n") == lines
  {
    forall i | 0 <= i < |lines| ensures Delimited(lines[i], "\n") && Free(lines[i], "\n") {
      DelimitedByOne(lines[i], '\n');
    }
    SplitJoin(lines, "\n");
  }

  lemma KeywordIsPlain(t: Option<NodeType>)
    ensures ' ' !in Keyword(t) && '\n' !in Keyword(t)
  {
  }

  lemma HeaderReadsBack(keyword: string, name: string)
    requires ' ' !in keyword
    ensures AfterSpace(keyword + " " + name) == Some(name)
  {
    DelimitedByOne(keyword, ' ');
    IndexOfDelimited(keyword, " ", name);
    assert (keyword + " " + name)[|keyword| + 1..] == name;
  }

  lemma ThreePartsReadBack(indent: string, header: string, name: string, entries: seq<Entry>)
    requires IsIndent(indent) && '\n' !in header && AfterSpace(header) == Some(name) && AllFit(entries)
    ensures ReadText(indent, Join([header] + Texts(indent, entries) + [""], "\n"))
         == Some((name, Locate(map[0 := name], entries)))
  {
    var texts := Texts(indent, entries);
    EntriesReadBack(indent, entries);
    FramedLinesSplitBack(header, texts);
    MiddleLines(header, texts);
  }

  lemma FramedLinesSplitBack(header: string, texts: seq<string>)
    requires '\n' !in header && OneLineEach(texts)
    ensures Split(Join([header] + texts + [""], "\n"), "\n") == [header] + texts + [""]
  {
    OneLineFirst(header, texts);
    LinesSplitBack([header] + texts + [""]);
  }

  lemma MiddleLines(header: string, texts: seq<string>)
    ensures var lines := [header] + texts + [""];
            lines[0] == header && lines[1..|lines| - 1] == texts && lines[|lines| - 1] == ""
  {
  }

  lemma LinesReadBack(indent: string, t: Option<NodeType>, name: string, entries: seq<Entry>)
    requires IsIndent(indent) && '\n' !in name && AllFit(entries)
    ensures ReadText(indent, Join([Keyword(t) + " " + name] + Texts(indent, entries) + [""], "\n"))
         == Some((name, Locate(map[0 := name], entries)))
  {
    KeywordIsPlain(t);
    HeaderReadsBack(Keyword(t), name);
    ThreePartsReadBack(indent, Keyword(t) + " " + name, name, entries);
  }

  /** Reading a namespace's text gives its name and every line with the id of its node. */
  lemma TextReadsBack(f: Forest, random: nat -> string, ns: Namespace, indent: string)
    requires Grows(f) && Direct(f) && AllNodes(f.gsn, ns.roots) && Named(f.gsn, ns.name, ns.roots)
    requires IsIndent(indent) && '\n' !in ns.name && AllFit(RootLines(f, random, ns.roots))
    ensures ReadText(indent, Join(NamespaceTexts(f, random, ns, indent), "\n"))
         == Some((ns.name, LocatedRoots(f, random, ns.roots)))
  {
    LinesReadBack(indent, ns.nsType, ns.name, RootLines(f, random, ns.roots));
    RootsReadBack(f, random, ns.name, ns.roots, map[0 := ns.name]);
  }
}
