/** When a link that starts at one resource url also concerns another resource url: the link's url
    names a container on the path to the resource. */
module LinkPaths {
  import opened Sequences
  import opened Text

  predicate EndsWith(s: string, suffix: string) {
    |suffix| <= |s| && s[|s| - |suffix|..] == suffix
  }

  /** The comparison that both kinds of link share. */
  predicate Covers(linkUrl: string, resUrl: string, sep: string) {
    || linkUrl == resUrl
    || (if EndsWith(linkUrl, sep) then linkUrl <= resUrl else linkUrl + sep <= resUrl)
  }

  // ----- Covers is a partial order, whatever the separator -----

  lemma CoversIsPartialOrder(a: string, b: string, c: string, sep: string)
    ensures Covers(a, a, sep)
    ensures Covers(a, b, sep) && Covers(b, a, sep) ==> a == b
    ensures Covers(a, b, sep) && Covers(b, c, sep) ==> Covers(a, c, sep)
  {
    if a != b && b != c && Covers(a, b, sep) && Covers(b, c, sep) {
      var up := if EndsWith(a, sep) then a else a + sep;
      assert up <= b;
      assert b <= c by { assert (b + sep)[..|b|] == b; }
      assert c[..|up|] == c[..|b|][..|up|];
    }
  }

  // ----- Segment by segment -----

  /** A url without one trailing separator. */
  function Trim(url: string, sep: string): string {
    if EndsWith(url, sep) then url[..|url| - |sep|] else url
  }

  predicate IsProperSegmentPrefix(p: string, url: string, c: char) {
    Split(p, [c]) < Split(url, [c])
  }

  lemma RegroupCut(head: string, c: char, rest: string, t: string)
    ensures head + [c] + rest + [c] + t == head + [c] + (rest + [c] + t)
  {
  }

  lemma {:induction false} SplitAfterSeparator(p: string, c: char, t: string)
    ensures Split(p + [c] + t, [c]) == Split(p, [c]) + Split(t, [c])
    decreases |p|
  {
    if c !in p {
      SplitWhole(p, c);
      SplitAtFirst(p, c, t);
    } else {
      var head, rest := FirstOccurrence(p, c);
      SplitAfterSeparator(rest, c, t);
      SplitAtFirst(head, c, rest);
      RegroupCut(head, c, rest, t);
      SplitAtFirst(head, c, rest + [c] + t);
      Regroup([head], Split(rest, [c]), Split(t, [c]));
    }
  }

  lemma {:induction false} JoinAppend(xs: seq<string>, ys: seq<string>, c: char)
    requires xs != [] && ys != []
    ensures Join(xs + ys, [c]) == Join(xs, [c]) + [c] + Join(ys, [c])
  {
    if |xs| == 1 {
      assert (xs + ys)[1..] == ys;
    } else {
      assert (xs + ys)[1..] == xs[1..] + ys;
      JoinAppend(xs[1..], ys, c);
      var x, tail := xs[0], Join(xs[1..], [c]);
      assert x + [c] + (tail + [c] + Join(ys, [c])) == x + [c] + tail + [c] + Join(ys, [c]);
    }
  }

  lemma SegmentPrefixIsTextPrefix(p: string, url: string, c: char)
    ensures IsProperSegmentPrefix(p, url, c) <==> p + [c] <= url
  {
    var ps, us := Split(p, [c]), Split(url, [c]);
    if p + [c] <= url {
      var t := url[|p| + 1..];
      assert url == p + [c] + t;
      SplitAfterSeparator(p, c, t);
    }
    if ps < us {
      var ys := us[|ps|..];
      assert us == ps + ys;
      JoinAppend(ps, ys, c);
      JoinSplit(p, [c]);
      JoinSplit(url, [c]);
    }
  }

  /** With a separator of one character, a link covers its own url and the urls of which its url,
      less one trailing separator, is a proper prefix segment by segment, and no others. */
  lemma CoversIsSegmentPrefix(linkUrl: string, resUrl: string, c: char)
    ensures Covers(linkUrl, resUrl, [c])
       <==> linkUrl == resUrl || IsProperSegmentPrefix(Trim(linkUrl, [c]), resUrl, c)
  {
    SegmentPrefixIsTextPrefix(Trim(linkUrl, [c]), resUrl, c);
    if EndsWith(linkUrl, [c]) {
      assert Trim(linkUrl, [c]) + [c] == linkUrl;
    }
  }

  /** A sibling whose name merely begins with the link's last name is not covered. */
  lemma SiblingIsNotCovered(linkUrl: string, more: string, c: char)
    requires !EndsWith(linkUrl, [c])
    requires more != "" && more[0] != c
    ensures !Covers(linkUrl, linkUrl + more, [c])
  {
    assert (linkUrl + more)[|linkUrl|] != c && (linkUrl + [c])[|linkUrl|] == c;
  }
}
