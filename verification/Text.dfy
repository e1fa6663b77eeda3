/** Splitting and joining of sequences on a separator, as `split` does it in JavaScript and
    `strings.Split` in Go: pieces are cut at the leftmost occurrence, again and again. */
module Text {

  /** The leftmost position at which sep occurs in s, or -1. */
  function IndexOf<T(==)>(s: seq<T>, sep: seq<T>): (r: int)
    requires sep != []
    ensures -1 <= r
    ensures 0 <= r ==> r + |sep| <= |s| && sep <= s[r..]
    ensures forall k :: 0 <= k <= |s| && (r < 0 || k < r) ==> !(sep <= s[k..])
  {
    if sep <= s then
      assert s == s[0..]; 0
    else if s == [] then
      -1
    else
      var r := IndexOf(s[1..], sep);
      assert forall k :: 1 <= k <= |s| ==> s[k..] == s[1..][k - 1..];
      assert s == s[0..];
      if r < 0 then -1 else r + 1
  }

  function Split<T(==)>(s: seq<T>, sep: seq<T>): (pieces: seq<seq<T>>)
    requires sep != []
    ensures pieces != []
    decreases |s|
  {
    var i := IndexOf(s, sep);
    if i < 0 then [s] else [s[..i]] + Split(s[i + |sep|..], sep)
  }

  function Join<T>(pieces: seq<seq<T>>, sep: seq<T>): seq<T> {
    if pieces == [] then []
    else if |pieces| == 1 then pieces[0]
    else pieces[0] + sep + Join(pieces[1..], sep)
  }

  /** sep does not occur in p, nor astride the end of p when sep follows it. */
  ghost predicate Delimited<T>(p: seq<T>, sep: seq<T>)
    requires sep != []
  {
    forall k :: 0 <= k < |p| ==> !(sep <= (p + sep)[k..])
  }

  ghost predicate Free<T>(p: seq<T>, sep: seq<T>)
    requires sep != []
  {
    forall k :: 0 <= k <= |p| ==> !(sep <= p[k..])
  }

  /** The lists of pieces that splitting recovers after joining. */
  ghost predicate Separable<T>(pieces: seq<seq<T>>, sep: seq<T>)
    requires sep != []
  {
    && pieces != []
    && (forall i :: 0 <= i < |pieces| - 1 ==> Delimited(pieces[i], sep))
    && Free(pieces[|pieces| - 1], sep)
  }

  lemma PrefixAt<T>(s: seq<T>, t: seq<T>, sep: seq<T>, k: nat)
    requires k + |sep| <= |s|
    ensures sep <= s[k..] <==> sep <= (s + t)[k..]
  {
    assert (s + t)[k..][..|sep|] == s[k..][..|sep|];
  }

  lemma IndexOfDelimited<T>(p: seq<T>, sep: seq<T>, rest: seq<T>)
    requires sep != [] && Delimited(p, sep)
    ensures IndexOf(p + sep + rest, sep) == |p|
  {
    var s := p + sep + rest;
    assert s[|p|..] == sep + rest;
    forall k | 0 <= k < |p| ensures !(sep <= s[k..]) {
      assert s == (p + sep) + rest;
      PrefixAt(p + sep, rest, sep, k);
    }
  }

  lemma SplitDelimited<T>(p: seq<T>, sep: seq<T>, rest: seq<T>)
    requires sep != [] && Delimited(p, sep)
    ensures Split(p + sep + rest, sep) == [p] + Split(rest, sep)
  {
    var s := p + sep + rest;
    IndexOfDelimited(p, sep, rest);
    assert s[..|p|] == p && s[|p| + |sep|..] == rest;
  }

  lemma SeparableRest<T>(pieces: seq<seq<T>>, sep: seq<T>)
    requires sep != [] && Separable(pieces, sep) && |pieces| > 1
    ensures Delimited(pieces[0], sep) && Separable(pieces[1..], sep)
    ensures Join(pieces, sep) == pieces[0] + sep + Join(pieces[1..], sep)
  {
    assert forall i :: 0 <= i < |pieces| - 1 ==> pieces[1..][i] == pieces[i + 1];
  }

  lemma SplitFree<T>(p: seq<T>, sep: seq<T>)
    requires sep != [] && Free(p, sep)
    ensures Split(p, sep) == [p]
  {
  }

  lemma {:induction false} SplitJoin<T>(pieces: seq<seq<T>>, sep: seq<T>)
    requires sep != [] && Separable(pieces, sep)
    ensures Split(Join(pieces, sep), sep) == pieces
    decreases |pieces|
  {
    if |pieces| == 1 {
      SplitFree(pieces[0], sep);
      assert pieces == [pieces[0]];
    } else {
      SeparableRest(pieces, sep);
      SplitJoin(pieces[1..], sep);
      SplitJoinFirst(pieces, sep);
    }
  }

  lemma SplitJoinFirst<T>(pieces: seq<seq<T>>, sep: seq<T>)
    requires sep != [] && Separable(pieces, sep) && |pieces| > 1
    requires Split(Join(pieces[1..], sep), sep) == pieces[1..]
    ensures Split(Join(pieces, sep), sep) == pieces
  {
    SeparableRest(pieces, sep);
    SplitDelimited(pieces[0], sep, Join(pieces[1..], sep));
    assert pieces == [pieces[0]] + pieces[1..];
  }

  lemma CutAt<T>(s: seq<T>, sep: seq<T>, i: nat)
    requires i + |sep| <= |s| && sep <= s[i..]
    ensures s == s[..i] + sep + s[i + |sep|..]
  {
    assert s[i..][..|sep|] == sep;
  }

  lemma {:induction false} SplitSeparable<T>(s: seq<T>, sep: seq<T>)
    requires sep != []
    ensures Separable(Split(s, sep), sep) && Join(Split(s, sep), sep) == s
    decreases |s|
  {
    var i := IndexOf(s, sep);
    if i >= 0 {
      var p, rest := s[..i], s[i + |sep|..];
      SplitSeparable(rest, sep);
      CutAt(s, sep, i);
      forall k | 0 <= k < |p| ensures !(sep <= (p + sep)[k..]) {
        PrefixAt(p + sep, rest, sep, k);
      }
      assert Split(s, sep)[1..] == Split(rest, sep);
    }
  }

  /** Splitting undoes joining for exactly the separable lists. */
  lemma SplitJoinExactly<T>(pieces: seq<seq<T>>, sep: seq<T>)
    requires sep != []
    ensures Split(Join(pieces, sep), sep) == pieces <==> Separable(pieces, sep)
  {
    if Separable(pieces, sep) {
      SplitJoin(pieces, sep);
    } else {
      SplitSeparable(Join(pieces, sep), sep);
    }
  }

  /** Joining after splitting gives the text back. */
  lemma JoinSplit<T>(s: seq<T>, sep: seq<T>)
    requires sep != []
    ensures Join(Split(s, sep), sep) == s
  {
    SplitSeparable(s, sep);
  }

  /** For a separator of one element, a piece is delimited when it does not hold that element. */
  lemma DelimitedByOne<T>(p: seq<T>, c: T)
    ensures Delimited(p, [c]) <==> c !in p
    ensures Free(p, [c]) <==> c !in p
  {
    forall k | 0 <= k < |p|
      ensures [c] <= (p + [c])[k..] <==> p[k] == c
      ensures [c] <= p[k..] <==> p[k] == c
    {
      assert (p + [c])[k..][..1] == [p[k]];
      assert p[k..][..1] == [p[k]];
    }
  }

  lemma SplitAtFirst<T>(head: seq<T>, c: T, rest: seq<T>)
    requires c !in head
    ensures Split(head + [c] + rest, [c]) == [head] + Split(rest, [c])
  {
    DelimitedByOne(head, c);
    SplitDelimited(head, [c], rest);
  }

  lemma SplitWhole<T>(s: seq<T>, c: T)
    requires c !in s
    ensures Split(s, [c]) == [s]
  {
    DelimitedByOne(s, c);
  }

  /** A text either lacks an element or has a first place for it. */
  lemma FirstOccurrence<T>(s: seq<T>, c: T) returns (head: seq<T>, rest: seq<T>)
    requires c in s
    ensures c !in head && s == head + [c] + rest
  {
    if s[0] == c {
      head, rest := [], s[1..];
    } else {
      assert s == [s[0]] + s[1..];
      var h, r := FirstOccurrence(s[1..], c);
      head, rest := [s[0]] + h, r;
    }
  }
}
