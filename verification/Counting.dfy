/** The pigeonhole principle. */
module Counting {

  function Below(n: nat): (r: set<nat>)
    ensures |r| == n
    ensures forall k: nat :: k in r <==> k < n
  {
    if n == 0 then {} else Below(n - 1) + {n - 1}
  }

  ghost predicate Distinct<T>(s: seq<T>) {
    forall i, k :: 0 <= i < k < |s| ==> s[i] != s[k]
  }

  function Values<T(!new)>(s: seq<T>): (r: set<T>)
    ensures forall x :: x in r <==> x in s
    ensures Distinct(s) ==> |r| == |s|
  {
    if s == [] then {} else
    var last := |s| - 1;
    assert s == s[..last] + [s[last]];
    assert Distinct(s) ==> Distinct(s[..last]) && s[last] !in s[..last];
    Values(s[..last]) + {s[last]}
  }

  lemma SubsetIsSmaller<T>(a: set<T>, b: set<T>)
    requires a <= b
    ensures |a| <= |b|
  {
    assert b == a + (b - a);
  }

  /** n distinct numbers below n are all the numbers below n. */
  lemma DistinctCoverAll(s: seq<nat>, j: nat)
    requires forall i :: 0 <= i < |s| ==> s[i] < |s|
    requires Distinct(s) && j < |s|
    ensures j in s
  {
    if j !in s {
      SubsetIsSmaller(Values(s), Below(|s|) - {j});
    }
  }

  lemma {:induction false} SomeOrder<T>(s: set<T>) returns (order: seq<T>)
    ensures Distinct(order) && forall x :: x in order <==> x in s
    decreases |s|
  {
    if s == {} {
      order := [];
    } else {
      var x :| x in s;
      var rest := SomeOrder(s - {x});
      order := [x] + rest;
    }
  }

  /** The keys of a Go map, in an order that nobody can rely on. */
  method AnyOrder<T(==)>(s: set<T>) returns (order: seq<T>)
    ensures Distinct(order) && forall x :: x in order <==> x in s
  {
    order := [];
    var rest := s;
    while rest != {}
      invariant rest <= s && Distinct(order)
      invariant forall x :: x in order <==> x in s - rest
    {
      var x :| x in rest;
      assert x !in order;
      rest := rest - {x};
      order := order + [x];
    }
  }
}
