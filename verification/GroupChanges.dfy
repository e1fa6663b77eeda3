/** A batch of resource changes for one group. The server goes through the batch in the order of a
    Go map, which is any order at all. */
module GroupChanges {
  import opened Counting
  import opened Refs

  datatype ChangeType = Added | Modified | Renamed | Removed

  datatype ResourceChange = ResourceChange(
    changeType: ChangeType, url: string, newUrl: string, newName: string, newId: string)
  {
    /** The branch taken for a change that is not a removal. Go groups its condition this way. */
    predicate IsRename() {
      changeType == Renamed || (changeType == Modified || url != newUrl)
    }
  }

  type Batch = map<string, ResourceChange>

  /** The batch is keyed by the url that each change is about. */
  ghost predicate IsBatch(changes: Batch) {
    forall u :: u in changes ==> changes[u].url == u
  }

  predicate Drops(changes: Batch, url: string) {
    url in changes && changes[url].changeType == Removed
  }

  predicate Renames(changes: Batch, url: string) {
    url in changes && changes[url].changeType != Removed && changes[url].IsRename()
  }

  function NewUrl(changes: Batch, url: string): string {
    if Renames(changes, url) then changes[url].newUrl else url
  }

  /** One change, on the map from urls to the group's objects. */
  function Apply<R>(m: map<string, R>, changes: Batch, url: string): map<string, R> {
    if url !in m then m
    else if Drops(changes, url) then m - {url}
    else if Renames(changes, url) then (m - {url})[changes[url].newUrl := m[url]]
    else m
  }

  function ApplyAll<R>(m: map<string, R>, changes: Batch, order: seq<string>): map<string, R>
    decreases order
  {
    if order == [] then m else ApplyAll(Apply(m, changes, order[0]), changes, order[1..])
  }

  ghost predicate IsOrder(order: seq<string>, changes: Batch) {
    Distinct(order) && forall u :: u in order <==> u in changes
  }

  /** Where the object at url goes when the changes at the urls in `done` are made all at once. */
  function Place(changes: Batch, done: set<string>, url: string): Option<string> {
    if url !in done then Some(url)
    else if Drops(changes, url) then None
    else Some(NewUrl(changes, url))
  }

  /** Every object of m that keeps a place is found there in m', and nothing else is in m'. */
  ghost predicate IsPlaced<R>(m: map<string, R>, changes: Batch, done: set<string>, m': map<string, R>) {
    && (forall u :: u in m && Place(changes, done, u).Some? ==>
          Place(changes, done, u).value in m' && m'[Place(changes, done, u).value] == m[u])
    && (forall w :: w in m' ==> exists u :: u in m && Place(changes, done, u) == Some(w))
  }

  /** Simultaneous substitution of the whole batch. */
  ghost predicate IsSubstitution<R>(m: map<string, R>, changes: Batch, m': map<string, R>) {
    IsPlaced(m, changes, changes.Keys, m')
  }

  ghost predicate Injective<R>(m: map<string, R>) {
    forall u, v :: u in m && v in m && m[u] == m[v] ==> u == v
  }

  /** The change leaves the map alone, wherever its url leads. */
  predicate Inert(c: ResourceChange) {
    c.changeType != Removed && (!c.IsRename() || c.newUrl == c.url)
  }

  /** No new url is the url of another object, the new url of another object, or a url that the
      batch itself would change further. */
  ghost predicate CollisionFree(urls: set<string>, changes: Batch) {
    forall u :: u in urls && Renames(changes, u) && NewUrl(changes, u) != u ==>
      && NewUrl(changes, u) !in urls
      && (forall v :: v in urls && v != u && Renames(changes, v) ==> NewUrl(changes, u) != NewUrl(changes, v))
      && (NewUrl(changes, u) in changes ==> Inert(changes[NewUrl(changes, u)]))
  }

  // ----- Without collisions, every order gives the substitution -----

  lemma PlacesDiffer(urls: set<string>, changes: Batch, done: set<string>, u: string, url: string)
    requires CollisionFree(urls, changes)
    requires u in urls && url in urls && u != url && Place(changes, done, u).Some?
    ensures Place(changes, done, u).value != url
    ensures Place(changes, done, u).value != NewUrl(changes, url)
  {
    if Renames(changes, url) && NewUrl(changes, url) != url {
      assert NewUrl(changes, url) !in urls;
    }
    if Renames(changes, u) && NewUrl(changes, u) != u {
      assert NewUrl(changes, u) !in urls;
    }
  }

  lemma OtherPlacesStay(changes: Batch, done: set<string>, u: string, url: string)
    requires u != url
    ensures Place(changes, done + {url}, u) == Place(changes, done, u)
  {
  }

  /** A change for a url that no object had to begin with does nothing. */
  lemma ForeignChangeIsIdle<R>(m: map<string, R>, changes: Batch, done: set<string>, m1: map<string, R>, url: string)
    requires IsBatch(changes) && CollisionFree(m.Keys, changes)
    requires IsPlaced(m, changes, done, m1) && url in changes && url !in m
    ensures IsPlaced(m, changes, done + {url}, Apply(m1, changes, url))
  {
    if url in m1 {
      var u :| u in m && Place(changes, done, u) == Some(url);
      assert Renames(changes, u) && NewUrl(changes, u) == url != u;
      assert Inert(changes[url]);
    }
    assert Apply(m1, changes, url) == m1;
    forall u | u in m ensures Place(changes, done + {url}, u) == Place(changes, done, u) {
      OtherPlacesStay(changes, done, u, url);
    }
  }

  lemma OwnChangePlaces<R>(m: map<string, R>, changes: Batch, done: set<string>, m1: map<string, R>, url: string)
    requires IsBatch(changes) && CollisionFree(m.Keys, changes)
    requires IsPlaced(m, changes, done, m1) && url in changes && url !in done && url in m
    ensures IsPlaced(m, changes, done + {url}, Apply(m1, changes, url))
  {
    var m2, next := Apply(m1, changes, url), done + {url};
    assert Place(changes, done, url) == Some(url) && m1[url] == m[url];
    forall u | u in m && Place(changes, next, u).Some?
      ensures Place(changes, next, u).value in m2 && m2[Place(changes, next, u).value] == m[u]
    {
      if u != url {
        OtherPlacesStay(changes, done, u, url);
        PlacesDiffer(m.Keys, changes, done, u, url);
      }
    }
    forall w | w in m2 ensures exists u :: u in m && Place(changes, next, u) == Some(w) {
      if w in m1 && w != url {
        var u :| u in m && Place(changes, done, u) == Some(w);
        OtherPlacesStay(changes, done, u, url);
        assert Place(changes, next, u) == Some(w);
      } else {
        assert Place(changes, next, url) == Some(w);
      }
    }
  }

  lemma StepPlaces<R>(m: map<string, R>, changes: Batch, done: set<string>, m1: map<string, R>, url: string)
    requires IsBatch(changes) && CollisionFree(m.Keys, changes)
    requires IsPlaced(m, changes, done, m1) && url in changes && url !in done
    ensures IsPlaced(m, changes, done + {url}, Apply(m1, changes, url))
  {
    if url in m {
      OwnChangePlaces(m, changes, done, m1, url);
    } else {
      ForeignChangeIsIdle(m, changes, done, m1, url);
    }
  }

  lemma ValuesOfLonger(done: seq<string>, url: string)
    requires Distinct(done + [url])
    ensures Distinct(done) && url !in Values(done)
    ensures Values(done + [url]) == Values(done) + {url}
  {
    var longer := done + [url];
    forall i | 0 <= i < |done| ensures done[i] != url {
      assert longer[i] != longer[|done|];
    }
    forall i, k | 0 <= i < k < |done| ensures done[i] != done[k] {
      assert longer[i] != longer[k];
    }
  }

  lemma {:induction false} SequencePlaces<R>(m: map<string, R>, changes: Batch, done: seq<string>)
    requires IsBatch(changes) && CollisionFree(m.Keys, changes)
    requires Distinct(done) && forall i :: 0 <= i < |done| ==> done[i] in changes
    ensures IsPlaced(m, changes, Values(done), ApplyAll(m, changes, done))
    decreases done
  {
    if done == [] {
      NothingPlaced(m, changes);
    } else {
      var before, url := done[..|done| - 1], done[|done| - 1];
      assert done == before + [url];
      ValuesOfLonger(before, url);
      SequencePlaces(m, changes, before);
      StepPlaces(m, changes, Values(before), ApplyAll(m, changes, before), url);
      ApplyLast(m, changes, before, url);
    }
  }

  lemma NothingPlaced<R>(m: map<string, R>, changes: Batch)
    ensures IsPlaced(m, changes, {}, m)
  {
    forall w | w in m ensures exists u :: u in m && Place(changes, {}, u) == Some(w) {
      assert Place(changes, {}, w) == Some(w);
    }
  }

  lemma {:induction false} ApplyLast<R>(m: map<string, R>, changes: Batch, order: seq<string>, url: string)
    ensures ApplyAll(m, changes, order + [url]) == Apply(ApplyAll(m, changes, order), changes, url)
    decreases order
  {
    if order == [] {
      assert [] + [url] == [url] && [url][1..] == [];
    } else {
      assert (order + [url])[1..] == order[1..] + [url];
      ApplyLast(Apply(m, changes, order[0]), changes, order[1..], url);
    }
  }

  lemma EveryOrderSubstitutes<R>(m: map<string, R>, changes: Batch, order: seq<string>)
    requires IsBatch(changes) && CollisionFree(m.Keys, changes) && IsOrder(order, changes)
    ensures IsSubstitution(m, changes, ApplyAll(m, changes, order))
  {
    SequencePlaces(m, changes, order);
    assert Values(order) == changes.Keys;
  }

  lemma OrderCovers(order: seq<string>, changes: Batch)
    requires IsOrder(order, changes)
    ensures Values(order) == changes.Keys
  {
  }

  lemma {:induction false} InjectiveSize<R>(m: map<string, R>)
    requires Injective(m)
    ensures |m.Values| == |m|
    decreases |m|
  {
    if m == map[] {
      assert m.Values == {};
    } else {
      var u :| u in m;
      var rest := m - {u};
      InjectiveSize(rest);
      forall r | r in m.Values ensures r in rest.Values + {m[u]} {
        var v :| v in m && m[v] == r;
        assert v != u ==> v in rest && rest[v] == r;
      }
      forall r | r in rest.Values ensures r in m.Values && r != m[u] {
        var v :| v in rest && rest[v] == r;
      }
      assert m.Values == rest.Values + {m[u]};
      assert |m.Keys| == |rest.Keys + {u}|;
    }
  }

  /** Renaming alone neither loses an object nor files one twice. */
  lemma RenamesKeepSize<R>(m: map<string, R>, changes: Batch, m': map<string, R>)
    requires IsBatch(changes) && CollisionFree(m.Keys, changes) && Injective(m)
    requires IsSubstitution(m, changes, m') && forall u :: u in m ==> !Drops(changes, u)
    ensures m'.Values == m.Values && Injective(m') && |m'| == |m|
  {
    forall r | r in m.Values ensures r in m'.Values {
      var u :| u in m && m[u] == r;
      assert Place(changes, changes.Keys, u).Some?;
    }
    forall w | w in m' ensures exists u :: u in m && m'[w] == m[u] && Place(changes, changes.Keys, u) == Some(w) {
      var u :| u in m && Place(changes, changes.Keys, u) == Some(w);
    }
    InjectiveSize(m);
    InjectiveSize(m');
  }

  /** There is one substitution at most. */
  lemma SubstitutionIsUnique<R>(m: map<string, R>, changes: Batch, m1: map<string, R>, m2: map<string, R>)
    requires IsSubstitution(m, changes, m1) && IsSubstitution(m, changes, m2)
    ensures m1 == m2
  {
    forall w | w in m1 || w in m2 ensures w in m1 && w in m2 && m1[w] == m2[w] {
      var u :| u in m && Place(changes, changes.Keys, u) == Some(w);
    }
  }

  // ----- A collision spoils some order -----

  lemma ApplyShrinks<R>(m: map<string, R>, changes: Batch, url: string, u: string)
    requires u in Apply(m, changes, url)
    ensures Apply(m, changes, url)[u] in m.Values
  {
    if u in m && Apply(m, changes, url)[u] == m[u] {
    } else {
      assert Apply(m, changes, url)[u] == m[url];
    }
  }

  /** An object that is lost stays lost. */
  lemma {:induction false} LostStaysLost<R>(m: map<string, R>, changes: Batch, order: seq<string>, r: R, u: string)
    requires r !in m.Values && u in ApplyAll(m, changes, order)
    ensures ApplyAll(m, changes, order)[u] != r
    decreases order
  {
    if order == [] {
      assert m[u] in m.Values;
    } else {
      var m1 := Apply(m, changes, order[0]);
      if r in m1.Values {
        var v :| v in m1 && m1[v] == r;
        ApplyShrinks(m, changes, order[0], v);
      }
      LostStaysLost(m1, changes, order[1..], r, u);
    }
  }

  lemma ApplyKeepsInjective<R>(m: map<string, R>, changes: Batch, url: string)
    requires Injective(m)
    ensures Injective(Apply(m, changes, url))
  {
  }

  /** An object whose url has no change to come can only stay or be lost. */
  lemma {:induction false} SettledObjectStays<R>(
      m: map<string, R>, changes: Batch, order: seq<string>, y: string, r: R, u: string)
    requires Injective(m) && y in m && m[y] == r && y !in order
    requires u in ApplyAll(m, changes, order) && ApplyAll(m, changes, order)[u] == r
    ensures u == y
    decreases order
  {
    if order == [] {
    } else {
      var m1 := Apply(m, changes, order[0]);
      ApplyKeepsInjective(m, changes, order[0]);
      assert order[0] in order && order[0] != y;
      if y in m1 && m1[y] == r {
        assert y !in order[1..];
        SettledObjectStays(m1, changes, order[1..], y, r, u);
      } else {
        assert r !in m1.Values;
        LostStaysLost(m1, changes, order[1..], r, u);
      }
    }
  }

  lemma {:induction false} ForeignUrlsDoNothing<R>(
      m: map<string, R>, changes: Batch, order: seq<string>, rest: seq<string>)
    requires forall u :: u in order ==> u !in m
    ensures ApplyAll(m, changes, order + rest) == ApplyAll(m, changes, rest)
    decreases order
  {
    if order == [] {
      assert order + rest == rest;
    } else {
      assert (order + rest)[1..] == order[1..] + rest;
      assert order[0] in order;
      ForeignUrlsDoNothing(m, changes, order[1..], rest);
    }
  }

  /** Two steps at the front of an order. */
  lemma FirstTwo<R>(m: map<string, R>, changes: Batch, u: string, x: string, rest: seq<string>)
    ensures ApplyAll(m, changes, [u] + rest) == ApplyAll(Apply(m, changes, u), changes, rest)
    ensures ApplyAll(m, changes, [u, x] + rest)
         == ApplyAll(Apply(Apply(m, changes, u), changes, x), changes, rest)
  {
    assert ([u] + rest)[1..] == rest;
    assert ([u, x] + rest)[1..] == [x] + rest && ([x] + rest)[1..] == rest;
  }

  ghost predicate Spoils<R>(m: map<string, R>, changes: Batch, order: seq<string>) {
    IsOrder(order, changes) && !IsSubstitution(m, changes, ApplyAll(m, changes, order))
  }

  /** A new url that another object already has. */
  lemma OccupiedUrlSpoils<R>(m: map<string, R>, changes: Batch, u: string) returns (order: seq<string>)
    requires IsBatch(changes) && Injective(m) && u in m && Renames(changes, u)
    requires NewUrl(changes, u) != u && NewUrl(changes, u) in m
    ensures Spoils(m, changes, order)
  {
    var x := NewUrl(changes, u);
    var m1 := Apply(m, changes, u);
    if Drops(changes, x) {
      var rest := SomeOrder(changes.Keys - {u, x});
      order := [u, x] + rest;
      FirstTwo(m, changes, u, x, rest);
      var m2 := Apply(m1, changes, x);
      assert m[u] !in m2.Values;
      if IsSubstitution(m, changes, ApplyAll(m, changes, order)) {
        assert Place(changes, changes.Keys, u) == Some(x);
        LostStaysLost(m2, changes, rest, m[u], x);
      }
    } else {
      var rest := SomeOrder(changes.Keys - {u});
      order := [u] + rest;
      FirstTwo(m, changes, u, x, rest);
      assert m[x] !in m1.Values;
      if IsSubstitution(m, changes, ApplyAll(m, changes, order)) {
        LostStaysLost(m1, changes, rest, m[x], Place(changes, changes.Keys, x).value);
      }
    }
  }

  lemma DistinctConcat(a: seq<string>, b: seq<string>)
    requires Distinct(a) && Distinct(b) && forall u :: u in a ==> u !in b
    ensures Distinct(a + b)
  {
    forall i, k | 0 <= i < k < |a + b| ensures (a + b)[i] != (a + b)[k] {
      if i < |a| <= k {
        assert a[i] in a && b[k - |a|] in b;
      }
    }
  }

  /** An order that does what it must at the urls that no object has, and then first u, then more. */
  lemma BuildOrder<R>(
      m: map<string, R>, changes: Batch, first: seq<string>)
    returns (order: seq<string>, rest: seq<string>)
    requires Distinct(first) && forall v :: v in first ==> v in changes
    ensures IsOrder(order, changes)
    ensures ApplyAll(m, changes, order) == ApplyAll(m, changes, first + rest)
    ensures forall v :: v in rest ==> v in m && v !in first
  {
    var foreign := SomeOrder(changes.Keys - m.Keys - Values(first));
    rest := SomeOrder(changes.Keys * m.Keys - Values(first));
    order := foreign + (first + rest);
    DistinctConcat(first, rest);
    DistinctConcat(foreign, first + rest);
    assert forall v :: v in order <==> v in foreign || v in first || v in rest;
    ForeignUrlsDoNothing(m, changes, foreign, first + rest);
  }

  /** The batch renames u to x, where no object is, and then deals with x further. */
  ghost predicate Chains<R>(m: map<string, R>, changes: Batch, u: string, x: string) {
    && IsBatch(changes) && Injective(m) && u in m && Renames(changes, u)
    && x == NewUrl(changes, u) && x !in m && x in changes && !Inert(changes[x])
  }

  lemma DroppedUrlSpoils<R>(m: map<string, R>, changes: Batch, u: string, x: string) returns (order: seq<string>)
    requires Chains(m, changes, u, x) && Drops(changes, x)
    ensures Spoils(m, changes, order)
  {
    var rest;
    order, rest := BuildOrder(m, changes, [u, x]);
    FirstTwo(m, changes, u, x, rest);
    var m2 := Apply(Apply(m, changes, u), changes, x);
    assert m[u] !in m2.Values;
    if IsSubstitution(m, changes, ApplyAll(m, changes, order)) {
      assert Place(changes, changes.Keys, u) == Some(x);
      LostStaysLost(m2, changes, rest, m[u], x);
    }
  }

  lemma DroppedTargetSpoils<R>(m: map<string, R>, changes: Batch, u: string, x: string) returns (order: seq<string>)
    requires Chains(m, changes, u, x) && Renames(changes, x)
    requires var y := NewUrl(changes, x); y != u && y in m && Drops(changes, y)
    ensures Spoils(m, changes, order)
  {
    var y := NewUrl(changes, x);
    var m2 := Apply(Apply(m, changes, u), changes, x);
    var rest;
    order, rest := BuildOrder(m, changes, [u, x, y]);
    assert [u, x, y] + rest == [u, x] + ([y] + rest);
    FirstTwo(m, changes, u, x, [y] + rest);
    FirstTwo(m2, changes, y, y, rest);
    var m3 := Apply(m2, changes, y);
    assert m[u] !in m3.Values;
    if IsSubstitution(m, changes, ApplyAll(m, changes, order)) {
      assert Place(changes, changes.Keys, u) == Some(x);
      LostStaysLost(m3, changes, rest, m[u], x);
    }
  }

  lemma MovedOnSpoils<R>(m: map<string, R>, changes: Batch, u: string, x: string) returns (order: seq<string>)
    requires Chains(m, changes, u, x) && Renames(changes, x)
    requires var y := NewUrl(changes, x); y == u || y !in m || !Drops(changes, y)
    ensures Spoils(m, changes, order)
  {
    var y := NewUrl(changes, x);
    var m1 := Apply(m, changes, u);
    var m2 := Apply(m1, changes, x);
    var rest;
    order, rest := BuildOrder(m, changes, [u, x]);
    FirstTwo(m, changes, u, x, rest);
    ApplyKeepsInjective(m, changes, u);
    ApplyKeepsInjective(m1, changes, x);
    assert y != x && y in m2 && m2[y] == m[u];
    if IsSubstitution(m, changes, ApplyAll(m, changes, order)) {
      assert Place(changes, changes.Keys, u) == Some(x);
      if y != u && y in m {
        assert m[y] !in m2.Values;
        LostStaysLost(m2, changes, rest, m[y], Place(changes, changes.Keys, y).value);
      } else {
        assert y !in rest by { assert u in [u, x]; }
        SettledObjectStays(m2, changes, rest, y, m[u], x);
      }
    }
  }

  /** A new url that the batch would change further. */
  lemma BusyUrlSpoils<R>(m: map<string, R>, changes: Batch, u: string, x: string) returns (order: seq<string>)
    requires Chains(m, changes, u, x)
    ensures Spoils(m, changes, order)
  {
    var y := NewUrl(changes, x);
    if Drops(changes, x) {
      order := DroppedUrlSpoils(m, changes, u, x);
    } else if y != u && y in m && Drops(changes, y) {
      order := DroppedTargetSpoils(m, changes, u, x);
    } else {
      order := MovedOnSpoils(m, changes, u, x);
    }
  }

  /** Every order of the batch gives the simultaneous substitution exactly when no new url collides. */
  lemma OrdersSubstituteExactlyWithoutCollision<R>(m: map<string, R>, changes: Batch)
    requires IsBatch(changes) && Injective(m)
    ensures (forall order :: IsOrder(order, changes) ==> IsSubstitution(m, changes, ApplyAll(m, changes, order)))
       <==> CollisionFree(m.Keys, changes)
  {
    if CollisionFree(m.Keys, changes) {
      forall order | IsOrder(order, changes)
        ensures IsSubstitution(m, changes, ApplyAll(m, changes, order))
      {
        EveryOrderSubstitutes(m, changes, order);
      }
    } else {
      var order := CollisionSpoils(m, changes);
    }
  }

  lemma CollisionSpoils<R>(m: map<string, R>, changes: Batch) returns (order: seq<string>)
    requires IsBatch(changes) && Injective(m) && !CollisionFree(m.Keys, changes)
    ensures Spoils(m, changes, order)
  {
    var u :| u in m && Renames(changes, u) && NewUrl(changes, u) != u && !(
      && NewUrl(changes, u) !in m
      && (forall v :: v in m && v != u && Renames(changes, v) ==> NewUrl(changes, u) != NewUrl(changes, v))
      && (NewUrl(changes, u) in changes ==> Inert(changes[NewUrl(changes, u)])));
    if NewUrl(changes, u) in m {
      order := OccupiedUrlSpoils(m, changes, u);
    } else if v :| v in m && v != u && Renames(changes, v) && NewUrl(changes, u) == NewUrl(changes, v) {
      order := SomeOrder(changes.Keys);
      assert Place(changes, changes.Keys, u) == Place(changes, changes.Keys, v);
      assert m[u] != m[v];
    } else {
      order := BusyUrlSpoils(m, changes, u, NewUrl(changes, u));
    }
  }

  // ----- When do all orders give one map? -----

  /** The change takes an object from its url to another one. */
  predicate Moves(changes: Batch, url: string) { Renames(changes, url) && NewUrl(changes, url) != url }

  /** Two objects never move to one url, and an object moves only to a url that the batch does nothing
      further about. Another object may be there: it is lost in every order. */
  ghost predicate OrderFree(urls: set<string>, changes: Batch) {
    forall u :: u in urls && Moves(changes, u) ==>
      && (forall v :: v in urls && v != u && Moves(changes, v) ==> NewUrl(changes, u) != NewUrl(changes, v))
      && (NewUrl(changes, u) in changes ==> Inert(changes[NewUrl(changes, u)]))
  }

  ghost predicate MovesOnto(urls: set<string>, changes: Batch, done: set<string>, u: string, w: string) {
    u in urls && u in done && Moves(changes, u) && NewUrl(changes, u) == w
  }

  ghost predicate Stays(changes: Batch, done: set<string>, w: string) {
    w in done ==> !Drops(changes, w) && !Moves(changes, w)
  }

  /** What an order-free batch makes of the map: objects that move are at their new urls, whatever was
      there; of the others those are left that are not dropped. */
  ghost predicate IsLanded<R>(m: map<string, R>, changes: Batch, done: set<string>, m': map<string, R>) {
    && (forall u, w :: MovesOnto(m.Keys, changes, done, u, w) ==> w in m' && m'[w] == m[u])
    && (forall w :: w in m && Stays(changes, done, w) ==>
          w in m' && (m'[w] == m[w] || exists u :: MovesOnto(m.Keys, changes, done, u, w)))
    && (forall w :: w in m' ==>
          (w in m && Stays(changes, done, w)) || exists u :: MovesOnto(m.Keys, changes, done, u, w))
  }

  lemma LandedIsUnique<R>(m: map<string, R>, changes: Batch, done: set<string>, m1: map<string, R>, m2: map<string, R>)
    requires IsLanded(m, changes, done, m1) && IsLanded(m, changes, done, m2)
    ensures m1 == m2
  {
    forall w | w in m1 || w in m2 ensures w in m1 && w in m2 && m1[w] == m2[w] {
      if u :| MovesOnto(m.Keys, changes, done, u, w) {
        assert m1[w] == m[u] == m2[w];
      }
    }
  }

  /** A change that has nothing to do. */
  lemma IdleLands<R>(m: map<string, R>, changes: Batch, done: set<string>, m1: map<string, R>, url: string)
    requires IsLanded(m, changes, done, m1) && !Moves(changes, url) && (url in m ==> !Drops(changes, url))
    ensures IsLanded(m, changes, done + {url}, m1)
  {
    forall u, w ensures MovesOnto(m.Keys, changes, done + {url}, u, w) == MovesOnto(m.Keys, changes, done, u, w) {
    }
    forall w | w in m ensures Stays(changes, done + {url}, w) == Stays(changes, done, w) {
    }
  }

  /** A change at the url of an object that is to move or to go finds that object there. */
  lemma BusyLands<R>(m: map<string, R>, changes: Batch, done: set<string>, m1: map<string, R>, url: string)
    requires OrderFree(m.Keys, changes) && IsLanded(m, changes, done, m1)
    requires IsBatch(changes) && url in m && url !in done && (Drops(changes, url) || Moves(changes, url))
    ensures IsLanded(m, changes, done + {url}, Apply(m1, changes, url))
  {
    var m2, next := Apply(m1, changes, url), done + {url};
    assert forall u :: !MovesOnto(m.Keys, changes, next, u, url);
    assert Stays(changes, done, url) && m1[url] == m[url];
    forall u, w | MovesOnto(m.Keys, changes, next, u, w) ensures w in m2 && m2[w] == m[u] {
      if u != url {
        assert MovesOnto(m.Keys, changes, done, u, w);
      }
    }
    forall w | w in m && Stays(changes, next, w)
      ensures w in m2 && (m2[w] == m[w] || exists u :: MovesOnto(m.Keys, changes, next, u, w))
    {
      assert w != url && Stays(changes, done, w);
      if Moves(changes, url) && NewUrl(changes, url) == w {
        assert MovesOnto(m.Keys, changes, next, url, w);
      } else if u :| MovesOnto(m.Keys, changes, done, u, w) {
        assert MovesOnto(m.Keys, changes, next, u, w);
      }
    }
    forall w | w in m2
      ensures (w in m && Stays(changes, next, w)) || exists u :: MovesOnto(m.Keys, changes, next, u, w)
    {
      if Moves(changes, url) && NewUrl(changes, url) == w {
        assert MovesOnto(m.Keys, changes, next, url, w);
      } else if u :| MovesOnto(m.Keys, changes, done, u, w) {
        assert MovesOnto(m.Keys, changes, next, u, w);
      } else {
        assert w in m1 && w != url;
      }
    }
  }

  lemma StepLands<R>(m: map<string, R>, changes: Batch, done: set<string>, m1: map<string, R>, url: string)
    requires OrderFree(m.Keys, changes) && IsLanded(m, changes, done, m1)
    requires IsBatch(changes) && url in changes && url !in done
    ensures IsLanded(m, changes, done + {url}, Apply(m1, changes, url))
  {
    if url in m && (Drops(changes, url) || Moves(changes, url)) {
      BusyLands(m, changes, done, m1, url);
    } else {
      if url !in m && url in m1 {
        var u :| MovesOnto(m.Keys, changes, done, u, url);
        assert Inert(changes[url]);
      }
      assert Apply(m1, changes, url) == m1;
      if url in m || url in m1 {
        IdleLands(m, changes, done, m1, url);
      } else {
        AbsentLands(m, changes, done, m1, url);
      }
    }
  }

  lemma AbsentLands<R>(m: map<string, R>, changes: Batch, done: set<string>, m1: map<string, R>, url: string)
    requires IsLanded(m, changes, done, m1) && url !in m
    ensures IsLanded(m, changes, done + {url}, m1)
  {
    forall u, w ensures MovesOnto(m.Keys, changes, done + {url}, u, w) == MovesOnto(m.Keys, changes, done, u, w) {
    }
    forall w | w in m ensures Stays(changes, done + {url}, w) == Stays(changes, done, w) {
    }
  }

  lemma {:induction false} SequenceLands<R>(m: map<string, R>, changes: Batch, done: seq<string>)
    requires IsBatch(changes) && OrderFree(m.Keys, changes)
    requires Distinct(done) && forall i :: 0 <= i < |done| ==> done[i] in changes
    ensures IsLanded(m, changes, Values(done), ApplyAll(m, changes, done))
    decreases done
  {
    if done == [] {
      assert IsLanded(m, changes, {}, m);
    } else {
      var before, url := done[..|done| - 1], done[|done| - 1];
      assert done == before + [url];
      ValuesOfLonger(before, url);
      SequenceLands(m, changes, before);
      StepLands(m, changes, Values(before), ApplyAll(m, changes, before), url);
      ApplyLast(m, changes, before, url);
    }
  }

  lemma {:induction false} OthersStay<R>(m: map<string, R>, changes: Batch, order: seq<string>, u: string)
    requires u in m && u !in order && Injective(m)
    ensures u in ApplyAll(m, changes, order) && Injective(ApplyAll(m, changes, order))
    decreases order
  {
    if order == [] {
    } else {
      assert order[0] in order && order[0] != u;
      ApplyKeepsInjective(m, changes, order[0]);
      assert forall v :: v in order[1..] ==> v in order;
      OthersStay(Apply(m, changes, order[0]), changes, order[1..], u);
    }
  }

  /** The two orders that differ at their ends only. */
  lemma TwoOrders<R>(m: map<string, R>, changes: Batch, u: string, v: string)
    returns (rest: seq<string>, one: seq<string>, other: seq<string>)
    requires u in changes && v in changes && u != v
    ensures IsOrder(one, changes) && IsOrder(other, changes) && u !in rest && v !in rest
    ensures ApplyAll(m, changes, one) == Apply(Apply(ApplyAll(m, changes, rest), changes, u), changes, v)
    ensures ApplyAll(m, changes, other) == Apply(Apply(ApplyAll(m, changes, rest), changes, v), changes, u)
  {
    rest := SomeOrder(changes.Keys - {u, v});
    one, other := rest + [u, v], rest + [v, u];
    DistinctConcat(rest, [u, v]);
    DistinctConcat(rest, [v, u]);
    assert one == rest + [u] + [v] && other == rest + [v] + [u];
    ApplyLast(m, changes, rest, u);
    ApplyLast(m, changes, rest + [u], v);
    ApplyLast(m, changes, rest, v);
    ApplyLast(m, changes, rest + [v], u);
  }

  ghost predicate Differ<R>(m: map<string, R>, changes: Batch, one: seq<string>, other: seq<string>) {
    IsOrder(one, changes) && IsOrder(other, changes) && ApplyAll(m, changes, one) != ApplyAll(m, changes, other)
  }

  lemma SharedUrlDiffers<R>(m: map<string, R>, changes: Batch, u: string, v: string)
    returns (one: seq<string>, other: seq<string>)
    requires IsBatch(changes) && Injective(m) && u in m && v in m && u != v
    requires Moves(changes, u) && Moves(changes, v) && NewUrl(changes, u) == NewUrl(changes, v)
    ensures Differ(m, changes, one, other)
  {
    var rest;
    rest, one, other := TwoOrders(m, changes, u, v);
    OthersStay(m, changes, rest, u);
    OthersStay(m, changes, rest, v);
    var m1 := ApplyAll(m, changes, rest);
    assert ApplyAll(m, changes, one)[NewUrl(changes, u)] == m1[v];
    assert ApplyAll(m, changes, other)[NewUrl(changes, u)] == m1[u];
    assert m1[u] != m1[v];
  }

  lemma BusyTargetDiffers<R>(m: map<string, R>, changes: Batch, u: string)
    returns (one: seq<string>, other: seq<string>)
    requires IsBatch(changes) && Injective(m) && u in m && Moves(changes, u)
    requires NewUrl(changes, u) in changes && !Inert(changes[NewUrl(changes, u)])
    ensures Differ(m, changes, one, other)
  {
    var t := NewUrl(changes, u);
    var rest;
    rest, one, other := TwoOrders(m, changes, u, t);
    OthersStay(m, changes, rest, u);
    assert t !in ApplyAll(m, changes, one);
    assert t in ApplyAll(m, changes, other);
  }

  lemma OrderFreeAgrees<R>(m: map<string, R>, changes: Batch, one: seq<string>, other: seq<string>)
    requires IsBatch(changes) && OrderFree(m.Keys, changes)
    requires IsOrder(one, changes) && IsOrder(other, changes)
    ensures ApplyAll(m, changes, one) == ApplyAll(m, changes, other)
  {
    SequenceLands(m, changes, one);
    SequenceLands(m, changes, other);
    OrderCovers(one, changes);
    OrderCovers(other, changes);
    LandedIsUnique(m, changes, changes.Keys, ApplyAll(m, changes, one), ApplyAll(m, changes, other));
  }

  lemma OrderBoundDiffers<R>(m: map<string, R>, changes: Batch) returns (one: seq<string>, other: seq<string>)
    requires IsBatch(changes) && Injective(m) && !OrderFree(m.Keys, changes)
    ensures Differ(m, changes, one, other)
  {
    var u :| u in m && Moves(changes, u) && !(
      && (forall v :: v in m && v != u && Moves(changes, v) ==> NewUrl(changes, u) != NewUrl(changes, v))
      && (NewUrl(changes, u) in changes ==> Inert(changes[NewUrl(changes, u)])));
    if v :| v in m && v != u && Moves(changes, v) && NewUrl(changes, u) == NewUrl(changes, v) {
      one, other := SharedUrlDiffers(m, changes, u, v);
    } else {
      one, other := BusyTargetDiffers(m, changes, u);
    }
  }

  /** All orders of the batch give one map exactly if no two objects move to one url and none moves to
      a url that the batch changes further. */
  lemma OrdersAgreeExactly<R>(m: map<string, R>, changes: Batch)
    requires IsBatch(changes) && Injective(m)
    ensures (forall one, other :: !Differ(m, changes, one, other)) <==> OrderFree(m.Keys, changes)
  {
    if OrderFree(m.Keys, changes) {
      forall one, other ensures !Differ(m, changes, one, other) {
        if IsOrder(one, changes) && IsOrder(other, changes) {
          OrderFreeAgrees(m, changes, one, other);
        }
      }
    } else {
      var one, other := OrderBoundDiffers(m, changes);
    }
  }
}
