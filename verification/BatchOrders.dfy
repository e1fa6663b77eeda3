/** When the order of a Go map makes no difference to what a batch leaves behind: not to the group's map,
    not to the shared objects, and not to the links. */
module BatchOrders {
  import opened Counting
  import opened DepiModel
  import opened GroupChanges
  import opened BlackboardSpec
  import opened BatchSpec

  /** The change at the url that the object of u moves to leaves that object as the move does, and leaves
      the object that was there, if any, as it was. */
  ghost predicate Agrees(heap: Heap, m: Objects, changes: Batch, u: string) {
    var t := NewUrl(changes, u);
    Renames(changes, t) ==>
      && Renewed(changes[t]) == Renewed(changes[u])
      && (t in m ==> m[t] < |heap| && heap[m[t]] == Renewed(changes[t]))
  }

  /** No two objects move to one url; none moves to a url that the batch changes further; and a change
      made in place where an object arrives changes nothing but what the arrival changes. */
  ghost predicate Steady(heap: Heap, m: Objects, changes: Batch) {
    && OrderFree(m.Keys, changes)
    && forall u :: u in m && Moves(changes, u) ==> Agrees(heap, m, changes, u)
  }

  // ----- Steady batches have one outcome -----

  /** What the changes at the urls in `done` come to, whatever their order. */
  ghost predicate Landing(s: State, g: GroupKey, changes: Batch, done: set<string>, s': State)
    requires g in s.groups && g in s'.groups
  {
    var m := s.groups[g].resources;
    && s'.groups == s.groups[g := s.groups[g].(resources := s'.groups[g].resources)]
    && IsLanded(m, changes, done, s'.groups[g].resources)
    && Contents(s.heap, m, changes, done, s'.heap)
    && LinksAfter(s, EvictedKeys(s, g, m.Keys, changes, done), s')
  }

  ghost predicate CanLand(s: State, g: GroupKey, changes: Batch) {
    Sound(s) && g in s.groups && IsBatch(changes) && Steady(s.heap, s.groups[g].resources, changes)
  }

  /** What stands at a url when its change comes: the object that was there, or one that moved there. */
  lemma AtItsTurn(m: Objects, changes: Batch, done: set<string>, m1: Objects, url: string)
    returns (u: string)
    requires IsBatch(changes) && OrderFree(m.Keys, changes) && IsLanded(m, changes, done, m1)
    requires url in changes && url !in done && url in m1
    ensures u in m && m1[url] == m[u]
    ensures u == url || (u in done && Moves(changes, u) && NewUrl(changes, u) == url && Inert(changes[url]))
  {
    if v :| MovesOnto(m.Keys, changes, done, v, url) {
      u := v;
    } else {
      u := url;
    }
  }

  /** A change made in place on an object that arrived: nothing happens. */
  lemma ArrivedIsRenewed(heap: Heap, m: Objects, changes: Batch, done: set<string>, heap1: Heap, u: string, url: string)
    requires FiledIn(heap, m) && IsBatch(changes) && Contents(heap, m, changes, done, heap1)
    requires u in m && u in done && Moves(changes, u) && NewUrl(changes, u) == url && url !in done
    requires Agrees(heap, m, changes, u) && Renames(changes, url)
    ensures m[u] < |heap1| && heap1[m[u] := Renewed(changes[url])] == heap1
    ensures Contents(heap, m, changes, done + {url}, heap1)
  {
  }

  lemma UnmovedContents(heap: Heap, m: Objects, changes: Batch, done: set<string>, heap1: Heap, url: string)
    requires Contents(heap, m, changes, done, heap1) && !Renames(changes, url)
    ensures Contents(heap, m, changes, done + {url}, heap1)
  {
    ContentsIdle(heap, m, changes, done, heap1, url);
  }

  lemma ArrivedHeapStep(
      s: State, g: GroupKey, changes: Batch, done: set<string>, s1: State, url: string, u: string)
    requires CanLand(s, g, changes) && url in changes && url !in done
    requires g in s1.groups && Landing(s, g, changes, done, s1) && url in s1.groups[g].resources
    requires u in s.groups[g].resources && s1.groups[g].resources[url] == s.groups[g].resources[u]
    requires u in done && Moves(changes, u) && NewUrl(changes, u) == url && Inert(changes[url])
    ensures Contents(s.heap, s.groups[g].resources, changes, done + {url}, OneChange(s1, g, changes, url).heap)
  {
    var m := s.groups[g].resources;
    GroupIsFiled(s.heap, s.groups, g);
    if Renames(changes, url) {
      assert Agrees(s.heap, m, changes, u);
      ArrivedIsRenewed(s.heap, m, changes, done, s1.heap, u, url);
    } else {
      UnmovedContents(s.heap, m, changes, done, s1.heap, url);
    }
  }

  lemma HeapLands(s: State, g: GroupKey, changes: Batch, done: set<string>, s1: State, url: string)
    requires CanLand(s, g, changes) && url in changes && url !in done
    requires g in s1.groups && Landing(s, g, changes, done, s1)
    ensures Contents(s.heap, s.groups[g].resources, changes, done + {url}, OneChange(s1, g, changes, url).heap)
  {
    var m, m1 := s.groups[g].resources, s1.groups[g].resources;
    GroupIsFiled(s.heap, s.groups, g);
    if url in m1 {
      var u := AtItsTurn(m, changes, done, m1, url);
      if u == url {
        OwnHeapStep(s, g, changes, done, s1, url);
      } else {
        ArrivedHeapStep(s, g, changes, done, s1, url, u);
      }
    } else {
      assert url !in m;
      ContentsIdle(s.heap, m, changes, done, s1.heap, url);
    }
  }

  /** A url that is dropped has its own object, or none, when its change comes. */
  lemma DroppedIsOwn(m: Objects, changes: Batch, done: set<string>, m1: Objects, url: string)
    requires IsBatch(changes) && OrderFree(m.Keys, changes) && IsLanded(m, changes, done, m1)
    requires url in changes && url !in done && Drops(changes, url)
    ensures url in m1 <==> url in m
  {
    if url in m1 {
      var u := AtItsTurn(m, changes, done, m1, url);
    }
  }

  lemma LinksLand(s: State, g: GroupKey, changes: Batch, done: set<string>, s1: State, url: string)
    requires CanLand(s, g, changes) && url in changes && url !in done
    requires g in s1.groups && Landing(s, g, changes, done, s1)
    ensures LinksAfter(s, EvictedKeys(s, g, s.groups[g].resources.Keys, changes, done + {url}),
                       OneChange(s1, g, changes, url))
  {
    var m, m1 := s.groups[g].resources, s1.groups[g].resources;
    GroupIsFiled(s.heap, s.groups, g);
    if Drops(changes, url) {
      DroppedIsOwn(m, changes, done, m1, url);
    }
    if url in m && Drops(changes, url) {
      EvictStep(s, g, changes, done, s1, url);
    } else {
      EvictIdle(s, g, m.Keys, changes, done, url);
    }
  }

  lemma LandingOf(s: State, g: GroupKey, changes: Batch, done: set<string>, s1: State, s2: State, m2: Objects)
    requires g in s.groups && g in s1.groups
    requires s1.groups == s.groups[g := s.groups[g].(resources := s1.groups[g].resources)]
    requires s2.groups == s1.groups[g := s1.groups[g].(resources := m2)]
    requires IsLanded(s.groups[g].resources, changes, done, m2)
    requires Contents(s.heap, s.groups[g].resources, changes, done, s2.heap)
    requires LinksAfter(s, EvictedKeys(s, g, s.groups[g].resources.Keys, changes, done), s2)
    ensures Landing(s, g, changes, done, s2)
  {
    assert s2.groups[g].resources == m2;
    assert s2.groups == s.groups[g := s.groups[g].(resources := m2)];
  }

  lemma MapLands(s: State, g: GroupKey, changes: Batch, done: set<string>, s1: State, url: string)
    requires CanLand(s, g, changes) && url in changes && url !in done
    requires g in s1.groups && Landing(s, g, changes, done, s1)
    ensures IsLanded(s.groups[g].resources, changes, done + {url}, Apply(s1.groups[g].resources, changes, url))
  {
    StepLands(s.groups[g].resources, changes, done, s1.groups[g].resources, url);
  }

  lemma LandingStep(s: State, g: GroupKey, changes: Batch, done: set<string>, s1: State, url: string)
    requires CanLand(s, g, changes) && url in changes && url !in done
    requires Sound(s1) && g in s1.groups && Landing(s, g, changes, done, s1)
    ensures g in OneChange(s1, g, changes, url).groups
    ensures Landing(s, g, changes, done + {url}, OneChange(s1, g, changes, url))
  {
    ChangeKeepsSound(s1, g, changes, url);
    MapLands(s, g, changes, done, s1, url);
    HeapLands(s, g, changes, done, s1, url);
    LinksLand(s, g, changes, done, s1, url);
    LandingOf(s, g, changes, done + {url}, s1, OneChange(s1, g, changes, url),
              Apply(s1.groups[g].resources, changes, url));
  }

  lemma NothingLanded(s: State, g: GroupKey, changes: Batch)
    requires g in s.groups
    ensures Landing(s, g, changes, {}, s)
  {
    assert EvictedKeys(s, g, s.groups[g].resources.Keys, changes, {}) == {};
    assert IsLanded(s.groups[g].resources, changes, {}, s.groups[g].resources);
  }

  lemma {:induction false} ChangesLand(s: State, g: GroupKey, changes: Batch, done: seq<string>)
    requires CanLand(s, g, changes) && Distinct(done) && forall u :: u in done ==> u in changes
    ensures var s' := AllChanges(s, g, changes, done);
            Sound(s') && g in s'.groups && Landing(s, g, changes, Values(done), s')
  {
    BatchKeepsSound(s, g, changes, done);
    if done == [] {
      NothingLanded(s, g, changes);
    } else {
      var before, url := done[..|done| - 1], done[|done| - 1];
      assert done == before + [url];
      ValuesOfLonger(before, url);
      ChangesLand(s, g, changes, before);
      assert url in done;
      LandingStep(s, g, changes, Values(before), AllChanges(s, g, changes, before), url);
    }
  }

  lemma SteadyOrdersAgree(s: State, g: GroupKey, changes: Batch, one: seq<string>, other: seq<string>)
    requires CanLand(s, g, changes) && IsOrder(one, changes) && IsOrder(other, changes)
    ensures AllChanges(s, g, changes, one) == AllChanges(s, g, changes, other)
  {
    var s1, s2 := AllChanges(s, g, changes, one), AllChanges(s, g, changes, other);
    ChangesLand(s, g, changes, one);
    ChangesLand(s, g, changes, other);
    OrderCovers(one, changes);
    OrderCovers(other, changes);
    LandedIsUnique(s.groups[g].resources, changes, changes.Keys, s1.groups[g].resources, s2.groups[g].resources);
    ContentsAreUnique(s.heap, s.groups[g].resources, changes, changes.Keys, s1.heap, s2.heap);
  }

  // ----- Any other batch has two -----

  /** A change elsewhere leaves the object at t alone, unless it moves another one there. */
  lemma ChangeElsewhere(s1: State, g: GroupKey, changes: Batch, url: string, t: string)
    requires Sound(s1) && g in s1.groups && t in s1.groups[g].resources && url != t
    requires url in s1.groups[g].resources && Moves(changes, url) ==> NewUrl(changes, url) != t
    ensures var s2, o := OneChange(s1, g, changes, url), s1.groups[g].resources[t];
            && g in s2.groups && t in s2.groups[g].resources && s2.groups[g].resources[t] == o
            && o < |s1.heap| && o < |s2.heap| && s2.heap[o] == s1.heap[o]
  {
    GroupIsFiled(s1.heap, s1.groups, g);
  }

  /** After some changes in the group, an object moves only from a url that had one at first. */
  lemma MoversWereThere(m: Objects, changes: Batch, done: seq<string>, url: string)
    requires IsBatch(changes) && OrderFree(m.Keys, changes)
    requires Distinct(done) && forall v :: v in done ==> v in changes
    requires url in ApplyAll(m, changes, done) && Moves(changes, url)
    ensures url in m
  {
    SequenceLands(m, changes, done);
  }

  /** The object at t is left alone until the change at t comes or another object arrives. */
  lemma {:induction false} ObjectWaits(s: State, g: GroupKey, changes: Batch, order: seq<string>, t: string)
    requires Sound(s) && g in s.groups && IsBatch(changes) && OrderFree(s.groups[g].resources.Keys, changes)
    requires Distinct(order) && forall v :: v in order ==> v in changes
    requires t in s.groups[g].resources && t !in order
    requires forall v :: v in order && v in s.groups[g].resources && Moves(changes, v) ==> NewUrl(changes, v) != t
    ensures var s', o := AllChanges(s, g, changes, order), s.groups[g].resources[t];
            && g in s'.groups && t in s'.groups[g].resources && s'.groups[g].resources[t] == o
            && o < |s.heap| && o < |s'.heap| && s'.heap[o] == s.heap[o]
  {
    if order == [] {
      GroupIsFiled(s.heap, s.groups, g);
    } else {
      var before, url := order[..|order| - 1], order[|order| - 1];
      assert order == before + [url];
      ValuesOfLonger(before, url);
      ObjectWaits(s, g, changes, before, t);
      BatchKeepsSound(s, g, changes, before);
      assert url in order;
      if url in ApplyAll(s.groups[g].resources, changes, before) && Moves(changes, url) {
        MoversWereThere(s.groups[g].resources, changes, before, url);
      }
      ChangeElsewhere(AllChanges(s, g, changes, before), g, changes, url, t);
    }
  }

  lemma TwoMore(s: State, g: GroupKey, changes: Batch, rest: seq<string>, u: string, v: string)
    ensures AllChanges(s, g, changes, rest + [u] + [v])
         == OneChange(OneChange(AllChanges(s, g, changes, rest), g, changes, u), g, changes, v)
  {
    assert (rest + [u] + [v])[..|rest| + 1] == rest + [u] && (rest + [u])[..|rest|] == rest;
  }

  /** An order that ends in u and v, and the one that swaps them. */
  lemma EndIn(changes: Batch, u: string, v: string)
    returns (rest: seq<string>)
    requires u in changes && v in changes && u != v
    ensures IsOrder(rest + [u] + [v], changes) && IsOrder(rest + [v] + [u], changes)
    ensures u !in rest && v !in rest && Distinct(rest) && forall w :: w in rest ==> w in changes
  {
    rest := SomeOrder(changes.Keys - {u, v});
    DistinctConcat(rest, [u, v]);
    DistinctConcat(rest, [v, u]);
    assert rest + [u] + [v] == rest + [u, v] && rest + [v] + [u] == rest + [v, u];
  }

  /** At the end, u moves to t and t is renewed in place, in either order. */
  lemma RenewedApart(s1: State, g: GroupKey, changes: Batch, u: string)
    requires Sound(s1) && g in s1.groups && IsBatch(changes) && u in s1.groups[g].resources
    requires Moves(changes, u) && Renames(changes, NewUrl(changes, u)) && !Moves(changes, NewUrl(changes, u))
    ensures var t, m1 := NewUrl(changes, u), s1.groups[g].resources;
            var one := OneChange(OneChange(s1, g, changes, u), g, changes, t);
            var other := OneChange(OneChange(s1, g, changes, t), g, changes, u);
            && m1[u] < |one.heap| && m1[u] < |other.heap|
            && one.heap[m1[u]] == Renewed(changes[t]) && other.heap[m1[u]] == Renewed(changes[u])
            && (t in m1 ==>
                  && m1[t] < |s1.heap| && m1[t] < |one.heap| && m1[t] < |other.heap|
                  && one.heap[m1[t]] == s1.heap[m1[t]] && other.heap[m1[t]] == Renewed(changes[t]))
  {
    GroupIsFiled(s1.heap, s1.groups, g);
  }

  ghost predicate StatesDiffer(s: State, g: GroupKey, changes: Batch, one: seq<string>, other: seq<string>) {
    && IsOrder(one, changes) && IsOrder(other, changes)
    && AllChanges(s, g, changes, one) != AllChanges(s, g, changes, other)
  }

  lemma DisagreementDiffers(s: State, g: GroupKey, changes: Batch, u: string)
    returns (one: seq<string>, other: seq<string>)
    requires Sound(s) && g in s.groups && IsBatch(changes) && OrderFree(s.groups[g].resources.Keys, changes)
    requires u in s.groups[g].resources && Moves(changes, u) && !Agrees(s.heap, s.groups[g].resources, changes, u)
    ensures StatesDiffer(s, g, changes, one, other)
  {
    var m, t := s.groups[g].resources, NewUrl(changes, u);
    var rest := EndIn(changes, u, t);
    one, other := rest + [u] + [t], rest + [t] + [u];
    TwoMore(s, g, changes, rest, u, t);
    TwoMore(s, g, changes, rest, t, u);
    var s1 := AllChanges(s, g, changes, rest);
    BatchKeepsSound(s, g, changes, rest);
    ObjectWaits(s, g, changes, rest, u);
    if t in m {
      ObjectWaits(s, g, changes, rest, t);
    }
    RenewedApart(s1, g, changes, u);
  }

  lemma MapsDiffer(s: State, g: GroupKey, changes: Batch) returns (one: seq<string>, other: seq<string>)
    requires Sound(s) && g in s.groups && IsBatch(changes) && !OrderFree(s.groups[g].resources.Keys, changes)
    ensures StatesDiffer(s, g, changes, one, other)
  {
    GroupIsFiled(s.heap, s.groups, g);
    one, other := OrderBoundDiffers(s.groups[g].resources, changes);
    BatchKeepsSound(s, g, changes, one);
    BatchKeepsSound(s, g, changes, other);
    assert AllChanges(s, g, changes, one).groups[g].resources != AllChanges(s, g, changes, other).groups[g].resources;
  }

  /** All orders of the batch lead to one state of groups, objects and links exactly if the batch is
      steady. */
  lemma StatesAgreeExactly(s: State, g: GroupKey, changes: Batch)
    requires Sound(s) && g in s.groups && IsBatch(changes)
    ensures (forall one, other :: !StatesDiffer(s, g, changes, one, other))
       <==> Steady(s.heap, s.groups[g].resources, changes)
  {
    var m := s.groups[g].resources;
    if Steady(s.heap, m, changes) {
      forall one, other ensures !StatesDiffer(s, g, changes, one, other) {
        if IsOrder(one, changes) && IsOrder(other, changes) {
          SteadyOrdersAgree(s, g, changes, one, other);
        }
      }
    } else if !OrderFree(m.Keys, changes) {
      var one, other := MapsDiffer(s, g, changes);
    } else {
      var u :| u in m && Moves(changes, u) && !Agrees(s.heap, m, changes, u);
      var one, other := DisagreementDiffers(s, g, changes, u);
    }
  }
}
