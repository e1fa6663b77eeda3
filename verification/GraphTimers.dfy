/** What becomes of the links that are asked for. A request to link makes its new blackboard at once, and
    a timer puts that blackboard in place later, over whatever happened in between. */
module GraphTimers {
  import opened Refs
  import opened GraphModel
  import opened GraphApi
  import opened GraphStore

  function AskedKey(source: Resource, target: Resource): LinkKey { LinkKey(source.ref, target.ref) }

  lemma LinkedKeys(m: Model, source: Resource, target: Resource)
    requires !Stopped(m, source)
    ensures Keys(Linked(m, source, target).links) == Keys(m.links) + [AskedKey(source, target)]
    ensures forall k :: k in Keys(Linked(m, source, target).links)
              <==> k in Keys(m.links) || k == AskedKey(source, target)
  {
    LinkingIsExact(m, source, target);
  }

  // ----- One timer -----

  /** A timer that was set for a link on the blackboard `then` keeps all links of the present blackboard
      exactly if each of them was listed then, or is that link. */
  lemma TimerKeepsLinksExactly(s: Store, s': Store, then': Model, source: Resource, target: Resource)
    requires Step(s, Timer, s') && s.pending[0] == Linked(then', source, target) && !Stopped(then', source)
    ensures (forall k :: k in Keys(s.blackboard.links) ==> k in Keys(s'.blackboard.links))
       <==> forall k :: k in Keys(s.blackboard.links) ==> k in Keys(then'.links) || k == AskedKey(source, target)
  {
    LinkedKeys(then', source, target);
  }

  /** The two blackboards list the same links, k aside. */
  ghost predicate SameLinksBut(m: Model, m': Model, k: LinkKey) {
    forall l :: l != k ==> (l in Keys(m.links) <==> l in Keys(m'.links))
  }

  /** The timer adds just the link that was asked for. */
  ghost predicate AddsJust(m: Model, m': Model, k: LinkKey) {
    forall l :: l in Keys(m'.links) <==> l in Keys(m.links) || l == k
  }

  /** It does just what was asked for exactly if the blackboard lists the links that it listed then, that
      link aside: none may have come, and none may have gone. */
  lemma TimerAddsJustExactly(s: Store, s': Store, then': Model, source: Resource, target: Resource)
    requires Step(s, Timer, s') && s.pending[0] == Linked(then', source, target) && !Stopped(then', source)
    ensures AddsJust(s.blackboard, s'.blackboard, AskedKey(source, target))
       <==> SameLinksBut(then', s.blackboard, AskedKey(source, target))
  {
    LinkedKeys(then', source, target);
  }

  // ----- Timers in runs of all operations -----

  /** The event sets a timer. */
  predicate SetsTimer(s: Store, e: Event) {
    e.ClearBlackboard? || (e.LinkResources? && !Stopped(s.blackboard, e.source))
  }

  /** The blackboard that its timer will put in place. */
  function SetModel(s: Store, e: Event): Model
    requires SetsTimer(s, e)
  {
    if e.ClearBlackboard? then NO_MODEL else Linked(s.blackboard, e.source, e.target)
  }

  /** The pending blackboards after n events, by the events that set their timers: those of the last so
      many settings, in order. */
  ghost predicate IsSetBy(stores: seq<Store>, events: seq<Event>, n: nat, setters: seq<nat>)
    requires GraphStore.IsRun(stores, events) && n <= |events|
  {
    && |setters| == |stores[n].pending|
    && (forall j :: 0 <= j < |setters| ==>
          && setters[j] < n && SetsTimer(stores[setters[j]], events[setters[j]])
          && stores[n].pending[j] == SetModel(stores[setters[j]], events[setters[j]]))
    && (forall i, j :: 0 <= i < j < |setters| ==> setters[i] < setters[j])
  }

  lemma {:induction false} TimersInOrder(stores: seq<Store>, events: seq<Event>, n: nat) returns (setters: seq<nat>)
    requires GraphStore.IsRun(stores, events) && stores[0].pending == [] && n <= |events|
    ensures IsSetBy(stores, events, n, setters)
  {
    if n == 0 {
      setters := [];
    } else {
      var before := TimersInOrder(stores, events, n - 1);
      assert Step(stores[n - 1], events[n - 1], stores[n]);
      if events[n - 1].Timer? {
        setters := before[1..];
      } else if SetsTimer(stores[n - 1], events[n - 1]) {
        setters := before + [n - 1];
      } else {
        setters := before;
      }
    }
  }

  /** Event n is the timer that the request for a link at i has set. */
  ghost predicate RunsTimerOf(stores: seq<Store>, events: seq<Event>, i: nat, n: nat)
    requires GraphStore.IsRun(stores, events)
  {
    && i < n < |events| && events[n].Timer? && events[i].LinkResources? && SetsTimer(stores[i], events[i])
    && stores[n].pending != [] && stores[n].pending[0] == SetModel(stores[i], events[i])
  }

  /** In every run of whatever operations, each timer was set by an earlier request. It does what a request
      for a link asked for, and no more, exactly if the blackboard lists the same links when it runs as
      when it was set, the link itself aside. */
  lemma EveryTimerExactly(stores: seq<Store>, events: seq<Event>, n: nat) returns (i: nat)
    requires GraphStore.IsRun(stores, events) && stores[0].pending == [] && n < |events| && events[n].Timer?
    ensures i < n && SetsTimer(stores[i], events[i])
    ensures events[i].ClearBlackboard? ==> stores[n + 1].blackboard == NO_MODEL
    ensures events[i].LinkResources? ==>
              var k := AskedKey(events[i].source, events[i].target);
              && RunsTimerOf(stores, events, i, n)
              && (AddsJust(stores[n].blackboard, stores[n + 1].blackboard, k)
                  <==> SameLinksBut(stores[i].blackboard, stores[n].blackboard, k))
  {
    var setters := TimersInOrder(stores, events, n);
    assert Step(stores[n], events[n], stores[n + 1]);
    i := setters[0];
    if events[i].LinkResources? {
      TimerAddsJustExactly(stores[n], stores[n + 1], stores[i].blackboard, events[i].source, events[i].target);
    }
  }

  // ----- Runs of requests for links -----

  predicate Asks(events: seq<Event>, i: int) { 0 <= i < |events| && events[i].LinkResources? }

  function KeyAsked(events: seq<Event>, i: int): LinkKey
    requires Asks(events, i)
  {
    AskedKey(events[i].source, events[i].target)
  }

  /** Requests for links and their timers; each link is new and asked for once, and none is stopped. */
  ghost predicate IsLinkRun(stores: seq<Store>, events: seq<Event>) {
    && GraphStore.IsRun(stores, events) && stores[0].pending == []
    && (forall i :: 0 <= i < |events| ==> events[i].LinkResources? || events[i].Timer?)
    && (forall i :: Asks(events, i) ==>
          !Stopped(stores[i].blackboard, events[i].source)
          && KeyAsked(events, i) !in Keys(stores[0].blackboard.links))
    && (forall i, j :: Asks(events, i) && Asks(events, j) && i != j ==> KeyAsked(events, i) != KeyAsked(events, j))
  }

  /** The blackboard once all timers have run. */
  function Front(s: Store): Model {
    if s.pending == [] then s.blackboard else s.pending[|s.pending| - 1]
  }

  ghost predicate AskedBefore(events: seq<Event>, n: nat, k: LinkKey) {
    exists i :: Asks(events, i) && i < n && KeyAsked(events, i) == k
  }

  /** Nothing is listed but what was there or was asked for. */
  ghost predicate Known(stores: seq<Store>, events: seq<Event>, n: nat, m: Model)
    requires |stores| > 0
  {
    forall k :: k in Keys(m.links) ==> k in Keys(stores[0].blackboard.links) || AskedBefore(events, n, k)
  }

  ghost predicate AllKnown(stores: seq<Store>, events: seq<Event>, n: nat)
    requires n < |stores|
  {
    && Known(stores, events, n, stores[n].blackboard)
    && forall j :: 0 <= j < |stores[n].pending| ==> Known(stores, events, n, stores[n].pending[j])
  }

  /** The link is in front, and nowhere else. */
  ghost predicate OnlyInFront(s: Store, k: LinkKey) {
    && k in Keys(Front(s).links) && k !in Keys(s.blackboard.links)
    && forall j :: 0 <= j < |s.pending| - 1 ==> k !in Keys(s.pending[j].links)
  }

  /** While timers are pending, the link asked for last is only in front. */
  ghost predicate NewestInFront(stores: seq<Store>, events: seq<Event>, n: nat)
    requires n < |stores|
  {
    stores[n].pending != [] ==> exists a :: Asks(events, a) && a < n && OnlyInFront(stores[n], KeyAsked(events, a))
  }

  /** All links asked for so far are in front. */
  ghost predicate AllInFront(stores: seq<Store>, events: seq<Event>, n: nat)
    requires n < |stores|
  {
    forall i :: Asks(events, i) && i < n ==> KeyAsked(events, i) in Keys(Front(stores[n]).links)
  }

  /** All requests so far came when no timer was pending. */
  ghost predicate AllInTurn(stores: seq<Store>, events: seq<Event>, n: nat)
    requires n <= |stores|
  {
    forall i :: Asks(events, i) && i < n ==> stores[i].pending == []
  }

  lemma NewKeyIsUnknown(stores: seq<Store>, events: seq<Event>, n: nat, m: Model)
    requires IsLinkRun(stores, events) && Asks(events, n) && Known(stores, events, n, m)
    ensures KeyAsked(events, n) !in Keys(m.links)
  {
  }

  lemma KnownLater(stores: seq<Store>, events: seq<Event>, n: nat, m: Model)
    requires |stores| > 0 && Known(stores, events, n, m)
    ensures Known(stores, events, n + 1, m)
  {
    forall k | k in Keys(m.links) && k !in Keys(stores[0].blackboard.links) ensures AskedBefore(events, n + 1, k) {
      var i :| Asks(events, i) && i < n && KeyAsked(events, i) == k;
    }
  }

  lemma LinkedIsKnown(stores: seq<Store>, events: seq<Event>, n: nat)
    requires IsLinkRun(stores, events) && Asks(events, n) && Known(stores, events, n, stores[n].blackboard)
    ensures Known(stores, events, n + 1, Linked(stores[n].blackboard, events[n].source, events[n].target))
  {
    KnownLater(stores, events, n, stores[n].blackboard);
    LinkedKeys(stores[n].blackboard, events[n].source, events[n].target);
    assert AskedBefore(events, n + 1, KeyAsked(events, n));
  }

  lemma AskStep(stores: seq<Store>, events: seq<Event>, n: nat)
    requires IsLinkRun(stores, events) && Asks(events, n)
    ensures var linked := Linked(stores[n].blackboard, events[n].source, events[n].target);
            && stores[n + 1] == stores[n].(pending := stores[n].pending + [linked]) && Front(stores[n + 1]) == linked
            && forall k :: k in Keys(linked.links) <==>
                 k in Keys(stores[n].blackboard.links) || k == KeyAsked(events, n)
  {
    assert Step(stores[n], events[n], stores[n + 1]);
    LinkedKeys(stores[n].blackboard, events[n].source, events[n].target);
  }

  lemma TimerStep(stores: seq<Store>, events: seq<Event>, n: nat)
    requires IsLinkRun(stores, events) && n < |events| && events[n].Timer?
    ensures var s, s' := stores[n], stores[n + 1];
            && s.pending != [] && s'.blackboard == s.pending[0] && s'.pending == s.pending[1..] && Front(s') == Front(s)
  {
    assert Step(stores[n], events[n], stores[n + 1]);
  }

  lemma StepKeepsKnown(stores: seq<Store>, events: seq<Event>, n: nat)
    requires IsLinkRun(stores, events) && n < |events| && AllKnown(stores, events, n)
    ensures AllKnown(stores, events, n + 1)
  {
    var s, s' := stores[n], stores[n + 1];
    KnownLater(stores, events, n, s.blackboard);
    forall j | 0 <= j < |s.pending| ensures Known(stores, events, n + 1, s.pending[j]) {
      KnownLater(stores, events, n, s.pending[j]);
    }
    if events[n].LinkResources? {
      AskStep(stores, events, n);
      LinkedIsKnown(stores, events, n);
    } else {
      TimerStep(stores, events, n);
    }
  }

  lemma AskKeepsNewest(stores: seq<Store>, events: seq<Event>, n: nat)
    requires IsLinkRun(stores, events) && Asks(events, n) && AllKnown(stores, events, n)
    ensures NewestInFront(stores, events, n + 1)
  {
    var s, s', k := stores[n], stores[n + 1], KeyAsked(events, n);
    AskStep(stores, events, n);
    NewKeyIsUnknown(stores, events, n, s.blackboard);
    forall j | 0 <= j < |s.pending| ensures k !in Keys(s'.pending[j].links) {
      NewKeyIsUnknown(stores, events, n, s.pending[j]);
    }
    assert OnlyInFront(s', k);
  }

  lemma TimerKeepsNewest(stores: seq<Store>, events: seq<Event>, n: nat)
    requires IsLinkRun(stores, events) && n < |events| && events[n].Timer? && NewestInFront(stores, events, n)
    ensures NewestInFront(stores, events, n + 1)
  {
    var s, s' := stores[n], stores[n + 1];
    TimerStep(stores, events, n);
    if s'.pending != [] {
      var a :| Asks(events, a) && a < n && OnlyInFront(s, KeyAsked(events, a));
      assert OnlyInFront(s', KeyAsked(events, a));
    }
  }

  /** A request finds all links in front exactly if it and those before it came in turn. */
  lemma AskKeepsFront(stores: seq<Store>, events: seq<Event>, n: nat)
    requires IsLinkRun(stores, events) && Asks(events, n) && NewestInFront(stores, events, n)
    requires AllInFront(stores, events, n) <==> AllInTurn(stores, events, n)
    ensures AllInFront(stores, events, n + 1) <==> AllInTurn(stores, events, n + 1)
  {
    var s := stores[n];
    AskStep(stores, events, n);
    if s.pending == [] {
      assert AllInTurn(stores, events, n + 1) <==> AllInTurn(stores, events, n);
      if AllInFront(stores, events, n + 1) {
        forall i | Asks(events, i) && i < n ensures KeyAsked(events, i) in Keys(Front(s).links) {
          assert KeyAsked(events, i) in Keys(Front(stores[n + 1]).links);
        }
      }
    } else {
      var a :| Asks(events, a) && a < n && OnlyInFront(s, KeyAsked(events, a));
      assert KeyAsked(events, a) !in Keys(Front(stores[n + 1]).links);
      assert !AllInTurn(stores, events, n + 1);
    }
  }

  lemma TimerKeepsFront(stores: seq<Store>, events: seq<Event>, n: nat)
    requires IsLinkRun(stores, events) && n < |events| && events[n].Timer?
    requires AllInFront(stores, events, n) <==> AllInTurn(stores, events, n)
    ensures AllInFront(stores, events, n + 1) <==> AllInTurn(stores, events, n + 1)
  {
    TimerStep(stores, events, n);
    assert AllInFront(stores, events, n + 1) <==> AllInFront(stores, events, n);
    assert AllInTurn(stores, events, n + 1) <==> AllInTurn(stores, events, n);
  }

  ghost predicate LinkInv(stores: seq<Store>, events: seq<Event>, n: nat)
    requires n < |stores|
  {
    && AllKnown(stores, events, n) && NewestInFront(stores, events, n)
    && (AllInFront(stores, events, n) <==> AllInTurn(stores, events, n))
  }

  lemma LinkRunStart(stores: seq<Store>, events: seq<Event>)
    requires IsLinkRun(stores, events)
    ensures LinkInv(stores, events, 0)
  {
  }

  lemma LinkRunStep(stores: seq<Store>, events: seq<Event>, n: nat)
    requires IsLinkRun(stores, events) && n < |events| && LinkInv(stores, events, n)
    ensures LinkInv(stores, events, n + 1)
  {
    StepKeepsKnown(stores, events, n);
    if events[n].LinkResources? {
      AskKeepsNewest(stores, events, n);
      AskKeepsFront(stores, events, n);
    } else {
      TimerKeepsNewest(stores, events, n);
      TimerKeepsFront(stores, events, n);
    }
  }

  lemma {:induction false} LinkRunInv(stores: seq<Store>, events: seq<Event>, n: nat)
    requires IsLinkRun(stores, events) && n <= |events|
    ensures LinkInv(stores, events, n)
  {
    if n == 0 {
      LinkRunStart(stores, events);
    } else {
      LinkRunInv(stores, events, n - 1);
      LinkRunStep(stores, events, n - 1);
    }
  }

  /** In a run of requests for new links, each asked for once, every link will be on the blackboard once
      the timers have run, exactly if every request came when no timer was pending. */
  lemma LinksSurviveExactly(stores: seq<Store>, events: seq<Event>)
    requires IsLinkRun(stores, events)
    ensures (forall i :: Asks(events, i) ==> KeyAsked(events, i) in Keys(Front(stores[|events|]).links))
       <==> forall i :: Asks(events, i) ==> stores[i].pending == []
  {
    LinkRunInv(stores, events, |events|);
    assert AllInFront(stores, events, |events|) <==>
             forall i :: Asks(events, i) ==> KeyAsked(events, i) in Keys(Front(stores[|events|]).links);
    assert AllInTurn(stores, events, |events|) <==> forall i :: Asks(events, i) ==> stores[i].pending == [];
  }
}
