/** The webhook monitor: requests are handled one at a time, a failed one goes back to the front of
    the queue, and after every attempt a timer calls for the next one. */
module RetryQueue {
  import opened Refs
  import opened Sequences

  datatype Request<P> = Request(payload: P, attempts: nat)

  datatype Outcome<P> = Outcome(request: Request<P>, succeeded: bool)

  /** `inFlight` is the request whose handler runs, `timers` counts the pending timers. The last
      three fields record history: payloads posted, handler calls made, and requests done with. */
  datatype State<P> = State(
    requestQueue: seq<Request<P>>, working: bool, inFlight: Option<Request<P>>, timers: nat,
    arrived: seq<P>, calls: seq<P>, finished: seq<Outcome<P>>)

  datatype Event<P> = Post(payload: P) | TimerFires | HandlerReturns | HandlerThrows

  function Init<P>(): State<P> { State([], false, None, 0, [], [], []) }

  /** processNextRequest up to its await. */
  function StartNext<P>(s: State<P>): State<P> {
    if s.working || s.requestQueue == [] then s else
    var request := s.requestQueue[0].(attempts := s.requestQueue[0].attempts + 1);
    s.(requestQueue := s.requestQueue[1..], working := true, inFlight := Some(request),
       calls := s.calls + [request.payload])
  }

  predicate Enabled<P>(s: State<P>, e: Event<P>) {
    match e
    case Post(_) => true
    case TimerFires => s.timers > 0
    case HandlerReturns => s.inFlight.Some?
    case HandlerThrows => s.inFlight.Some?
  }

  /** processNextRequest after its await. */
  function Settle<P>(s: State<P>, succeeded: bool, maxAttempts: int): State<P>
    requires s.inFlight.Some?
  {
    var request := s.inFlight.value;
    var idle := s.(working := false, inFlight := None, timers := s.timers + 1);
    if succeeded || request.attempts >= maxAttempts
    then idle.(finished := s.finished + [Outcome(request, succeeded)])
    else idle.(requestQueue := [request] + s.requestQueue)
  }

  function Do<P>(s: State<P>, e: Event<P>, maxAttempts: int): State<P>
    requires Enabled(s, e)
  {
    match e
    case Post(payload) =>
      StartNext(s.(requestQueue := s.requestQueue + [Request(payload, 0)],
                   arrived := s.arrived + [payload]))
    case TimerFires => StartNext(s.(timers := s.timers - 1))
    case HandlerReturns => Settle(s, true, maxAttempts)
    case HandlerThrows => Settle(s, false, maxAttempts)
  }

  class Monitor<P> {
    const maxAttempts: int
    var requestQueue: seq<Request<P>>
    var working: bool
    var inFlight: Option<Request<P>>
    var timers: nat
    ghost var arrived: seq<P>
    ghost var calls: seq<P>
    ghost var finished: seq<Outcome<P>>

    ghost function View(): State<P>
      reads this
    {
      State(requestQueue, working, inFlight, timers, arrived, calls, finished)
    }

    constructor (maxAttempts: int)
      ensures View() == Init() && this.maxAttempts == maxAttempts
    {
      this.maxAttempts := maxAttempts;
      requestQueue, working, inFlight, timers := [], false, None, 0;
      arrived, calls, finished := [], [], [];
    }

    method ProcessNextRequest()
      modifies this
      ensures View() == StartNext(old(View()))
    {
      if working || |requestQueue| == 0 {
        return;
      }
      working := true;
      var request := requestQueue[0];
      requestQueue := requestQueue[1..];
      request := request.(attempts := request.attempts + 1);
      inFlight := Some(request);
      calls := calls + [request.payload];
    }

    method OnPost(payload: P)
      modifies this
      ensures View() == Do(old(View()), Post(payload), maxAttempts)
    {
      arrived := arrived + [payload];
      requestQueue := requestQueue + [Request(payload, 0)];
      ProcessNextRequest();
    }

    method OnTimer()
      requires timers > 0
      modifies this
      ensures View() == Do(old(View()), TimerFires, maxAttempts)
    {
      timers := timers - 1;
      ProcessNextRequest();
    }

    method OnHandlerDone(threw: bool)
      requires inFlight.Some?
      modifies this
      ensures View() == Do(old(View()), if threw then HandlerThrows else HandlerReturns, maxAttempts)
    {
      var request := inFlight.value;
      inFlight := None;
      if threw && request.attempts < maxAttempts {
        requestQueue := [request] + requestQueue;
      } else {
        finished := finished + [Outcome(request, !threw)];
      }
      working := false;
      timers := timers + 1;
    }
  }

  // ----- The invariant -----

  function Allowed(maxAttempts: int): nat { if maxAttempts < 1 then 1 else maxAttempts }

  function Requests<P>(outcomes: seq<Outcome<P>>): seq<Request<P>> {
    seq(|outcomes|, i requires 0 <= i < |outcomes| => outcomes[i].request)
  }

  /** Every request there is: done with, in flight, waiting. */
  function AllRequests<P>(s: State<P>): seq<Request<P>> {
    Requests(s.finished) + (if s.inFlight.Some? then [s.inFlight.value] else []) + s.requestQueue
  }

  function Payloads<P>(requests: seq<Request<P>>): seq<P> {
    seq(|requests|, i requires 0 <= i < |requests| => requests[i].payload)
  }

  function TriesOfOne<P>(r: Request<P>): seq<P> {
    seq(r.attempts, _ => r.payload)
  }

  /** The handler calls that these requests account for, each as often in a row as it was tried. */
  function Tries<P>(requests: seq<Request<P>>): seq<P> {
    if requests == [] then [] else TriesOfOne(requests[0]) + Tries(requests[1..])
  }

  ghost predicate AttemptsInBounds<P>(s: State<P>, maxAttempts: int) {
    && (forall i :: 0 <= i < |s.requestQueue| ==>
          s.requestQueue[i].attempts < Allowed(maxAttempts)
          && (i > 0 || s.working ==> s.requestQueue[i].attempts == 0))
    && (s.inFlight.Some? ==> 1 <= s.inFlight.value.attempts <= Allowed(maxAttempts))
    && (forall i :: 0 <= i < |s.finished| ==>
          var Outcome(request, succeeded) := s.finished[i];
          && 1 <= request.attempts <= Allowed(maxAttempts)
          && (!succeeded ==> request.attempts == Allowed(maxAttempts)))
  }

  ghost predicate Inv<P>(s: State<P>, maxAttempts: int) {
    && s.working == s.inFlight.Some?
    && (!s.working && s.requestQueue != [] ==> s.timers > 0)
    && AttemptsInBounds(s, maxAttempts)
    && Payloads(AllRequests(s)) == s.arrived
    && Tries(AllRequests(s)) == s.calls
  }

  lemma {:induction false} TriesAppend<P>(a: seq<Request<P>>, b: seq<Request<P>>)
    ensures Tries(a + b) == Tries(a) + Tries(b)
  {
    if a == [] {
      assert a + b == b;
    } else {
      var r, rest := a[0], a[1..];
      TriesAppend(rest, b);
      assert (a + b)[0] == r && (a + b)[1..] == rest + b;
      Regroup(TriesOfOne(r), Tries(rest), Tries(b));
    }
  }

  lemma {:induction false} UntriedMakeNoCalls<P>(requests: seq<Request<P>>)
    requires forall i :: 0 <= i < |requests| ==> requests[i].attempts == 0
    ensures Tries(requests) == []
  {
    if requests == [] {
    } else {
      UntriedMakeNoCalls(requests[1..]);
    }
  }

  lemma TriesOfSingleton<P>(r: Request<P>)
    ensures Tries([r]) == TriesOfOne(r)
  {
    assert [r][1..] == [];
  }

  lemma TriesWithMiddle<P>(done: seq<Request<P>>, r: Request<P>, rest: seq<Request<P>>)
    requires forall i :: 0 <= i < |rest| ==> rest[i].attempts == 0
    ensures Tries(done + [r] + rest) == Tries(done) + TriesOfOne(r)
  {
    UntriedMakeNoCalls(rest);
    TriesAppend(done + [r], rest);
    TriesAppend(done, [r]);
    TriesOfSingleton(r);
  }

  lemma StartNextKeepsInv<P>(s: State<P>, maxAttempts: int)
    requires Inv(s.(timers := s.timers + 1), maxAttempts)
    ensures Inv(StartNext(s), maxAttempts)
  {
    if !s.working && s.requestQueue != [] {
      var before, after := s.requestQueue[0], StartNext(s).inFlight.value;
      var done, rest := Requests(s.finished), s.requestQueue[1..];
      assert AllRequests(s) == done + [before] + rest;
      assert AllRequests(StartNext(s)) == done + [after] + rest;
      assert Payloads(AllRequests(StartNext(s))) == Payloads(AllRequests(s));
      TriesWithMiddle(done, before, rest);
      TriesWithMiddle(done, after, rest);
      assert TriesOfOne(after) == TriesOfOne(before) + [after.payload];
      Regroup(Tries(done), TriesOfOne(before), [after.payload]);
    }
  }

  lemma SettleKeepsInv<P>(s: State<P>, succeeded: bool, maxAttempts: int)
    requires Inv(s, maxAttempts) && s.inFlight.Some?
    ensures Inv(Settle(s, succeeded, maxAttempts), maxAttempts)
  {
    assert AllRequests(Settle(s, succeeded, maxAttempts)) == AllRequests(s);
  }

  function Posted<P>(s: State<P>, payload: P): State<P> {
    s.(requestQueue := s.requestQueue + [Request(payload, 0)], arrived := s.arrived + [payload])
  }

  /** A request that was never tried joins the end: one more payload, and no more calls. */
  lemma PostedRequests<P>(requests: seq<Request<P>>, payload: P)
    ensures Payloads(requests + [Request(payload, 0)]) == Payloads(requests) + [payload]
    ensures Tries(requests + [Request(payload, 0)]) == Tries(requests)
  {
    var r := Request(payload, 0);
    TriesAppend(requests, [r]);
    TriesOfSingleton(r);
    assert TriesOfOne(r) == [];
    assert Tries(requests) + [] == Tries(requests);
  }

  lemma PostedAttempts<P>(s: State<P>, payload: P, maxAttempts: int)
    requires AttemptsInBounds(s, maxAttempts)
    ensures AttemptsInBounds(Posted(s, payload), maxAttempts)
  {
  }

  lemma PostedKeepsInv<P>(s: State<P>, payload: P, maxAttempts: int)
    requires Inv(s, maxAttempts)
    ensures Inv(Posted(s, payload).(timers := s.timers + 1), maxAttempts)
  {
    var posted := Posted(s, payload).(timers := s.timers + 1);
    assert AllRequests(posted) == AllRequests(s) + [Request(payload, 0)];
    PostedRequests(AllRequests(s), payload);
    PostedAttempts(s, payload, maxAttempts);
  }

  lemma StepKeepsInv<P>(s: State<P>, e: Event<P>, maxAttempts: int)
    requires Inv(s, maxAttempts) && Enabled(s, e)
    ensures Inv(Do(s, e, maxAttempts), maxAttempts)
  {
    match e
    case Post(payload) =>
      PostedKeepsInv(s, payload, maxAttempts);
      StartNextKeepsInv(Posted(s, payload), maxAttempts);
    case TimerFires => StartNextKeepsInv(s.(timers := s.timers - 1), maxAttempts);
    case HandlerReturns => SettleKeepsInv(s, true, maxAttempts);
    case HandlerThrows => SettleKeepsInv(s, false, maxAttempts);
  }

  // ----- Runs -----

  ghost predicate IsRun<P>(s: State<P>, run: seq<Event<P>>, maxAttempts: int)
    decreases |run|
  {
    run == [] || (Enabled(s, run[0]) && IsRun(Do(s, run[0], maxAttempts), run[1..], maxAttempts))
  }

  ghost function End<P>(s: State<P>, run: seq<Event<P>>, maxAttempts: int): State<P>
    requires IsRun(s, run, maxAttempts)
    decreases |run|
  {
    if run == [] then s else End(Do(s, run[0], maxAttempts), run[1..], maxAttempts)
  }

  lemma {:induction false} RunKeepsInv<P>(s: State<P>, run: seq<Event<P>>, maxAttempts: int)
    requires Inv(s, maxAttempts) && IsRun(s, run, maxAttempts)
    ensures Inv(End(s, run, maxAttempts), maxAttempts)
    decreases |run|
  {
    if run == [] {
    } else {
      StepKeepsInv(s, run[0], maxAttempts);
      RunKeepsInv(Do(s, run[0], maxAttempts), run[1..], maxAttempts);
    }
  }

  /** In every run the requests keep their arrival order across retries: finished, in flight and
      queued requests, in that order, are the posted payloads. */
  lemma ArrivalOrderIsKept<P>(run: seq<Event<P>>, maxAttempts: int)
    requires IsRun(Init(), run, maxAttempts)
    ensures var s := End(Init<P>(), run, maxAttempts); Payloads(AllRequests(s)) == s.arrived
  {
    RunKeepsInv(Init(), run, maxAttempts);
  }

  /** In every run the handler is called for one request after the other, each request as often in
      a row as its attempt counter says: at most max(1, maxAttempts) times, and exactly that often
      before the request is given up. */
  lemma RetriesAreBounded<P>(run: seq<Event<P>>, maxAttempts: int)
    requires IsRun(Init(), run, maxAttempts)
    ensures var s := End(Init<P>(), run, maxAttempts);
            && s.calls == Tries(AllRequests(s))
            && (forall r :: r in AllRequests(s) ==> r.attempts <= Allowed(maxAttempts))
            && (forall o :: o in s.finished && !o.succeeded ==>
                  o.request.attempts == Allowed(maxAttempts))
  {
    RunKeepsInv(Init(), run, maxAttempts);
  }

  /** A queue that holds requests while none is in flight always has a timer to wake it. */
  lemma IdleQueueHasTimer<P>(run: seq<Event<P>>, maxAttempts: int)
    requires IsRun(Init(), run, maxAttempts)
    ensures var s := End(Init<P>(), run, maxAttempts);
            s.requestQueue != [] && s.inFlight.None? ==> s.timers > 0
  {
    RunKeepsInv(Init(), run, maxAttempts);
  }

  // ----- The queue runs empty once posts stop -----

  function AttemptsLeft<P>(requests: seq<Request<P>>, allowed: nat): int {
    if requests == [] then 0
    else allowed - requests[0].attempts + AttemptsLeft(requests[1..], allowed)
  }

  function Work<P>(s: State<P>, maxAttempts: int): int {
    var allowed := Allowed(maxAttempts);
    3 * AttemptsLeft(s.requestQueue, allowed) + s.timers
      + if s.inFlight.Some? then 3 * (allowed - s.inFlight.value.attempts) + 2 else 0
  }

  lemma {:induction false} AttemptsLeftNonNegative<P>(requests: seq<Request<P>>, allowed: nat)
    requires forall i :: 0 <= i < |requests| ==> requests[i].attempts <= allowed
    ensures AttemptsLeft(requests, allowed) >= 0
  {
    if requests == [] {
    } else {
      AttemptsLeftNonNegative(requests[1..], allowed);
    }
  }

  lemma StepDoesWork<P>(s: State<P>, e: Event<P>, maxAttempts: int)
    requires Inv(s, maxAttempts) && Enabled(s, e) && !e.Post?
    ensures 0 <= Work(Do(s, e, maxAttempts), maxAttempts) < Work(s, maxAttempts)
  {
    StepKeepsInv(s, e, maxAttempts);
    AttemptsLeftNonNegative(Do(s, e, maxAttempts).requestQueue, Allowed(maxAttempts));
    if s.inFlight.Some? {
      var back := [s.inFlight.value] + s.requestQueue;
      assert back[1..] == s.requestQueue;
    }
  }

  lemma StuckIsDone<P>(s: State<P>, maxAttempts: int)
    requires Inv(s, maxAttempts) && s.timers == 0 && s.inFlight.None?
    ensures s.requestQueue == [] && Payloads(Requests(s.finished)) == s.arrived
  {
    assert AllRequests(s) == Requests(s.finished);
  }

  lemma StepArrives<P>(s: State<P>, e: Event<P>, maxAttempts: int)
    requires Enabled(s, e) && !e.Post?
    ensures Do(s, e, maxAttempts).arrived == s.arrived
  {
  }

  /** Without new posts no run is longer than Work(s); and a run that cannot go on has left nothing
      queued or in flight, every posted request being finished. */
  lemma {:induction false} QueueDrains<P>(s: State<P>, run: seq<Event<P>>, maxAttempts: int)
    requires Inv(s, maxAttempts) && IsRun(s, run, maxAttempts)
    requires forall i :: 0 <= i < |run| ==> !run[i].Post?
    ensures |run| <= Work(s, maxAttempts) - Work(End(s, run, maxAttempts), maxAttempts)
    ensures var end := End(s, run, maxAttempts);
            (forall e: Event<P> :: Enabled(end, e) ==> e.Post?) ==>
              end.requestQueue == [] && end.inFlight.None? && Payloads(Requests(end.finished)) == s.arrived
    decreases |run|
  {
    if run == [] {
      if !Enabled(s, TimerFires) && !Enabled(s, HandlerReturns) {
        StuckIsDone(s, maxAttempts);
      }
    } else {
      StepDoesWork(s, run[0], maxAttempts);
      StepKeepsInv(s, run[0], maxAttempts);
      StepArrives(s, run[0], maxAttempts);
      QueueDrains(Do(s, run[0], maxAttempts), run[1..], maxAttempts);
    }
  }
}
