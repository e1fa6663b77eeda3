/** Interleavings of the queue's callers: any number of goroutines that push or close, and one that
    calls PopWait over and over. A step is one critical section or one channel operation. */
module QueueProtocol {
  import opened Refs
  import opened WaitQueue

  /** Where a pushing or closing goroutine stands. A closer sends while it holds the lock. */
  datatype Caller<T> =
    | WantPush(item: T) | Sending | WantRelock
    | WantClose | ClosingSend
    | Finished

  datatype Consumer = Idle | Blocked | Woken | Ready

  /** `tokens` fills the one-place wait channel, and `holder` is the goroutine that keeps the lock
      between steps. The last three fields only record history. */
  datatype World<T> = World(
    q: State<T>, tokens: nat, holder: Option<nat>, callers: seq<Caller<T>>, consumer: Consumer,
    pushed: seq<T>, popped: seq<T>, enteredClosed: bool)

  datatype Action<T> =
    | CallPush(item: T) | CallClose | Enter                                  // new calls
    | PushLocked(i: nat) | Send(i: nat) | RelockUnlock(i: nat)
    | CloseLocked(i: nat) | CloseSend(i: nat)
    | Receive | Relock | PopLocked

  const CHANNEL_CAPACITY := 1

  function Init<T>(): World<T> {
    World(State([], false, false), 0, None, [], Idle, [], [], false)
  }

  predicate At<T(==)>(w: World<T>, i: nat, c: Caller<T>) {
    i < |w.callers| && w.callers[i] == c
  }

  predicate Enabled<T(==)>(w: World<T>, a: Action<T>) {
    match a
    case CallPush(_) => true
    case CallClose => true
    case Enter => w.consumer == Idle && w.holder == None
    case PushLocked(i) => i < |w.callers| && w.callers[i].WantPush? && w.holder == None
    case Send(i) => At(w, i, Sending) && w.tokens < CHANNEL_CAPACITY
    case RelockUnlock(i) => At(w, i, WantRelock) && w.holder == None
    case CloseLocked(i) => At(w, i, WantClose) && w.holder == None
    case CloseSend(i) => At(w, i, ClosingSend) && w.tokens < CHANNEL_CAPACITY
    case Receive => w.consumer == Blocked && w.tokens > 0
    case Relock => w.consumer == Woken && w.holder == None
    case PopLocked => w.consumer == Ready && w.holder == None
  }

  function Do<T(==)>(w: World<T>, a: Action<T>): World<T>
    requires Enabled(w, a)
  {
    match a
    case CallPush(item) => w.(callers := w.callers + [WantPush(item)])
    case CallClose => w.(callers := w.callers + [WantClose])
    case Enter =>
      var (q, mustWait) := EnterSection(w.q);
      w.(q := q, consumer := if mustWait then Blocked else Ready, enteredClosed := w.q.closed)
    case PushLocked(i) =>
      var item := w.callers[i].item;
      var (q, owesToken) := PushSection(w.q, item);
      w.(q := q, callers := w.callers[i := if owesToken then Sending else Finished],
         pushed := if w.q.closed then w.pushed else w.pushed + [item])
    case Send(i) => w.(tokens := w.tokens + 1, callers := w.callers[i := WantRelock])
    case RelockUnlock(i) => w.(callers := w.callers[i := Finished])
    case CloseLocked(i) =>
      var (q, owesToken) := CloseSection(w.q);
      if owesToken then w.(q := q, callers := w.callers[i := ClosingSend], holder := Some(i))
      else w.(q := q, callers := w.callers[i := Finished])
    case CloseSend(i) =>
      w.(tokens := w.tokens + 1, callers := w.callers[i := Finished], holder := None)
    case Receive => w.(tokens := w.tokens - 1, consumer := Woken)
    case Relock => w.(consumer := Ready)
    case PopLocked =>
      var (q, r) := PopSection(w.q);
      w.(q := q, consumer := Idle, popped := if r.Ok? then w.popped + [r.value] else w.popped)
  }

  // ----- Runs -----

  ghost predicate IsRun<T>(w: World<T>, run: seq<Action<T>>)
    decreases |run|
  {
    run == [] || (Enabled(w, run[0]) && IsRun(Do(w, run[0]), run[1..]))
  }

  ghost function End<T>(w: World<T>, run: seq<Action<T>>): World<T>
    requires IsRun(w, run)
    decreases |run|
  {
    if run == [] then w else End(Do(w, run[0]), run[1..])
  }

  function Owing<T>(c: Caller<T>): nat { if c.Sending? || c.ClosingSend? then 1 else 0 }

  /** The number of goroutines that have taken the waiting flag and not yet sent their token. */
  function Senders<T>(callers: seq<Caller<T>>): nat {
    if callers == [] then 0 else Owing(callers[0]) + Senders(callers[1..])
  }

  lemma {:induction false} SendersUpdate<T>(callers: seq<Caller<T>>, i: nat, c: Caller<T>)
    requires i < |callers|
    ensures Senders(callers[i := c]) == Senders(callers) - Owing(callers[i]) + Owing(c)
    ensures Senders(callers) >= Owing(callers[i])
  {
    if i == 0 {
      assert callers[0 := c][1..] == callers[1..];
    } else {
      SendersUpdate(callers[1..], i - 1, c);
      assert callers[i := c][1..] == callers[1..][i - 1 := c];
    }
  }

  lemma {:induction false} SendersAppend<T>(callers: seq<Caller<T>>, c: Caller<T>)
    ensures Senders(callers + [c]) == Senders(callers) + Owing(c)
  {
    if callers == [] {
      assert callers + [c] == [c];
    } else {
      SendersAppend(callers[1..], c);
      assert (callers + [c])[1..] == callers[1..] + [c];
    }
  }

  // ----- The invariant -----

  /** The waiting flag, the unsent tokens and the unreceived tokens add up to one while the consumer
      is blocked, and to none otherwise. */
  ghost predicate OneWakeup<T>(w: World<T>) {
    (if w.q.waiting then 1 else 0) + Senders(w.callers) + w.tokens
      == if w.consumer == Blocked then 1 else 0
  }

  ghost predicate Fifo<T>(w: World<T>) { w.popped + w.q.items == w.pushed }

  ghost predicate LockMatches<T>(w: World<T>) {
    && (w.holder.Some? ==> At(w, w.holder.value, ClosingSend))
    && (forall i: nat :: At(w, i, ClosingSend) ==> w.holder == Some(i))
  }

  ghost predicate WakeupsHaveCause<T>(w: World<T>) {
    && (w.q.waiting ==> w.q.items == [])
    && (w.q.waiting && w.q.closed ==> w.enteredClosed)
    && (w.consumer == Woken || w.consumer == Ready || (w.consumer == Blocked && !w.q.waiting)
        ==> w.q.items != [] || w.q.closed)
  }

  ghost predicate Inv<T>(w: World<T>) {
    OneWakeup(w) && Fifo(w) && LockMatches(w) && WakeupsHaveCause(w)
  }

  predicate IsConsumers<T>(a: Action<T>) { a.Enter? || a.Receive? || a.Relock? || a.PopLocked? }

  lemma ConsumerKeepsOneWakeup<T>(w: World<T>, a: Action<T>)
    requires Inv(w) && Enabled(w, a) && IsConsumers(a)
    ensures OneWakeup(Do(w, a))
  {
  }

  lemma CallerKeepsOneWakeup<T>(w: World<T>, a: Action<T>)
    requires Inv(w) && Enabled(w, a) && !IsConsumers(a) && !a.CallPush? && !a.CallClose?
    ensures OneWakeup(Do(w, a))
  {
    SendersUpdate(w.callers, a.i, Do(w, a).callers[a.i]);
  }

  lemma StepKeepsOneWakeup<T>(w: World<T>, a: Action<T>)
    requires Inv(w) && Enabled(w, a)
    ensures OneWakeup(Do(w, a))
  {
    if IsConsumers(a) {
      ConsumerKeepsOneWakeup(w, a);
    } else if a.CallPush? {
      SendersAppend(w.callers, WantPush(a.item));
    } else if a.CallClose? {
      SendersAppend(w.callers, WantClose);
    } else {
      CallerKeepsOneWakeup(w, a);
    }
  }

  lemma StepKeepsFifo<T>(w: World<T>, a: Action<T>)
    requires Fifo(w) && Enabled(w, a)
    ensures Fifo(Do(w, a))
  {
    if a.PopLocked? && w.q.items != [] && !w.q.closed {
      assert w.popped + [w.q.items[0]] + w.q.items[1..] == w.popped + w.q.items;
    } else if a.PushLocked? && !w.q.closed {
      var item := w.callers[a.i].item;
      assert w.popped + (w.q.items + [item]) == w.popped + w.q.items + [item];
    }
  }

  lemma StepKeepsLock<T>(w: World<T>, a: Action<T>)
    requires LockMatches(w) && Enabled(w, a)
    ensures LockMatches(Do(w, a))
  {
  }

  lemma StepKeepsCause<T>(w: World<T>, a: Action<T>)
    requires Inv(w) && Enabled(w, a)
    ensures WakeupsHaveCause(Do(w, a))
  {
  }

  lemma StepKeepsInv<T>(w: World<T>, a: Action<T>)
    requires Inv(w) && Enabled(w, a)
    ensures Inv(Do(w, a))
  {
    StepKeepsOneWakeup(w, a);
    StepKeepsFifo(w, a);
    StepKeepsLock(w, a);
    StepKeepsCause(w, a);
  }

  lemma {:induction false} RunKeepsInv<T>(w: World<T>, run: seq<Action<T>>)
    requires Inv(w) && IsRun(w, run)
    ensures Inv(End(w, run))
    decreases |run|
  {
    if run == [] {
    } else {
      StepKeepsInv(w, run[0]);
      RunKeepsInv(Do(w, run[0]), run[1..]);
    }
  }

  // ----- What holds in every run from the new queue -----

  /** The books balance in every run. */
  lemma EveryRunBalances<T>(run: seq<Action<T>>)
    requires IsRun(Init(), run)
    ensures OneWakeup(End(Init<T>(), run)) && Fifo(End(Init<T>(), run))
  {
    RunKeepsInv(Init(), run);
  }

  /** No send ever blocks, not even the one that Close makes under the lock. */
  lemma SendsNeverBlock<T>(run: seq<Action<T>>, i: nat)
    requires IsRun(Init(), run)
    requires var w := End(Init(), run); At(w, i, Sending) || At(w, i, ClosingSend)
    ensures var w := End(Init(), run);
            Enabled(w, if w.callers[i] == Sending then Send(i) else CloseSend(i))
  {
    RunKeepsInv(Init(), run);
    var w := End(Init(), run);
    SendersUpdate(w.callers, i, Finished);
  }

  /** A consumer that waits while the queue holds items has exactly one wakeup under way. */
  lemma NoLostWakeup<T>(run: seq<Action<T>>)
    requires IsRun(Init(), run)
    requires End(Init(), run).consumer == Blocked && End(Init(), run).q.items != []
    ensures Senders(End(Init(), run).callers) + End(Init(), run).tokens == 1
  {
    RunKeepsInv(Init(), run);
  }

  /** Past its wait on a queue that is still open, PopWait returns the item that is next in push
      order, and never the error for an empty queue. */
  lemma PopWaitReturnsNext<T>(run: seq<Action<T>>)
    requires IsRun(Init(), run)
    requires var w := End(Init(), run); (w.consumer == Woken || w.consumer == Ready) && !w.q.closed
    ensures var w := End(Init<T>(), run);
            |w.popped| < |w.pushed| && PopSection(w.q).1 == Ok(w.pushed[|w.popped|])
  {
    RunKeepsInv(Init(), run);
  }

  /** After Close nothing is pushed and nothing is popped. */
  lemma {:induction false} ClosedStaysAsItIs<T>(w: World<T>, run: seq<Action<T>>)
    requires IsRun(w, run) && w.q.closed
    ensures End(w, run).q.closed && End(w, run).q.items == w.q.items
    ensures End(w, run).pushed == w.pushed && End(w, run).popped == w.popped
    decreases |run|
  {
    if run == [] {
    } else {
      ClosedStaysAsItIs(Do(w, run[0]), run[1..]);
    }
  }

  // ----- Progress -----

  predicate IsNewCall<T>(a: Action<T>) { a.CallPush? || a.CallClose? || a.Enter? }

  /** Every call has returned, except perhaps a PopWait that is entitled to wait. */
  ghost predicate Quiet<T>(w: World<T>) {
    && (forall i :: 0 <= i < |w.callers| ==> w.callers[i] == Finished)
    && (w.consumer == Idle || (w.consumer == Blocked && w.q.waiting))
  }

  function NextOf<T>(c: Caller<T>, i: nat): Action<T>
    requires !c.Finished?
  {
    match c
    case WantPush(_) => PushLocked(i)
    case Sending => Send(i)
    case WantRelock => RelockUnlock(i)
    case WantClose => CloseLocked(i)
    case ClosingSend => CloseSend(i)
  }

  /** There is no deadlock: some call can go on in exactly the worlds that are not quiet. */
  lemma NoDeadlock<T>(w: World<T>)
    requires Inv(w)
    ensures (exists a: Action<T> :: !IsNewCall(a) && Enabled(w, a)) <==> !Quiet(w)
  {
    if i :| 0 <= i < |w.callers| && !w.callers[i].Finished? {
      var j := if w.holder.Some? then w.holder.value else i;
      SendersUpdate(w.callers, j, Finished);
      assert Enabled(w, NextOf(w.callers[j], j));
    } else {
      NoCallersNoSenders(w.callers);
      var a: Action<T> := if w.consumer == Blocked then Receive
                          else if w.consumer == Woken then Relock else PopLocked;
      if !Quiet(w) {
        assert !IsNewCall(a) && Enabled(w, a);
      }
    }
  }

  lemma {:induction false} NoCallersNoSenders<T>(callers: seq<Caller<T>>)
    requires forall i :: 0 <= i < |callers| ==> callers[i] == Finished
    ensures Senders(callers) == 0
  {
    if callers == [] {
    } else {
      NoCallersNoSenders(callers[1..]);
    }
  }

  function StepsLeft<T>(c: Caller<T>): nat {
    match c
    case WantPush(_) => 3
    case Sending => 2
    case WantRelock => 1
    case WantClose => 2
    case ClosingSend => 1
    case Finished => 0
  }

  function CallersLeft<T>(callers: seq<Caller<T>>): nat {
    if callers == [] then 0 else StepsLeft(callers[0]) + CallersLeft(callers[1..])
  }

  /** An upper bound on the steps that the calls in progress can still take. */
  function Work<T>(w: World<T>): nat {
    CallersLeft(w.callers)
      + match w.consumer case Idle => 0 case Ready => 1 case Woken => 2 case Blocked => 3
  }

  lemma {:induction false} CallersLeftUpdate<T>(callers: seq<Caller<T>>, i: nat, c: Caller<T>)
    requires i < |callers|
    ensures CallersLeft(callers[i := c])
         == CallersLeft(callers) - StepsLeft(callers[i]) + StepsLeft(c)
  {
    if i == 0 {
      assert callers[0 := c][1..] == callers[1..];
    } else {
      CallersLeftUpdate(callers[1..], i - 1, c);
      assert callers[i := c][1..] == callers[1..][i - 1 := c];
    }
  }

  lemma StepDoesWork<T>(w: World<T>, a: Action<T>)
    requires Enabled(w, a) && !IsNewCall(a)
    ensures Work(Do(w, a)) < Work(w)
  {
    if !(a.Receive? || a.Relock? || a.PopLocked?) {
      CallersLeftUpdate(w.callers, a.i, Do(w, a).callers[a.i]);
    }
  }

  /** When no new calls come in, the calls in progress all return within Work(w) steps or go on
      until they do, and a consumer that then still waits found the queue empty; if the queue is
      closed by then, it was already closed when that PopWait began. */
  lemma {:induction false} CallsComplete<T>(w: World<T>, run: seq<Action<T>>)
    requires Inv(w) && IsRun(w, run)
    requires forall i :: 0 <= i < |run| ==> !IsNewCall(run[i])
    ensures |run| <= Work(w) - Work(End(w, run))
    ensures Quiet(End(w, run)) || exists a: Action<T> :: !IsNewCall(a) && Enabled(End(w, run), a)
    ensures Quiet(End(w, run)) && End(w, run).consumer == Blocked ==>
              End(w, run).q.items == [] && (End(w, run).q.closed ==> End(w, run).enteredClosed)
    decreases |run|
  {
    if run == [] {
      NoDeadlock(w);
    } else {
      StepDoesWork(w, run[0]);
      StepKeepsInv(w, run[0]);
      CallsComplete(Do(w, run[0]), run[1..]);
    }
  }

  /** Conversely, a PopWait that begins on a closed and empty queue waits until somebody closes the
      queue once more: no push and no step of other calls lets it go on. */
  lemma {:induction false} WaitsForeverAfterClose<T>(w: World<T>, run: seq<Action<T>>)
    requires Inv(w) && w.q.closed && w.q.waiting && IsRun(w, run)
    requires forall i :: 0 <= i < |w.callers| ==> !w.callers[i].WantClose?
    requires forall i :: 0 <= i < |run| ==> !run[i].CallClose?
    ensures End(w, run).consumer == Blocked && End(w, run).q.waiting
    decreases |run|
  {
    if run == [] {
    } else {
      StepKeepsInv(w, run[0]);
      if run[0].PushLocked? || run[0].Send? || run[0].CloseSend? || run[0].RelockUnlock? {
        SendersUpdate(w.callers, run[0].i, Finished);
      }
      WaitsForeverAfterClose(Do(w, run[0]), run[1..]);
    }
  }

  /** Close a new queue, then call PopWait. */
  function Trap<T>(): seq<Action<T>> { [CallClose, CloseLocked(0), Enter] }

  lemma TrapIsRun<T>()
    ensures IsRun(Init<T>(), Trap())
    ensures var w := End(Init<T>(), Trap());
            w == World(State([], true, true), 0, None, [Finished], Blocked, [], [], true)
  {
    var w0, run := Init<T>(), Trap<T>();
    var w1 := Do(w0, run[0]);
    var w2 := Do(w1, run[1]);
    var w3 := Do(w2, run[2]);
    assert run[1..][1..] == [run[2]] && run[1..][1..][1..] == [];
    assert w1.callers == [WantClose] && w2.callers == [Finished];
    assert IsRun(w3, []) && IsRun(w2, [run[2]]) && IsRun(w1, run[1..]);
    assert End(w3, []) == w3 && End(w2, [run[2]]) == w3 && End(w1, run[1..]) == w3;
  }

  /** Such a PopWait is within reach: after that run the consumer waits, whatever follows it, as long as
      nobody closes the queue once more. */
  lemma TrappedForever<T>(more: seq<Action<T>>)
    requires IsRun(Init<T>(), Trap()) && IsRun(End(Init<T>(), Trap()), more)
    requires forall i :: 0 <= i < |more| ==> !more[i].CallClose?
    ensures End(End(Init<T>(), Trap()), more).consumer == Blocked
  {
    TrapIsRun<T>();
    RunKeepsInv(Init<T>(), Trap());
    WaitsForeverAfterClose(End(Init<T>(), Trap()), more);
  }
}
