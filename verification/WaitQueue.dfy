/** The notification queue: a linked list behind a mutex, with a flag that says a consumer is
    waiting. Each method below is one critical section of the original, from Lock to Unlock.
    The channel operations between critical sections are steps of QueueProtocol. */
module WaitQueue {
  import opened Refs

  datatype PopError = EmptyQueue | ClosedQueue

  /** What the mutex protects. */
  datatype State<T> = State(items: seq<T>, closed: bool, waiting: bool)

  /** Push up to its first Unlock. True means that the pusher now owes the consumer a token. */
  function PushSection<T>(s: State<T>, item: T): (State<T>, bool) {
    if s.closed then (s, false)
    else if s.items == [] then (State([item], false, false), s.waiting)
    else (s.(items := s.items + [item]), false)
  }

  function PopSection<T>(s: State<T>): (State<T>, Result<T, PopError>) {
    if s.items == [] then (s, Err(EmptyQueue))
    else if s.closed then (s, Err(ClosedQueue))
    else (s.(items := s.items[1..]), Ok(s.items[0]))
  }

  /** True means that the closer now owes the consumer a token. */
  function CloseSection<T>(s: State<T>): (State<T>, bool) {
    (State(s.items, true, false), s.waiting)
  }

  /** PopWait up to its first Unlock. True means that the consumer goes on to wait for a token. */
  function EnterSection<T>(s: State<T>): (State<T>, bool) {
    if s.items == [] then (s.(waiting := true), true) else (s, false)
  }

  class QueueItem<T> {
    const item: T
    var next: QueueItem?<T>

    constructor (item: T)
      ensures this.item == item && next == null
    {
      this.item := item;
      next := null;
    }
  }

  ghost function Items<T>(spine: seq<QueueItem<T>>): seq<T> {
    seq(|spine|, i requires 0 <= i < |spine| => spine[i].item)
  }

  class Queue<T> {
    var head: QueueItem?<T>
    var tail: QueueItem?<T>
    var closed: bool
    var waiting: bool
    ghost var spine: seq<QueueItem<T>>

    ghost predicate Valid()
      reads this, spine
    {
      && (forall i, j :: 0 <= i < j < |spine| ==> spine[i] != spine[j])
      && (forall i :: 0 <= i < |spine| - 1 ==> spine[i].next == spine[i + 1])
      && if spine == [] then head == null && tail == null
         else head == spine[0] && tail == spine[|spine| - 1] && tail.next == null
    }

    /** The items from head to tail, and the two flags. */
    ghost function View(): State<T>
      reads this
    {
      State(Items(spine), closed, waiting)
    }

    constructor ()
      ensures Valid() && View() == State([], false, false)
    {
      head, tail, closed, waiting, spine := null, null, false, false, [];
    }

    method IsEmpty() returns (empty: bool)
      requires Valid()
      ensures empty <==> View().items == []
    {
      empty := head == null;
    }

    method IsClosed() returns (r: bool)
      ensures r == View().closed
    {
      r := closed;
    }

    method Push(item: T) returns (owesToken: bool)
      requires Valid()
      modifies this, spine
      ensures Valid() && (View(), owesToken) == PushSection(old(View()), item)
      ensures forall n :: n in spine && n !in old(spine) ==> fresh(n)
    {
      if closed {
        return false;
      }
      var qItem := new QueueItem(item);
      if head == null {
        head, tail, spine := qItem, qItem, [qItem];
        owesToken := waiting;
        waiting := false;
        assert View().items == [item];
      } else {
        tail.next := qItem;
        tail := qItem;
        spine := spine + [qItem];
        owesToken := false;
        assert View().items == old(View().items) + [item];
      }
    }

    method Pop() returns (r: Result<T, PopError>)
      requires Valid()
      modifies this
      ensures Valid() && (View(), r) == PopSection(old(View()))
    {
      if head == null {
        return Err(EmptyQueue);
      }
      if closed {
        return Err(ClosedQueue);
      }
      var returnItem := head;
      head := head.next;
      spine := spine[1..];
      if head == null {
        tail := null;
      }
      r := Ok(returnItem.item);
      assert View().items == old(View().items)[1..];
    }

    method Close() returns (owesToken: bool)
      requires Valid()
      modifies this
      ensures Valid() && (View(), owesToken) == CloseSection(old(View()))
    {
      closed := true;
      owesToken := waiting;
      waiting := false;
    }

    method EnterPopWait() returns (mustWait: bool)
      requires Valid()
      modifies this
      ensures Valid() && (View(), mustWait) == EnterSection(old(View()))
    {
      mustWait := head == null;
      if mustWait {
        waiting := true;
      }
    }
  }
}
