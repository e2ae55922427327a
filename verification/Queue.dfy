/** queue.h: the bounded, closeable queue between the network thread and the
    core loop. `Queue` is the object whose critical sections change it in place;
    `Monitor` is the same queue under any number of producers, consumers and
    closers, with the mutex, the condition variable's sleep and the two notify
    calls as separate steps that interleave freely. */
module Queue {

  import opened Options

  // ---- The critical sections ----

  datatype Shared<T> = Shared(items: seq<T>, closed: bool) {
    /** What try_push does while it holds the mutex. */
    function Push(item: T, capacity: nat): (Shared<T>, bool) {
      if closed || |items| >= capacity then (this, false)
      else (this.(items := items + [item]), true)
    }

    /** The condition wait_pop waits for. */
    predicate Ready() {
      items != [] || closed
    }

    /** What wait_pop does once the condition holds. */
    function Pop(): (Shared<T>, Option<T>) {
      if items == [] then (this, None)
      else (this.(items := items[1..]), Some(items[0]))
    }

    function Close(): Shared<T> {
      this.(closed := true)
    }
  }

  class Queue<T> {
    const capacity: nat
    var items: seq<T>
    var closed: bool

    function State(): Shared<T>
      reads this
    {
      Shared(items, closed)
    }

    constructor (capacity: nat)
      ensures this.capacity == capacity && State() == Shared([], false)
    {
      this.capacity := capacity;
      items, closed := [], false;
    }

    method TryPush(item: T) returns (pushed: bool)
      modifies this
      ensures (State(), pushed) == old(State()).Push(item, capacity)
    {
      if closed { return false; }
      if |items| >= capacity { return false; }
      items := items + [item];
      pushed := true;
    }

    /** wait_pop after its wait has returned. */
    method Pop() returns (item: Option<T>)
      modifies this
      ensures (State(), item) == old(State()).Pop()
    {
      if items == [] { return None; }
      item := Some(items[0]);
      items := items[1..];
    }

    method Close()
      modifies this
      ensures State() == old(State()).Close()
    {
      closed := true;
    }
  }
}
