/** The thread-safe queue that links the workers of a pipeline.

    A queue value is what one critical section of the mutex sees: the items, the blocking flag
    and the size bound.  `TSQueue` is the mutable object; the step systems in `Runtime` and
    `Broadcast` use the queue values and the functions that specify the object's methods.
 */
module Queues {

  datatype Queue<T> = Queue(items: seq<T>, blocking: bool, maxSize: nat) {

    /** A bound of 0 means "no bound". */
    predicate Full() {
      maxSize > 0 && |items| >= maxSize
    }

    /** pop() returns from its wait exactly when this holds. */
    predicate CanPop() {
      items != [] || !blocking
    }

    function Add(value: T): Queue<T> {
      this.(items := items + [value])
    }

    function Remove(): Queue<T>
      requires items != []
    {
      this.(items := items[1..])
    }
  }

  datatype PushResult = Pushed | Overflow

  /** `Waiting` is the caller blocked on the condition variable: nothing has happened yet. */
  datatype PopResult<T> = Popped(value: T) | Underflow | Waiting

  class TSQueue<T> {
    const maxSize: nat
    var queue: seq<T>
    var blocking: bool

    function Value(): Queue<T>
      reads this
    {
      Queue(queue, blocking, maxSize)
    }

    constructor (maxSize: nat, blocking: bool)
      ensures Value() == Queue([], blocking, maxSize)
    {
      this.maxSize := maxSize;
      this.blocking := blocking;
      queue := [];
    }

    method SetNonBlocking()
      modifies this
      ensures !blocking && queue == old(queue)
      ensures Value() == old(Value()).(blocking := false)
    {
      blocking := false;
    }

    method SetBlocking()
      modifies this
      ensures blocking && queue == old(queue)
      ensures Value() == old(Value()).(blocking := true)
    {
      blocking := true;
    }

    method Push(value: T) returns (r: PushResult)
      modifies this
      ensures r == Overflow <==> maxSize > 0 && |old(queue)| >= maxSize
      ensures queue == if r == Pushed then old(queue) + [value] else old(queue)
      ensures blocking == old(blocking)
      ensures r == if old(Value()).Full() then Overflow else Pushed
      ensures Value() == if r == Pushed then old(Value()).Add(value) else old(Value())
    {
      if maxSize > 0 && |queue| >= maxSize {
        return Overflow;
      }
      queue := queue + [value];
      r := Pushed;
    }

    /** One evaluation of the wait predicate, and the removal when it holds. */
    method Pop() returns (r: PopResult<T>)
      modifies this
      ensures r.Waiting? <==> old(queue) == [] && old(blocking)
      ensures r.Waiting? <==> !old(Value()).CanPop()
      ensures r.Popped? <==> old(queue) != []
      ensures if r.Popped? then [r.value] + queue == old(queue) else queue == old(queue)
      ensures blocking == old(blocking)
      ensures Value() == if r.Popped? then old(Value()).Remove() else old(Value())
    {
      if queue == [] && blocking {
        return Waiting;
      }
      if queue == [] {
        return Underflow;
      }
      r := Popped(queue[0]);
      queue := queue[1..];
    }
  }
}
