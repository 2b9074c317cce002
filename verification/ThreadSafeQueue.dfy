/** The bounded queue between producer and worker threads. Each method is one critical section of its mutex. */
module ThreadSafeQueues {
  import opened Wrappers

  /** What a push leaves in a queue that holds at most `maxSize` elements. */
  function Pushed<T>(q: seq<T>, maxSize: nat, t: T): seq<T> {
    if |q| >= maxSize then q else q + [t]
  }

  class ThreadSafeQueue<T> {
    var queue: seq<T>
    const maxSize: nat

    constructor (maxSize: nat)
      ensures queue == [] && this.maxSize == maxSize
    {
      queue := [];
      this.maxSize := maxSize;
    }

    /** False, and no change, when the queue is full. */
    method Push(t: T) returns (ok: bool)
      modifies this
      ensures ok == (|old(queue)| < maxSize)
      ensures queue == Pushed(old(queue), maxSize, t)
    {
      if |queue| >= maxSize {
        return false;
      }
      queue := queue + [t];
      ok := true;
    }

    /** First in, first out; the timed pop behaves the same once its wait is over. */
    method Pop() returns (r: Option<T>)
      modifies this
      ensures old(queue) == [] ==> r == None && queue == []
      ensures old(queue) != [] ==> r == Some(old(queue)[0]) && queue == old(queue)[1..]
    {
      if |queue| == 0 {
        return None;
      }
      r := Some(queue[0]);
      queue := queue[1..];
    }

    method Clear()
      modifies this
      ensures queue == []
    {
      queue := [];
    }
  }
}
