/** The critical sections of TaskQueue, and ThreadPool's one-shot shutdown. */
module TaskQueue {
  import opened Basics

  /** What push finds under the mutex: refused, admitted, or to wait on not_full. */
  datatype PushTest = Refused | Admitted | MustWait

  function TestPush(size: nat, maxSize: nat, down: bool): PushTest {
    if down then Refused
    else if maxSize == 0 || size < maxSize then Admitted
    else MustWait
  }

  /** What pop finds under the mutex: a task, the end, or to wait on not_empty. */
  datatype PopTest = Gets | Ends | MustWaitToo

  function TestPop(size: nat, down: bool): PopTest {
    if size > 0 then Gets else if down then Ends else MustWaitToo
  }

  class TaskQueue<T> {
    var queue: seq<T>
    const maxSize: nat
    var down: bool

    ghost predicate Valid()
      reads this
    {
      maxSize != 0 ==> |queue| <= maxSize
    }

    constructor (maxSize: nat)
      ensures Valid() && queue == [] && !down && this.maxSize == maxSize
    {
      this.queue, this.maxSize, this.down := [], maxSize, false;
    }

    /** push between taking and giving back the mutex: the wait predicate, then its outcome. */
    method PushSection(task: T) returns (r: PushTest)
      requires Valid()
      modifies this`queue
      ensures Valid()
      ensures r == TestPush(|old(queue)|, maxSize, down)
      ensures r.Refused? <==> down
      ensures r.Admitted? <==> !down && (maxSize == 0 || |old(queue)| < maxSize)
      ensures queue == if r.Admitted? then old(queue) + [task] else old(queue)
    {
      if !(down || maxSize == 0 || |queue| < maxSize) {
        return MustWait;
      }
      if down {
        return Refused;
      }
      queue := queue + [task];
      return Admitted;
    }

    /** pop between taking and giving back the mutex. */
    method PopSection() returns (r: PopTest, task: Option<T>)
      requires Valid()
      modifies this`queue
      ensures Valid()
      ensures r == TestPop(|old(queue)|, down)
      ensures r.Gets? <==> old(queue) != []
      ensures r.Ends? <==> old(queue) == [] && down
      ensures task.Some? <==> r.Gets?
      ensures r.Gets? ==> old(queue) == [task.value] + queue
      ensures !r.Gets? ==> queue == old(queue)
    {
      task := None;
      if !(down || queue != []) {
        return MustWaitToo, None;
      }
      if down && queue == [] {
        return Ends, None;
      }
      r, task := Gets, Some(queue[0]);
      queue := queue[1..];
    }

    method Shutdown()
      modifies this`down
      ensures down
    {
      down := true;
    }
  }

  /** The tasks that throw, in order. */
  function Throwing<T>(throws: T -> bool, tasks: seq<T>): seq<T> {
    if tasks == [] then []
    else
      var n := |tasks| - 1;
      Throwing(throws, tasks[..n]) + if throws(tasks[n]) then [tasks[n]] else []
  }

  class ThreadPool<T> {
    const queue: TaskQueue<T>
    var stopped: bool

    constructor (queue: TaskQueue<T>)
      ensures !stopped && this.queue == queue
    {
      this.queue, this.stopped := queue, false;
    }

    /** Only the first call shuts the queue down; `first` says whether this one was it. */
    method Shutdown() returns (first: bool)
      modifies this`stopped, queue`down
      ensures stopped && first == !old(stopped)
      ensures first ==> queue.down
      ensures !first ==> queue.down == old(queue.down)
    {
      if stopped {
        return false;
      }
      stopped := true;
      queue.Shutdown();
      return true;
    }

    /** One worker alone with a queue already shut down: what is left is run in order, the tasks
        that throw are caught and the loop goes on. */
    method WorkerLoop(throws: T -> bool) returns (ran: seq<T>, caught: seq<T>)
      requires queue.Valid() && queue.down
      modifies queue`queue
      ensures queue.Valid() && queue.queue == []
      ensures ran == old(queue.queue) && caught == Throwing(throws, ran)
    {
      ran, caught := [], [];
      while true
        invariant queue.Valid() && ran + queue.queue == old(queue.queue)
        invariant caught == Throwing(throws, ran)
        decreases |queue.queue|
      {
        var r, task := queue.PopSection();
        if r.Ends? {
          break;
        }
        assert (ran + [task.value])[..|ran|] == ran;
        ran := ran + [task.value];
        if throws(task.value) {
          caught := caught + [task.value];
        }
      }
    }
  }
}
