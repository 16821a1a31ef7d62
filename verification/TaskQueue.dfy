/** src/thread_pool.c:49-131: the ring buffer and the error slot that planner and workers share. A
    method here is one pass through a critical section; waiting and waking are in `Protocol`. */
module TaskQueue {
  import opened Common
  import opened Words
  import opened Slots

  datatype Queue = Queue(items: seq<Path>, head: nat, tail: nat, count: nat, shutdown: bool)

  predicate RingOk(q: Queue) {
    && q.head < |q.items| && q.count <= |q.items|
    && q.tail == if q.count == |q.items| then q.head else Around(q.head, q.count, |q.items|)
  }

  /** The queued tasks, oldest first. */
  function Contents(q: Queue): seq<Path>
    requires RingOk(q)
  {
    seq(q.count, k requires 0 <= k < q.count => q.items[Around(q.head, k, |q.items|)])
  }

  /** A fresh queue; the slots hold whatever they hold. */
  function EmptyQueue(items: seq<Path>): Queue {
    Queue(items, 0, 0, 0, false)
  }

  function Enqueue(q: Queue, task: Path): Queue
    requires RingOk(q) && q.count < |q.items|
  {
    q.(items := q.items[q.tail := task], tail := (q.tail + 1) % |q.items|, count := q.count + 1)
  }

  function Dequeue(q: Queue): Queue
    requires RingOk(q) && q.count > 0
  {
    q.(head := (q.head + 1) % |q.items|, count := q.count - 1)
  }

  lemma NextIndex(i: nat, capacity: nat)
    requires i < capacity
    ensures (i + 1) % capacity == if i + 1 == capacity then 0 else i + 1
  {
    if i + 1 == capacity {
      ModUnique(i + 1, capacity, 1, 0);
    } else {
      ModUnique(i + 1, capacity, 0, i + 1);
    }
  }

  /** A push goes to the back, whether or not the ring has wrapped round. */
  lemma EnqueueAppends(q: Queue, task: Path)
    requires RingOk(q) && q.count < |q.items|
    ensures RingOk(Enqueue(q, task)) && Contents(Enqueue(q, task)) == Contents(q) + [task]
  {
    NextIndex(q.tail, |q.items|);
    var q' := Enqueue(q, task);
    forall k | 0 <= k < q'.count ensures Contents(q')[k] == (Contents(q) + [task])[k] {
      if k < q.count {
        assert Around(q.head, k, |q.items|) != q.tail;
      }
    }
  }

  /** A pop takes the front. */
  lemma DequeueTakesFront(q: Queue)
    requires RingOk(q) && q.count > 0
    ensures RingOk(Dequeue(q)) && Contents(q) == [q.items[q.head]] + Contents(Dequeue(q))
  {
    NextIndex(q.head, |q.items|);
    var q' := Dequeue(q);
    forall k | 0 <= k < q'.count ensures Contents(q')[k] == Contents(q)[k + 1] {
      assert Around(q'.head, k, |q.items|) == Around(q.head, k + 1, |q.items|);
    }
  }

  /** What a thread that holds the lock finds out. */
  datatype Outcome = MustWait | Refused | Served

  function PushOutcome(q: Queue): Outcome {
    if !q.shutdown && q.count == |q.items| then MustWait else if q.shutdown then Refused else Served
  }

  /** After shutdown the queue is still drained. */
  function PopOutcome(q: Queue): Outcome {
    if !q.shutdown && q.count == 0 then MustWait else if q.count == 0 then Refused else Served
  }

  class TaskQueue {
    const items: array<Path>
    var head: nat
    var tail: nat
    var count: nat
    var shutdown: bool

    ghost function View(): Queue
      reads this, items
    {
      Queue(items[..], head, tail, count, shutdown)
    }

    /** `task_queue_init`. */
    constructor (capacity: nat)
      requires capacity > 0
      ensures fresh(items) && items.Length == capacity && View() == EmptyQueue(items[..])
      ensures RingOk(View()) && Contents(View()) == []
    {
      items := new Path[capacity];
      head, tail, count, shutdown := 0, 0, 0, false;
    }

    /** `task_queue_push` from taking the lock, or from waking with it, to giving it up. */
    method Push(task: Path) returns (outcome: Outcome)
      requires RingOk(View())
      modifies this, items
      ensures outcome == PushOutcome(old(View()))
      ensures View() == if outcome.Served? then Enqueue(old(View()), task) else old(View())
      ensures RingOk(View()) && Contents(View()) == old(Contents(View())) + (if outcome.Served? then [task] else [])
    {
      if !shutdown && count == items.Length {
        return MustWait;
      }
      if shutdown {
        return Refused;
      }
      ghost var before := View();
      EnqueueAppends(before, task);
      items[tail] := task;
      tail := (tail + 1) % items.Length;
      count := count + 1;
      assert View() == Enqueue(before, task);
      return Served;
    }

    /** `task_queue_pop`, likewise. */
    method Pop() returns (outcome: Outcome, task: Path)
      requires RingOk(View())
      modifies this
      ensures outcome == PopOutcome(old(View()))
      ensures View() == if outcome.Served? then Dequeue(old(View())) else old(View())
      ensures RingOk(View()) && old(Contents(View())) == (if outcome.Served? then [task] else []) + Contents(View())
    {
      task := [];
      if !shutdown && count == 0 {
        return MustWait, task;
      }
      if count == 0 {
        return Refused, task;
      }
      ghost var before := View();
      DequeueTakesFront(before);
      task := items[head];
      head := (head + 1) % items.Length;
      count := count - 1;
      assert View() == Dequeue(before);
      return Served, task;
    }

    /** `task_queue_shutdown`. */
    method Shutdown()
      modifies this`shutdown
      ensures View() == old(View()).(shutdown := true)
    {
      shutdown := true;
    }
  }

  /** The error slot after another error is reported. */
  function KeepFirst(firstError: Errno, code: Errno): (e: Errno)
    ensures firstError != OK ==> e == firstError
    ensures code != OK ==> e != OK
  {
    if firstError == OK then code else firstError
  }

  class CompareContext {
    var firstError: Errno

    constructor ()
      ensures firstError == OK
    {
      firstError := OK;
    }

    /** `compare_context_set_error`. */
    method SetError(code: Errno)
      modifies this
      ensures firstError == KeepFirst(old(firstError), code)
    {
      if firstError == OK {
        firstError := code;
      }
    }
  }
}
