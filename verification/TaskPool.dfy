/**
 The shared queue, the counters and the free-strand list of a task pool: one function of
 `PoolData` per critical section of `TaskPool.cpp`, and the class that updates them in place.
 */
module TaskPools {
  import opened Strands

  type StrandId = nat

  /** An entry of the pool's queue: a task of `start`, or the drain of a strand. */
  datatype Entry = Plain(task: TaskId) | Drain(strand: StrandId)

  datatype PoolData = PoolData(
    queue: seq<Entry>,
    activeTasks: int,
    stopping: bool,
    joined: bool,
    listed: bool,          // m_workers is not empty
    freeStrands: seq<StrandId>)
  {
    predicate AcceptsStart() { !stopping && listed }

    /** Drains are also accepted while `shutdown` waits for the queue to run dry. */
    predicate AcceptsDrain() { !joined && (listed || stopping) }

    function Push(e: Entry): PoolData { this.(queue := queue + [e]) }

    function Take(): PoolData
      requires queue != []
    {
      this.(queue := queue[1..], activeTasks := activeTasks + 1)
    }

    function Finish(): PoolData { this.(activeTasks := activeTasks - 1) }

    function Stop(): PoolData { this.(stopping := true, listed := false) }

    function PopFree(): PoolData
      requires freeStrands != []
    {
      this.(freeStrands := freeStrands[..|freeStrands| - 1])
    }

    function PushFree(s: StrandId): PoolData { this.(freeStrands := freeStrands + [s]) }
  }

  class TaskPool {
    var queue: seq<Entry>
    var activeTasks: int
    var stopping: bool
    var joined: bool
    var listed: bool
    var freeStrands: seq<StrandId>

    ghost function Data(): PoolData
      reads this
    {
      PoolData(queue, activeTasks, stopping, joined, listed, freeStrands)
    }

    constructor (workers: nat)
      ensures Data() == PoolData([], 0, false, false, workers > 0, [])
    {
      queue, activeTasks, freeStrands := [], 0, [];
      stopping, joined, listed := false, false, workers > 0;
    }

    method Start(task: TaskId) returns (accepted: bool)
      modifies this
      ensures accepted <==> !stopping && listed
      ensures Data() == if accepted then old(Data()).Push(Plain(task)) else old(Data())
      ensures queue == (if accepted then old(queue) + [Plain(task)] else old(queue))
      ensures activeTasks == old(activeTasks) && freeStrands == old(freeStrands)
    {
      if stopping || !listed {
        return false;
      }
      queue := queue + [Plain(task)];
      accepted := true;
    }

    method EnqueueStrandDrain(s: StrandId) returns (accepted: bool)
      modifies this
      ensures accepted <==> !joined && (listed || stopping)
      ensures Data() == if accepted then old(Data()).Push(Drain(s)) else old(Data())
      ensures queue == (if accepted then old(queue) + [Drain(s)] else old(queue))
      ensures activeTasks == old(activeTasks) && freeStrands == old(freeStrands)
    {
      if joined || (!listed && !stopping) {
        return false;
      }
      queue := queue + [Drain(s)];
      accepted := true;
    }

    /** A worker takes the oldest entry and counts as active from then on. */
    method TakeEntry() returns (e: Entry)
      requires queue != []
      modifies this
      ensures Data() == old(Data()).Take()
      ensures [e] + queue == old(queue) && activeTasks == old(activeTasks) + 1 && freeStrands == old(freeStrands)
    {
      e := queue[0];
      queue, activeTasks := queue[1..], activeTasks + 1;
    }

    /** Returns whether the waiters of `waitForDone` are notified. */
    method FinishEntry() returns (done: bool)
      modifies this
      ensures Data() == old(Data()).Finish() && activeTasks == old(activeTasks) - 1 && queue == old(queue)
      ensures done <==> queue == [] && activeTasks == 0
    {
      activeTasks := activeTasks - 1;
      done := queue == [] && activeTasks == 0;
    }

    /** From here on `start` refuses; what is queued stays queued, and drains are still accepted. */
    method BeginShutdown()
      modifies this
      ensures Data() == old(Data()).Stop()
      ensures stopping && !listed && joined == old(joined) && queue == old(queue)
      ensures activeTasks == old(activeTasks) && freeStrands == old(freeStrands)
      ensures !Data().AcceptsStart() && (!joined ==> Data().AcceptsDrain())
    {
      stopping, listed := true, false;
    }

    /** The strand that is freed last is handed out first. */
    method Recycle(s: StrandId)
      modifies this
      ensures Data() == old(Data()).PushFree(s)
      ensures freeStrands != [] && freeStrands[|freeStrands| - 1] == s && Data().PopFree() == old(Data())
      ensures queue == old(queue) && activeTasks == old(activeTasks)
    {
      freeStrands := freeStrands + [s];
    }
  }
}
