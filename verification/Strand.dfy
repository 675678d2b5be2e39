/**
 The serial executor behind a pooled node subtree. `StrandData` holds the fields of a strand and
 has one function per critical section of `Strand::post`, `schedule` and `drain`; class `Strand`
 updates the fields in place. `PoolProtocol` runs the same functions under every interleaving.
 */
module Strands {

  type TaskId = nat
  type NodeId = nat

  /** Tasks a drain runs before it yields its worker. */
  const BATCH_SIZE: nat := 64

  datatype StrandData = StrandData(
    queue: seq<TaskId>,
    pending: seq<NodeId>,
    scheduled: bool,
    active: bool,
    retired: bool,
    nodeCount: nat,
    reserved: bool,
    free: bool)
  {
    /** The locked part of `post`: queue the task, and claim the drain if nobody has it. */
    function Post(task: TaskId): StrandData {
      if scheduled then this.(queue := queue + [task])
      else this.(queue := queue + [task], scheduled := true, active := true)
    }

    /** `schedule` found the pool's workers gone. */
    function Unschedule(): StrandData {
      this.(scheduled := false, active := false)
    }

    /** The lock after the batch: give the drain up when nothing is left. */
    function FinishBatch(): StrandData {
      if queue != [] then this else Unschedule()
    }

    /** First half of `isRecyclable`, read under the pool's strand mutex. */
    predicate LooksUnused() {
      !free && !reserved && nodeCount == 0
    }

    /** Second half of `isRecyclable`, read under the strand's own mutex. */
    predicate IsIdle() {
      !scheduled && queue == []
    }
  }

  /** A strand as `TaskPool::acquireStrand` hands out a new one. */
  const NEW_STRAND := StrandData([], [], false, false, false, 0, true, false)

  /** What deleting a node does: the nodes destroyed with it, and the `deleteLater` calls made meanwhile. */
  datatype Teardown = Teardown(subtree: set<NodeId>, requests: seq<NodeId>)

  /** Everything that is destroyed when the nodes of `ns` are deleted. */
  ghost function Wrecked(ns: seq<NodeId>, dtor: NodeId -> Teardown): set<NodeId> {
    if ns == [] then {}
    else Wrecked(ns[..|ns| - 1], dtor) + {ns[|ns| - 1]} + dtor(ns[|ns| - 1]).subtree
  }

  /**
   A sweep over pending deletes: `deleted` are the nodes it deleted, each once and while alive,
   `left` is what is still alive, and every delete asked for in `asked` or by a destructor has
   happened or is still in `todo`.
   */
  ghost predicate Sweep(alive: set<NodeId>, left: set<NodeId>, deleted: seq<NodeId>, dtor: NodeId -> Teardown,
                        asked: seq<NodeId>, todo: seq<NodeId>)
  {
    && (forall i :: 0 <= i < |deleted| ==> deleted[i] in alive && deleted[i] !in left)
    && (forall i, j :: 0 <= i < j < |deleted| ==> deleted[i] != deleted[j])
    && left == alive - Wrecked(deleted, dtor)
    && (forall n :: n in asked && n in left ==> n in todo)
    && (forall i, n :: 0 <= i < |deleted| && n in dtor(deleted[i]).requests && n in left ==> n in todo)
  }

  /** One turn of the inner loop, at the first node of `rest`, with `pending` already filled again. */
  lemma SweepNext(alive: set<NodeId>, left: set<NodeId>, deleted: seq<NodeId>, dtor: NodeId -> Teardown,
                  asked: seq<NodeId>, pending: seq<NodeId>, rest: seq<NodeId>)
    requires rest != [] && Sweep(alive, left, deleted, dtor, asked, pending + rest)
    ensures rest[0] in left ==>
              Sweep(alive, left - {rest[0]} - dtor(rest[0]).subtree, deleted + [rest[0]], dtor, asked,
                    pending + dtor(rest[0]).requests + rest[1..])
    ensures rest[0] !in left ==> Sweep(alive, left, deleted, dtor, asked, pending + rest[1..])
  {
    assert (deleted + [rest[0]])[..|deleted|] == deleted;
    assert forall n :: n in rest ==> n == rest[0] || n in rest[1..];
  }

  class Strand {
    var queue: seq<TaskId>
    var pending: seq<NodeId>
    var scheduled: bool
    var active: bool
    var retired: bool
    var nodeCount: nat
    var reserved: bool
    var free: bool

    ghost function Data(): StrandData
      reads this
    {
      StrandData(queue, pending, scheduled, active, retired, nodeCount, reserved, free)
    }

    /** The nodes, pending deletes and flags other than `scheduled` and `active` are those of `was`. */
    ghost predicate RestKept(was: StrandData)
      reads this
    {
      && pending == was.pending && nodeCount == was.nodeCount
      && retired == was.retired && reserved == was.reserved && free == was.free
    }

    constructor ()
      ensures Data() == NEW_STRAND
    {
      queue, pending, nodeCount := [], [], 0;
      scheduled, active, retired, reserved, free := false, false, false, true, false;
    }

    /** The caller that finds the strand unscheduled claims its drain, and has to queue it. */
    method PostLocked(task: TaskId) returns (needsSchedule: bool)
      modifies this
      ensures Data() == old(Data()).Post(task)
      ensures queue == old(queue) + [task] && scheduled && (needsSchedule ==> active)
      ensures needsSchedule <==> !old(scheduled)
      ensures (!needsSchedule ==> active == old(active)) && RestKept(old(Data()))
    {
      queue := queue + [task];
      needsSchedule := false;
      if !scheduled {
        scheduled, active, needsSchedule := true, true, true;
      }
    }

    /** The claim is given back; the tasks stay queued. */
    method ScheduleRefused()
      modifies this
      ensures Data() == old(Data()).Unschedule()
      ensures !scheduled && !active && queue == old(queue) && RestKept(old(Data()))
    {
      scheduled, active := false, false;
    }

    method ReadMore() returns (more: bool)
      modifies this
      ensures Data() == old(Data()).FinishBatch() && queue == old(queue)
      ensures more <==> queue != []
      ensures more ==> scheduled == old(scheduled) && active == old(active)
      ensures !more ==> !scheduled && !active
      ensures RestKept(old(Data()))
    {
      more := queue != [];
      if !more {
        scheduled, active := false, false;
      }
    }

    method IsRecyclable() returns (yes: bool)
      ensures yes <==> !free && !reserved && nodeCount == 0 && !scheduled && queue == []
    {
      if free || reserved || nodeCount != 0 {
        return false;
      }
      yes := !scheduled && queue == [];
    }

    /**
     `Strand::runPendingDeletes`, for destructors that create no nodes: it terminates, deletes each
     node at most once however often it was enqueued, destroys nothing else, and leaves no request
     unanswered, neither the ones found nor the ones the destructors made.
     */
    method RunPendingDeletes(alive: set<NodeId>, dtor: NodeId -> Teardown)
      returns (left: set<NodeId>, deleted: seq<NodeId>)
      modifies this`pending
      ensures pending == []
      ensures Sweep(alive, left, deleted, dtor, old(pending), [])
    {
      left, deleted := alive, [];
      while pending != []
        invariant Sweep(alive, left, deleted, dtor, old(pending), pending)
        decreases |left|, |pending|
      {
        ghost var before := left;
        left, deleted := DeleteSwapped(left, deleted, dtor, alive, old(pending));
        if left < before {
          SubsetIsSmaller(left, before);
        }
      }
    }

    /** One turn of that loop: the list is swapped out and worked off. */
    method DeleteSwapped(living: set<NodeId>, sofar: seq<NodeId>, dtor: NodeId -> Teardown,
                         ghost alive: set<NodeId>, ghost asked: seq<NodeId>)
      returns (left: set<NodeId>, deleted: seq<NodeId>)
      requires pending != [] && Sweep(alive, living, sofar, dtor, asked, pending)
      modifies this`pending
      ensures Sweep(alive, left, deleted, dtor, asked, pending)
      ensures (left == living && pending == []) || left < living
    {
      left, deleted := living, sofar;
      var deletes := pending;
      pending := [];
      assert [] + deletes[0..] == deletes;
      for k := 0 to |deletes|
        invariant Sweep(alive, left, deleted, dtor, asked, pending + deletes[k..])
        invariant (left == living && pending == []) || left < living
      {
        var node := deletes[k];
        SweepNext(alive, left, deleted, dtor, asked, pending, deletes[k..]);
        assert deletes[k..][1..] == deletes[k + 1..];
        if node in left {
          left, deleted := left - {node} - dtor(node).subtree, deleted + [node];
          pending := pending + dtor(node).requests;
        }
      }
      assert pending + deletes[|deletes|..] == pending;
    }
  }

  lemma SubsetIsSmaller<T>(a: set<T>, b: set<T>)
    requires a < b
    ensures |a| < |b|
  {
    assert b == a + (b - a);
  }
}
