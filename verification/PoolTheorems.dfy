/**
 The strand / task-pool guarantees, for every reachable state and every run.
 */
module PoolTheorems {
  import opened Options
  import opened Strands
  import opened TaskPools
  import opened PoolProtocol
  import opened PoolTokens
  import opened PoolHistory

  ghost predicate Inv(st: State) {
    && TokenInv(st) && ThreadInv(st) && LifeInv(st) && FifoInv(st) && WakeInv(st)
    && LogInv(st) && CountInv(st) && DeleteInv(st) && RecycleInv(st)
  }

  ghost predicate Reachable(st: State) {
    exists init: State, steps: seq<Step> :: Init(init) && Runs(init, steps) && After(init, steps) == st
  }

  lemma InitInv(st: State)
    requires Init(st)
    ensures Inv(st)
  {
    InitTokens(st);
    InitHistory(st);
  }

  lemma InitTokens(st: State)
    requires Init(st)
    ensures TokenInv(st) && ThreadInv(st) && LifeInv(st) && DeleteInv(st) && RecycleInv(st)
  {
  }

  lemma InitHistory(st: State)
    requires Init(st)
    ensures FifoInv(st) && WakeInv(st) && LogInv(st) && CountInv(st)
  {
    assert BusySet(st.works) == {};
  }

  lemma CallStepInv(st: State, step: CallStep)
    requires Inv(st) && CanCall(st, step)
    ensures Inv(DoCall(st, step))
  {
    CallStepTokens(st, step); CallStepThreads(st, step); CallStepLife(st, step);
    CallStepFifo(st, step); CallStepWake(st, step); CallStepLog(st, step);
    CallStepCount(st, step); CallStepDelete(st, step); CallStepRecycle(st, step);
  }

  lemma WorkStepInv(st: State, step: WorkStep)
    requires Inv(st) && CanWork(st, step)
    ensures Inv(DoWork(st, step))
  {
    WorkStepTokens(st, step); WorkStepThreads(st, step); WorkStepLife(st, step);
    WorkStepFifo(st, step); WorkStepWake(st, step); WorkStepLog(st, step);
    WorkStepCount(st, step); WorkStepDelete(st, step); WorkStepRecycle(st, step);
  }

  lemma DrainStepInv(st: State, step: DrainStep)
    requires Inv(st) && CanDrain(st, step)
    ensures Inv(DoDrain(st, step))
  {
    DrainStepTokens(st, step);
    DrainStepThreads(st, step);
    DrainStepLife(st, step);
    DrainStepFifo(st, step);
    DrainStepWake(st, step);
    DrainStepLog(st, step);
    DrainStepCount(st, step);
    DrainStepDelete(st, step);
    DrainStepRecycle(st, step);
  }

  lemma ReserveStepInv(st: State, step: ReserveStep)
    requires Inv(st) && CanReserve(st, step)
    ensures Inv(DoReserve(st, step))
  {
    ReserveStepTokens(st, step); ReserveStepThreads(st, step); ReserveStepLife(st, step);
    ReserveStepFifo(st, step); ReserveStepWake(st, step); ReserveStepLog(st, step);
    ReserveStepCount(st, step); ReserveStepDelete(st, step); ReserveStepRecycle(st, step);
  }

  lemma ShutdownStepInv(st: State, step: ShutdownStep)
    requires Inv(st) && CanShutdown(st, step)
    ensures Inv(DoShutdown(st, step))
  {
    ShutdownStepTokens(st, step); ShutdownStepThreads(st, step); ShutdownStepLife(st, step);
    ShutdownStepFifo(st, step); ShutdownStepWake(st, step); ShutdownStepLog(st, step);
    ShutdownStepCount(st, step); ShutdownStepDelete(st, step); ShutdownStepRecycle(st, step);
  }

  lemma StepInv(st: State, step: Step)
    requires Inv(st) && Enabled(st, step)
    ensures Inv(Apply(st, step))
  {
    match step
    case OnCall(c) => CallStepInv(st, c);
    case OnWork(w) => WorkStepInv(st, w);
    case OnDrain(d) => DrainStepInv(st, d);
    case OnReserve(r) => ReserveStepInv(st, r);
    case OnShutdown(h) => ShutdownStepInv(st, h);
  }

  lemma {:induction false} RunInv(st: State, steps: seq<Step>)
    requires Inv(st) && Runs(st, steps)
    ensures Inv(After(st, steps))
    decreases |steps|
  {
    if steps != [] {
      StepInv(st, steps[0]);
      RunInv(Apply(st, steps[0]), steps[1..]);
    }
  }

  lemma ReachableInv(st: State)
    requires Reachable(st)
    ensures Inv(st)
  {
    var init: State, steps: seq<Step> :| Init(init) && Runs(init, steps) && After(init, steps) == st;
    InitInv(init);
    RunInv(init, steps);
  }

  lemma {:induction false} OneStepMore(st: State, steps: seq<Step>, step: Step)
    requires Runs(st, steps) && Enabled(After(st, steps), step)
    ensures Runs(st, steps + [step]) && After(st, steps + [step]) == Apply(After(st, steps), step)
    decreases |steps|
  {
    if steps == [] {
      assert [step][1..] == [] && steps + [step] == [step];
    } else {
      OneStepMore(Apply(st, steps[0]), steps[1..], step);
      assert (steps + [step])[0] == steps[0] && (steps + [step])[1..] == steps[1..] + [step];
    }
  }

  lemma ReachableStep(st: State, step: Step)
    requires Reachable(st) && Enabled(st, step)
    ensures Reachable(Apply(st, step))
  {
    var init: State, steps: seq<Step> :| Init(init) && Runs(init, steps) && After(init, steps) == st;
    OneStepMore(init, steps, step);
  }

  /** No guard of a step ever holds the code back: every strand a thread or the pool refers to exists. */
  lemma GuardsNeverBlock(st: State)
    requires Reachable(st)
    ensures forall t :: t in st.calls && !st.calls[t].NoCall? && !st.calls[t].AcquireChecked? ==> st.CallsOn(t)
    ensures forall t :: t in st.works && t in st.calls && st.works[t].Draining? && st.calls[t].NoCall? ==>
      st.DrainsAlone(t)
    ensures st.pool.queue != [] && st.pool.queue[0].Drain? ==> st.Has(st.pool.queue[0].strand)
    ensures forall i :: 0 <= i < |st.pool.freeStrands| ==> st.Has(st.pool.freeStrands[i])
    ensures st.shut.Sweeping? || st.shut.Clearing? ==> st.Has(st.shut.strand)
  {
    ReachableInv(st);
  }

  // ------------------------------------------------------------------ mutual exclusion

  /** The right to drain `s` is at `p`: queued, in the hands of a call, or in a running drain. */
  ghost predicate TokenAt(st: State, s: StrandId, p: Place) {
    match p
    case NoToken => false
    case InQueue => Drain(s) in st.pool.queue
    case InCall(t) => t in st.calls && st.calls[t].HoldsToken() && st.calls[t].strand == s
    case InDrain(t) => t in st.works && st.works[t].HoldsToken() && st.works[t].strand == s
  }

  /** `m_scheduled` is true exactly when one drain token exists. */
  lemma ScheduledIffOneToken(st: State, s: StrandId)
    requires Reachable(st) && s < |st.strands|
    ensures st.strands[s].scheduled <==> exists p :: TokenAt(st, s, p)
    ensures forall p, q :: TokenAt(st, s, p) && TokenAt(st, s, q) ==> p == q
    ensures forall i, j :: 0 <= i < j < |st.pool.queue| ==> !(st.pool.queue[i] == st.pool.queue[j] == Drain(s))
    ensures st.strands[s].active == st.strands[s].scheduled
  {
    ReachableInv(st);
    if st.strands[s].scheduled {
      assert TokenAt(st, s, st.token[s]);
    }
    forall p | TokenAt(st, s, p) ensures p == st.token[s] && st.strands[s].scheduled {
    }
  }

  /** No two threads are inside one strand, and none is while shutdown sweeps a strand. */
  lemma MutualExclusion(st: State, s: StrandId, t: Tid, u: Tid)
    requires Reachable(st) && t in st.works && st.works[t].Inside(s)
    ensures u in st.works && st.works[u].Inside(s) ==> t == u
    ensures !st.shut.Sweeping? && !st.shut.Clearing? && !st.shut.ShutDown?
  {
    ReachableInv(st);
  }

  // ------------------------------------------------------------------ order and wake-ups

  /** Tasks run in the order their posts were accepted, one at a time, none lost and none repeated. */
  lemma StrandIsFifo(st: State, s: StrandId)
    requires Reachable(st) && s < |st.strands| && s < |st.posts| && !st.strands[s].retired
    ensures forall t ::
      t in st.works && st.works[t].Draining? && st.works[t].strand == s && st.works[t].phase.InTask? ==>
              st.posts[s].accepted == st.posts[s].executed + [st.works[t].phase.task] + st.strands[s].queue
    ensures (forall t :: t in st.works && st.works[t].Draining? && st.works[t].strand == s ==>
      !st.works[t].phase.InTask?) ==>
              st.posts[s].accepted == st.posts[s].executed + st.strands[s].queue
  {
    ReachableInv(st);
  }

  /** While the pool has workers to join, queued tasks always have a drain on its way. */
  lemma NoLostWakeup(st: State, s: StrandId)
    requires Reachable(st) && s < |st.strands| && st.strands[s].queue != []
    requires !st.pool.joined && st.workers != {}
    ensures exists p :: TokenAt(st, s, p)
  {
    ReachableInv(st);
    assert TokenAt(st, s, st.token[s]);
  }

  /** A drain that reschedules its strand is never refused by the pool. */
  lemma RescheduleNeverRefused(st: State, t: Tid)
    requires Reachable(st) && t in st.calls && t in st.works && st.works[t].Busy()
    ensures !st.calls[t].Unscheduling?
    ensures st.calls[t].Scheduling? ==> st.pool.AcceptsDrain()
  {
    ReachableInv(st);
  }

  // ------------------------------------------------------------------ the pool

  /** When the joins have returned, every task `start` accepted has been taken once and has finished. */
  lemma ShutdownRunsEverything(st: State, i: nat)
    requires Reachable(st) && st.pool.joined && i < |st.log.entries| && st.log.entries[i].Plain?
    ensures i < |st.log.runner| && i in st.log.finished
    ensures forall t :: t in st.works ==> !st.works[t].Busy()
  {
    ReachableInv(st);
    forall t | t in st.works ensures !st.works[t].Busy() {
      assert ThreadOk(st.works[t], st.calls[t], t in st.workers, |st.strands|);
    }
    if st.workers != {} {
      var w :| w in st.workers;
      assert st.works[w].Exited?;
    }
    assert forall n :: |st.log.runner| <= n < |st.log.entries| ==>
        st.log.entries[n] == st.pool.queue[n - |st.log.runner|];
  }

  /** `waitForDone` wakes only when nothing is queued and nothing is running. */
  lemma WaitForDoneIsDone(st: State)
    requires Reachable(st)
    ensures st.pool.activeTasks == |BusySet(st.works)|
    ensures st.pool.queue == [] && st.pool.activeTasks == 0 ==>
              && (forall t :: t in st.works ==> !st.works[t].Busy())
              && (forall i :: 0 <= i < |st.log.entries| ==> i in st.log.finished)
  {
    ReachableInv(st);
    if st.pool.activeTasks == 0 {
      assert BusySet(st.works) == {};
      forall t | t in st.works ensures !st.works[t].Busy() {
        assert t !in BusySet(st.works);
      }
    }
  }

  /** A worker that runs entry `n` took it as the n-th, and a drain runs at most one batch of it. */
  lemma EntriesRunInOrder(st: State, t: Tid)
    requires Reachable(st) && t in st.works && st.works[t].Busy()
    ensures st.works[t].ticket < |st.log.runner| <= |st.log.entries| && st.log.runner[st.works[t].ticket] == t
    ensures st.works[t].Draining? ==> st.log.entries[st.works[t].ticket] == Drain(st.works[t].strand)
    ensures st.works[t].Draining? && st.works[t].phase.InTask? ==> st.works[t].phase.ran < BATCH_SIZE
    ensures forall u :: u in st.works && st.works[u].Busy() && st.works[u].ticket == st.works[t].ticket ==> u == t
  {
    ReachableInv(st);
  }

  // ------------------------------------------------------------------ deletes and recycling

  /** The pending-delete list of a strand is empty whenever nobody is inside it. */
  lemma NoDeletesLeftBehind(st: State, s: StrandId)
    requires Reachable(st) && s < |st.strands| && st.strands[s].pending != []
    ensures (exists t :: t in st.works && st.works[t].Inside(s)) || (st.shut.Sweeping? && st.shut.strand == s)
  {
    ReachableInv(st);
  }

  /** The free list is exactly the set of free strands, each once; a free strand is unused. */
  lemma FreeListExact(st: State)
    requires Reachable(st)
    ensures forall s :: 0 <= s < |st.strands| ==>
              (st.strands[s].free <==> s in st.pool.freeStrands)
              && (st.strands[s].free ==> !st.strands[s].reserved && st.strands[s].nodeCount == 0)
    ensures forall i, j :: 0 <= i < j < |st.pool.freeStrands| ==> st.pool.freeStrands[i] != st.pool.freeStrands[j]
  {
    ReachableInv(st);
  }

  /** A strand handed out by `acquireStrand` has no other holder, no nodes, and belongs to its acquirer. */
  lemma AcquireIsExclusive(st: State, t: Tid)
    requires Reachable(st) && CanAcquireTake(st, t)
    ensures var st' := DoAcquireTake(st, t);
            exists s :: 0 <= s < |st'.strands| && s < |st'.holder| && st'.holder[s] == Some(t)
              && st'.strands[s].nodeCount == 0 && st'.strands[s].reserved && !st'.strands[s].free
              && (s < |st.strands| && s < |st.holder| ==> st.holder[s] == None && !st.strands[s].reserved)
  {
    ReachableInv(st);
    var st' := DoAcquireTake(st, t);
    var s := if st.pool.freeStrands != [] then st.pool.freeStrands[|st.pool.freeStrands| - 1] else |st.strands|;
    assert st'.holder[s] == Some(t);
  }

  /** A strand is reused before a new one is made; it is the one freed last, and leaves the free list. */
  lemma AcquireReuses(st: State, t: Tid)
    requires Reachable(st) && CanAcquireTake(st, t)
    ensures var s' := Apply(st, OnReserve(AcquireTake(t)));
      if st.pool.freeStrands == [] then |s'.strands| == |st.strands| + 1 && s'.pool.freeStrands == []
      else
        && |s'.strands| == |st.strands|
        && exists s :: st.pool.freeStrands == s'.pool.freeStrands + [s] && s < |s'.holder| && s'.holder[s] == Some(t)
  {
    ReachableInv(st);
    if st.pool.freeStrands != [] {
      var s := st.pool.freeStrands[|st.pool.freeStrands| - 1];
      assert st.pool.freeStrands == Apply(st, OnReserve(AcquireTake(t))).pool.freeStrands + [s];
    }
  }

  // ------------------------------------------------------------------ what is accepted

  /** `start` queues its task last exactly before shutdown and in a pool with workers; otherwise nothing changes. */
  lemma StartQueuesExactly(st: State, t: Tid, task: TaskId)
    requires Reachable(st) && st.InUserCode(t)
    ensures var s' := Apply(st, OnCall(CallStep.Start(t, task)));
      if st.shut.NotStarted? && st.workers != {} then
        s'.pool.queue == st.pool.queue + [Plain(task)] && s'.log.entries == st.log.entries + [Plain(task)]
      else s' == st
  {
    ReachableInv(st);
  }

  /** A post that found its strand not retired is queued last and accepted, whatever happened in between. */
  lemma PostQueues(st: State, t: Tid)
    requires Reachable(st) && t in st.calls && st.calls[t].PostChecked?
    ensures CanPostLock(st, t)
    ensures var s, s' := st.calls[t].strand, Apply(st, OnCall(PostLock(t)));
      && s < |st.strands| == |s'.strands| && s < |st.posts| && s < |s'.posts|
      && s'.strands[s].queue == st.strands[s].queue + [st.calls[t].task] && s'.strands[s].scheduled
      && s'.posts[s].accepted == st.posts[s].accepted + [st.calls[t].task]
      && forall r :: 0 <= r < |st.strands| && r != s ==> s'.strands[r] == st.strands[r]
  {
    ReachableInv(st);
  }

  // ------------------------------------------------------------------ nobody is stuck

  /** A thread in the middle of a call can take its next step, but for waiting for the strand mutex. */
  lemma CallsGoOn(st: State, t: Tid)
    requires Reachable(st) && t in st.calls
    ensures match st.calls[t]
      case NoCall => true
      case PostChecked(_, _) => Enabled(st, OnCall(PostLock(t)))
      case Scheduling(_) => Enabled(st, OnCall(Schedule(t)))
      case Unscheduling(_) => Enabled(st, OnCall(Unschedule(t)))
      case AcquireChecked => st.strandLock.Some? || Enabled(st, OnReserve(AcquireTake(t)))
      case Recycling(_) => st.strandLock.Some? || Enabled(st, OnReserve(RecycleLock(t)))
      case Probing(_) => Enabled(st, OnReserve(Probe(t)))
  {
    ReachableInv(st);
  }

  /** A worker outside a call can always go on, unless it waits for an entry of a pool that is not stopping. */
  lemma WorkersGoOn(st: State, t: Tid)
    requires Reachable(st) && t in st.works && t in st.calls && st.calls[t].NoCall?
    ensures match st.works[t]
      case Outside => true
      case Exited => true
      case Idle =>
        if st.pool.queue != [] then Enabled(st, OnWork(Take(t)))
        else st.pool.stopping ==> Enabled(st, OnWork(Exit(t)))
      case RunPlain(_) => Enabled(st, OnWork(Finish(t)))
      case Draining(_, s, phase) => DrainGoesOn(st, t, s, phase)
  {
    ReachableInv(st);
    GuardsNeverBlock(st);
  }

  ghost predicate DrainGoesOn(st: State, t: Tid, s: StrandId, phase: Phase) {
    s < |st.strands| && match phase
      case Batch(_) => Enabled(st, OnDrain(NextTask(t)))
      case InTask(_, _) => Enabled(st, OnDrain(EndTask(t)))
      case Deletes(rest) =>
        if rest != [] then Enabled(st, OnDrain(DestroyNext(t)))
        else if st.strands[s].pending != [] then Enabled(st, OnDrain(SwapDeletes(t)))
        else Enabled(st, OnDrain(EndDeletes(t)))
      case Tail => Enabled(st, OnDrain(ReadMore(t)))
      case Leaving => Enabled(st, OnWork(Finish(t)))
  }
}
