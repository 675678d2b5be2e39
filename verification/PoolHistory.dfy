/** Threads, task order, wake-ups and pool entries: what every step of the protocol keeps. */
module PoolHistory {
  import opened Options
  import opened Strands
  import opened TaskPools
  import opened PoolProtocol
  import opened PoolTokens

  // ------------------------------------------------------------------ threads and shutdown

  ghost predicate ThreadOk(w: Work, c: Call, worker: bool, strands: nat) {
    && (worker <==> !w.Outside?)
    && (w.Idle? || w.Exited? ==> c.NoCall?)
    && (w.Draining? && (w.phase.Batch? || w.phase.Tail?) ==> c.NoCall?)
    && (w.Draining? && w.phase.Batch? ==> w.phase.ran <= BATCH_SIZE)
    && (w.Draining? && w.phase.InTask? ==> w.phase.ran < BATCH_SIZE)
    && (w.Draining? ==> w.strand < strands)
    && (!c.NoCall? && !c.AcquireChecked? ==> c.strand < strands)
  }

  /** The states a thread can be in. */
  ghost predicate ThreadInv(st: State) {
    && st.workers <= st.works.Keys == st.calls.Keys
    && (forall i :: 0 <= i < |st.pool.queue| && st.pool.queue[i].Drain? ==> st.pool.queue[i].strand < |st.strands|)
    && (forall t :: t in st.works ==> ThreadOk(st.works[t], st.calls[t], t in st.workers, |st.strands|))
  }

  /** How the pool's flags follow the shutdown, which workers are gone, and what they left in the queue. */
  ghost predicate LifeInv(st: State) {
    && (st.pool.stopping <==> !st.shut.NotStarted?)
    && (st.pool.joined <==> !st.shut.NotStarted? && !st.shut.Joining?)
    && (st.pool.listed <==> st.workers != {} && !st.pool.stopping)
    && (st.shut.Sweeping? || st.shut.Clearing? ==> st.shut.strand < st.shut.count <= |st.strands|)
    && (st.shut.Clearing? ==> st.strands[st.shut.strand].retired)
    && (st.shut.ShutDown? ==> st.shut.count <= |st.strands|)
    && (st.workers == {} ==> forall i :: 0 <= i < |st.log.entries| ==> st.log.entries[i].Drain?)
    && (st.pool.joined ==> forall t :: t in st.works && t in st.workers ==> st.works[t].Exited?)
    && (forall t :: t in st.works && st.works[t].Exited? ==>
         st.pool.stopping && forall i :: 0 <= i < |st.pool.queue| ==> st.pool.queue[i].Drain?)
  }

  lemma CallStepThreads(st: State, step: CallStep)
    requires ThreadInv(st) && CanCall(st, step)
    ensures ThreadInv(DoCall(st, step))
  {
  }

  lemma WorkStepThreads(st: State, step: WorkStep)
    requires ThreadInv(st) && CanWork(st, step)
    ensures ThreadInv(DoWork(st, step))
  {
  }

  lemma DrainStepThreads(st: State, step: DrainStep)
    requires ThreadInv(st) && CanDrain(st, step)
    ensures ThreadInv(DoDrain(st, step))
  {
  }

  lemma AcquireTakeThreads(st: State, t: Tid)
    requires ThreadInv(st) && CanAcquireTake(st, t)
    ensures ThreadInv(DoAcquireTake(st, t))
  {
  }

  lemma ReleaseThreads(st: State, t: Tid, s: StrandId)
    requires ThreadInv(st) && CanRelease(st, t, s)
    ensures ThreadInv(DoRelease(st, t, s))
  {
  }

  lemma ReserveStepThreads(st: State, step: ReserveStep)
    requires ThreadInv(st) && CanReserve(st, step)
    ensures ThreadInv(DoReserve(st, step))
  {
    match step
    case AcquireTake(t) => AcquireTakeThreads(st, t);
    case Release(t, s) => ReleaseThreads(st, t, s);
    case _ =>
  }

  lemma ShutdownStepThreads(st: State, step: ShutdownStep)
    requires ThreadInv(st) && CanShutdown(st, step)
    ensures ThreadInv(DoShutdown(st, step))
  {
  }

  lemma CallStepLife(st: State, step: CallStep)
    requires ThreadInv(st) && LifeInv(st) && CanCall(st, step)
    ensures LifeInv(DoCall(st, step))
  {
  }

  lemma WorkStepLife(st: State, step: WorkStep)
    requires ThreadInv(st) && LifeInv(st) && CanWork(st, step)
    ensures LifeInv(DoWork(st, step))
  {
  }

  lemma DrainStepLife(st: State, step: DrainStep)
    requires ThreadInv(st) && LifeInv(st) && CanDrain(st, step)
    ensures LifeInv(DoDrain(st, step))
  {
  }

  lemma AcquireTakeLife(st: State, t: Tid)
    requires ThreadInv(st) && LifeInv(st) && CanAcquireTake(st, t)
    ensures LifeInv(DoAcquireTake(st, t))
  {
  }

  lemma ReleaseLife(st: State, t: Tid, s: StrandId)
    requires ThreadInv(st) && LifeInv(st) && CanRelease(st, t, s)
    ensures LifeInv(DoRelease(st, t, s))
  {
  }

  lemma ProbeLife(st: State, t: Tid)
    requires ThreadInv(st) && LifeInv(st) && CanProbe(st, t)
    ensures LifeInv(DoProbe(st, t))
  {
  }

  lemma ReserveStepLife(st: State, step: ReserveStep)
    requires ThreadInv(st) && LifeInv(st) && CanReserve(st, step)
    ensures LifeInv(DoReserve(st, step))
  {
    match step
    case AcquireTake(t) => AcquireTakeLife(st, t);
    case Release(t, s) => ReleaseLife(st, t, s);
    case Probe(t) => ProbeLife(st, t);
    case _ =>
  }

  lemma ShutdownStepLife(st: State, step: ShutdownStep)
    requires ThreadInv(st) && LifeInv(st) && CanShutdown(st, step)
    ensures LifeInv(DoShutdown(st, step))
  {
  }

  // ------------------------------------------------------------------ tasks of a strand

  /** The task a drain of the strand is running right now. */
  ghost function Running(place: Place, works: map<Tid, Work>): seq<TaskId> {
    if place.InDrain? && place.t in works && works[place.t].Draining? && works[place.t].phase.InTask?
    then [works[place.t].phase.task] else []
  }

  /** Until it is retired, a strand's accepted posts are the executed, the running and the queued ones. */
  ghost predicate FifoInv(st: State) {
    && |st.posts| == |st.strands| == |st.token|
    && (forall s :: 0 <= s < |st.strands| && !st.strands[s].retired ==>
         InLine(st.posts[s].accepted, st.posts[s].executed, Running(st.token[s], st.works), st.strands[s].queue))
  }

  ghost predicate InLine(accepted: seq<TaskId>, executed: seq<TaskId>, running: seq<TaskId>, queue: seq<TaskId>) {
    accepted == executed + running + queue
  }

  /** Queued tasks of a strand without a drain exist only once no worker is left. */
  ghost predicate WakeInv(st: State) {
    && (forall s :: 0 <= s < |st.strands| && st.strands[s].queue != [] && !st.strands[s].scheduled ==>
         st.pool.joined || st.workers == {})
    && (forall s :: 0 <= s < |st.strands| && st.strands[s].retired ==> st.pool.joined)
    && (forall t :: t in st.calls && st.calls[t].Unscheduling? ==> st.pool.joined || st.workers == {})
  }

  lemma CallStepFifo(st: State, step: CallStep)
    requires TokenInv(st) && FifoInv(st) && CanCall(st, step)
    ensures FifoInv(DoCall(st, step))
  {
    match step
    case PostLock(t) => PostLockFifo(st, t);
    case _ =>
  }

  lemma PostLockFifo(st: State, t: Tid)
    requires TokenInv(st) && FifoInv(st) && CanPostLock(st, t)
    ensures FifoInv(DoPostLock(st, t))
  {
  }

  lemma TakeFifo(st: State, t: Tid)
    requires TokenInv(st) && FifoInv(st) && CanTake(st, t)
    ensures FifoInv(DoTake(st, t))
  {
  }

  lemma NextTaskFifo(st: State, t: Tid)
    requires TokenInv(st) && FifoInv(st) && CanNextTask(st, t)
    ensures FifoInv(DoNextTask(st, t))
  {
    var s := st.works[t].strand;
    if st.strands[s].queue != [] { HeadRuns(st.posts[s].accepted, st.posts[s].executed, st.strands[s].queue); }
    assert st.token[s] == InDrain(t);
    assert forall r :: 0 <= r < |st.strands| && r != s ==>
        Running(st.token[r], DoNextTask(st, t).works) == Running(st.token[r], st.works);
  }

  /** The head of the queue starts to run. */
  lemma HeadRuns(accepted: seq<TaskId>, executed: seq<TaskId>, queue: seq<TaskId>)
    requires queue != []
    ensures InLine(accepted, executed, [], queue) ==> InLine(accepted, executed, [queue[0]], queue[1..])
  {
    assert queue == [queue[0]] + queue[1..];
  }

  lemma EndTaskFifo(st: State, t: Tid)
    requires TokenInv(st) && FifoInv(st) && CanEndTask(st, t)
    ensures FifoInv(DoEndTask(st, t))
  {
  }

  lemma ReadMoreFifo(st: State, t: Tid)
    requires TokenInv(st) && FifoInv(st) && CanReadMore(st, t)
    ensures FifoInv(DoReadMore(st, t))
  {
  }

  lemma WorkStepFifo(st: State, step: WorkStep)
    requires TokenInv(st) && FifoInv(st) && CanWork(st, step)
    ensures FifoInv(DoWork(st, step))
  {
    match step
    case Take(t) => TakeFifo(st, t);
    case _ =>
  }

  lemma DrainStepFifo(st: State, step: DrainStep)
    requires TokenInv(st) && FifoInv(st) && CanDrain(st, step)
    ensures FifoInv(DoDrain(st, step))
  {
    match step
    case NextTask(t) => NextTaskFifo(st, t);
    case EndTask(t) => EndTaskFifo(st, t);
    case ReadMore(t) => ReadMoreFifo(st, t);
    case _ =>
  }

  lemma ReserveStepFifo(st: State, step: ReserveStep)
    requires TokenInv(st) && FifoInv(st) && CanReserve(st, step)
    ensures FifoInv(DoReserve(st, step))
  {
    match step
    case AcquireTake(t) => AcquireTakeFifo(st, t);
    case _ =>
  }

  lemma AcquireTakeFifo(st: State, t: Tid)
    requires TokenInv(st) && FifoInv(st) && CanAcquireTake(st, t)
    ensures FifoInv(DoAcquireTake(st, t))
  {
  }

  lemma ShutdownStepFifo(st: State, step: ShutdownStep)
    requires TokenInv(st) && LifeInv(st) && FifoInv(st) && CanShutdown(st, step)
    ensures FifoInv(DoShutdown(st, step))
  {
  }

  lemma CallStepWake(st: State, step: CallStep)
    requires TokenInv(st) && LifeInv(st) && WakeInv(st) && CanCall(st, step)
    ensures WakeInv(DoCall(st, step))
  {
  }

  lemma WorkStepWake(st: State, step: WorkStep)
    requires TokenInv(st) && LifeInv(st) && WakeInv(st) && CanWork(st, step)
    ensures WakeInv(DoWork(st, step))
  {
  }

  lemma DrainStepWake(st: State, step: DrainStep)
    requires TokenInv(st) && LifeInv(st) && WakeInv(st) && CanDrain(st, step)
    ensures WakeInv(DoDrain(st, step))
  {
  }

  lemma AcquireTakeWake(st: State, t: Tid)
    requires TokenInv(st) && LifeInv(st) && WakeInv(st) && CanAcquireTake(st, t)
    ensures WakeInv(DoAcquireTake(st, t))
  {
  }

  lemma ReserveStepWake(st: State, step: ReserveStep)
    requires TokenInv(st) && LifeInv(st) && WakeInv(st) && CanReserve(st, step)
    ensures WakeInv(DoReserve(st, step))
  {
    match step
    case AcquireTake(t) => AcquireTakeWake(st, t);
    case _ =>
  }

  lemma ShutdownStepWake(st: State, step: ShutdownStep)
    requires TokenInv(st) && LifeInv(st) && WakeInv(st) && CanShutdown(st, step)
    ensures WakeInv(DoShutdown(st, step))
  {
  }

  // ------------------------------------------------------------------ entries of the pool

  ghost function BusySet(works: map<Tid, Work>): set<Tid> {
    set t | t in works && works[t].Busy()
  }

  /** Entries are taken in queue order, each by one worker, which is at it until it is finished. */
  ghost predicate LogInv(st: State) {
    && |st.log.runner| <= |st.log.entries| && st.pool.queue == st.log.entries[|st.log.runner|..]
    && (forall i :: i in st.log.finished ==> i < |st.log.runner|)
    && (forall i :: 0 <= i < |st.log.runner| && i !in st.log.finished ==>
         st.log.runner[i] in st.works && st.works[st.log.runner[i]].Busy() && st.works[st.log.runner[i]].ticket == i)
    && (forall t :: t in st.works && st.works[t].Busy() ==>
         && st.works[t].ticket < |st.log.runner| && st.log.runner[st.works[t].ticket] == t
         && st.works[t].ticket !in st.log.finished
         && (st.works[t].Draining? ==> st.log.entries[st.works[t].ticket] == Drain(st.works[t].strand)))
  }

  /** `m_activeTasks` counts the workers that run an entry. */
  ghost predicate CountInv(st: State) {
    st.pool.activeTasks == |BusySet(st.works)|
  }

  lemma CallStepLog(st: State, step: CallStep)
    requires LogInv(st) && CanCall(st, step)
    ensures LogInv(DoCall(st, step))
  {
    var n := |st.log.runner|;
    assert forall e :: (st.log.entries + [e])[n..] == st.log.entries[n..] + [e];
  }

  lemma TakeLog(st: State, t: Tid)
    requires LogInv(st) && CanTake(st, t)
    ensures LogInv(DoTake(st, t))
  {
  }

  lemma FinishLog(st: State, t: Tid)
    requires LogInv(st) && CanFinish(st, t)
    ensures LogInv(DoFinish(st, t))
  {
  }

  lemma WorkStepLog(st: State, step: WorkStep)
    requires LogInv(st) && CanWork(st, step)
    ensures LogInv(DoWork(st, step))
  {
    match step
    case Take(t) => TakeLog(st, t);
    case Finish(t) => FinishLog(st, t);
    case _ =>
  }

  lemma DrainStepLog(st: State, step: DrainStep)
    requires LogInv(st) && CanDrain(st, step)
    ensures LogInv(DoDrain(st, step))
  {
    SameTickets(st, step);
  }

  /** A drain goes on at the entry it was taken for. */
  lemma SameTickets(st: State, step: DrainStep)
    requires CanDrain(st, step)
    ensures var s' := DoDrain(st, step);
      && s'.log == st.log && s'.pool.queue == st.pool.queue && s'.works.Keys == st.works.Keys
      && forall t :: t in st.works ==>
           && s'.works[t].Busy() == st.works[t].Busy() && s'.works[t].Draining? == st.works[t].Draining?
           && (st.works[t].Busy() ==> s'.works[t].ticket == st.works[t].ticket)
           && (st.works[t].Draining? ==> s'.works[t].strand == st.works[t].strand)
  {
  }

  lemma ReserveStepLog(st: State, step: ReserveStep)
    requires LogInv(st) && CanReserve(st, step)
    ensures LogInv(DoReserve(st, step))
  {
  }

  lemma ShutdownStepLog(st: State, step: ShutdownStep)
    requires LogInv(st) && CanShutdown(st, step)
    ensures LogInv(DoShutdown(st, step))
  {
  }

  lemma CallStepCount(st: State, step: CallStep)
    requires CountInv(st) && CanCall(st, step)
    ensures CountInv(DoCall(st, step))
  {
  }

  lemma TakeCount(st: State, t: Tid)
    requires CountInv(st) && CanTake(st, t)
    ensures CountInv(DoTake(st, t))
  {
    assert BusySet(DoTake(st, t).works) == BusySet(st.works) + {t};
  }

  lemma FinishCount(st: State, t: Tid)
    requires CountInv(st) && CanFinish(st, t)
    ensures CountInv(DoFinish(st, t))
  {
    assert BusySet(DoFinish(st, t).works) == BusySet(st.works) - {t};
  }

  lemma WorkStepCount(st: State, step: WorkStep)
    requires CountInv(st) && CanWork(st, step)
    ensures CountInv(DoWork(st, step))
  {
    match step
    case Take(t) => TakeCount(st, t);
    case Finish(t) => FinishCount(st, t);
    case _ => assert BusySet(DoWork(st, step).works) == BusySet(st.works);
  }

  lemma DrainStepCount(st: State, step: DrainStep)
    requires CountInv(st) && CanDrain(st, step)
    ensures CountInv(DoDrain(st, step))
  {
    assert BusySet(DoDrain(st, step).works) == BusySet(st.works);
  }

  lemma ReserveStepCount(st: State, step: ReserveStep)
    requires CountInv(st) && CanReserve(st, step)
    ensures CountInv(DoReserve(st, step))
  {
  }

  lemma ShutdownStepCount(st: State, step: ShutdownStep)
    requires CountInv(st) && CanShutdown(st, step)
    ensures CountInv(DoShutdown(st, step))
  {
  }

  // ------------------------------------------------------------------ deferred deletes and recycling

  /** Deletes are pending only while somebody is inside the strand. */
  ghost predicate DeleteInv(st: State) {
    && |st.token| == |st.strands|
    && (forall s :: 0 <= s < |st.strands| && st.strands[s].pending != [] ==>
         || (st.token[s].InDrain? && st.token[s].t in st.works && st.works[st.token[s].t].Inside(s))
         || (st.shut.Sweeping? && st.shut.strand == s))
  }

  /** The free list, the reservations and the strand a thread is probing under the strand mutex. */
  ghost predicate RecycleInv(st: State) {
    && |st.holder| == |st.strands|
    && (forall s :: 0 <= s < |st.strands| ==>
         && (st.strands[s].free <==> s in st.pool.freeStrands)
         && (st.strands[s].free ==> !st.strands[s].reserved && st.strands[s].nodeCount == 0)
         && (st.strands[s].reserved <==> st.holder[s].Some?))
    && (forall i :: 0 <= i < |st.pool.freeStrands| ==> st.pool.freeStrands[i] < |st.strands|)
    && (forall i, j :: 0 <= i < j < |st.pool.freeStrands| ==> st.pool.freeStrands[i] != st.pool.freeStrands[j])
    && (forall t :: t in st.calls && st.calls[t].Probing? ==>
         && st.strandLock == Some(t) && st.calls[t].strand < |st.strands|
         && st.strands[st.calls[t].strand].LooksUnused())
  }

  lemma CallStepDelete(st: State, step: CallStep)
    requires TokenInv(st) && DeleteInv(st) && CanCall(st, step)
    ensures DeleteInv(DoCall(st, step))
  {
  }

  lemma TakeDelete(st: State, t: Tid)
    requires TokenInv(st) && DeleteInv(st) && CanTake(st, t)
    ensures DeleteInv(DoTake(st, t))
  {
  }

  lemma ReadMoreDelete(st: State, t: Tid)
    requires TokenInv(st) && DeleteInv(st) && CanReadMore(st, t)
    ensures DeleteInv(DoReadMore(st, t))
  {
  }

  lemma WorkStepDelete(st: State, step: WorkStep)
    requires TokenInv(st) && DeleteInv(st) && CanWork(st, step)
    ensures DeleteInv(DoWork(st, step))
  {
    match step
    case Take(t) => TakeDelete(st, t);
    case _ =>
  }

  lemma DrainStepDelete(st: State, step: DrainStep)
    requires TokenInv(st) && DeleteInv(st) && CanDrain(st, step)
    ensures DeleteInv(DoDrain(st, step))
  {
    match step
    case ReadMore(t) => ReadMoreDelete(st, t);
    case _ =>
  }

  lemma ReserveStepDelete(st: State, step: ReserveStep)
    requires TokenInv(st) && DeleteInv(st) && CanReserve(st, step)
    ensures DeleteInv(DoReserve(st, step))
  {
    match step
    case AcquireTake(t) => AcquireTakeDelete(st, t);
    case _ =>
  }

  lemma AcquireTakeDelete(st: State, t: Tid)
    requires TokenInv(st) && DeleteInv(st) && CanAcquireTake(st, t)
    ensures DeleteInv(DoAcquireTake(st, t))
  {
  }

  lemma ShutdownStepDelete(st: State, step: ShutdownStep)
    requires TokenInv(st) && DeleteInv(st) && CanShutdown(st, step)
    ensures DeleteInv(DoShutdown(st, step))
  {
  }

  lemma PostLockRecycle(st: State, t: Tid)
    requires RecycleInv(st) && CanPostLock(st, t)
    ensures RecycleInv(DoPostLock(st, t))
  {
  }

  lemma CallStepRecycle(st: State, step: CallStep)
    requires RecycleInv(st) && CanCall(st, step)
    ensures RecycleInv(DoCall(st, step))
  {
    match step
    case PostLock(t) => PostLockRecycle(st, t);
    case _ =>
  }

  lemma ReadMoreRecycle(st: State, t: Tid)
    requires RecycleInv(st) && CanReadMore(st, t)
    ensures RecycleInv(DoReadMore(st, t))
  {
  }

  lemma WorkStepRecycle(st: State, step: WorkStep)
    requires RecycleInv(st) && CanWork(st, step)
    ensures RecycleInv(DoWork(st, step))
  {
  }

  lemma DrainStepRecycle(st: State, step: DrainStep)
    requires RecycleInv(st) && CanDrain(st, step)
    ensures RecycleInv(DoDrain(st, step))
  {
    match step
    case ReadMore(t) => ReadMoreRecycle(st, t);
    case _ =>
  }

  lemma AcquireTakeRecycle(st: State, t: Tid)
    requires RecycleInv(st) && CanAcquireTake(st, t)
    ensures RecycleInv(DoAcquireTake(st, t))
  {
  }

  lemma ReleaseRecycle(st: State, t: Tid, s: StrandId)
    requires RecycleInv(st) && CanRelease(st, t, s)
    ensures RecycleInv(DoRelease(st, t, s))
  {
  }

  lemma ProbeRecycle(st: State, t: Tid)
    requires RecycleInv(st) && CanProbe(st, t)
    ensures RecycleInv(DoProbe(st, t))
  {
  }

  lemma ReserveStepRecycle(st: State, step: ReserveStep)
    requires RecycleInv(st) && CanReserve(st, step)
    ensures RecycleInv(DoReserve(st, step))
  {
    match step
    case AcquireTake(t) => AcquireTakeRecycle(st, t);
    case Release(t, s) => ReleaseRecycle(st, t, s);
    case Probe(t) => ProbeRecycle(st, t);
    case _ =>
  }

  lemma ShutdownStepRecycle(st: State, step: ShutdownStep)
    requires RecycleInv(st) && CanShutdown(st, step)
    ensures RecycleInv(DoShutdown(st, step))
  {
  }

}
