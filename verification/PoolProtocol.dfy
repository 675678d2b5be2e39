/**
 The strand / task-pool protocol as a transition system: one step per critical section of
 `Strand.cpp` and `TaskPool.cpp`, any number of threads, any interleaving.

 The fields `token`, `posts`, `log` and `holder` of a state are history: no step depends on
 them, except that only the thread that reserved a strand releases it.
 */
module PoolProtocol {
  import opened Options
  import opened Strands
  import opened TaskPools

  type Tid = nat

  /** Where a worker is inside `Strand::drain`. */
  datatype Phase =
    | Batch(ran: nat)                  // between two tasks of the batch
    | InTask(ran: nat, task: TaskId)   // running a task
    | Deletes(rest: seq<NodeId>)       // in runPendingDeletes, with `rest` of the swapped list
    | Tail                             // scope left, `more` not read yet
    | Leaving                          // the drain is over but for the call in progress

  /** What a thread of the program is executing. */
  datatype Work =
    | Outside                          // not a worker of the pool
    | Idle
    | RunPlain(ticket: nat)
    | Draining(ticket: nat, strand: StrandId, phase: Phase)
    | Exited
  {
    /** User code runs here and may call into the framework. */
    predicate UserCode() {
      Outside? || RunPlain? || (Draining? && (phase.InTask? || phase.Deletes?))
    }

    /** The thread is inside strand `s`: `Strand::current()` is `s`. */
    predicate Inside(s: StrandId) {
      Draining? && strand == s && (phase.Batch? || phase.InTask? || phase.Deletes?)
    }

    /** The drain still owns its strand's token. */
    predicate HoldsToken() {
      Draining? && !phase.Leaving?
    }

    predicate Busy() {
      RunPlain? || Draining?
    }
  }

  /** The framework call a thread is in the middle of. */
  datatype Call =
    | NoCall
    | PostChecked(strand: StrandId, task: TaskId)  // post(): m_retired was false
    | Scheduling(strand: StrandId)                 // schedule(): before enqueueStrandDrain
    | Unscheduling(strand: StrandId)               // schedule(): the pool refused
    | AcquireChecked                               // acquireStrand(): the pool accepts work
    | Recycling(strand: StrandId)                  // before recycleStrandIfIdle takes its lock
    | Probing(strand: StrandId)                    // isRecyclable(), holding the strand mutex
  {
    /** The call owns a token it is about to hand over or give up. */
    predicate HoldsToken() {
      Scheduling? || Unscheduling?
    }
  }

  /** Progress of `TaskPool::shutdown`. */
  datatype Shutdown =
    | NotStarted
    | Joining
    | Sweeping(strand: StrandId, count: nat, rest: seq<NodeId>)   // destroyRemainingNodes
    | Clearing(strand: StrandId, count: nat)                      // retired, queue not cleared
    | ShutDown(count: nat)                                        // all strands there were are retired

  /** Where the right to drain a strand is. */
  datatype Place = NoToken | InQueue | InCall(t: Tid) | InDrain(t: Tid)

  /** The tasks accepted and executed, and the deletes asked for and carried out, in order. */
  datatype Posts = Posts(accepted: seq<TaskId>, executed: seq<TaskId>, asked: seq<NodeId>, deleted: seq<NodeId>)

  /** Every entry ever queued, which worker took the n-th one, and which are done. */
  datatype PoolLog = PoolLog(entries: seq<Entry>, runner: seq<Tid>, finished: set<nat>)

  datatype State = State(
    pool: PoolData,
    strands: seq<StrandData>,
    works: map<Tid, Work>,
    calls: map<Tid, Call>,
    workers: set<Tid>,
    strandLock: Option<Tid>,
    shut: Shutdown,
    token: seq<Place>,
    posts: seq<Posts>,
    log: PoolLog,
    holder: seq<Option<Tid>>)
  {
    predicate Has(s: StrandId) {
      s < |strands| && s < |token| && s < |posts| && s < |holder|
    }

    predicate InUserCode(t: Tid) {
      t in works && t in calls && works[t].UserCode() && calls[t].NoCall?
    }

    /** Thread `t` is in `drain`, in the given phase, and not inside another call. */
    predicate DrainsAlone(t: Tid) {
      t in works && t in calls && calls[t].NoCall? && works[t].Draining? && Has(works[t].strand)
    }

    predicate CallsOn(t: Tid) {
      t in calls && !calls[t].NoCall? && !calls[t].AcquireChecked? && Has(calls[t].strand)
    }

    function SetCall(t: Tid, c: Call): State { this.(calls := calls[t := c]) }

    function SetPhase(t: Tid, p: Phase): State
      requires t in works && works[t].Draining?
    {
      this.(works := works[t := works[t].(phase := p)])
    }

    function SetStrand(s: StrandId, d: StrandData): State
      requires s < |strands|
    {
      this.(strands := strands[s := d])
    }

    function MoveToken(s: StrandId, p: Place): State
      requires s < |token|
    {
      this.(token := token[s := p])
    }

    function Asked(s: StrandId, n: NodeId): State
      requires s < |posts|
    {
      this.(posts := posts[s := posts[s].(asked := posts[s].asked + [n])])
    }

    function Deleted(s: StrandId, n: NodeId): State
      requires s < |posts|
    {
      this.(posts := posts[s := posts[s].(deleted := posts[s].deleted + [n])])
    }

    function Enqueue(e: Entry): State {
      this.(pool := pool.Push(e), log := log.(entries := log.entries + [e]))
    }
  }

  // ------------------------------------------------------------------ Strand::post, Strand::schedule

  predicate CanPostCheck(st: State, t: Tid, s: StrandId) {
    st.InUserCode(t) && st.Has(s) && !st.strands[s].retired
  }

  function DoPostCheck(st: State, t: Tid, s: StrandId, task: TaskId): State {
    st.SetCall(t, PostChecked(s, task))
  }

  predicate CanPostLock(st: State, t: Tid) {
    st.CallsOn(t) && st.calls[t].PostChecked?
  }

  function DoPostLock(st: State, t: Tid): State
    requires CanPostLock(st, t)
  {
    var PostChecked(s, task) := st.calls[t];
    var posted := st.SetStrand(s, st.strands[s].Post(task))
                  .(posts := st.posts[s := st.posts[s].(accepted := st.posts[s].accepted + [task])]);
    if st.strands[s].scheduled then posted.SetCall(t, NoCall)
    else posted.SetCall(t, Scheduling(s)).MoveToken(s, InCall(t))
  }

  predicate CanSchedule(st: State, t: Tid) {
    st.CallsOn(t) && st.calls[t].Scheduling?
  }

  function DoSchedule(st: State, t: Tid): State
    requires CanSchedule(st, t)
  {
    var s := st.calls[t].strand;
    if st.pool.AcceptsDrain() then st.Enqueue(Drain(s)).SetCall(t, NoCall).MoveToken(s, InQueue)
    else st.SetCall(t, Unscheduling(s))
  }

  predicate CanUnschedule(st: State, t: Tid) {
    st.CallsOn(t) && st.calls[t].Unscheduling?
  }

  function DoUnschedule(st: State, t: Tid): State
    requires CanUnschedule(st, t)
  {
    var s := st.calls[t].strand;
    st.SetStrand(s, st.strands[s].Unschedule()).SetCall(t, NoCall).MoveToken(s, NoToken)
  }

  // ------------------------------------------------------------------ TaskPool: start, workerLoop

  function DoStart(st: State, task: TaskId): State {
    if st.pool.AcceptsStart() then st.Enqueue(Plain(task)) else st
  }

  predicate CanTake(st: State, t: Tid) {
    && t in st.works && t in st.calls && st.works[t].Idle? && st.pool.queue != []
    && (st.pool.queue[0].Drain? ==> st.Has(st.pool.queue[0].strand))
  }

  function DoTake(st: State, t: Tid): State
    requires CanTake(st, t)
  {
    var ticket := |st.log.runner|;
    var taken := st.(pool := st.pool.Take(),
                     log := st.log.(runner := st.log.runner + [t]));
    match st.pool.queue[0]
    case Plain(_) => taken.(works := st.works[t := RunPlain(ticket)])
    case Drain(s) => taken.(works := st.works[t := Draining(ticket, s, Batch(0))]).MoveToken(s, InDrain(t))
  }

  predicate CanExit(st: State, t: Tid) {
    t in st.works && t in st.calls && st.works[t].Idle? && st.pool.queue == [] && st.pool.stopping
  }

  function DoExit(st: State, t: Tid): State {
    st.(works := st.works[t := Exited])
  }

  predicate CanFinish(st: State, t: Tid) {
    t in st.works && t in st.calls && st.calls[t].NoCall?
    && (st.works[t].RunPlain? || (st.works[t].Draining? && st.works[t].phase.Leaving?))
  }

  function DoFinish(st: State, t: Tid): State
    requires CanFinish(st, t)
  {
    st.(works := st.works[t := Idle],
        pool := st.pool.Finish(),
        log := st.log.(finished := st.log.finished + {st.works[t].ticket}))
  }

  // ------------------------------------------------------------------ Strand::drain

  predicate CanNextTask(st: State, t: Tid) {
    st.DrainsAlone(t) && st.works[t].phase.Batch?
  }

  function DoNextTask(st: State, t: Tid): State
    requires CanNextTask(st, t)
  {
    var Draining(_, s, Batch(ran)) := st.works[t];
    var d := st.strands[s];
    if ran < BATCH_SIZE && d.queue != [] then
      st.SetStrand(s, d.(queue := d.queue[1..])).SetPhase(t, InTask(ran, d.queue[0]))
    else st.SetPhase(t, Deletes([]))
  }

  predicate CanEndTask(st: State, t: Tid) {
    st.DrainsAlone(t) && st.works[t].phase.InTask?
  }

  function DoEndTask(st: State, t: Tid): State
    requires CanEndTask(st, t)
  {
    var Draining(_, s, InTask(ran, task)) := st.works[t];
    st.SetPhase(t, Batch(ran + 1))
    .(posts := st.posts[s := st.posts[s].(executed := st.posts[s].executed + [task])])
  }

  predicate CanEnqueueDelete(st: State, t: Tid) {
    st.DrainsAlone(t) && st.works[t].UserCode()
  }

  function DoEnqueueDelete(st: State, t: Tid, n: NodeId): State
    requires CanEnqueueDelete(st, t)
  {
    var s := st.works[t].strand;
    st.SetStrand(s, st.strands[s].(pending := st.strands[s].pending + [n])).Asked(s, n)
  }

  predicate CanSwapDeletes(st: State, t: Tid) {
    st.DrainsAlone(t) && st.works[t].phase == Deletes([]) && st.strands[st.works[t].strand].pending != []
  }

  function DoSwapDeletes(st: State, t: Tid): State
    requires CanSwapDeletes(st, t)
  {
    var s := st.works[t].strand;
    st.SetStrand(s, st.strands[s].(pending := [])).SetPhase(t, Deletes(st.strands[s].pending))
  }

  predicate CanDestroyNext(st: State, t: Tid) {
    st.DrainsAlone(t) && st.works[t].phase.Deletes? && st.works[t].phase.rest != []
  }

  function DoDestroyNext(st: State, t: Tid): State
    requires CanDestroyNext(st, t)
  {
    var rest := st.works[t].phase.rest;
    st.SetPhase(t, Deletes(rest[1..])).Deleted(st.works[t].strand, rest[0])
  }

  predicate CanEndDeletes(st: State, t: Tid) {
    st.DrainsAlone(t) && st.works[t].phase == Deletes([]) && st.strands[st.works[t].strand].pending == []
  }

  function DoEndDeletes(st: State, t: Tid): State
    requires CanEndDeletes(st, t)
  {
    st.SetPhase(t, Tail)
  }

  predicate CanReadMore(st: State, t: Tid) {
    st.DrainsAlone(t) && st.works[t].phase.Tail?
  }

  function DoReadMore(st: State, t: Tid): State
    requires CanReadMore(st, t)
  {
    var s := st.works[t].strand;
    var read := st.SetStrand(s, st.strands[s].FinishBatch()).SetPhase(t, Leaving);
    if st.strands[s].queue != [] then read.SetCall(t, Scheduling(s)).MoveToken(s, InCall(t))
    else read.SetCall(t, Recycling(s)).MoveToken(s, NoToken)
  }

  // ------------------------------------------------------------------ strands: acquire, release, recycle

  predicate CanAcquireCheck(st: State, t: Tid) {
    st.InUserCode(t) && st.pool.AcceptsStart()
  }

  function DoAcquireCheck(st: State, t: Tid): State {
    st.SetCall(t, AcquireChecked)
  }

  predicate CanAcquireTake(st: State, t: Tid) {
    && t in st.calls && st.calls[t].AcquireChecked? && st.strandLock.None?
    && (st.pool.freeStrands != [] ==> st.Has(st.pool.freeStrands[|st.pool.freeStrands| - 1]))
  }

  function DoAcquireTake(st: State, t: Tid): State
    requires CanAcquireTake(st, t)
  {
    if st.pool.freeStrands != [] then
      var last := |st.pool.freeStrands| - 1;
      var s := st.pool.freeStrands[last];
      st.SetStrand(s, st.strands[s].(free := false, reserved := true)).SetCall(t, NoCall)
      .(pool := st.pool.PopFree(), holder := st.holder[s := Some(t)])
    else
      st.SetCall(t, NoCall)
      .(strands := st.strands + [NEW_STRAND], token := st.token + [NoToken],
        posts := st.posts + [Posts([], [], [], [])], holder := st.holder + [Some(t)])
  }

  predicate CanRelease(st: State, t: Tid, s: StrandId) {
    st.InUserCode(t) && st.strandLock.None? && st.Has(s) && st.holder[s] == Some(t)
  }

  function DoRelease(st: State, t: Tid, s: StrandId): State
    requires CanRelease(st, t, s)
  {
    var d := st.strands[s].(reserved := false);
    var released := st.SetStrand(s, d).(holder := st.holder[s := None]);
    if d.LooksUnused() then released.SetCall(t, Probing(s)).(strandLock := Some(t)) else released
  }

  predicate CanRecycleLock(st: State, t: Tid) {
    st.CallsOn(t) && st.calls[t].Recycling? && st.strandLock.None?
  }

  function DoRecycleLock(st: State, t: Tid): State
    requires CanRecycleLock(st, t)
  {
    var s := st.calls[t].strand;
    if st.strands[s].LooksUnused() then st.SetCall(t, Probing(s)).(strandLock := Some(t))
    else st.SetCall(t, NoCall)
  }

  predicate CanProbe(st: State, t: Tid) {
    st.CallsOn(t) && st.calls[t].Probing?
  }

  function DoProbe(st: State, t: Tid): State
    requires CanProbe(st, t)
  {
    var s := st.calls[t].strand;
    var unlocked := st.SetCall(t, NoCall).(strandLock := None);
    if st.strands[s].IsIdle() then
      unlocked.SetStrand(s, st.strands[s].(free := true))
      .(pool := st.pool.PushFree(s))
    else unlocked
  }

  /** Nodes join a strand while it is reserved, or from inside one of its own live nodes. */
  predicate CanAddNode(st: State, s: StrandId) {
    st.Has(s) && (st.strands[s].reserved || st.strands[s].nodeCount > 0)
  }

  function DoAddNode(st: State, s: StrandId): State
    requires CanAddNode(st, s)
  {
    st.SetStrand(s, st.strands[s].(nodeCount := st.strands[s].nodeCount + 1))
  }

  predicate CanRemoveNode(st: State, s: StrandId) {
    st.Has(s) && st.strands[s].nodeCount > 0
  }

  function DoRemoveNode(st: State, s: StrandId): State
    requires CanRemoveNode(st, s)
  {
    st.SetStrand(s, st.strands[s].(nodeCount := st.strands[s].nodeCount - 1))
  }

  // ------------------------------------------------------------------ TaskPool::shutdown

  function DoBeginShutdown(st: State): State {
    st.(pool := st.pool.Stop(), shut := Joining)
  }

  ghost predicate CanJoin(st: State) {
    st.shut.Joining? && forall t :: t in st.workers && t in st.works ==> st.works[t].Exited?
  }

  function SweepFrom(s: StrandId, count: nat): Shutdown {
    if s < count then Sweeping(s, count, []) else ShutDown(count)
  }

  function DoJoin(st: State): State {
    st.(pool := st.pool.(joined := true), shut := SweepFrom(0, |st.strands|))
  }

  predicate Sweeps(st: State) {
    st.shut.Sweeping? && st.Has(st.shut.strand)
  }

  function DoSweepEnqueue(st: State, n: NodeId): State
    requires Sweeps(st)
  {
    var s := st.shut.strand;
    st.SetStrand(s, st.strands[s].(pending := st.strands[s].pending + [n])).Asked(s, n)
  }

  predicate CanSweepSwap(st: State) {
    Sweeps(st) && st.shut.rest == [] && st.strands[st.shut.strand].pending != []
  }

  function DoSweepSwap(st: State): State
    requires CanSweepSwap(st)
  {
    var s := st.shut.strand;
    st.SetStrand(s, st.strands[s].(pending := [])).(shut := st.shut.(rest := st.strands[s].pending))
  }

  predicate CanSweepNext(st: State) {
    Sweeps(st) && st.shut.rest != []
  }

  function DoSweepNext(st: State): State
    requires CanSweepNext(st)
  {
    st.(shut := st.shut.(rest := st.shut.rest[1..])).Deleted(st.shut.strand, st.shut.rest[0])
  }

  predicate CanRetire(st: State) {
    Sweeps(st) && st.shut.rest == [] && st.strands[st.shut.strand].pending == []
  }

  function DoRetire(st: State): State
    requires CanRetire(st)
  {
    var Sweeping(s, count, _) := st.shut;
    st.SetStrand(s, st.strands[s].(retired := true)).(shut := Clearing(s, count))
  }

  predicate CanClearQueue(st: State) {
    st.shut.Clearing? && st.Has(st.shut.strand)
  }

  function DoClearQueue(st: State): State
    requires CanClearQueue(st)
  {
    var Clearing(s, count) := st.shut;
    st.SetStrand(s, st.strands[s].(queue := [])).(shut := SweepFrom(s + 1, count))
  }

  // ------------------------------------------------------------------ steps and runs

  datatype CallStep =
    | PostCheck(t: Tid, s: StrandId, task: TaskId)
    | PostLock(t: Tid)
    | Schedule(t: Tid)
    | Unschedule(t: Tid)
    | Start(t: Tid, task: TaskId)

  datatype WorkStep =
    | Take(t: Tid)
    | Exit(t: Tid)
    | Finish(t: Tid)

  datatype DrainStep =
    | NextTask(t: Tid)
    | EndTask(t: Tid)
    | EnqueueDelete(t: Tid, n: NodeId)
    | SwapDeletes(t: Tid)
    | DestroyNext(t: Tid)
    | EndDeletes(t: Tid)
    | ReadMore(t: Tid)

  datatype ReserveStep =
    | AcquireCheck(t: Tid)
    | AcquireTake(t: Tid)
    | Release(t: Tid, s: StrandId)
    | RecycleLock(t: Tid)
    | Probe(t: Tid)
    | AddNode(s: StrandId)
    | RemoveNode(s: StrandId)

  datatype ShutdownStep =
    | BeginShutdown
    | Join
    | SweepEnqueue(n: NodeId)
    | SweepSwap
    | SweepNext
    | Retire
    | ClearQueue

  datatype Step = OnCall(c: CallStep) | OnWork(w: WorkStep) | OnDrain(d: DrainStep) | OnReserve(r: ReserveStep)
    | OnShutdown(h: ShutdownStep)

  predicate CanCall(st: State, step: CallStep) {
    match step
    case PostCheck(t, s, _) => CanPostCheck(st, t, s)
    case PostLock(t) => CanPostLock(st, t)
    case Schedule(t) => CanSchedule(st, t)
    case Unschedule(t) => CanUnschedule(st, t)
    case Start(t, _) => st.InUserCode(t)
  }

  function DoCall(st: State, step: CallStep): State
    requires CanCall(st, step)
  {
    match step
    case PostCheck(t, s, task) => DoPostCheck(st, t, s, task)
    case PostLock(t) => DoPostLock(st, t)
    case Schedule(t) => DoSchedule(st, t)
    case Unschedule(t) => DoUnschedule(st, t)
    case Start(t, task) => DoStart(st, task)
  }

  predicate CanWork(st: State, step: WorkStep) {
    match step
    case Take(t) => CanTake(st, t)
    case Exit(t) => CanExit(st, t)
    case Finish(t) => CanFinish(st, t)
  }

  function DoWork(st: State, step: WorkStep): State
    requires CanWork(st, step)
  {
    match step
    case Take(t) => DoTake(st, t)
    case Exit(t) => DoExit(st, t)
    case Finish(t) => DoFinish(st, t)
  }

  predicate CanDrain(st: State, step: DrainStep) {
    match step
    case NextTask(t) => CanNextTask(st, t)
    case EndTask(t) => CanEndTask(st, t)
    case EnqueueDelete(t, _) => CanEnqueueDelete(st, t)
    case SwapDeletes(t) => CanSwapDeletes(st, t)
    case DestroyNext(t) => CanDestroyNext(st, t)
    case EndDeletes(t) => CanEndDeletes(st, t)
    case ReadMore(t) => CanReadMore(st, t)
  }

  function DoDrain(st: State, step: DrainStep): State
    requires CanDrain(st, step)
  {
    match step
    case NextTask(t) => DoNextTask(st, t)
    case EndTask(t) => DoEndTask(st, t)
    case EnqueueDelete(t, n) => DoEnqueueDelete(st, t, n)
    case SwapDeletes(t) => DoSwapDeletes(st, t)
    case DestroyNext(t) => DoDestroyNext(st, t)
    case EndDeletes(t) => DoEndDeletes(st, t)
    case ReadMore(t) => DoReadMore(st, t)
  }

  predicate CanReserve(st: State, step: ReserveStep) {
    match step
    case AcquireCheck(t) => CanAcquireCheck(st, t)
    case AcquireTake(t) => CanAcquireTake(st, t)
    case Release(t, s) => CanRelease(st, t, s)
    case RecycleLock(t) => CanRecycleLock(st, t)
    case Probe(t) => CanProbe(st, t)
    case AddNode(s) => CanAddNode(st, s)
    case RemoveNode(s) => CanRemoveNode(st, s)
  }

  function DoReserve(st: State, step: ReserveStep): State
    requires CanReserve(st, step)
  {
    match step
    case AcquireCheck(t) => DoAcquireCheck(st, t)
    case AcquireTake(t) => DoAcquireTake(st, t)
    case Release(t, s) => DoRelease(st, t, s)
    case RecycleLock(t) => DoRecycleLock(st, t)
    case Probe(t) => DoProbe(st, t)
    case AddNode(s) => DoAddNode(st, s)
    case RemoveNode(s) => DoRemoveNode(st, s)
  }

  ghost predicate CanShutdown(st: State, step: ShutdownStep) {
    match step
    case BeginShutdown => st.shut.NotStarted?
    case Join => CanJoin(st)
    case SweepEnqueue(_) => Sweeps(st)
    case SweepSwap => CanSweepSwap(st)
    case SweepNext => CanSweepNext(st)
    case Retire => CanRetire(st)
    case ClearQueue => CanClearQueue(st)
  }

  ghost function DoShutdown(st: State, step: ShutdownStep): State
    requires CanShutdown(st, step)
  {
    match step
    case BeginShutdown => DoBeginShutdown(st)
    case Join => DoJoin(st)
    case SweepEnqueue(n) => DoSweepEnqueue(st, n)
    case SweepSwap => DoSweepSwap(st)
    case SweepNext => DoSweepNext(st)
    case Retire => DoRetire(st)
    case ClearQueue => DoClearQueue(st)
  }

  ghost predicate Enabled(st: State, step: Step) {
    match step
    case OnCall(c) => CanCall(st, c)
    case OnWork(w) => CanWork(st, w)
    case OnDrain(d) => CanDrain(st, d)
    case OnReserve(r) => CanReserve(st, r)
    case OnShutdown(h) => CanShutdown(st, h)
  }

  ghost function Apply(st: State, step: Step): State
    requires Enabled(st, step)
  {
    match step
    case OnCall(c) => DoCall(st, c)
    case OnWork(w) => DoWork(st, w)
    case OnDrain(d) => DoDrain(st, d)
    case OnReserve(r) => DoReserve(st, r)
    case OnShutdown(h) => DoShutdown(st, h)
  }

  /** A fresh pool: its worker threads are idle, every other thread is outside it. */
  ghost predicate Init(st: State) {
    && st.pool == PoolData([], 0, false, false, st.workers != {}, [])
    && st.strands == [] && st.token == [] && st.posts == [] && st.holder == []
    && st.workers <= st.works.Keys == st.calls.Keys
    && (forall t :: t in st.works ==> st.works[t] == if t in st.workers then Idle else Outside)
    && (forall t :: t in st.calls ==> st.calls[t] == NoCall)
    && st.strandLock == None && st.shut == NotStarted
    && st.log == PoolLog([], [], {})
  }

  ghost predicate Runs(st: State, steps: seq<Step>)
    decreases |steps|
  {
    steps == [] || (Enabled(st, steps[0]) && Runs(Apply(st, steps[0]), steps[1..]))
  }

  ghost function After(st: State, steps: seq<Step>): State
    requires Runs(st, steps)
    decreases |steps|
  {
    if steps == [] then st else After(Apply(st, steps[0]), steps[1..])
  }
}
