/**
 Strands come back: a strand that nobody reserves, without nodes and without work, is in the free list
 or in the hands of a thread about to put it there, as long as nodes are removed inside their strand.
 */
module PoolReturn {
  import opened Options
  import opened Strands
  import opened TaskPools
  import opened PoolProtocol
  import opened PoolTokens
  import opened PoolHistory
  import opened PoolTheorems

  /** Nobody has a use for the strand, and it is not in the free list. */
  predicate Unwanted(d: StrandData) {
    !d.free && !d.reserved && d.nodeCount == 0 && !d.scheduled && d.queue == []
  }

  /** A thread is about to look whether the strand can go back. */
  ghost predicate BeingReturned(calls: map<Tid, Call>, s: StrandId) {
    exists t :: t in calls && (calls[t] == Recycling(s) || calls[t] == Probing(s))
  }

  predicate BeforeSweep(shut: Shutdown) { shut.NotStarted? || shut.Joining? }

  /** A drain that is being queued has tasks to run. */
  ghost predicate CallsHaveWork(token: seq<Place>, strands: seq<StrandData>) {
    forall s :: 0 <= s < |token| && s < |strands| && token[s].InCall? ==> strands[s].queue != []
  }

  ghost predicate AllReturned(strands: seq<StrandData>, calls: map<Tid, Call>) {
    forall s :: 0 <= s < |strands| && Unwanted(strands[s]) ==> BeingReturned(calls, s)
  }

  ghost predicate ReturnInv(st: State) {
    BeforeSweep(st.shut) ==> CallsHaveWork(st.token, st.strands) && AllReturned(st.strands, st.calls)
  }

  /** Nodes leave a strand while a thread runs in it. */
  ghost predicate RemovesInside(st: State, step: Step) {
    step.OnReserve? && step.r.RemoveNode? ==> exists t :: t in st.works && st.works[t].Inside(step.r.s)
  }

  ghost predicate TidyRun(st: State, steps: seq<Step>)
    decreases |steps|
  {
    steps == [] || (Enabled(st, steps[0]) && RemovesInside(st, steps[0]) && TidyRun(Apply(st, steps[0]), steps[1..]))
  }

  // ------------------------------------------------------------------ one thread, one strand

  /** A call that was not about to return a strand changes, or goes on to return the same one. */
  lemma CallChanges(calls: map<Tid, Call>, t: Tid, c: Call, s: StrandId)
    requires BeingReturned(calls, s)
    requires t in calls && (calls[t] == Recycling(s) || calls[t] == Probing(s)) ==> c == Recycling(s) || c == Probing(s)
    ensures BeingReturned(calls[t := c], s)
  {
    var u :| u in calls && (calls[u] == Recycling(s) || calls[u] == Probing(s));
    var calls' := calls[t := c];
    assert u in calls' && (calls'[u] == Recycling(s) || calls'[u] == Probing(s));
  }

  /** One strand and one call change. */
  lemma OneChanges(strands: seq<StrandData>, calls: map<Tid, Call>, s: StrandId, d: StrandData, t: Tid, c: Call)
    requires AllReturned(strands, calls) && s < |strands|
    requires Unwanted(d) ==> c == Recycling(s) || c == Probing(s)
    requires forall r :: t in calls && r != s ==> calls[t] != Recycling(r) && calls[t] != Probing(r)
    ensures AllReturned(strands[s := d], calls[t := c])
  {
    var strands', calls' := strands[s := d], calls[t := c];
    forall r | 0 <= r < |strands'| && Unwanted(strands'[r]) ensures BeingReturned(calls', r) {
      if r == s { assert t in calls' && (calls'[t] == Recycling(s) || calls'[t] == Probing(s)); }
      else { CallChanges(calls, t, c, r); }
    }
  }

  /** Only a call changes, and it was not about to return a strand. */
  lemma OnlyCall(strands: seq<StrandData>, calls: map<Tid, Call>, t: Tid, c: Call)
    requires AllReturned(strands, calls)
    requires t in calls ==> !calls[t].Recycling? && !calls[t].Probing?
    ensures AllReturned(strands, calls[t := c])
  {
    forall r | 0 <= r < |strands| && Unwanted(strands[r]) ensures BeingReturned(calls[t := c], r) {
      CallChanges(calls, t, c, r);
    }
  }

  lemma OnlyStrand(strands: seq<StrandData>, calls: map<Tid, Call>, s: StrandId, d: StrandData)
    requires AllReturned(strands, calls) && s < |strands| && (Unwanted(d) ==> Unwanted(strands[s]))
    ensures AllReturned(strands[s := d], calls)
  {
  }

  lemma NewStrand(strands: seq<StrandData>, calls: map<Tid, Call>)
    requires AllReturned(strands, calls)
    ensures AllReturned(strands + [NEW_STRAND], calls)
  {
    forall r | 0 <= r < |strands + [NEW_STRAND]| && Unwanted((strands + [NEW_STRAND])[r])
      ensures BeingReturned(calls, r)
    {
      assert r < |strands|;
    }
  }

  // ------------------------------------------------------------------ every step

  lemma CallReturns(st: State, step: CallStep)
    requires TokenInv(st) && ReturnInv(st) && CanCall(st, step) && BeforeSweep(st.shut)
    ensures ReturnInv(DoCall(st, step))
  {
    match step
    case PostCheck(t, s, task) => OnlyCall(st.strands, st.calls, t, PostChecked(s, task));
    case PostLock(t) =>
      var PostChecked(s, task) := st.calls[t];
      OneChanges(st.strands, st.calls, s, st.strands[s].Post(task), t, DoPostLock(st, t).calls[t]);
    case Schedule(t) => OnlyCall(st.strands, st.calls, t, DoSchedule(st, t).calls[t]);
    case Unschedule(t) =>
      var s := st.calls[t].strand;
      OneChanges(st.strands, st.calls, s, st.strands[s].Unschedule(), t, NoCall);
    case Start(_, _) =>
  }

  lemma DrainReturns(st: State, step: DrainStep)
    requires TokenInv(st) && ReturnInv(st) && CanDrain(st, step) && BeforeSweep(st.shut)
    ensures ReturnInv(DoDrain(st, step))
  {
    var s := st.works[step.t].strand;
    match step
    case NextTask(t) => NextTaskReturns(st, t);
    case EnqueueDelete(t, n) => OnlyStrand(st.strands, st.calls, s, DoEnqueueDelete(st, t, n).strands[s]);
    case SwapDeletes(t) => OnlyStrand(st.strands, st.calls, s, DoSwapDeletes(st, t).strands[s]);
    case ReadMore(t) =>
      OneChanges(st.strands, st.calls, s, st.strands[s].FinishBatch(), t, DoReadMore(st, t).calls[t]);
    case _ =>
  }

  lemma NextTaskReturns(st: State, t: Tid)
    requires TokenInv(st) && ReturnInv(st) && CanNextTask(st, t) && BeforeSweep(st.shut)
    ensures ReturnInv(DoNextTask(st, t))
  {
    var s := st.works[t].strand;
    assert st.token[s] == InDrain(t);
    OnlyStrand(st.strands, st.calls, s, DoNextTask(st, t).strands[s]);
  }

  lemma ReserveReturns(st: State, step: ReserveStep)
    requires TokenInv(st) && ReturnInv(st) && CanReserve(st, step) && BeforeSweep(st.shut)
    requires RemovesInside(st, OnReserve(step))
    ensures ReturnInv(DoReserve(st, step))
  {
    match step
    case AcquireCheck(t) => OnlyCall(st.strands, st.calls, t, AcquireChecked);
    case AcquireTake(t) => AcquireReturns(st, t);
    case Release(t, s) => ReleaseReturns(st, t, s);
    case RecycleLock(t) =>
      var s := st.calls[t].strand;
      OneChanges(st.strands, st.calls, s, st.strands[s], t, DoRecycleLock(st, t).calls[t]);
      assert st.strands[s := st.strands[s]] == st.strands;
    case Probe(t) => ProbeReturns(st, t);
    case AddNode(s) => OnlyStrand(st.strands, st.calls, s, DoAddNode(st, s).strands[s]);
    case RemoveNode(s) => RemoveReturns(st, s);
  }

  lemma AcquireReturns(st: State, t: Tid)
    requires TokenInv(st) && ReturnInv(st) && CanAcquireTake(st, t) && BeforeSweep(st.shut)
    ensures ReturnInv(DoAcquireTake(st, t))
  {
    OnlyCall(st.strands, st.calls, t, NoCall);
    if st.pool.freeStrands == [] {
      NewStrand(st.strands, st.calls[t := NoCall]);
    } else {
      var s := st.pool.freeStrands[|st.pool.freeStrands| - 1];
      OnlyStrand(st.strands, st.calls[t := NoCall], s, st.strands[s].(free := false, reserved := true));
    }
  }

  lemma ReleaseReturns(st: State, t: Tid, s: StrandId)
    requires TokenInv(st) && ReturnInv(st) && CanRelease(st, t, s) && BeforeSweep(st.shut)
    ensures ReturnInv(DoRelease(st, t, s))
  {
    var d := st.strands[s].(reserved := false);
    var s' := DoRelease(st, t, s);
    OneChanges(st.strands, st.calls, s, d, t, s'.calls[t]);
    assert st.calls[t := st.calls[t]] == st.calls;
  }

  lemma ProbeReturns(st: State, t: Tid)
    requires TokenInv(st) && ReturnInv(st) && CanProbe(st, t) && BeforeSweep(st.shut)
    ensures ReturnInv(DoProbe(st, t))
  {
    var s := st.calls[t].strand;
    OneChanges(st.strands, st.calls, s, DoProbe(st, t).strands[s], t, NoCall);
    assert st.strands[s := st.strands[s]] == st.strands;
  }

  lemma RemoveReturns(st: State, s: StrandId)
    requires TokenInv(st) && ReturnInv(st) && CanRemoveNode(st, s) && BeforeSweep(st.shut)
    requires exists t :: t in st.works && st.works[t].Inside(s)
    ensures ReturnInv(DoRemoveNode(st, s))
  {
    var t :| t in st.works && st.works[t].Inside(s);
    assert st.token[s] == InDrain(t);
    OnlyStrand(st.strands, st.calls, s, DoRemoveNode(st, s).strands[s]);
  }

  lemma TokensHold(st: State)
    requires Reachable(st)
    ensures TokenInv(st)
  {
    ReachableInv(st);
  }

  lemma WorkReturns(st: State, step: WorkStep)
    requires ReturnInv(st) && CanWork(st, step) && BeforeSweep(st.shut)
    ensures ReturnInv(DoWork(st, step))
  {
  }

  lemma ShutdownReturns(st: State, step: ShutdownStep)
    requires ReturnInv(st) && CanShutdown(st, step) && BeforeSweep(st.shut)
    ensures ReturnInv(DoShutdown(st, step))
  {
  }

  /** Once shutdown sweeps it goes on to its end. */
  lemma SweepGoesOn(st: State, step: Step)
    requires !BeforeSweep(st.shut) && Enabled(st, step)
    ensures !BeforeSweep(Apply(st, step).shut)
  {
  }

  lemma StepReturns(st: State, step: Step)
    requires TokenInv(st) && ReturnInv(st) && Enabled(st, step) && RemovesInside(st, step) && BeforeSweep(st.shut)
    ensures ReturnInv(Apply(st, step))
  {
    match step
    case OnCall(c) => CallReturns(st, c);
    case OnWork(w) => WorkReturns(st, w);
    case OnDrain(d) => DrainReturns(st, d);
    case OnReserve(r) => ReserveReturns(st, r);
    case OnShutdown(h) => ShutdownReturns(st, h);
  }

  lemma {:induction false} RunReturns(st: State, steps: seq<Step>)
    requires Reachable(st) && ReturnInv(st) && TidyRun(st, steps)
    ensures Runs(st, steps) && ReturnInv(After(st, steps))
    decreases |steps|
  {
    if steps != [] {
      TokensHold(st);
      if BeforeSweep(st.shut) { StepReturns(st, steps[0]); } else { SweepGoesOn(st, steps[0]); }
      ReachableStep(st, steps[0]);
      RunReturns(Apply(st, steps[0]), steps[1..]);
    }
  }

  /**
   Over every run that removes nodes inside their strand: until shutdown sweeps, a strand that is neither
   free nor reserved, and has no nodes, no drain and no tasks, is being returned by some thread.
   */
  lemma NoStrandIsLost(st: State, steps: seq<Step>, s: StrandId)
    requires Init(st) && TidyRun(st, steps)
    ensures Runs(st, steps)
    ensures var s' := After(st, steps);
      BeforeSweep(s'.shut) && s < |s'.strands| && Unwanted(s'.strands[s]) ==> BeingReturned(s'.calls, s)
  {
    assert Runs(st, []) && After(st, []) == st && Reachable(st);
    RunReturns(st, steps);
  }

  /** A node that is removed while its strand is idle leaves a strand behind that nobody returns. */
  lemma RemovedOutsideIsLost(st: State, t: Tid)
    requires Init(st) && st.workers != {} && t in st.works && t !in st.workers
    ensures var steps := [OnReserve(AcquireCheck(t)), OnReserve(AcquireTake(t)), OnReserve(AddNode(0)),
        OnReserve(Release(t, 0)), OnReserve(RemoveNode(0))];
      Runs(st, steps) && |After(st, steps).strands| == 1 && Unwanted(After(st, steps).strands[0])
      && !BeingReturned(After(st, steps).calls, 0)
  {
    var steps := [OnReserve(AcquireCheck(t)), OnReserve(AcquireTake(t)), OnReserve(AddNode(0)),
                  OnReserve(Release(t, 0)), OnReserve(RemoveNode(0))];
    var s1 := Apply(st, steps[0]);
    var s2 := Apply(s1, steps[1]);
    AcquiredIsLost(s2, t);
    var rest := [OnReserve(AddNode(0)), OnReserve(Release(t, 0)), OnReserve(RemoveNode(0))];
    FirstStep(s1, steps[1], rest);
    FirstStep(st, steps[0], [steps[1]] + rest);
    assert steps == [steps[0]] + ([steps[1]] + rest);
  }

  /** A thread of the program has just acquired the only strand there is, and nobody is in a call. */
  ghost predicate JustAcquired(st: State, t: Tid) {
    && st.strands == [NEW_STRAND] && st.Has(0) && st.holder == [Some(t)] && st.InUserCode(t) && st.strandLock.None?
    && forall u :: u in st.calls ==> st.calls[u].NoCall?
  }

  lemma AcquiredIsLost(st: State, t: Tid)
    requires JustAcquired(st, t)
    ensures var steps := [OnReserve(AddNode(0)), OnReserve(Release(t, 0)), OnReserve(RemoveNode(0))];
      Runs(st, steps) && |After(st, steps).strands| == 1 && Unwanted(After(st, steps).strands[0])
      && !BeingReturned(After(st, steps).calls, 0)
  {
    var steps := [OnReserve(AddNode(0)), OnReserve(Release(t, 0)), OnReserve(RemoveNode(0))];
    var s1 := Apply(st, steps[0]);
    var s2 := Apply(s1, steps[1]);
    assert steps == [steps[0]] + ([steps[1]] + ([steps[2]] + []));
    FirstStep(s2, steps[2], []);
    FirstStep(s1, steps[1], [steps[2]] + []);
    FirstStep(st, steps[0], [steps[1]] + ([steps[2]] + []));
  }

  lemma FirstStep(st: State, step: Step, rest: seq<Step>)
    requires Enabled(st, step) && Runs(Apply(st, step), rest)
    ensures Runs(st, [step] + rest) && After(st, [step] + rest) == After(Apply(st, step), rest)
  {
    assert ([step] + rest)[1..] == rest;
  }

  // ------------------------------------------------------------------ the number of nodes

  function NodesOf(strands: seq<StrandData>, s: StrandId): nat { if s < |strands| then strands[s].nodeCount else 0 }

  /** How many of the steps add a node to the strand, less those that remove one. */
  function Gained(steps: seq<Step>, s: StrandId): int {
    if steps == [] then 0
    else
      (if steps[0] == OnReserve(AddNode(s)) then 1 else if steps[0] == OnReserve(RemoveNode(s)) then -1 else 0)
      + Gained(steps[1..], s)
  }

  lemma ReserveCounts(st: State, r: ReserveStep, s: StrandId)
    requires CanReserve(st, r)
    ensures NodesOf(DoReserve(st, r).strands, s) == NodesOf(st.strands, s) + Gained([OnReserve(r)], s)
  {
    assert Gained([OnReserve(r)][1..], s) == 0;
  }

  lemma CallCounts(st: State, c: CallStep, s: StrandId)
    requires CanCall(st, c)
    ensures NodesOf(DoCall(st, c).strands, s) == NodesOf(st.strands, s)
  {
  }

  lemma DrainCounts(st: State, d: DrainStep, s: StrandId)
    requires CanDrain(st, d)
    ensures NodesOf(DoDrain(st, d).strands, s) == NodesOf(st.strands, s)
  {
  }

  lemma ShutdownCounts(st: State, h: ShutdownStep, s: StrandId)
    requires CanShutdown(st, h)
    ensures NodesOf(DoShutdown(st, h).strands, s) == NodesOf(st.strands, s)
  {
  }

  /** A strand has as many nodes as were added to it and not removed, over every run. */
  lemma {:induction false} NodesAreCounted(st: State, steps: seq<Step>, s: StrandId)
    requires Runs(st, steps)
    ensures NodesOf(After(st, steps).strands, s) == NodesOf(st.strands, s) + Gained(steps, s)
    decreases |steps|
  {
    if steps != [] {
      match steps[0] {
        case OnReserve(r) =>
          ReserveCounts(st, r, s);
          assert Gained([OnReserve(r)][1..], s) == 0;
        case OnCall(c) => CallCounts(st, c, s);
        case OnWork(_) =>
        case OnDrain(d) => DrainCounts(st, d, s);
        case OnShutdown(h) => ShutdownCounts(st, h, s);
      }
      NodesAreCounted(Apply(st, steps[0]), steps[1..], s);
    }
  }

  // ------------------------------------------------------------------ the strand mutex

  ghost predicate LockHeld(lock: Option<Tid>, calls: map<Tid, Call>) {
    lock.Some? ==> lock.value in calls && calls[lock.value].Probing?
  }

  lemma CallHolds(st: State, c: CallStep)
    requires LockHeld(st.strandLock, st.calls) && CanCall(st, c)
    ensures LockHeld(DoCall(st, c).strandLock, DoCall(st, c).calls)
  {
  }

  lemma DrainHolds(st: State, d: DrainStep)
    requires LockHeld(st.strandLock, st.calls) && CanDrain(st, d)
    ensures LockHeld(DoDrain(st, d).strandLock, DoDrain(st, d).calls)
  {
  }

  lemma ReserveHolds(st: State, r: ReserveStep)
    requires LockHeld(st.strandLock, st.calls) && CanReserve(st, r)
    ensures LockHeld(DoReserve(st, r).strandLock, DoReserve(st, r).calls)
  {
  }

  lemma ShutdownHolds(st: State, h: ShutdownStep)
    requires LockHeld(st.strandLock, st.calls) && CanShutdown(st, h)
    ensures LockHeld(DoShutdown(st, h).strandLock, DoShutdown(st, h).calls)
  {
  }

  lemma {:induction false} RunHolds(st: State, steps: seq<Step>)
    requires LockHeld(st.strandLock, st.calls) && Runs(st, steps)
    ensures LockHeld(After(st, steps).strandLock, After(st, steps).calls)
    decreases |steps|
  {
    if steps != [] {
      match steps[0] {
        case OnCall(c) => CallHolds(st, c);
        case OnWork(_) =>
        case OnDrain(d) => DrainHolds(st, d);
        case OnReserve(r) => ReserveHolds(st, r);
        case OnShutdown(h) => ShutdownHolds(st, h);
      }
      RunHolds(Apply(st, steps[0]), steps[1..]);
    }
  }

  lemma LockIsHeld(st: State)
    requires Reachable(st)
    ensures LockHeld(st.strandLock, st.calls)
  {
    var init: State, steps: seq<Step> :| Init(init) && Runs(init, steps) && After(init, steps) == st;
    RunHolds(init, steps);
  }

  /** Whoever holds the strand mutex can give it back with its next step. */
  lemma LockIsGivenBack(st: State)
    requires Reachable(st) && st.strandLock.Some?
    ensures Enabled(st, OnReserve(Probe(st.strandLock.value)))
    ensures Apply(st, OnReserve(Probe(st.strandLock.value))).strandLock.None?
  {
    LockIsHeld(st);
    GuardsNeverBlock(st);
  }
}
