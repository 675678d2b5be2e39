/** Deferred deletes and the end of a pool: nothing asked for is forgotten, and every strand is retired. */
module PoolShutdown {
  import opened Options
  import opened Strands
  import opened TaskPools
  import opened PoolProtocol
  import opened PoolTokens
  import opened PoolHistory
  import opened PoolTheorems

  // ------------------------------------------------------------------ every delete is carried out

  /** The deletes that the sweep or the drain at `place` has in its hands. */
  ghost function InHand(place: Place, works: map<Tid, Work>, shut: Shutdown, s: StrandId): seq<NodeId> {
    if shut.Sweeping? && shut.strand == s then shut.rest
    else if place.InDrain? && place.t in works && works[place.t].Draining? && works[place.t].phase.Deletes?
    then works[place.t].phase.rest
    else []
  }

  ghost predicate Carried(p: Posts, rest: seq<NodeId>, pending: seq<NodeId>) { p.asked == p.deleted + rest + pending }

  ghost predicate DeletesInv(st: State) {
    && |st.posts| == |st.strands| == |st.token|
    && forall s :: 0 <= s < |st.strands| ==>
         Carried(st.posts[s], InHand(st.token[s], st.works, st.shut, s), st.strands[s].pending)
  }

  /** What the steps need of the invariant. */
  ghost predicate Settled(st: State) { TokenInv(st) && ThreadInv(st) && LifeInv(st) }

  /** A step that asks for nothing and carries nothing out leaves the deletes of every strand where they are. */
  ghost predicate SameHands(st: State, s': State) {
    && |st.strands| <= |s'.strands| == |s'.posts| == |s'.token|
    && (forall s :: 0 <= s < |st.strands| && s < |st.posts| && s < |st.token| ==>
          && s'.posts[s].asked == st.posts[s].asked && s'.posts[s].deleted == st.posts[s].deleted
          && s'.strands[s].pending == st.strands[s].pending
          && InHand(s'.token[s], s'.works, s'.shut, s) == InHand(st.token[s], st.works, st.shut, s))
    && (forall s :: |st.strands| <= s < |s'.strands| ==>
          && s'.posts[s].asked == [] && s'.posts[s].deleted == [] && s'.strands[s].pending == []
          && InHand(s'.token[s], s'.works, s'.shut, s) == [])
  }

  lemma OtherDeletes(st: State, s': State)
    requires DeletesInv(st) && SameHands(st, s')
    ensures DeletesInv(s')
  {
  }

  /** The invariant without what the deletes are. */
  ghost predicate Sized(st: State) { |st.posts| == |st.strands| == |st.token| }

  lemma CallHands(st: State, step: CallStep)
    requires Settled(st) && Sized(st) && CanCall(st, step)
    ensures SameHands(st, DoCall(st, step))
  {
    match step
    case PostLock(t) => PostLockHands(st, t);
    case Schedule(t) => ScheduleHands(st, t);
    case _ =>
  }

  lemma PostLockHands(st: State, t: Tid)
    requires Settled(st) && Sized(st) && CanPostLock(st, t)
    ensures SameHands(st, DoPostLock(st, t))
  {
  }

  lemma ScheduleHands(st: State, t: Tid)
    requires Settled(st) && Sized(st) && CanSchedule(st, t)
    ensures SameHands(st, DoSchedule(st, t))
  {
  }

  lemma WorkHands(st: State, step: WorkStep)
    requires Settled(st) && Sized(st) && CanWork(st, step)
    ensures SameHands(st, DoWork(st, step))
  {
    match step
    case Take(t) => TakeHands(st, t);
    case _ =>
  }

  lemma TakeHands(st: State, t: Tid)
    requires Settled(st) && Sized(st) && CanTake(st, t)
    ensures SameHands(st, DoTake(st, t))
  {
  }

  lemma TaskHands(st: State, step: DrainStep)
    requires Settled(st) && Sized(st) && CanDrain(st, step) && (step.NextTask? || step.EndTask?)
    ensures SameHands(st, DoDrain(st, step))
  {
    match step
    case NextTask(t) => NextTaskHands(st, t);
    case EndTask(t) => EndTaskHands(st, t);
  }

  lemma NextTaskHands(st: State, t: Tid)
    requires Settled(st) && Sized(st) && CanNextTask(st, t)
    ensures SameHands(st, DoNextTask(st, t))
  {
  }

  lemma EndTaskHands(st: State, t: Tid)
    requires Settled(st) && Sized(st) && CanEndTask(st, t)
    ensures SameHands(st, DoEndTask(st, t))
  {
  }

  lemma TailHands(st: State, step: DrainStep)
    requires Settled(st) && Sized(st) && CanDrain(st, step) && (step.EndDeletes? || step.ReadMore?)
    ensures SameHands(st, DoDrain(st, step))
  {
    match step
    case ReadMore(t) => ReadMoreHands(st, t);
    case _ =>
  }

  lemma ReadMoreHands(st: State, t: Tid)
    requires Settled(st) && Sized(st) && CanReadMore(st, t)
    ensures SameHands(st, DoReadMore(st, t))
  {
  }

  lemma ReserveHands(st: State, step: ReserveStep)
    requires Settled(st) && Sized(st) && CanReserve(st, step)
    ensures SameHands(st, DoReserve(st, step))
  {
    match step
    case AcquireTake(t) => AcquireHands(st, t);
    case Release(t, s) => ReleaseHands(st, t, s);
    case Probe(t) => ProbeHands(st, t);
    case _ =>
  }

  lemma ReleaseHands(st: State, t: Tid, s: StrandId)
    requires Settled(st) && Sized(st) && CanRelease(st, t, s)
    ensures SameHands(st, DoRelease(st, t, s))
  {
  }

  lemma ProbeHands(st: State, t: Tid)
    requires Settled(st) && Sized(st) && CanProbe(st, t)
    ensures SameHands(st, DoProbe(st, t))
  {
  }

  lemma AcquireHands(st: State, t: Tid)
    requires Settled(st) && Sized(st) && CanAcquireTake(st, t)
    ensures SameHands(st, DoAcquireTake(st, t))
  {
  }

  lemma RetireHands(st: State, step: ShutdownStep)
    requires Settled(st) && Sized(st) && CanShutdown(st, step)
    requires step.BeginShutdown? || step.Join? || step.Retire? || step.ClearQueue?
    ensures SameHands(st, DoShutdown(st, step))
  {
  }

  lemma EnqueueDeletes(st: State, t: Tid, n: NodeId)
    requires Settled(st) && DeletesInv(st) && CanEnqueueDelete(st, t)
    ensures DeletesInv(DoEnqueueDelete(st, t, n))
  {
  }

  lemma SwapDeletes(st: State, t: Tid)
    requires Settled(st) && DeletesInv(st) && CanSwapDeletes(st, t)
    ensures DeletesInv(DoSwapDeletes(st, t))
  {
  }

  lemma DestroyDeletes(st: State, t: Tid)
    requires Settled(st) && DeletesInv(st) && CanDestroyNext(st, t)
    ensures DeletesInv(DoDestroyNext(st, t))
  {
    var s, s' := st.works[t].strand, DoDestroyNext(st, t);
    assert st.token[s] == InDrain(t);
    FirstIsDeleted(st.posts[s], st.works[t].phase.rest, st.strands[s].pending);
    forall r | 0 <= r < |st.strands| && r != s
      ensures InHand(s'.token[r], s'.works, s'.shut, r) == InHand(st.token[r], st.works, st.shut, r)
    {
      OthersInHand(st, t, r);
    }
  }

  lemma OthersInHand(st: State, t: Tid, r: StrandId)
    requires TokenInv(st) && CanDestroyNext(st, t) && r < |st.token| && r != st.works[t].strand
    ensures var s' := DoDestroyNext(st, t);
      InHand(s'.token[r], s'.works, s'.shut, r) == InHand(st.token[r], st.works, st.shut, r)
  {
    assert st.token[st.works[t].strand] == InDrain(t);
  }

  /** The first of the deletes in hand has been carried out. */
  lemma FirstIsDeleted(p: Posts, rest: seq<NodeId>, pending: seq<NodeId>)
    requires Carried(p, rest, pending) && rest != []
    ensures Carried(p.(deleted := p.deleted + [rest[0]]), rest[1..], pending)
  {
    assert rest == [rest[0]] + rest[1..];
  }

  lemma DrainDeletes(st: State, step: DrainStep)
    requires Settled(st) && DeletesInv(st) && CanDrain(st, step)
    ensures DeletesInv(DoDrain(st, step))
  {
    match step
    case EnqueueDelete(t, n) => EnqueueDeletes(st, t, n);
    case SwapDeletes(t) => SwapDeletes(st, t);
    case DestroyNext(t) => DestroyDeletes(st, t);
    case NextTask(_) => TaskHands(st, step); OtherDeletes(st, DoDrain(st, step));
    case EndTask(_) => TaskHands(st, step); OtherDeletes(st, DoDrain(st, step));
    case _ => TailHands(st, step); OtherDeletes(st, DoDrain(st, step));
  }

  lemma SweepEnqueueDeletes(st: State, n: NodeId)
    requires Settled(st) && DeletesInv(st) && Sweeps(st)
    ensures DeletesInv(DoSweepEnqueue(st, n))
  {
  }

  lemma SweepSwapDeletes(st: State)
    requires Settled(st) && DeletesInv(st) && CanSweepSwap(st)
    ensures DeletesInv(DoSweepSwap(st))
  {
  }

  lemma SweepNextDeletes(st: State)
    requires Settled(st) && DeletesInv(st) && CanSweepNext(st)
    ensures DeletesInv(DoSweepNext(st))
  {
    FirstIsDeleted(st.posts[st.shut.strand], st.shut.rest, st.strands[st.shut.strand].pending);
  }

  lemma ShutdownDeletes(st: State, step: ShutdownStep)
    requires Settled(st) && DeletesInv(st) && CanShutdown(st, step)
    ensures DeletesInv(DoShutdown(st, step))
  {
    match step
    case SweepEnqueue(n) => SweepEnqueueDeletes(st, n);
    case SweepSwap => SweepSwapDeletes(st);
    case SweepNext => SweepNextDeletes(st);
    case _ => RetireHands(st, step); OtherDeletes(st, DoShutdown(st, step));
  }

  lemma StepDeletes(st: State, step: Step)
    requires Reachable(st) && DeletesInv(st) && Enabled(st, step)
    ensures DeletesInv(Apply(st, step))
  {
    ReachableInv(st);
    match step
    case OnCall(c) => CallHands(st, c); OtherDeletes(st, DoCall(st, c));
    case OnWork(w) => WorkHands(st, w); OtherDeletes(st, DoWork(st, w));
    case OnDrain(d) => DrainDeletes(st, d);
    case OnReserve(r) => ReserveHands(st, r); OtherDeletes(st, DoReserve(st, r));
    case OnShutdown(h) => ShutdownDeletes(st, h);
  }

  lemma {:induction false} RunDeletes(st: State, steps: seq<Step>)
    requires Reachable(st) && DeletesInv(st) && Runs(st, steps)
    ensures DeletesInv(After(st, steps))
    decreases |steps|
  {
    if steps != [] {
      StepDeletes(st, steps[0]);
      ReachableStep(st, steps[0]);
      RunDeletes(Apply(st, steps[0]), steps[1..]);
    }
  }

  lemma ReachableDeletes(st: State)
    requires Reachable(st)
    ensures DeletesInv(st)
  {
    var init: State, steps: seq<Step> :| Init(init) && Runs(init, steps) && After(init, steps) == st;
    assert Runs(init, []) && After(init, []) == init;
    RunDeletes(init, steps);
  }

  /**
   Whenever nobody is inside a strand and shutdown does not sweep it, every delete asked for in it has
   been carried out, in the order asked, and none twice.
   */
  lemma DeletesAreCarriedOut(st: State, s: StrandId)
    requires Reachable(st) && s < |st.strands| && s < |st.posts| && !(st.shut.Sweeping? && st.shut.strand == s)
    requires forall t :: t in st.works ==> !st.works[t].Inside(s)
    ensures st.posts[s].asked == st.posts[s].deleted
  {
    ReachableDeletes(st);
    ReachableInv(st);
    assert Carried(st.posts[s], InHand(st.token[s], st.works, st.shut, s), st.strands[s].pending);
  }

  // ------------------------------------------------------------------ every strand is retired

  /** How many of the first strands shutdown is through with. */
  function Through(shut: Shutdown): nat {
    match shut
    case Sweeping(s, _, _) => s
    case Clearing(s, _) => s
    case ShutDown(count) => count
    case _ => 0
  }

  ghost predicate RetiredInv(st: State) {
    Through(st.shut) <= |st.strands| && forall s :: 0 <= s < Through(st.shut) ==> st.strands[s].retired
  }

  lemma CallRetired(st: State, step: CallStep)
    requires RetiredInv(st) && CanCall(st, step)
    ensures RetiredInv(DoCall(st, step))
  {
  }

  lemma DrainRetired(st: State, step: DrainStep)
    requires RetiredInv(st) && CanDrain(st, step)
    ensures RetiredInv(DoDrain(st, step))
  {
  }

  lemma ReserveRetired(st: State, step: ReserveStep)
    requires RetiredInv(st) && CanReserve(st, step)
    ensures RetiredInv(DoReserve(st, step))
  {
  }

  lemma ShutdownRetired(st: State, step: ShutdownStep)
    requires RetiredInv(st) && LifeInv(st) && CanShutdown(st, step)
    ensures RetiredInv(DoShutdown(st, step))
  {
  }

  lemma StepRetired(st: State, step: Step)
    requires LifeInv(st) && RetiredInv(st) && Enabled(st, step)
    ensures RetiredInv(Apply(st, step))
  {
    match step
    case OnCall(c) => CallRetired(st, c);
    case OnWork(_) =>
    case OnDrain(d) => DrainRetired(st, d);
    case OnReserve(r) => ReserveRetired(st, r);
    case OnShutdown(h) => ShutdownRetired(st, h);
  }

  /** The strands that shutdown goes through are those there were at the joins. */
  ghost predicate Covers(shut: Shutdown, count: nat) {
    match shut
    case Sweeping(_, c, _) => c == count
    case Clearing(_, c) => c == count
    case ShutDown(c) => c == count
    case _ => false
  }

  lemma ShutdownCovers(st: State, step: ShutdownStep, count: nat)
    requires CanShutdown(st, step) && Covers(st.shut, count)
    ensures Covers(DoShutdown(st, step).shut, count)
  {
  }

  lemma StepCovers(st: State, step: Step, count: nat)
    requires Enabled(st, step) && Covers(st.shut, count)
    ensures Covers(Apply(st, step).shut, count)
  {
    match step
    case OnShutdown(h) => ShutdownCovers(st, h, count);
    case _ =>
  }

  lemma {:induction false} RunRetired(st: State, steps: seq<Step>, count: nat)
    requires Reachable(st) && Runs(st, steps) && RetiredInv(st) && Covers(st.shut, count)
    ensures RetiredInv(After(st, steps)) && Covers(After(st, steps).shut, count)
    decreases |steps|
  {
    if steps != [] {
      ReachableStep(st, steps[0]);
      ReachableInv(st);
      StepRetired(st, steps[0]);
      StepCovers(st, steps[0], count);
      RunRetired(Apply(st, steps[0]), steps[1..], count);
    }
  }

  /** When a shutdown is over, over any run since its joins returned, every strand there was then is retired. */
  lemma ShutdownRetiresAll(st: State, steps: seq<Step>)
    requires Reachable(st) && CanJoin(st) && Runs(Apply(st, OnShutdown(Join)), steps)
    requires After(Apply(st, OnShutdown(Join)), steps).shut.ShutDown?
    ensures var s' := After(Apply(st, OnShutdown(Join)), steps);
      forall s :: 0 <= s < |st.strands| ==> s < |s'.strands| && s'.strands[s].retired
  {
    var joined := Apply(st, OnShutdown(Join));
    ReachableStep(st, OnShutdown(Join));
    assert RetiredInv(joined) && Covers(joined.shut, |st.strands|);
    RunRetired(joined, steps, |st.strands|);
  }

  /** A retired strand with nothing queued that no post is on its way to. */
  ghost predicate Buried(st: State, s: StrandId) {
    && s < |st.strands| && st.strands[s].retired && st.strands[s].queue == []
    && forall t :: t in st.calls && st.calls[t].PostChecked? ==> st.calls[t].strand != s
  }

  lemma CallBuried(st: State, step: CallStep, s: StrandId)
    requires Buried(st, s) && CanCall(st, step)
    ensures Buried(DoCall(st, step), s)
  {
  }

  lemma DrainBuried(st: State, step: DrainStep, s: StrandId)
    requires Buried(st, s) && CanDrain(st, step)
    ensures Buried(DoDrain(st, step), s)
  {
  }

  lemma ReserveBuried(st: State, step: ReserveStep, s: StrandId)
    requires Buried(st, s) && CanReserve(st, step)
    ensures Buried(DoReserve(st, step), s)
  {
  }

  lemma ShutdownBuried(st: State, step: ShutdownStep, s: StrandId)
    requires Buried(st, s) && CanShutdown(st, step)
    ensures Buried(DoShutdown(st, step), s)
  {
  }

  lemma {:induction false} RunBuried(st: State, steps: seq<Step>, s: StrandId)
    requires Runs(st, steps) && Buried(st, s)
    ensures Buried(After(st, steps), s)
    decreases |steps|
  {
    if steps != [] {
      match steps[0] {
        case OnCall(c) => CallBuried(st, c, s);
        case OnWork(_) =>
        case OnDrain(d) => DrainBuried(st, d, s);
        case OnReserve(r) => ReserveBuried(st, r, s);
        case OnShutdown(h) => ShutdownBuried(st, h, s);
      }
      RunBuried(Apply(st, steps[0]), steps[1..], s);
    }
  }

  /**
   The tasks of a retired strand are discarded, and from then on, over every run, nothing is queued in
   it, unless a post had passed its check before the strand was retired.
   */
  lemma RetiredStaysEmpty(st: State, steps: seq<Step>)
    requires CanClearQueue(st) && LifeInv(st) && Runs(Apply(st, OnShutdown(ClearQueue)), steps)
    requires forall t :: t in st.calls && st.calls[t].PostChecked? ==> st.calls[t].strand != st.shut.strand
    ensures var s, s' := st.shut.strand, After(Apply(st, OnShutdown(ClearQueue)), steps);
      s < |s'.strands| && s'.strands[s].retired && s'.strands[s].queue == []
  {
    RunBuried(Apply(st, OnShutdown(ClearQueue)), steps, st.shut.strand);
  }

  /** A strand that is probed goes to the free list exactly if it has no drain and no tasks. */
  lemma ProbeFrees(st: State, t: Tid)
    requires Reachable(st) && CanProbe(st, t)
    ensures var s, s' := st.calls[t].strand, Apply(st, OnReserve(Probe(t)));
      && (s'.strands[s].free <==> !st.strands[s].scheduled && st.strands[s].queue == [])
      && (s'.strands[s].free <==> s in s'.pool.freeStrands)
  {
    ReachableInv(st);
  }
}
