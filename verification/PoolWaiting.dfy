/**
 How long a queued drain waits: with `k` entries ahead of it, exactly those `k` are taken first, and
 until then no strand runs more than one batch.
 */
module PoolWaiting {
  import opened Strands
  import opened TaskPools
  import opened PoolProtocol
  import opened PoolTokens
  import opened PoolHistory
  import opened PoolTheorems

  predicate IsTake(step: Step) { step.OnWork? && step.w.Take? }

  /** How often a worker takes an entry. */
  function Takes(steps: seq<Step>): nat {
    if steps == [] then 0 else (if IsTake(steps[0]) then 1 else 0) + Takes(steps[1..])
  }

  /** The tasks of a strand that have been executed; none before the strand exists. */
  function Executed(posts: seq<Posts>, s: StrandId): nat {
    if s < |posts| then |posts[s].executed| else 0
  }

  // ------------------------------------------------------------------ the queue

  /** The entry queue before and after a step that takes nothing: entries only join at the end. */
  ghost predicate Waits(st: State, s': State) {
    st.pool.queue <= s'.pool.queue && s'.log.runner == st.log.runner && st.log.entries <= s'.log.entries
  }

  lemma CallWaits(st: State, step: CallStep)
    requires CanCall(st, step)
    ensures Waits(st, DoCall(st, step))
  {
  }

  lemma DrainWaits(st: State, step: DrainStep)
    requires CanDrain(st, step)
    ensures Waits(st, DoDrain(st, step))
  {
  }

  lemma ReserveWaits(st: State, step: ReserveStep)
    requires CanReserve(st, step)
    ensures Waits(st, DoReserve(st, step))
  {
  }

  lemma ShutdownWaits(st: State, step: ShutdownStep)
    requires CanShutdown(st, step)
    ensures Waits(st, DoShutdown(st, step))
  {
  }

  /** Every step but a take leaves the queued entries where they are. */
  lemma StepQueue(st: State, step: Step)
    requires Enabled(st, step)
    ensures !IsTake(step) ==> Waits(st, Apply(st, step))
    ensures IsTake(step) ==>
      && st.pool.queue != [] && Apply(st, step).pool.queue == st.pool.queue[1..]
      && |Apply(st, step).log.runner| == |st.log.runner| + 1 && Apply(st, step).log.entries == st.log.entries
  {
    match step
    case OnCall(c) => CallWaits(st, c);
    case OnWork(w) =>
    case OnDrain(d) => DrainWaits(st, d);
    case OnReserve(r) => ReserveWaits(st, r);
    case OnShutdown(h) => ShutdownWaits(st, h);
  }

  lemma {:induction false} RunEntries(st: State, steps: seq<Step>)
    requires Runs(st, steps)
    ensures st.log.entries <= After(st, steps).log.entries
    ensures |After(st, steps).log.runner| == |st.log.runner| + Takes(steps)
    decreases |steps|
  {
    if steps != [] {
      StepQueue(st, steps[0]);
      RunEntries(Apply(st, steps[0]), steps[1..]);
    }
  }

  /** The first `k + 1` entries of the queue are these. */
  ghost predicate Ahead(queue: seq<Entry>, k: int, front: seq<Entry>) {
    0 <= k < |queue| && queue[..k + 1] == front
  }

  /** A take removes the first of them; any other step leaves them in front. */
  lemma StepAhead(st: State, step: Step, k: int, front: seq<Entry>)
    requires Enabled(st, step) && Ahead(st.pool.queue, k, front) && (IsTake(step) ==> k > 0)
    ensures if IsTake(step) then front != [] && Ahead(Apply(st, step).pool.queue, k - 1, front[1..])
            else Ahead(Apply(st, step).pool.queue, k, front)
  {
    StepQueue(st, step);
    if IsTake(step) { assert st.pool.queue[1..][..k] == st.pool.queue[..k + 1][1..]; }
  }

  /** The entry with `k` ahead moves up by one with every take, and with it those between. */
  lemma {:induction false} RunAhead(st: State, steps: seq<Step>, k: int, front: seq<Entry>)
    requires Runs(st, steps) && Ahead(st.pool.queue, k, front) && Takes(steps) <= k
    ensures Takes(steps) <= |front| && Ahead(After(st, steps).pool.queue, k - Takes(steps), front[Takes(steps)..])
    decreases |steps|
  {
    if steps != [] {
      StepAhead(st, steps[0], k, front);
      if IsTake(steps[0]) {
        RunAhead(Apply(st, steps[0]), steps[1..], k - 1, front[1..]);
        assert front[1..][Takes(steps[1..])..] == front[Takes(steps)..];
      } else {
        RunAhead(Apply(st, steps[0]), steps[1..], k, front);
      }
    }
  }

  // ------------------------------------------------------------------ the tasks a strand may still run

  function Left(phase: Phase): nat {
    match phase
    case Batch(ran) => if ran < BATCH_SIZE then BATCH_SIZE - ran else 0
    case InTask(ran, _) => if ran < BATCH_SIZE then BATCH_SIZE - ran else 0
    case _ => 0
  }

  /**
   What `s` may still run before the `m` entries at the front are taken: the rest of the batch it is
   in, or a whole batch if its drain is among them.
   */
  ghost function Budget(token: seq<Place>, works: map<Tid, Work>, queue: seq<Entry>, s: StrandId, m: nat): nat
    requires m <= |queue|
  {
    if s >= |token| then 0
    else match token[s]
      case InDrain(t) => if t in works && works[t].Draining? then Left(works[t].phase) else 0
      case InQueue => if Drain(s) in queue[..m] then BATCH_SIZE else 0
      case _ => 0
  }

  ghost function Spent(st: State, s: StrandId, m: nat): nat
    requires m <= |st.pool.queue|
  {
    Executed(st.posts, s) + Budget(st.token, st.works, st.pool.queue, s, m)
  }

  /** What the budget needs of the invariant. */
  ghost predicate Orderly(st: State) { TokenInv(st) && ThreadInv(st) && |st.posts| == |st.token| }

  lemma PostLockSpends(st: State, t: Tid, s: StrandId, m: nat)
    requires Orderly(st) && CanPostLock(st, t) && m <= |st.pool.queue|
    ensures m <= |DoPostLock(st, t).pool.queue| && Spent(DoPostLock(st, t), s, m) <= Spent(st, s, m)
  {
  }

  /** A drain that is queued now goes behind the `m` entries. */
  lemma ScheduleSpends(st: State, t: Tid, s: StrandId, m: nat)
    requires Orderly(st) && CanSchedule(st, t) && m <= |st.pool.queue|
    ensures m <= |DoSchedule(st, t).pool.queue| && Spent(DoSchedule(st, t), s, m) <= Spent(st, s, m)
  {
    assert forall e :: (st.pool.queue + [e])[..m] == st.pool.queue[..m];
  }

  lemma CallSpends(st: State, step: CallStep, s: StrandId, m: nat)
    requires Orderly(st) && CanCall(st, step) && m <= |st.pool.queue|
    ensures m <= |DoCall(st, step).pool.queue| && Spent(DoCall(st, step), s, m) <= Spent(st, s, m)
  {
    match step
    case PostLock(t) => PostLockSpends(st, t, s, m);
    case Schedule(t) => ScheduleSpends(st, t, s, m);
    case Start(_, task) => assert (st.pool.queue + [Plain(task)])[..m] == st.pool.queue[..m];
    case _ =>
  }

  /** The first of the `m` entries is taken: a drain of `s` spends its batch from here. */
  lemma TakeSpends(st: State, t: Tid, s: StrandId, m: nat)
    requires Orderly(st) && CanTake(st, t) && 0 < m <= |st.pool.queue|
    ensures m - 1 <= |DoTake(st, t).pool.queue| && Spent(DoTake(st, t), s, m - 1) <= Spent(st, s, m)
  {
    assert st.pool.queue[1..][..m - 1] == st.pool.queue[..m][1..];
  }

  lemma WorkSpends(st: State, step: WorkStep, s: StrandId, m: nat)
    requires Orderly(st) && CanWork(st, step) && !step.Take? && m <= |st.pool.queue|
    ensures m <= |DoWork(st, step).pool.queue| && Spent(DoWork(st, step), s, m) <= Spent(st, s, m)
  {
  }

  lemma NextTaskSpends(st: State, t: Tid, s: StrandId, m: nat)
    requires Orderly(st) && CanNextTask(st, t) && m <= |st.pool.queue|
    ensures m <= |DoNextTask(st, t).pool.queue| && Spent(DoNextTask(st, t), s, m) <= Spent(st, s, m)
  {
  }

  /** A task that ends moves one unit from the budget to the executed ones. */
  lemma EndTaskSpends(st: State, t: Tid, s: StrandId, m: nat)
    requires Orderly(st) && CanEndTask(st, t) && m <= |st.pool.queue|
    ensures m <= |DoEndTask(st, t).pool.queue| && Spent(DoEndTask(st, t), s, m) <= Spent(st, s, m)
  {
  }

  lemma ReadMoreSpends(st: State, t: Tid, s: StrandId, m: nat)
    requires Orderly(st) && CanReadMore(st, t) && m <= |st.pool.queue|
    ensures m <= |DoReadMore(st, t).pool.queue| && Spent(DoReadMore(st, t), s, m) <= Spent(st, s, m)
  {
  }

  lemma DrainSpends(st: State, step: DrainStep, s: StrandId, m: nat)
    requires Orderly(st) && CanDrain(st, step) && m <= |st.pool.queue|
    ensures m <= |DoDrain(st, step).pool.queue| && Spent(DoDrain(st, step), s, m) <= Spent(st, s, m)
  {
    match step
    case NextTask(t) => NextTaskSpends(st, t, s, m);
    case EndTask(t) => EndTaskSpends(st, t, s, m);
    case ReadMore(t) => ReadMoreSpends(st, t, s, m);
    case _ =>
  }

  lemma AcquireTakeSpends(st: State, t: Tid, s: StrandId, m: nat)
    requires Orderly(st) && CanAcquireTake(st, t) && m <= |st.pool.queue|
    ensures m <= |DoAcquireTake(st, t).pool.queue| && Spent(DoAcquireTake(st, t), s, m) <= Spent(st, s, m)
  {
  }

  lemma ReserveSpends(st: State, step: ReserveStep, s: StrandId, m: nat)
    requires Orderly(st) && CanReserve(st, step) && m <= |st.pool.queue|
    ensures m <= |DoReserve(st, step).pool.queue| && Spent(DoReserve(st, step), s, m) <= Spent(st, s, m)
  {
    match step
    case AcquireTake(t) => AcquireTakeSpends(st, t, s, m);
    case _ =>
  }

  lemma ShutdownSpends(st: State, step: ShutdownStep, s: StrandId, m: nat)
    requires Orderly(st) && CanShutdown(st, step) && m <= |st.pool.queue|
    ensures m <= |DoShutdown(st, step).pool.queue| && Spent(DoShutdown(st, step), s, m) <= Spent(st, s, m)
  {
  }

  lemma StepSpends(st: State, step: Step, s: StrandId, m: nat)
    requires Orderly(st) && Enabled(st, step) && m <= |st.pool.queue| && (IsTake(step) ==> m > 0)
    ensures var m' := if IsTake(step) then m - 1 else m;
      m' <= |Apply(st, step).pool.queue| && Spent(Apply(st, step), s, m') <= Spent(st, s, m)
  {
    match step
    case OnCall(c) => CallSpends(st, c, s, m);
    case OnWork(w) => if w.Take? { TakeSpends(st, w.t, s, m); } else { WorkSpends(st, w, s, m); }
    case OnDrain(d) => DrainSpends(st, d, s, m);
    case OnReserve(r) => ReserveSpends(st, r, s, m);
    case OnShutdown(h) => ShutdownSpends(st, h, s, m);
  }

  /** With `m` entries to go, `s` has executed and may still execute at most `bound` tasks. */
  ghost predicate Within(st: State, s: StrandId, m: int, bound: nat) {
    0 <= m <= |st.pool.queue| && Spent(st, s, m) <= bound
  }

  lemma ReachableWithin(st: State, step: Step, rest: nat, s: StrandId, m: int, bound: nat)
    requires Reachable(st) && Enabled(st, step) && Within(st, s, m, bound)
    requires rest + (if IsTake(step) then 1 else 0) <= m
    ensures Reachable(Apply(st, step)) && Within(Apply(st, step), s, if IsTake(step) then m - 1 else m, bound)
  {
    ReachableInv(st);
    ReachableStep(st, step);
    StepSpends(st, step, s, m);
  }

  lemma {:induction false} RunWithin(st: State, steps: seq<Step>, s: StrandId, m: int, bound: nat)
    requires Reachable(st) && Runs(st, steps) && Within(st, s, m, bound) && Takes(steps) <= m
    ensures Within(After(st, steps), s, m - Takes(steps), bound)
    decreases |steps|
  {
    if steps != [] {
      ReachableWithin(st, steps[0], Takes(steps[1..]), s, m, bound);
      RunWithin(Apply(st, steps[0]), steps[1..], s, if IsTake(steps[0]) then m - 1 else m, bound);
    }
  }

  // ------------------------------------------------------------------ bounded waiting

  /**
   An entry queued with `k` entries ahead of it. While at most `k` takes have happened, over every
   run, each of them took the next of those `k` and the entry has moved up accordingly; no strand
   has two drains among them, and no strand executes more than one batch of 64 tasks.
   */
  lemma BoundedWaiting(st: State, k: nat, steps: seq<Step>, s: StrandId)
    requires Reachable(st) && k < |st.pool.queue| && Runs(st, steps) && Takes(steps) <= k
    ensures var n, st' := Takes(steps), After(st, steps);
      && |st'.log.runner| == |st.log.runner| + n
      && k - n < |st'.pool.queue| && st'.pool.queue[..k - n + 1] == st.pool.queue[n..k + 1]
      && Executed(st'.posts, s) <= Executed(st.posts, s) + 64
    ensures forall i, j :: 0 <= i < j <= k && st.pool.queue[i].Drain? ==> st.pool.queue[i] != st.pool.queue[j]
  {
    RunEntries(st, steps);
    RunAhead(st, steps, k, st.pool.queue[..k + 1]);
    assert st.pool.queue[..k + 1][Takes(steps)..] == st.pool.queue[Takes(steps)..k + 1];
    RunWithin(st, steps, s, k, Executed(st.posts, s) + 64);
    NoDrainTwice(st);
  }

  lemma NoDrainTwice(st: State)
    requires Reachable(st)
    ensures forall i, j :: 0 <= i < j < |st.pool.queue| && st.pool.queue[i].Drain? ==>
      st.pool.queue[i] != st.pool.queue[j]
  {
    ReachableInv(st);
  }

  /** The take after those `k` is the one that takes the entry: nothing overtakes it, whatever the run. */
  lemma TakenInTurn(st: State, k: nat, steps: seq<Step>)
    requires Reachable(st) && k < |st.pool.queue| && Runs(st, steps)
    ensures var ticket, st' := |st.log.runner| + k, After(st, steps);
      && ticket < |st'.log.entries| && st'.log.entries[ticket] == st.pool.queue[k]
      && (ticket < |st'.log.runner| <==> Takes(steps) > k)
  {
    ReachableInv(st);
    RunEntries(st, steps);
    assert st.pool.queue[k] == st.log.entries[|st.log.runner| + k];
  }

  // ------------------------------------------------------------------ one drain, one batch

  /** As long as worker `t` is at entry `n`, strand `s` has executed `base` tasks and those of this drain. */
  ghost predicate InBatch(st: State, t: Tid, n: nat, s: StrandId, base: nat) {
    && n < |st.log.runner|
    && (t in st.works && st.works[t].HoldsToken() && st.works[t].ticket == n ==>
          && st.works[t].strand == s
          && Executed(st.posts, s) + Left(st.works[t].phase) <= base + 64)
  }

  lemma EndTaskInBatch(st: State, u: Tid, t: Tid, n: nat, s: StrandId, base: nat)
    requires Orderly(st) && CanEndTask(st, u) && InBatch(st, t, n, s, base)
    ensures InBatch(DoEndTask(st, u), t, n, s, base)
  {
  }

  lemma NextTaskInBatch(st: State, u: Tid, t: Tid, n: nat, s: StrandId, base: nat)
    requires CanNextTask(st, u) && InBatch(st, t, n, s, base)
    ensures InBatch(DoNextTask(st, u), t, n, s, base)
  {
  }

  lemma ReadMoreInBatch(st: State, u: Tid, t: Tid, n: nat, s: StrandId, base: nat)
    requires CanReadMore(st, u) && InBatch(st, t, n, s, base)
    ensures InBatch(DoReadMore(st, u), t, n, s, base)
  {
  }

  lemma DrainInBatch(st: State, step: DrainStep, t: Tid, n: nat, s: StrandId, base: nat)
    requires Orderly(st) && CanDrain(st, step) && InBatch(st, t, n, s, base)
    ensures InBatch(DoDrain(st, step), t, n, s, base)
  {
    match step
    case NextTask(u) => NextTaskInBatch(st, u, t, n, s, base);
    case EndTask(u) => EndTaskInBatch(st, u, t, n, s, base);
    case ReadMore(u) => ReadMoreInBatch(st, u, t, n, s, base);
    case _ =>
  }

  lemma CallInBatch(st: State, step: CallStep, t: Tid, n: nat, s: StrandId, base: nat)
    requires CanCall(st, step) && InBatch(st, t, n, s, base)
    ensures InBatch(DoCall(st, step), t, n, s, base)
  {
  }

  lemma WorkInBatch(st: State, step: WorkStep, t: Tid, n: nat, s: StrandId, base: nat)
    requires CanWork(st, step) && InBatch(st, t, n, s, base)
    ensures InBatch(DoWork(st, step), t, n, s, base)
  {
  }

  lemma ReserveInBatch(st: State, step: ReserveStep, t: Tid, n: nat, s: StrandId, base: nat)
    requires CanReserve(st, step) && InBatch(st, t, n, s, base)
    ensures InBatch(DoReserve(st, step), t, n, s, base)
  {
  }

  lemma ShutdownInBatch(st: State, step: ShutdownStep, t: Tid, n: nat, s: StrandId, base: nat)
    requires CanShutdown(st, step) && InBatch(st, t, n, s, base)
    ensures InBatch(DoShutdown(st, step), t, n, s, base)
  {
  }

  lemma StepInBatch(st: State, step: Step, t: Tid, n: nat, s: StrandId, base: nat)
    requires Reachable(st) && Enabled(st, step) && InBatch(st, t, n, s, base)
    ensures InBatch(Apply(st, step), t, n, s, base)
  {
    ReachableInv(st);
    match step
    case OnCall(c) => CallInBatch(st, c, t, n, s, base);
    case OnWork(w) => WorkInBatch(st, w, t, n, s, base);
    case OnDrain(d) => DrainInBatch(st, d, t, n, s, base);
    case OnReserve(r) => ReserveInBatch(st, r, t, n, s, base);
    case OnShutdown(h) => ShutdownInBatch(st, h, t, n, s, base);
  }

  lemma {:induction false} RunInBatch(st: State, steps: seq<Step>, t: Tid, n: nat, s: StrandId, base: nat)
    requires Reachable(st) && Runs(st, steps) && InBatch(st, t, n, s, base)
    ensures InBatch(After(st, steps), t, n, s, base)
    decreases |steps|
  {
    if steps != [] {
      ReachableStep(st, steps[0]);
      StepInBatch(st, steps[0], t, n, s, base);
      RunInBatch(Apply(st, steps[0]), steps[1..], t, n, s, base);
    }
  }

  /**
   From the moment a worker has taken a drain until it gives the strand up, over every run, the
   strand executes at most one batch.
   */
  lemma DrainRunsOneBatch(st: State, t: Tid, steps: seq<Step>)
    requires Reachable(st) && t in st.works && st.works[t].HoldsToken() && st.works[t].phase == Batch(0)
    requires Runs(st, steps) && t in After(st, steps).works && After(st, steps).works[t].HoldsToken()
    requires After(st, steps).works[t].ticket == st.works[t].ticket
    ensures var s, st' := st.works[t].strand, After(st, steps);
      st'.works[t].strand == s && Executed(st'.posts, s) <= Executed(st.posts, s) + 64
  {
    ReachableInv(st);
    RunInBatch(st, steps, t, st.works[t].ticket, st.works[t].strand, Executed(st.posts, st.works[t].strand));
  }

  // ------------------------------------------------------------------ and no less

  /** Worker `t` is at entry `n`, in the batch of `s`: between two tasks or in one. */
  ghost predicate InTasks(st: State, t: Tid, n: nat) {
    t in st.works && st.works[t].Draining? && st.works[t].ticket == n
    && (st.works[t].phase.Batch? || st.works[t].phase.InTask?)
  }

  function RanSoFar(phase: Phase): nat {
    match phase
    case Batch(ran) => ran
    case InTask(ran, _) => ran
    case _ => 0
  }

  /** The drain has looked for a task and found none, here or at some later state of the run. */
  ghost predicate FoundEmpty(st: State, steps: seq<Step>, t: Tid, n: nat, s: StrandId)
    requires Runs(st, steps)
    decreases |steps|
  {
    || (InTasks(st, t, n) && s < |st.strands| && st.strands[s].queue == [])
    || (steps != [] && FoundEmpty(Apply(st, steps[0]), steps[1..], t, n, s))
  }

  /**
   In its batch, the drain has executed exactly the tasks it counts; once the batch is over, it was 64
   of them, or `empty` says that the queue was found empty.
   */
  ghost predicate Batches(st: State, t: Tid, n: nat, s: StrandId, base: nat, empty: bool) {
    && n < |st.log.runner|
    && (InTasks(st, t, n) ==>
          && st.works[t].strand == s && RanSoFar(st.works[t].phase) <= 64
          && Executed(st.posts, s) == base + RanSoFar(st.works[t].phase))
    && (!InTasks(st, t, n) ==> Executed(st.posts, s) >= base + 64 || empty)
  }

  lemma NextTaskBatches(st: State, u: Tid, t: Tid, n: nat, s: StrandId, base: nat, empty: bool)
    requires Orderly(st) && CanNextTask(st, u) && Batches(st, t, n, s, base, empty)
    ensures Batches(DoNextTask(st, u), t, n, s, base,
                    empty || (InTasks(st, t, n) && s < |st.strands| && st.strands[s].queue == []))
  {
  }

  lemma EndTaskBatches(st: State, u: Tid, t: Tid, n: nat, s: StrandId, base: nat, empty: bool)
    requires Orderly(st) && CanEndTask(st, u) && Batches(st, t, n, s, base, empty)
    ensures Batches(DoEndTask(st, u), t, n, s, base, empty)
  {
  }

  /** A step that executes nothing and does not touch the batch. */
  ghost predicate SameBatch(st: State, s': State, t: Tid, n: nat) {
    && (forall s :: Executed(s'.posts, s) == Executed(st.posts, s)) && |st.log.runner| <= |s'.log.runner|
    && (n < |st.log.runner| ==> (InTasks(s', t, n) <==> InTasks(st, t, n)))
    && (InTasks(st, t, n) && InTasks(s', t, n) ==> s'.works[t] == st.works[t])
  }

  lemma CallSameBatch(st: State, step: CallStep, t: Tid, n: nat)
    requires CanCall(st, step)
    ensures SameBatch(st, DoCall(st, step), t, n)
  {
  }

  lemma WorkSameBatch(st: State, step: WorkStep, t: Tid, n: nat)
    requires CanWork(st, step)
    ensures SameBatch(st, DoWork(st, step), t, n)
  {
  }

  lemma DrainSameBatch(st: State, step: DrainStep, t: Tid, n: nat)
    requires CanDrain(st, step) && !step.NextTask? && !step.EndTask?
    ensures SameBatch(st, DoDrain(st, step), t, n)
  {
  }

  lemma ReserveSameBatch(st: State, step: ReserveStep, t: Tid, n: nat)
    requires CanReserve(st, step)
    ensures SameBatch(st, DoReserve(st, step), t, n)
  {
  }

  lemma ShutdownSameBatch(st: State, step: ShutdownStep, t: Tid, n: nat)
    requires CanShutdown(st, step)
    ensures SameBatch(st, DoShutdown(st, step), t, n)
  {
  }

  predicate IsTask(step: Step) { step.OnDrain? && (step.d.NextTask? || step.d.EndTask?) }

  lemma StepSameBatch(st: State, step: Step, t: Tid, n: nat)
    requires Enabled(st, step) && !IsTask(step)
    ensures SameBatch(st, Apply(st, step), t, n)
  {
    match step
    case OnCall(c) => CallSameBatch(st, c, t, n);
    case OnWork(w) => WorkSameBatch(st, w, t, n);
    case OnDrain(d) => DrainSameBatch(st, d, t, n);
    case OnReserve(r) => ReserveSameBatch(st, r, t, n);
    case OnShutdown(h) => ShutdownSameBatch(st, h, t, n);
  }

  ghost predicate EmptyNow(st: State, t: Tid, n: nat, s: StrandId) {
    InTasks(st, t, n) && s < |st.strands| && st.strands[s].queue == []
  }

  lemma OtherBatches(st: State, s': State, t: Tid, n: nat, s: StrandId, base: nat, empty: bool)
    requires SameBatch(st, s', t, n) && Batches(st, t, n, s, base, empty)
    ensures Batches(s', t, n, s, base, empty)
  {
  }

  lemma StepBatches(st: State, step: Step, t: Tid, n: nat, s: StrandId, base: nat, empty: bool)
    requires Reachable(st) && Enabled(st, step) && Batches(st, t, n, s, base, empty)
    ensures Batches(Apply(st, step), t, n, s, base, empty || EmptyNow(st, t, n, s))
  {
    if !IsTask(step) {
      StepSameBatch(st, step, t, n);
      OtherBatches(st, Apply(st, step), t, n, s, base, empty);
    } else {
      TaskBatches(st, step.d, t, n, s, base, empty);
    }
  }

  lemma TaskBatches(st: State, step: DrainStep, t: Tid, n: nat, s: StrandId, base: nat, empty: bool)
    requires Reachable(st) && CanDrain(st, step) && (step.NextTask? || step.EndTask?)
    requires Batches(st, t, n, s, base, empty)
    ensures Batches(DoDrain(st, step), t, n, s, base, empty || EmptyNow(st, t, n, s))
  {
    ReachableInv(st);
    if step.NextTask? { NextTaskBatches(st, step.t, t, n, s, base, empty); }
    else { EndTaskBatches(st, step.t, t, n, s, base, empty); }
  }

  lemma {:induction false} RunBatches(st: State, steps: seq<Step>, t: Tid, n: nat, s: StrandId, base: nat, empty: bool)
    requires Reachable(st) && Runs(st, steps) && Batches(st, t, n, s, base, empty)
    ensures Batches(After(st, steps), t, n, s, base, empty || FoundEmpty(st, steps, t, n, s))
    decreases |steps|
  {
    if steps != [] {
      ReachableStep(st, steps[0]);
      StepBatches(st, steps[0], t, n, s, base, empty);
      RunBatches(Apply(st, steps[0]), steps[1..], t, n, s, base, empty || EmptyNow(st, t, n, s));
    }
  }

  lemma JustTaken(st: State, t: Tid)
    requires Reachable(st) && t in st.works && st.works[t].HoldsToken() && st.works[t].phase == Batch(0)
    ensures Batches(st, t, st.works[t].ticket, st.works[t].strand, Executed(st.posts, st.works[t].strand), false)
  {
    ReachableInv(st);
  }

  /**
   A drain does not leave its batch early, over any run from the moment it is taken: while it is in
   the batch, it has executed exactly as many tasks as it counts; when the batch is over, it was 64,
   or the queue was found empty.
   */
  lemma DrainRunsItsBatch(st: State, t: Tid, steps: seq<Step>)
    requires Reachable(st) && t in st.works && st.works[t].HoldsToken() && st.works[t].phase == Batch(0)
    requires Runs(st, steps)
    ensures var n, s, st' := st.works[t].ticket, st.works[t].strand, After(st, steps);
      && (InTasks(st', t, n) ==> Executed(st'.posts, s) == Executed(st.posts, s) + RanSoFar(st'.works[t].phase))
      && (!InTasks(st', t, n) ==>
            Executed(st'.posts, s) >= Executed(st.posts, s) + 64 || FoundEmpty(st, steps, t, n, s))
  {
    JustTaken(st, t);
    RunBatches(st, steps, t, st.works[t].ticket, st.works[t].strand, Executed(st.posts, st.works[t].strand), false);
  }

  // ------------------------------------------------------------------ the tasks that were waiting

  function Accepted(posts: seq<Posts>, s: StrandId): seq<TaskId> { if s < |posts| then posts[s].accepted else [] }

  function Ran(posts: seq<Posts>, s: StrandId): seq<TaskId> { if s < |posts| then posts[s].executed else [] }

  /** Until the batch is over these are among the accepted tasks; then they are the first ones executed. */
  ghost predicate Wanted(st: State, t: Tid, n: nat, s: StrandId, want: seq<TaskId>) {
    && (InTasks(st, t, n) ==> want <= Accepted(st.posts, s))
    && (!InTasks(st, t, n) ==> want <= Ran(st.posts, s))
  }

  ghost predicate PostsGrow(posts: seq<Posts>, posts': seq<Posts>) {
    forall s :: Accepted(posts, s) <= Accepted(posts', s) && Ran(posts, s) <= Ran(posts', s)
  }

  lemma CallPostsGrow(st: State, step: CallStep)
    requires CanCall(st, step)
    ensures PostsGrow(st.posts, DoCall(st, step).posts)
  {
  }

  lemma DrainPostsGrow(st: State, step: DrainStep)
    requires CanDrain(st, step)
    ensures PostsGrow(st.posts, DoDrain(st, step).posts)
  {
  }

  lemma ReservePostsGrow(st: State, step: ReserveStep)
    requires CanReserve(st, step)
    ensures PostsGrow(st.posts, DoReserve(st, step).posts)
  {
  }

  lemma ShutdownPostsGrow(st: State, step: ShutdownStep)
    requires CanShutdown(st, step)
    ensures PostsGrow(st.posts, DoShutdown(st, step).posts)
  {
  }

  lemma StepPostsGrow(st: State, step: Step)
    requires Enabled(st, step)
    ensures PostsGrow(st.posts, Apply(st, step).posts)
  {
    match step
    case OnCall(c) => CallPostsGrow(st, c);
    case OnWork(_) =>
    case OnDrain(d) => DrainPostsGrow(st, d);
    case OnReserve(r) => ReservePostsGrow(st, r);
    case OnShutdown(h) => ShutdownPostsGrow(st, h);
  }

  /**
   A strand that is being drained is not retired, so its accepted tasks are the executed, the running
   and the queued ones.
   */
  lemma DrainedInLine(st: State, u: Tid)
    requires Reachable(st) && CanNextTask(st, u)
    ensures var s := st.works[u].strand;
      Accepted(st.posts, s) == Ran(st.posts, s) + st.strands[s].queue && Executed(st.posts, s) == |Ran(st.posts, s)|
  {
    ReachableInv(st);
    var s := st.works[u].strand;
    assert st.token[s] == InDrain(u);
    if st.strands[s].retired { JoinedIsQuiet(st, u); }
  }

  lemma JoinedIsQuiet(st: State, u: Tid)
    requires Reachable(st) && u in st.works && st.works[u].Busy()
    ensures !st.pool.joined
  {
    ReachableInv(st);
    assert ThreadOk(st.works[u], st.calls[u], u in st.workers, |st.strands|);
  }

  lemma NextTaskWanted(st: State, u: Tid, t: Tid, n: nat, s: StrandId, base: nat, want: seq<TaskId>)
    requires Reachable(st) && CanNextTask(st, u) && Wanted(st, t, n, s, want) && |want| <= base + 64
    requires Batches(st, t, n, s, base, true)
    ensures Wanted(DoNextTask(st, u), t, n, s, want)
  {
    if u == t && InTasks(st, t, n) {
      DrainedInLine(st, u);
    }
  }

  lemma StepWanted(st: State, step: Step, t: Tid, n: nat, s: StrandId, base: nat, want: seq<TaskId>)
    requires Reachable(st) && Enabled(st, step) && Wanted(st, t, n, s, want) && |want| <= base + 64
    requires Batches(st, t, n, s, base, true)
    ensures Wanted(Apply(st, step), t, n, s, want)
  {
    StepPostsGrow(st, step);
    if !IsTask(step) {
      StepSameBatch(st, step, t, n);
    } else if step.d.NextTask? {
      NextTaskWanted(st, step.d.t, t, n, s, base, want);
    }
  }

  lemma {:induction false} RunWanted(st: State, steps: seq<Step>, t: Tid, n: nat, s: StrandId, base: nat,
                                     want: seq<TaskId>)
    requires Reachable(st) && Runs(st, steps) && Wanted(st, t, n, s, want) && |want| <= base + 64
    requires Batches(st, t, n, s, base, true)
    ensures Wanted(After(st, steps), t, n, s, want)
    decreases |steps|
  {
    if steps != [] {
      ReachableStep(st, steps[0]);
      StepWanted(st, steps[0], t, n, s, base, want);
      StepBatches(st, steps[0], t, n, s, base, true);
      RunWanted(Apply(st, steps[0]), steps[1..], t, n, s, base, want);
    }
  }

  /**
   A drain taken with the tasks `queue` waiting executes them in that order, up to 64 of them, before
   its batch is over: whatever the run, they are what its strand executes next.
   */
  lemma DrainRunsWhatWaits(st: State, t: Tid, steps: seq<Step>)
    requires Reachable(st) && t in st.works && st.works[t].HoldsToken() && st.works[t].phase == Batch(0)
    requires Runs(st, steps)
    requires !InTasks(After(st, steps), t, st.works[t].ticket)
    ensures var s := st.works[t].strand;
      && s < |st.strands|
      && var queue := st.strands[s].queue; var first := if |queue| < 64 then queue else queue[..64];
         Ran(st.posts, s) + first <= Ran(After(st, steps).posts, s)
  {
    var n, s := st.works[t].ticket, st.works[t].strand;
    DrainsHere(st, t);
    DrainedInLine(st, t);
    var queue := st.strands[s].queue;
    var first := if |queue| < 64 then queue else queue[..64];
    JustTaken(st, t);
    FrontIsAccepted(Ran(st.posts, s), queue, first);
    RunWanted(st, steps, t, n, s, Executed(st.posts, s), Ran(st.posts, s) + first);
  }

  lemma FrontIsAccepted(ran: seq<TaskId>, queue: seq<TaskId>, first: seq<TaskId>)
    requires first <= queue
    ensures ran + first <= ran + queue
  {
  }

  lemma DrainsHere(st: State, t: Tid)
    requires Reachable(st) && t in st.works && st.works[t].HoldsToken() && st.works[t].phase == Batch(0)
    ensures CanNextTask(st, t)
  {
    ReachableInv(st);
  }
}
