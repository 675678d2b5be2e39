/**
 What every run of the timer protocol keeps, and when a migration is safe: an EventLoop dispatches
 its due list without an owner check, so a timer that leaves a loop which has already taken its
 current timeout can be re-armed by two executors at once.
 */
module TimerTheorems {
  import opened Options
  import opened Timers
  import opened TimerProtocol

  lemma StepSafe(st: State, step: Step)
    requires Safe(st) && Enabled(st, step)
    ensures Safe(Apply(st, step))
  {
    match step
    case Owner(s) => OwnerTokens(st, s); OwnerPhases(st, s); OwnerOnce(st, s);
    case Fire(s) => FireTokens(st, s); FirePhases(st, s); FireOnce(st, s);
    case Dispatch(s) => DispatchTokens(st, s); DispatchPhases(st, s); DispatchOnce(st, s);
  }

  lemma {:induction false} RunSafe(st: State, steps: seq<Step>)
    requires Safe(st) && Runs(st, steps)
    ensures Safe(After(st, steps))
    decreases |steps|
  {
    if steps != [] {
      StepSafe(st, steps[0]);
      RunSafe(Apply(st, steps[0]), steps[1..]);
    }
  }

  /**
   Through any mix of loop and strand dispatch, restarts and migrations: each generation is emitted
   at most once, never before its deadline, and a strand emits only while it owns the timer.
   */
  lemma EachGenerationOnce(st: State, steps: seq<Step>)
    requires Init(st) && Runs(st, steps)
    ensures var emitted := After(st, steps).emitted;
      && (forall i, j :: 0 <= i < j < |emitted| ==> emitted[i].gen != emitted[j].gen)
      && (forall i :: 0 <= i < |emitted| ==> emitted[i].deadline <= emitted[i].time)
      && (forall i :: 0 <= i < |emitted| && emitted[i].at.Strand? ==> emitted[i].at == emitted[i].owner)
  {
    RunSafe(st, steps);
  }

  // ------------------------------------------------------------------ guarded runs

  /** The loop that gives the timer away has already taken its current timeout out of its table. */
  predicate TookCurrent(st: State, e: Exec) {
    e.Loop? && TableOf(e) in st.taken && st.taken[TableOf(e)].gen == st.timer.gen
  }

  predicate Guarded(st: State, step: Step) {
    step.Owner? && step.o.Migrate? ==> !TookCurrent(st, step.o.e)
  }

  predicate GuardedRun(st: State, steps: seq<Step>)
    decreases |steps|
  {
    steps == [] || (Enabled(st, steps[0]) && Guarded(st, steps[0]) && GuardedRun(Apply(st, steps[0]), steps[1..]))
  }

  lemma {:induction false} GuardedRuns(st: State, steps: seq<Step>)
    requires GuardedRun(st, steps)
    ensures Runs(st, steps)
    decreases |steps|
  {
    if steps != [] { GuardedRuns(Apply(st, steps[0]), steps[1..]); }
  }

  /** The owner is in the middle of arming this generation. */
  predicate OwnerArms(timer: Core, owner: Exec, busy: map<Exec, Phase>) {
    owner in busy && match busy[owner]
      case Firing(g) => g == timer.gen
      case Arming(g, _, _) => g == timer.gen
      case Scheduling(g, _, to, _) => g == timer.gen && to == owner
      case _ => false
  }

  /**
   The owner holds a timeout of the current generation and deadline: in its table, taken as due,
   posted to it, or being armed by it. A pool whose deadline thread has stopped holds none.
   */
  predicate HasTimeout(st: State) {
    var want := Entry(st.owner, st.timer.gen, st.timer.deadline);
    var t := TableOf(st.owner);
    || (t in st.entries && st.entries[t] == want)
    || (t in st.taken && st.taken[t] == want)
    || want in st.posted
    || OwnerArms(st.timer, st.owner, st.busy)
    || (st.owner.Strand? && st.owner.pool in st.stopped)
  }

  /** Other executors do not touch the timer: at most a loop is about to drop a timeout of the past. */
  predicate OnlyOwner(timer: Core, owner: Exec, busy: map<Exec, Phase>) {
    && (forall e :: e in busy && e != owner ==> busy[e].Firing? && busy[e].gen < timer.gen)
    && (owner in busy ==>
          match busy[owner]
          case Arming(g, _, _) => g == timer.gen
          case Scheduling(g, _, to, _) => g == timer.gen && to == owner
          case Cancelling => !timer.active
          case _ => true)
  }

  predicate OnlyOwnersEntries(timer: Core, owner: Exec, entries: map<Table, Entry>, taken: map<Table, Entry>) {
    && (forall t :: t in entries ==> entries[t].to == owner)
    && (forall t :: t in taken && t.LoopTable? && t != TableOf(owner) ==> taken[t].gen < timer.gen)
  }

  predicate InOrder(owner: Exec, busy: map<Exec, Phase>, emitted: seq<Emission>) {
    && (forall i, j :: 0 <= i < j < |emitted| ==> emitted[i].gen < emitted[j].gen)
    && (forall i :: 0 <= i < |emitted| ==> emitted[i].at == emitted[i].owner)
    && (owner in busy && Promise(busy[owner]).Some? ==>
          forall i :: 0 <= i < |emitted| ==> emitted[i].gen < Promise(busy[owner]).value.gen)
  }

  predicate Kept(st: State) {
    && Safe(st)
    && OnlyOwner(st.timer, st.owner, st.busy)
    && OnlyOwnersEntries(st.timer, st.owner, st.entries, st.taken)
    && InOrder(st.owner, st.busy, st.emitted)
    && (st.timer.active ==> HasTimeout(st))
  }

  lemma OwnerOnlyOwner(st: State, step: OwnerStep)
    requires Kept(st) && CanOwner(st, step)
    ensures var s' := DoOwner(st, step); OnlyOwner(s'.timer, s'.owner, s'.busy)
  {
  }

  lemma OwnerEntries(st: State, step: OwnerStep)
    requires Kept(st) && CanOwner(st, step) && Guarded(st, Owner(step))
    ensures var s' := DoOwner(st, step); OnlyOwnersEntries(s'.timer, s'.owner, s'.entries, s'.taken)
  {
  }

  lemma OwnerInOrder(st: State, step: OwnerStep)
    requires Kept(st) && CanOwner(st, step)
    ensures var s' := DoOwner(st, step); InOrder(s'.owner, s'.busy, s'.emitted)
  {
  }

  lemma OwnerHolds(st: State, step: OwnerStep)
    requires Kept(st) && CanOwner(st, step) && Guarded(st, Owner(step)) && DoOwner(st, step).timer.active
    ensures HasTimeout(DoOwner(st, step))
  {
  }

  lemma FireOnlyOwner(st: State, step: FireStep)
    requires Kept(st) && CanFire(st, step)
    ensures var s' := DoFire(st, step); OnlyOwner(s'.timer, s'.owner, s'.busy)
  {
  }

  lemma FireEntries(st: State, step: FireStep)
    requires Kept(st) && CanFire(st, step)
    ensures var s' := DoFire(st, step); OnlyOwnersEntries(s'.timer, s'.owner, s'.entries, s'.taken)
  {
  }

  /** An executor that enters dispatchTimeout has promised nothing yet. */
  lemma FiringInOrder(owner: Exec, busy: map<Exec, Phase>, emitted: seq<Emission>, e: Exec, g: nat)
    requires InOrder(owner, busy, emitted)
    ensures InOrder(owner, busy[e := Firing(g)], emitted)
  {
  }

  lemma FireInOrder(st: State, step: FireStep)
    requires Kept(st) && CanFire(st, step)
    ensures var s' := DoFire(st, step); InOrder(s'.owner, s'.busy, s'.emitted)
  {
    match step
    case LoopDispatch(l) => FiringInOrder(st.owner, st.busy, st.emitted, Loop(l), st.taken[LoopTable(l)].gen);
    case StrandDispatch(x) => FiringInOrder(st.owner, st.busy, st.emitted, x.to, x.gen);
    case _ =>
  }

  lemma FireHolds(st: State, step: FireStep)
    requires Kept(st) && CanFire(st, step) && st.timer.active
    ensures HasTimeout(DoFire(st, step))
  {
    match step
    case StrandDispatch(x) => StrandDispatchHolds(st, x);
    case _ =>
  }

  lemma StrandDispatchHolds(st: State, x: Entry)
    requires Kept(st) && CanFire(st, StrandDispatch(x)) && st.timer.active
    ensures HasTimeout(DoFire(st, StrandDispatch(x)))
  {
  }

  lemma LockKept(st: State, e: Exec, d: int)
    requires Kept(st) && CanDispatch(st, Lock(e, d))
    ensures var s' := DoDispatch(st, Lock(e, d)); OnlyOwner(s'.timer, s'.owner, s'.busy)
  {
  }

  lemma LockInOrder(st: State, e: Exec, d: int)
    requires Kept(st) && CanDispatch(st, Lock(e, d))
    ensures var s' := DoDispatch(st, Lock(e, d)); InOrder(s'.owner, s'.busy, s'.emitted)
  {
  }

  lemma ReadOwnerKept(st: State, e: Exec)
    requires Kept(st) && CanDispatch(st, ReadOwner(e))
    ensures var s' := DoDispatch(st, ReadOwner(e));
      OnlyOwner(s'.timer, s'.owner, s'.busy) && InOrder(s'.owner, s'.busy, s'.emitted)
  {
  }

  lemma ScheduleKept(st: State, e: Exec)
    requires Kept(st) && CanDispatch(st, Schedule(e))
    ensures var s' := DoDispatch(st, Schedule(e)); OnlyOwner(s'.timer, s'.owner, s'.busy)
  {
  }

  /** What was promised before it was scheduled is still promised. */
  lemma SamePromiseInOrder(owner: Exec, busy: map<Exec, Phase>, emitted: seq<Emission>, e: Exec, p: Phase)
    requires InOrder(owner, busy, emitted) && e in busy && Promise(p) == Promise(busy[e])
    ensures InOrder(owner, busy[e := p], emitted) && InOrder(owner, busy - {e}, emitted)
  {
  }

  lemma ScheduleInOrder(st: State, e: Exec)
    requires Kept(st) && CanDispatch(st, Schedule(e))
    ensures var s' := DoDispatch(st, Schedule(e)); InOrder(s'.owner, s'.busy, s'.emitted)
  {
    var s' := DoDispatch(st, Schedule(e));
    SamePromiseInOrder(st.owner, st.busy, st.emitted, e, if e in s'.busy then s'.busy[e] else st.busy[e]);
  }

  lemma DispatchEntries(st: State, step: DispatchStep)
    requires Kept(st) && CanDispatch(st, step)
    ensures var s' := DoDispatch(st, step); OnlyOwnersEntries(s'.timer, s'.owner, s'.entries, s'.taken)
  {
  }

  lemma DispatchKept(st: State, step: DispatchStep)
    requires Kept(st) && CanDispatch(st, step)
    ensures var s' := DoDispatch(st, step);
      OnlyOwner(s'.timer, s'.owner, s'.busy) && InOrder(s'.owner, s'.busy, s'.emitted)
  {
    match step
    case Lock(e, d) => LockKept(st, e, d); LockInOrder(st, e, d);
    case ReadOwner(e) => ReadOwnerKept(st, e);
    case Schedule(e) => ScheduleKept(st, e); ScheduleInOrder(st, e);
    case Emit(e) => EmitKept(st, e);
  }

  lemma EmitKept(st: State, e: Exec)
    requires Kept(st) && CanDispatch(st, Emit(e))
    ensures var s' := DoDispatch(st, Emit(e));
      OnlyOwner(s'.timer, s'.owner, s'.busy) && InOrder(s'.owner, s'.busy, s'.emitted)
  {
  }

  lemma DispatchHolds(st: State, step: DispatchStep)
    requires Kept(st) && CanDispatch(st, step) && DoDispatch(st, step).timer.active
    ensures HasTimeout(DoDispatch(st, step))
  {
    match step
    case Schedule(e) => ScheduleHolds(st, e);
    case _ =>
  }

  lemma ScheduleHolds(st: State, e: Exec)
    requires Kept(st) && CanDispatch(st, Schedule(e)) && st.timer.active
    ensures HasTimeout(DoDispatch(st, Schedule(e)))
  {
  }

  lemma StepKept(st: State, step: Step)
    requires Kept(st) && Enabled(st, step) && Guarded(st, step)
    ensures Kept(Apply(st, step))
  {
    StepSafe(st, step);
    match step
    case Owner(s) =>
      OwnerOnlyOwner(st, s);
      OwnerEntries(st, s);
      OwnerInOrder(st, s);
      if DoOwner(st, s).timer.active { OwnerHolds(st, s); }
    case Fire(s) =>
      FireOnlyOwner(st, s);
      FireEntries(st, s);
      FireInOrder(st, s);
      if st.timer.active { FireHolds(st, s); }
    case Dispatch(s) =>
      DispatchKept(st, s);
      DispatchEntries(st, s);
      if DoDispatch(st, s).timer.active { DispatchHolds(st, s); }
  }

  lemma {:induction false} RunKept(st: State, steps: seq<Step>)
    requires Kept(st) && GuardedRun(st, steps)
    ensures Runs(st, steps) && Kept(After(st, steps))
    decreases |steps|
  {
    if steps != [] {
      StepKept(st, steps[0]);
      RunKept(Apply(st, steps[0]), steps[1..]);
    }
  }

  /** The timer is active, but its owner holds no timeout for it: it will not fire. */
  ghost predicate DeafAfter(st: State, steps: seq<Step>) {
    Runs(st, steps) && After(st, steps).timer.active && !HasTimeout(After(st, steps))
  }

  /**
   In runs whose migrations are guarded, an active timer always has a timeout of its current
   generation with its owner, no other executor keeps an entry for it, and generations are emitted
   in increasing order, each inside the owner.
   */
  lemma GuardedTimerIsExact(st: State, steps: seq<Step>)
    requires Init(st) && GuardedRun(st, steps)
    ensures Runs(st, steps) && !DeafAfter(st, steps)
    ensures var s' := After(st, steps);
      && (forall t :: t in s'.entries ==> s'.entries[t].to == s'.owner)
      && (forall i, j :: 0 <= i < j < |s'.emitted| ==> s'.emitted[i].gen < s'.emitted[j].gen)
      && (forall i :: 0 <= i < |s'.emitted| ==> s'.emitted[i].at == s'.emitted[i].owner)
  {
    RunKept(st, steps);
  }

  /** After `stop`, nothing is emitted until the timer is started again. */
  predicate Silent(st: State) {
    Kept(st) && !st.timer.active && forall e :: e in st.busy ==> Promise(st.busy[e]).None?
  }

  lemma OwnerSilent(st: State, step: OwnerStep)
    requires Silent(st) && CanOwner(st, step) && !step.Start?
    ensures var s' := DoOwner(st, step);
      s'.emitted == st.emitted && !s'.timer.active && forall e :: e in s'.busy ==> Promise(s'.busy[e]).None?
  {
  }

  lemma FireSilent(st: State, step: FireStep)
    requires Silent(st) && CanFire(st, step)
    ensures var s' := DoFire(st, step); forall e :: e in s'.busy ==> Promise(s'.busy[e]).None?
  {
  }

  lemma DispatchSilent(st: State, step: DispatchStep)
    requires Silent(st) && CanDispatch(st, step)
    ensures var s' := DoDispatch(st, step);
      s'.emitted == st.emitted && !s'.timer.active && forall e :: e in s'.busy ==> Promise(s'.busy[e]).None?
  {
  }

  lemma StepSilent(st: State, step: Step)
    requires Silent(st) && Enabled(st, step) && Guarded(st, step) && !(step.Owner? && step.o.Start?)
    ensures Silent(Apply(st, step)) && Apply(st, step).emitted == st.emitted
  {
    StepKept(st, step);
    match step
    case Owner(s) => OwnerSilent(st, s);
    case Fire(s) => FireSilent(st, s);
    case Dispatch(s) => DispatchSilent(st, s);
  }

  predicate WithoutStart(steps: seq<Step>) {
    forall i :: 0 <= i < |steps| ==> !(steps[i].Owner? && steps[i].o.Start?)
  }

  lemma {:induction false} StopSilences(st: State, e: Exec, steps: seq<Step>)
    requires Kept(st) && Enabled(st, Owner(Stop(e))) && WithoutStart(steps)
    requires GuardedRun(Apply(st, Owner(Stop(e))), steps)
    ensures Runs(Apply(st, Owner(Stop(e))), steps)
    ensures After(Apply(st, Owner(Stop(e))), steps).emitted == st.emitted
  {
    StepKept(st, Owner(Stop(e)));
    StaysSilent(Apply(st, Owner(Stop(e))), steps);
  }

  lemma {:induction false} StaysSilent(st: State, steps: seq<Step>)
    requires Silent(st) && GuardedRun(st, steps) && WithoutStart(steps)
    ensures Runs(st, steps) && After(st, steps).emitted == st.emitted
    decreases |steps|
  {
    if steps != [] {
      StepSilent(st, steps[0]);
      StaysSilent(Apply(st, steps[0]), steps[1..]);
    }
  }

  // ------------------------------------------------------------------ exactly which migrations are safe

  /** No guarded continuation makes the timer deaf. */
  ghost predicate StaysArmed(st: State) {
    forall steps :: GuardedRun(st, steps) ==> !DeafAfter(st, steps)
  }

  /**
   A migration keeps the timer armed through every guarded continuation if and only if the executor
   it leaves is not a loop that has already taken the current timeout.
   */
  lemma MigrationSafeExactly(st: State, e: Exec, target: Exec)
    requires Kept(st) && Enabled(st, Owner(Migrate(e, target)))
    ensures StaysArmed(Apply(st, Owner(Migrate(e, target)))) <==> !TookCurrent(st, e)
  {
    var moved := Apply(st, Owner(Migrate(e, target)));
    if !TookCurrent(st, e) {
      StepKept(st, Owner(Migrate(e, target)));
      forall steps | GuardedRun(moved, steps)
        ensures !DeafAfter(moved, steps)
      {
        RunKept(moved, steps);
      }
    } else {
      var steps := TakenTimeoutDeafens(st, e, target);
      assert GuardedRun(moved, steps) && DeafAfter(moved, steps);
    }
  }

  const Idle := State(Core(false, 0, false, 0), Loop(0), 0, map[], map[], multiset{}, {}, map[], [])

  /** Such a migration exists: a loop starts the timer, finds it due, and gives it away before dispatching it. */
  lemma UnsafeMigrationExists()
    ensures Init(Idle)
    ensures var steps := [Owner(Start(Loop(0), 0)), Dispatch(ReadOwner(Loop(0))), Dispatch(Schedule(Loop(0))),
      Fire(TakeDue(LoopTable(0)))];
      GuardedRun(Idle, steps) && Runs(Idle, steps) && TookCurrent(After(Idle, steps), Loop(0))
      && Enabled(After(Idle, steps), Owner(Migrate(Loop(0), Strand(0, 0))))
  {
    var steps := [Owner(Start(Loop(0), 0)), Dispatch(ReadOwner(Loop(0))), Dispatch(Schedule(Loop(0))),
      Fire(TakeDue(LoopTable(0)))];
    var s1 := Apply(Idle, steps[0]);
    var s2 := Apply(s1, steps[1]);
    var s3 := Apply(s2, steps[2]);
    var s4 := Apply(s3, steps[3]);
    assert steps[3..][1..] == [] && steps[2..][1..] == steps[3..] && steps[1..][1..] == steps[2..];
    assert GuardedRun(s4, []) && Runs(s4, []);
    assert GuardedRun(s3, steps[3..]) && After(s3, steps[3..]) == s4;
    assert GuardedRun(s2, steps[2..]) && After(s2, steps[2..]) == s4;
    assert GuardedRun(s1, steps[1..]) && After(s1, steps[1..]) == s4;
  }

  lemma Extend(st: State, step: Step, rest: seq<Step>)
    requires Enabled(st, step) && Guarded(st, step) && GuardedRun(Apply(st, step), rest)
    requires DeafAfter(Apply(st, step), rest)
    ensures GuardedRun(st, [step] + rest) && DeafAfter(st, [step] + rest)
  {
    assert ([step] + rest)[1..] == rest;
  }

  /** The old loop still has to dispatch the current timeout; the new owner `y` has nothing but its entry. */
  predicate Racing(st: State, l: nat, y: Exec) {
    && y.Loop? && y != Loop(l) && st.owner == y && y !in st.busy && TableOf(y) !in st.taken
    && Loop(l) !in st.busy && TookCurrent(st, Loop(l)) && st.timer.active
    && (forall x :: x in st.posted ==> x.to.Strand?)
  }

  /** The old loop dispatches and reads the new owner, then the new owner restarts the timer. */
  function RaceSteps(l: nat, y: Exec): seq<Step> {
    [Owner(SetSingleShot(y, false)), Fire(LoopDispatch(l)), Dispatch(Lock(Loop(l), 0)), Dispatch(ReadOwner(Loop(l))),
     Owner(Start(y, 0)), Dispatch(ReadOwner(y)), Dispatch(Schedule(y)), Dispatch(Schedule(Loop(l)))]
  }

  lemma RaceDeafens(st: State, l: nat, y: Exec)
    requires Racing(st, l, y)
    ensures GuardedRun(st, RaceSteps(l, y)) && DeafAfter(st, RaceSteps(l, y))
  {
    var steps := RaceSteps(l, y);
    var s1 := Apply(st, steps[0]);
    var s2 := Apply(s1, steps[1]);
    var s3 := Apply(s2, steps[2]);
    var s4 := Apply(s3, steps[3]);
    LateScheduleDeafens(s4, l, y, steps[4..]);
    Extend(s3, steps[3], steps[4..]);
    Extend(s2, steps[2], steps[3..]);
    Extend(s1, steps[1], steps[2..]);
    Extend(st, steps[0], steps[1..]);
  }

  /** The old loop has read the new owner; the new owner restarts the timer and is overtaken. */
  predicate Late(st: State, l: nat, y: Exec) {
    && y.Loop? && y != Loop(l) && st.owner == y && TableOf(y) !in st.taken
    && Loop(l) in st.busy && st.busy[Loop(l)].Scheduling? && st.busy[Loop(l)].to == y
    && (forall x :: x in st.posted ==> x.to.Strand?)
  }

  lemma OvertakenIsDeaf(st: State, l: nat, y: Exec)
    requires Late(st, l, y) && y !in st.busy && st.timer.active && st.busy[Loop(l)].gen < st.timer.gen
    ensures GuardedRun(st, [Dispatch(Schedule(Loop(l)))]) && DeafAfter(st, [Dispatch(Schedule(Loop(l)))])
  {
    var s' := Apply(st, Dispatch(Schedule(Loop(l))));
    assert DeafAfter(s', []);
    Extend(st, Dispatch(Schedule(Loop(l))), []);
  }

  lemma LateScheduleDeafens(st: State, l: nat, y: Exec, steps: seq<Step>)
    requires Late(st, l, y) && y !in st.busy && st.busy[Loop(l)].gen <= st.timer.gen
    requires steps == [Owner(Start(y, 0)), Dispatch(ReadOwner(y)), Dispatch(Schedule(y)), Dispatch(Schedule(Loop(l)))]
    ensures GuardedRun(st, steps) && DeafAfter(st, steps)
  {
    var s1 := Apply(st, steps[0]);
    var s2 := Apply(s1, steps[1]);
    var s3 := Apply(s2, steps[2]);
    assert steps[3..] == [Dispatch(Schedule(Loop(l)))];
    OvertakenIsDeaf(s3, l, y);
    Extend(s2, steps[2], steps[3..]);
    Extend(s1, steps[1], steps[2..]);
    Extend(st, steps[0], steps[1..]);
  }

  /** From the new owner on to a loop that knows nothing of the timer yet. */
  lemma OnwardDeafens(moved: State, l: nat, target: Exec) returns (steps: seq<Step>)
    requires Loop(l) !in moved.busy && TookCurrent(moved, Loop(l)) && moved.timer.active && moved.owner == target
    requires target != Loop(l) && target !in moved.busy && !TookCurrent(moved, target)
    requires forall x :: x in moved.posted ==> x.to.Strand?
    ensures GuardedRun(moved, steps) && DeafAfter(moved, steps)
  {
    var y := FreshLoop(moved.busy.Keys + {target}, moved.taken.Keys);
    var again := Owner(Migrate(target, y));
    RaceDeafens(Apply(moved, again), l, y);
    steps := [again] + RaceSteps(l, y);
    Extend(moved, again, RaceSteps(l, y));
  }

  lemma TakenTimeoutDeafens(st: State, e: Exec, target: Exec) returns (steps: seq<Step>)
    requires Kept(st) && Enabled(st, Owner(Migrate(e, target))) && TookCurrent(st, e)
    ensures GuardedRun(Apply(st, Owner(Migrate(e, target))), steps)
    ensures DeafAfter(Apply(st, Owner(Migrate(e, target))), steps)
  {
    var moved := Apply(st, Owner(Migrate(e, target)));
    if target in st.busy {
      var lock := Dispatch(Lock(target, 0));
      var onward := OnwardDeafens(Apply(moved, lock), e.id, target);
      steps := [lock] + onward;
      Extend(moved, lock, onward);
    } else {
      steps := OnwardDeafens(moved, e.id, target);
    }
  }

  lemma FreshLoop(execs: set<Exec>, tables: set<Table>) returns (y: Exec)
    ensures y.Loop? && y !in execs && TableOf(y) !in tables
  {
    var used := (set e | e in execs && e.Loop? :: e.id) + (set t | t in tables && t.LoopTable? :: t.id);
    var k := FreshNat(used);
    y := Loop(k);
    assert y in execs ==> y.id in used;
    assert LoopTable(k) in tables ==> k in used;
  }

  lemma {:induction false} FreshNat(used: set<nat>) returns (k: nat)
    ensures forall u :: u in used ==> u < k
  {
    if used == {} { k := 0; }
    else {
      var u :| u in used;
      var k' := FreshNat(used - {u});
      k := if u < k' then k' else u + 1;
      assert used == (used - {u}) + {u};
    }
  }
}
