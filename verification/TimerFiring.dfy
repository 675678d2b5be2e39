/**
 A timeout that the timer accepts is emitted: by the executor that took it, once, whatever the others
 do meanwhile. A periodic timer goes on, a single-shot timer is done.
 */
module TimerFiring {
  import opened Options
  import opened Timers
  import opened TimerProtocol
  import opened TimerTheorems

  /** A timeout of generation `g` is in dispatchTimeout at a timer that runs in generation `g`. */
  predicate Fits(st: State, e: Exec, g: nat) {
    e in st.busy && st.busy[e] == Firing(g) && st.timer.active && st.timer.gen == g
  }

  /** The executor has accepted generation `g` and has this many steps to go until it emits it. */
  predicate Owes(busy: map<Exec, Phase>, e: Exec, g: nat, left: nat) {
    e in busy && match busy[e]
      case Arming(_, _, shot) => shot.Some? && shot.value.gen == g && left == 3
      case Scheduling(_, _, _, shot) => shot.Some? && shot.value.gen == g && left == 2
      case Emitting(shot) => shot.gen == g && left == 1
      case _ => false
  }

  /** Generation `g` was emitted by executor `e`, after the first `from` emissions. */
  ghost predicate EmittedBy(emitted: seq<Emission>, from: nat, e: Exec, g: nat) {
    exists i :: from <= i < |emitted| && emitted[i].gen == g && emitted[i].at == e
  }

  /** Steps of executor `e` inside dispatchTimeout. */
  function StepsOf(steps: seq<Step>, e: Exec): nat {
    if steps == [] then 0
    else (if steps[0].Dispatch? && steps[0].d.e == e then 1 else 0) + StepsOf(steps[1..], e)
  }

  lemma OthersLeaveIt(st: State, step: Step, e: Exec, g: nat, left: nat)
    requires Owes(st.busy, e, g, left) && Enabled(st, step) && !(step.Dispatch? && step.d.e == e)
    ensures Owes(Apply(st, step).busy, e, g, left)
  {
    match step
    case Owner(o) => assert e in DoOwner(st, o).busy && DoOwner(st, o).busy[e] == st.busy[e];
    case Fire(f) => assert e in DoFire(st, f).busy && DoFire(st, f).busy[e] == st.busy[e];
    case Dispatch(d) => assert e in DoDispatch(st, d).busy && DoDispatch(st, d).busy[e] == st.busy[e];
  }

  lemma OneStepLess(st: State, d: DispatchStep, g: nat, left: nat)
    requires Owes(st.busy, d.e, g, left) && CanDispatch(st, d)
    ensures var s' := DoDispatch(st, d);
      st.emitted <= s'.emitted
      && if left == 1 then EmittedBy(s'.emitted, |st.emitted|, d.e, g) else Owes(s'.busy, d.e, g, left - 1)
  {
    var s' := DoDispatch(st, d);
    if left == 1 {
      assert s'.emitted[|st.emitted|].gen == g;
    }
  }

  lemma EmissionsStay(st: State, step: Step)
    requires Enabled(st, step)
    ensures st.emitted <= Apply(st, step).emitted
  {
  }

  lemma {:induction false} StaysEmitted(st: State, steps: seq<Step>, from: nat, e: Exec, g: nat)
    requires EmittedBy(st.emitted, from, e, g) && Runs(st, steps)
    ensures EmittedBy(After(st, steps).emitted, from, e, g)
    decreases |steps|
  {
    if steps != [] {
      EmissionsStay(st, steps[0]);
      var i :| from <= i < |st.emitted| && st.emitted[i].gen == g && st.emitted[i].at == e;
      assert Apply(st, steps[0]).emitted[i] == st.emitted[i];
      StaysEmitted(Apply(st, steps[0]), steps[1..], from, e, g);
    }
  }

  lemma {:induction false} OwedIsEmitted(st: State, steps: seq<Step>, from: nat, e: Exec, g: nat, left: nat)
    requires Owes(st.busy, e, g, left) && from <= |st.emitted| && Runs(st, steps)
    ensures if StepsOf(steps, e) >= left then EmittedBy(After(st, steps).emitted, from, e, g)
            else Owes(After(st, steps).busy, e, g, left - StepsOf(steps, e))
    decreases |steps|
  {
    if steps != [] {
      var step, rest, s' := steps[0], steps[1..], Apply(st, steps[0]);
      if step.Dispatch? && step.d.e == e {
        OneStepLess(st, step.d, g, left);
        if left == 1 {
          assert EmittedBy(s'.emitted, from, e, g);
          StaysEmitted(s', rest, from, e, g);
        } else {
          OwedIsEmitted(s', rest, from, e, g, left - 1);
        }
      } else {
        OthersLeaveIt(st, step, e, g, left);
        EmissionsStay(st, step);
        OwedIsEmitted(s', rest, from, e, g, left);
      }
    }
  }

  /** How many steps dispatchTimeout has after its locked part: a periodic timer is scheduled before it is emitted. */
  function StepsToGo(singleShot: bool): nat { if singleShot then 1 else 3 }

  lemma LockOwes(st: State, e: Exec, g: nat, d: int)
    requires Fits(st, e, g)
    ensures Enabled(st, Dispatch(Lock(e, d)))
    ensures var s' := Apply(st, Dispatch(Lock(e, d)));
      Owes(s'.busy, e, g, StepsToGo(st.timer.singleShot)) && s'.emitted == st.emitted
  {
  }

  /**
   From any state and through any interleaving: once an active timer has accepted a timeout of its
   generation, the executor emits that generation with its next step, or its third if the timer is
   periodic; until then nothing takes the promise away.
   */
  lemma AcceptedIsEmitted(st: State, e: Exec, g: nat, d: int, steps: seq<Step>)
    requires Fits(st, e, g) && Enabled(st, Dispatch(Lock(e, d))) && Runs(Apply(st, Dispatch(Lock(e, d))), steps)
    ensures var last, left := After(Apply(st, Dispatch(Lock(e, d))), steps), if st.timer.singleShot then 1 else 3;
      if StepsOf(steps, e) >= left then EmittedBy(last.emitted, |st.emitted|, e, g)
      else Owes(last.busy, e, g, left - StepsOf(steps, e))
  {
    LockOwes(st, e, g, d);
    OwedIsEmitted(Apply(st, Dispatch(Lock(e, d))), steps, |st.emitted|, e, g, StepsToGo(st.timer.singleShot));
  }

  // ------------------------------------------------------------------ periodic and single-shot

  predicate WithoutStop(steps: seq<Step>) {
    forall i :: 0 <= i < |steps| ==> !(steps[i].Owner? && (steps[i].o.Stop? || steps[i].o.SetSingleShot?))
  }

  lemma StaysActive(st: State, step: Step)
    requires st.timer.active && !st.timer.singleShot && Enabled(st, step)
    requires !(step.Owner? && (step.o.Stop? || step.o.SetSingleShot?))
    ensures Apply(st, step).timer.active && !Apply(st, step).timer.singleShot
  {
  }

  lemma {:induction false} StaysActiveLong(st: State, steps: seq<Step>)
    requires st.timer.active && !st.timer.singleShot && Runs(st, steps) && WithoutStop(steps)
    ensures After(st, steps).timer.active
    decreases |steps|
  {
    if steps != [] {
      StaysActive(st, steps[0]);
      StaysActiveLong(Apply(st, steps[0]), steps[1..]);
    }
  }

  /** Until it is stopped, a periodic timer always has its next timeout with its owner, however often it fires. */
  lemma PeriodicGoesOn(st: State, steps: seq<Step>)
    requires Kept(st) && st.timer.active && !st.timer.singleShot && GuardedRun(st, steps) && WithoutStop(steps)
    ensures Runs(st, steps) && After(st, steps).timer.active && HasTimeout(After(st, steps))
  {
    RunKept(st, steps);
    StaysActiveLong(st, steps);
  }

  predicate OnlyPromise(busy: map<Exec, Phase>, e: Exec) {
    forall f :: f in busy && f != e ==> Promise(busy[f]).None?
  }

  /** The timer is inactive and nobody but `e` has anything to emit, and that is generation `g`. */
  predicate LastShot(st: State, e: Exec, g: nat) {
    Kept(st) && !st.timer.active && Owes(st.busy, e, g, 1) && OnlyPromise(st.busy, e)
  }

  lemma LockLastShot(st: State, e: Exec, g: nat, d: int)
    requires Kept(st) && Fits(st, e, g) && st.timer.singleShot
    ensures Enabled(st, Dispatch(Lock(e, d))) && LastShot(Apply(st, Dispatch(Lock(e, d))), e, g)
  {
    StepKept(st, Dispatch(Lock(e, d)));
  }

  /** The owner is about to emit: it does nothing else meanwhile. */
  lemma OwnerIsBusy(st: State, step: OwnerStep, e: Exec, g: nat)
    requires LastShot(st, e, g)
    ensures !CanOwner(st, step)
  {
  }

  lemma LastShotFire(st: State, step: FireStep, e: Exec, g: nat)
    requires LastShot(st, e, g) && CanFire(st, step)
    ensures OnlyPromise(DoFire(st, step).busy, e)
  {
  }

  lemma LastShotDispatch(st: State, step: DispatchStep, e: Exec, g: nat)
    requires LastShot(st, e, g) && CanDispatch(st, step) && step.e != e
    ensures var s' := DoDispatch(st, step);
      !s'.timer.active && OnlyPromise(s'.busy, e) && s'.emitted == st.emitted
  {
  }

  lemma LastShotEmits(st: State, step: DispatchStep, e: Exec, g: nat)
    requires LastShot(st, e, g) && CanDispatch(st, step) && step.e == e
    ensures var s' := DoDispatch(st, step);
      Silent(s') && AtMostThisOne(st.emitted, s'.emitted, g)
  {
    StepKept(st, Dispatch(step));
  }

  lemma LastShotStays(st: State, step: Step, e: Exec, g: nat)
    requires LastShot(st, e, g) && Enabled(st, step) && Guarded(st, step) && !(step.Dispatch? && step.d.e == e)
    ensures LastShot(Apply(st, step), e, g) && Apply(st, step).emitted == st.emitted
  {
    StepKept(st, step);
    OthersLeaveIt(st, step, e, g, 1);
    match step
    case Owner(o) => OwnerIsBusy(st, o, e, g);
    case Fire(f) => LastShotFire(st, f, e, g);
    case Dispatch(d) => LastShotDispatch(st, d, e, g);
  }

  /** Nothing was emitted, or generation `g` alone. */
  predicate AtMostThisOne(before: seq<Emission>, after: seq<Emission>, g: nat) {
    after == before || (|after| == |before| + 1 && before <= after && after[|before|].gen == g)
  }

  lemma {:induction false} LastShotIsLast(st: State, steps: seq<Step>, e: Exec, g: nat)
    requires LastShot(st, e, g) && GuardedRun(st, steps) && WithoutStart(steps)
    ensures Runs(st, steps) && AtMostThisOne(st.emitted, After(st, steps).emitted, g)
    decreases |steps|
  {
    if steps != [] {
      var step, s' := steps[0], Apply(st, steps[0]);
      if step.Dispatch? && step.d.e == e {
        LastShotEmits(st, step.d, e, g);
        StaysSilent(s', steps[1..]);
      } else {
        LastShotStays(st, step, e, g);
        LastShotIsLast(s', steps[1..], e, g);
      }
    }
  }

  /** A single-shot timer that has accepted its timeout emits that generation and no other until it is started again. */
  lemma SingleShotFiresOnce(st: State, e: Exec, g: nat, d: int, steps: seq<Step>)
    requires Kept(st) && Fits(st, e, g) && st.timer.singleShot && WithoutStart(steps)
    requires Enabled(st, Dispatch(Lock(e, d))) && GuardedRun(Apply(st, Dispatch(Lock(e, d))), steps)
    ensures var after := Apply(st, Dispatch(Lock(e, d)));
      Runs(after, steps) && AtMostThisOne(st.emitted, After(after, steps).emitted, g)
      && (StepsOf(steps, e) >= 1 ==> |After(after, steps).emitted| == |st.emitted| + 1)
  {
    LockLastShot(st, e, g, d);
    LastShotIsLast(Apply(st, Dispatch(Lock(e, d))), steps, e, g);
    if StepsOf(steps, e) >= 1 {
      AcceptedIsEmitted(st, e, g, d, steps);
    }
  }

  // ------------------------------------------------------------------ an active timer can always fire

  /** Steps that bring the current generation into the owner's dispatchTimeout. */
  ghost predicate LeadsToDispatch(st: State, steps: seq<Step>) {
    Runs(st, steps) && Fits(After(st, steps), st.owner, st.timer.gen)
  }

  lemma OneMore(st: State, step: Step, rest: seq<Step>)
    requires Enabled(st, step) && LeadsToDispatch(Apply(st, step), rest)
    requires Apply(st, step).owner == st.owner && Apply(st, step).timer.gen == st.timer.gen
    ensures LeadsToDispatch(st, [step] + rest)
  {
    assert ([step] + rest)[1..] == rest;
  }

  /** The timeout of the current generation. */
  function Want(st: State): Entry { Entry(st.owner, st.timer.gen, st.timer.deadline) }

  /** The timer is active and its owner is outside its member functions. */
  predicate Resting(st: State) { st.timer.active && st.owner !in st.busy }

  lemma PostedLeads(st: State) returns (steps: seq<Step>)
    requires Resting(st) && Want(st) in st.posted
    ensures LeadsToDispatch(st, steps)
  {
    steps := [Fire(StrandDispatch(Want(st)))];
    assert LeadsToDispatch(Apply(st, steps[0]), []);
    OneMore(st, steps[0], []);
  }

  lemma TakenLeads(st: State) returns (steps: seq<Step>)
    requires Resting(st) && TableOf(st.owner) in st.taken && st.taken[TableOf(st.owner)] == Want(st)
    ensures LeadsToDispatch(st, steps)
  {
    match st.owner
    case Loop(l) =>
      steps := [Fire(LoopDispatch(l))];
      assert LeadsToDispatch(Apply(st, steps[0]), []);
      OneMore(st, steps[0], []);
    case Strand(_, pool) =>
      var rest := PostedLeads(Apply(st, Fire(PostDue(pool))));
      steps := [Fire(PostDue(pool))] + rest;
      OneMore(st, Fire(PostDue(pool)), rest);
  }

  predicate Waiting(st: State) {
    Resting(st) && TableOf(st.owner) in st.entries && st.entries[TableOf(st.owner)] == Want(st)
  }

  lemma EntryLeads(st: State) returns (steps: seq<Step>)
    requires Waiting(st) && TableOf(st.owner) !in st.taken
    ensures LeadsToDispatch(st, steps)
  {
    var tick := Fire(Tick(if st.now < st.timer.deadline then st.timer.deadline else st.now));
    var take := Fire(TakeDue(TableOf(st.owner)));
    var ticked := Apply(st, tick);
    var rest := TakenLeads(Apply(ticked, take));
    OneMore(ticked, take, rest);
    OneMore(st, tick, [take] + rest);
    steps := [tick] + ([take] + rest);
  }

  /** An old timeout that was taken before is dispatched first, and dropped. */
  lemma OldTakenLeads(st: State) returns (steps: seq<Step>)
    requires Waiting(st) && TableOf(st.owner) in st.taken
    ensures LeadsToDispatch(st, steps)
  {
    match st.owner
    case Strand(_, pool) =>
      var rest := EntryLeads(Apply(st, Fire(PostDue(pool))));
      steps := [Fire(PostDue(pool))] + rest;
      OneMore(st, Fire(PostDue(pool)), rest);
    case Loop(l) =>
      var dispatch, lock := Fire(LoopDispatch(l)), Dispatch(Lock(Loop(l), 0));
      var s1 := Apply(st, dispatch);
      if st.taken[LoopTable(l)].gen == st.timer.gen {
        steps := [dispatch];
        assert LeadsToDispatch(s1, []);
        OneMore(st, dispatch, []);
      } else {
        var rest := EntryLeads(Apply(s1, lock));
        OneMore(s1, lock, rest);
        OneMore(st, dispatch, [lock] + rest);
        steps := [dispatch] + ([lock] + rest);
      }
  }

  /**
   In a guarded run an active timer can always fire, whatever happened before: from the moment its owner is
   outside the timer's functions, with its pool's deadline thread running, some steps bring the current
   generation to dispatchTimeout; accepted there, it is emitted (`AcceptedIsEmitted`).
   */
  lemma ActiveTimerCanFire(start: State, run: seq<Step>) returns (steps: seq<Step>)
    requires Init(start) && GuardedRun(start, run) && Runs(start, run)
    requires var st := After(start, run); Resting(st) && (st.owner.Strand? ==> st.owner.pool !in st.stopped)
    ensures LeadsToDispatch(After(start, run), steps)
  {
    RunKept(start, run);
    var st := After(start, run);
    if Want(st) in st.posted {
      steps := PostedLeads(st);
    } else if TableOf(st.owner) in st.taken && st.taken[TableOf(st.owner)] == Want(st) {
      steps := TakenLeads(st);
    } else if TableOf(st.owner) in st.taken {
      steps := OldTakenLeads(st);
    } else {
      steps := EntryLeads(st);
    }
  }

  // ------------------------------------------------------------------ stop leaves no entry behind

  /** Inactive, and nothing is armed unless the owner is about to cancel it. */
  predicate Disarmed(st: State) {
    Silent(st) && (st.entries == map[] || (st.owner in st.busy && st.busy[st.owner].Cancelling?))
  }

  lemma OnlyOwnerArmed(st: State)
    requires Kept(st)
    ensures st.entries.Keys <= {TableOf(st.owner)}
  {
    forall t | t in st.entries ensures t == TableOf(st.owner) {
      assert TableOf(st.entries[t].to) == t && st.entries[t].to == st.owner;
    }
  }

  lemma OwnerDisarmed(st: State, step: OwnerStep)
    requires Disarmed(st) && CanOwner(st, step) && !step.Start?
    ensures var s' := DoOwner(st, step);
      s'.entries == map[] || (s'.owner in s'.busy && s'.busy[s'.owner].Cancelling?)
  {
    OnlyOwnerArmed(st);
    match step
    case CancelEntry(e) => assert (st.entries - {TableOf(st.owner)}).Keys == {};
    case _ =>
  }

  lemma FireDisarmed(st: State, step: FireStep)
    requires Disarmed(st) && CanFire(st, step)
    ensures var s' := DoFire(st, step);
      s'.entries == map[] || (s'.owner in s'.busy && s'.busy[s'.owner].Cancelling?)
  {
  }

  lemma DispatchDisarmed(st: State, step: DispatchStep)
    requires Disarmed(st) && CanDispatch(st, step)
    ensures var s' := DoDispatch(st, step);
      s'.entries == map[] || (s'.owner in s'.busy && s'.busy[s'.owner].Cancelling?)
  {
  }

  lemma StepDisarmed(st: State, step: Step)
    requires Disarmed(st) && Enabled(st, step) && Guarded(st, step) && !(step.Owner? && step.o.Start?)
    ensures Disarmed(Apply(st, step))
  {
    StepSilent(st, step);
    match step
    case Owner(o) => OwnerDisarmed(st, o);
    case Fire(f) => FireDisarmed(st, f);
    case Dispatch(d) => DispatchDisarmed(st, d);
  }

  lemma {:induction false} StaysDisarmed(st: State, steps: seq<Step>)
    requires Disarmed(st) && GuardedRun(st, steps) && WithoutStart(steps)
    ensures Runs(st, steps) && Disarmed(After(st, steps))
    decreases |steps|
  {
    if steps != [] {
      StepDisarmed(st, steps[0]);
      StaysDisarmed(Apply(st, steps[0]), steps[1..]);
    }
  }

  lemma StopIsDisarmed(st: State, e: Exec)
    requires Kept(st) && Enabled(st, Owner(Stop(e)))
    ensures Disarmed(Apply(st, Owner(Stop(e))))
  {
    StepKept(st, Owner(Stop(e)));
  }

  /** Once a stop has returned, no table holds an entry for the timer, until it is started again. */
  lemma StopDisarms(st: State, e: Exec, steps: seq<Step>)
    requires Kept(st) && Enabled(st, Owner(Stop(e))) && WithoutStart(steps)
    requires GuardedRun(Apply(st, Owner(Stop(e))), steps)
    ensures Runs(Apply(st, Owner(Stop(e))), steps)
    ensures var last := After(Apply(st, Owner(Stop(e))), steps);
      !last.timer.active && (last.entries == map[] || (last.owner in last.busy && last.busy[last.owner].Cancelling?))
  {
    StopIsDisarmed(st, e);
    StaysDisarmed(Apply(st, Owner(Stop(e))), steps);
  }

  // ------------------------------------------------------------------ a restart counts from now

  /** A shot of generation `g` is for deadline `d`, and there are no older ones. */
  predicate NewShot(shot: Shot, g: nat, d: int) { shot.gen >= g && (shot.gen == g ==> shot.deadline == d) }

  /** The timer was restarted as generation `g` with deadline `d`, when `from` emissions had been made. */
  predicate Restarted(st: State, g: nat, d: int, from: nat) {
    && st.timer.gen >= g && (st.timer.gen == g && st.timer.active ==> st.timer.deadline == d)
    && (forall e :: e in st.busy && Promise(st.busy[e]).Some? ==> NewShot(Promise(st.busy[e]).value, g, d))
    && NewEmissions(st.emitted, from, g, d)
  }

  predicate NewEmissions(emitted: seq<Emission>, from: nat, g: nat, d: int) {
    from <= |emitted| && forall i :: from <= i < |emitted| ==> NewShot(Shot(emitted[i].gen, emitted[i].deadline), g, d)
  }

  lemma OwnerRestarted(st: State, step: OwnerStep, g: nat, d: int, from: nat)
    requires Restarted(st, g, d, from) && CanOwner(st, step)
    ensures Restarted(DoOwner(st, step), g, d, from)
  {
  }

  lemma FireRestarted(st: State, step: FireStep, g: nat, d: int, from: nat)
    requires Restarted(st, g, d, from) && CanFire(st, step)
    ensures Restarted(DoFire(st, step), g, d, from)
  {
  }

  lemma DispatchRestarted(st: State, step: DispatchStep, g: nat, d: int, from: nat)
    requires Restarted(st, g, d, from) && CanDispatch(st, step)
    ensures Restarted(DoDispatch(st, step), g, d, from)
  {
  }

  lemma {:induction false} StaysRestarted(st: State, steps: seq<Step>, g: nat, d: int, from: nat)
    requires Restarted(st, g, d, from) && Runs(st, steps)
    ensures Restarted(After(st, steps), g, d, from)
    decreases |steps|
  {
    if steps != [] {
      match steps[0] {
        case Owner(o) => OwnerRestarted(st, o, g, d, from);
        case Fire(f) => FireRestarted(st, f, g, d, from);
        case Dispatch(x) => DispatchRestarted(st, x, g, d, from);
      }
      StaysRestarted(Apply(st, steps[0]), steps[1..], g, d, from);
    }
  }

  /** `start`, and `setInterval` of a running timer. */
  predicate Restarts(st: State, step: OwnerStep, d: int) {
    CanOwner(st, step) && ((step.Start? && step.d == d) || (step.SetInterval? && step.d == d && st.timer.active))
  }

  /**
   From a restart on, over every run: no older generation is emitted any more, and the new one only
   for the new deadline, hence not before it.
   */
  lemma RestartVoidsOld(st: State, step: OwnerStep, d: int, steps: seq<Step>)
    requires Kept(st) && Restarts(st, step, d) && Runs(Apply(st, Owner(step)), steps)
    ensures Apply(st, Owner(step)).timer.active
    ensures NewEmissions(After(Apply(st, Owner(step)), steps).emitted, |st.emitted|, st.timer.gen + 1, d)
  {
    RestartBegins(st, step, d);
    StaysRestarted(Apply(st, Owner(step)), steps, st.timer.gen + 1, d, |st.emitted|);
  }

  lemma RestartBegins(st: State, step: OwnerStep, d: int)
    requires Kept(st) && Restarts(st, step, d)
    ensures Apply(st, Owner(step)).timer.active
    ensures Restarted(Apply(st, Owner(step)), st.timer.gen + 1, d, |st.emitted|)
  {
  }

  /** An executor inside a function of the timer can always take its next step. */
  lemma ExecutorsGoOn(st: State, e: Exec, d: int)
    requires e in st.busy
    ensures match st.busy[e]
      case Firing(_) => Enabled(st, Dispatch(Lock(e, d)))
      case Arming(_, _, _) => Enabled(st, Dispatch(ReadOwner(e)))
      case Scheduling(_, _, _, _) => Enabled(st, Dispatch(Schedule(e)))
      case Emitting(_) => Enabled(st, Dispatch(Emit(e)))
      case Cancelling => Enabled(st, Owner(CancelEntry(e)))
  {
  }
}
