/**
 One timer, the executors that may own it, the deadline threads of their pools and the timeouts
 under way, interleaved at every critical section. An entry for the timer sits in the table of an
 EventLoop or of a pool's deadline thread; each table holds at most one entry per timer.
 A migration (`applyMoveTo` with both hooks) is one step.
 */
module TimerProtocol {
  import opened Options
  import opened Timers

  datatype Exec = Loop(id: nat) | Strand(id: nat, pool: nat)

  datatype Table = LoopTable(id: nat) | ServiceTable(pool: nat)

  function TableOf(e: Exec): Table {
    match e
    case Loop(id) => LoopTable(id)
    case Strand(_, pool) => ServiceTable(pool)
  }

  /** A timeout of generation `gen`, for the executor it was scheduled on. */
  datatype Entry = Entry(to: Exec, gen: nat, deadline: int)

  /** A generation that is going to be emitted. */
  datatype Shot = Shot(gen: nat, deadline: int)

  /** Where an executor is inside a member function of the timer; absent means outside. */
  datatype Phase =
    | Firing(gen: nat)                                                          // enters dispatchTimeout
    | Arming(gen: nat, deadline: int, shot: Option<Shot>)                       // m_mutex released
    | Scheduling(gen: nat, deadline: int, to: Exec, shot: Option<Shot>)         // owner read
    | Cancelling
    | Emitting(what: Shot)

  /** History: what was emitted, in which executor, and the owner and clock at that moment. */
  datatype Emission = Emission(gen: nat, at: Exec, owner: Exec, deadline: int, time: int)

  datatype State = State(
    timer: Core,
    owner: Exec,
    now: int,
    entries: map<Table, Entry>,       // EventLoop::m_timers, TimerService::m_queue
    taken: map<Table, Entry>,         // the due list of the loop or of the deadline thread
    posted: multiset<Entry>,          // closures in the strands' queues
    stopped: set<nat>,                // pools whose TimerService has stopped
    busy: map<Exec, Phase>,
    emitted: seq<Emission>)
  {
    function At(e: Exec, p: Phase): State { this.(busy := busy[e := p]) }

    function Left(e: Exec): State { this.(busy := busy - {e}) }

    /** `Executor::scheduleTimer`: replaces the timer's entry; a stopped service ignores it. */
    function Put(to: Exec, g: nat, d: int): State {
      if to.Strand? && to.pool in stopped then this
      else this.(entries := entries[TableOf(to) := Entry(to, g, d)])
    }

    /** `Executor::cancelTimer`. */
    function Cancel(e: Exec): State { this.(entries := entries - {TableOf(e)}) }
  }

  /** Calls inside the owner: a call made elsewhere posts itself to the owner first. */
  datatype OwnerStep =
    | Start(e: Exec, d: int)
    | SetInterval(e: Exec, d: int)
    | Stop(e: Exec)
    | CancelEntry(e: Exec)
    | SetSingleShot(e: Exec, on: bool)
    | Migrate(e: Exec, target: Exec)

  datatype FireStep =
    | Tick(time: int)
    | TakeDue(t: Table)                       // takeDueTimers, or one pass of TimerService::run
    | PostDue(pool: nat)                      // strand->post(...)
    | StopService(pool: nat)
    | LoopDispatch(l: nat)                    // the loop calls dispatchTimeout: no owner check
    | StrandDispatch(x: Entry)                // the closure reads the owner

  datatype DispatchStep =
    | Lock(e: Exec, d: int)                   // the locked part of dispatchTimeout; d is the next deadline
    | ReadOwner(e: Exec)
    | Schedule(e: Exec)
    | Emit(e: Exec)

  datatype Step = Owner(o: OwnerStep) | Fire(f: FireStep) | Dispatch(d: DispatchStep)

  predicate CanOwner(st: State, step: OwnerStep) {
    match step
    case CancelEntry(e) => e in st.busy && st.busy[e].Cancelling?
    case Migrate(e, target) => st.owner == e && e !in st.busy && target != e
    case _ => st.owner == step.e && step.e !in st.busy
  }

  function DoOwner(st: State, step: OwnerStep): State
    requires CanOwner(st, step)
  {
    match step
    case Start(e, d) => st.(timer := st.timer.Restarted(d)).At(e, Arming(st.timer.gen + 1, d, None))
    case SetInterval(e, d) => if st.timer.active then st.(timer := st.timer.Restarted(d)).At(e,
      Arming(st.timer.gen + 1, d, None)) else st
    case Stop(e) => st.(timer := st.timer.Stopped()).At(e, Cancelling)
    case CancelEntry(e) => st.Cancel(st.owner).Left(e)
    case SetSingleShot(_, on) => st.(timer := st.timer.(singleShot := on))
    case Migrate(e, target) =>
      var moved := st.Cancel(e).(owner := target);
      if st.timer.active then moved.Put(target, st.timer.gen, st.timer.deadline) else moved
  }

  predicate CanFire(st: State, step: FireStep) {
    match step
    case Tick(time) => st.now <= time
    case TakeDue(t) => t in st.entries && st.entries[t].deadline <= st.now && t !in st.taken
                       && (t.LoopTable? ==> Loop(t.id) !in st.busy)
    case PostDue(pool) => ServiceTable(pool) in st.taken
    case StopService(_) => true
    case LoopDispatch(l) => LoopTable(l) in st.taken && Loop(l) !in st.busy
    case StrandDispatch(x) => x in st.posted && x.to !in st.busy
  }

  function DoFire(st: State, step: FireStep): State
    requires CanFire(st, step)
  {
    match step
    case Tick(time) => st.(now := time)
    case TakeDue(t) => st.(entries := st.entries - {t}, taken := st.taken[t := st.entries[t]])
    case PostDue(pool) =>
      var t := ServiceTable(pool);
      st.(taken := st.taken - {t}, posted := st.posted + multiset{st.taken[t]})
    case StopService(pool) => st.(stopped := st.stopped + {pool}, entries := st.entries - {ServiceTable(pool)})
    case LoopDispatch(l) =>
      var t := LoopTable(l);
      st.(taken := st.taken - {t}).At(Loop(l), Firing(st.taken[t].gen))
    case StrandDispatch(x) =>
      var rest := st.(posted := st.posted - multiset{x});
      if st.owner == x.to then rest.At(x.to, Firing(x.gen)) else rest
  }

  predicate CanDispatch(st: State, step: DispatchStep) {
    && step.e in st.busy
    && match step
       case Lock(e, _) => st.busy[e].Firing?
       case ReadOwner(e) => st.busy[e].Arming?
       case Schedule(e) => st.busy[e].Scheduling?
       case Emit(e) => st.busy[e].Emitting?
  }

  function DoDispatch(st: State, step: DispatchStep): State
    requires CanDispatch(st, step)
  {
    match step
    case Lock(e, d) =>
      var g := st.busy[e].gen;
      if !st.timer.Accepts(g) then st.Left(e)
      else
        var shot := Shot(g, st.timer.deadline);
        st.(timer := st.timer.Fired(d)).At(e, if st.timer.singleShot then Emitting(shot)
          else Arming(g + 1, d, Some(shot)))
    case ReadOwner(e) =>
      var p := st.busy[e];
      st.At(e, Scheduling(p.gen, p.deadline, st.owner, p.shot))
    case Schedule(e) =>
      var p := st.busy[e];
      var put := st.Put(p.to, p.gen, p.deadline);
      (match p.shot case None => put.Left(e) case Some(shot) => put.At(e, Emitting(shot)))
    case Emit(e) =>
      var shot := st.busy[e].what;
      st.Left(e).(emitted := st.emitted + [Emission(shot.gen, e, st.owner, shot.deadline, st.now)])
  }

  predicate Enabled(st: State, step: Step) {
    match step
    case Owner(s) => CanOwner(st, s)
    case Fire(s) => CanFire(st, s)
    case Dispatch(s) => CanDispatch(st, s)
  }

  function Apply(st: State, step: Step): State
    requires Enabled(st, step)
  {
    match step
    case Owner(s) => DoOwner(st, s)
    case Fire(s) => DoFire(st, s)
    case Dispatch(s) => DoDispatch(st, s)
  }

  predicate Runs(st: State, steps: seq<Step>)
    decreases |steps|
  {
    steps == [] || (Enabled(st, steps[0]) && Runs(Apply(st, steps[0]), steps[1..]))
  }

  function After(st: State, steps: seq<Step>): State
    requires Runs(st, steps)
    decreases |steps|
  {
    if steps == [] then st else After(Apply(st, steps[0]), steps[1..])
  }

  predicate Init(st: State) {
    && !st.timer.active && st.entries == map[] && st.taken == map[] && st.posted == multiset{} && st.busy == map[]
    && st.emitted == []
  }

  // ------------------------------------------------------------------ what every run keeps

  /** The shot that executor `e` has decided on and not emitted yet. */
  function Promise(p: Phase): Option<Shot> {
    match p
    case Arming(_, _, shot) => shot
    case Scheduling(_, _, _, shot) => shot
    case Emitting(shot) => Some(shot)
    case _ => None
  }

  predicate EntriesOk(timer: Core, entries: map<Table, Entry>) {
    forall t :: t in entries ==> timer.Current(entries[t].gen, entries[t].deadline) && TableOf(entries[t].to) == t
  }

  predicate TakenOk(timer: Core, taken: map<Table, Entry>, now: int) {
    forall t :: t in taken ==>
      timer.Current(taken[t].gen, taken[t].deadline) && TableOf(taken[t].to) == t && taken[t].deadline <= now
  }

  predicate PostedOk(timer: Core, posted: multiset<Entry>, now: int) {
    forall x :: x in posted ==> timer.Current(x.gen, x.deadline) && x.to.Strand? && x.deadline <= now
  }

  predicate PhaseOk(timer: Core, p: Phase, now: int) {
    match p
    case Firing(g) => g <= timer.gen && (g == timer.gen ==> timer.active && timer.deadline <= now)
    case Arming(g, d, _) => timer.Current(g, d)
    case Scheduling(g, d, _, _) => timer.Current(g, d)
    case Cancelling => true
    case Emitting(_) => true
  }

  predicate PhasesOk(timer: Core, busy: map<Exec, Phase>, now: int) {
    forall e :: e in busy ==>
      && PhaseOk(timer, busy[e], now)
      && (Promise(busy[e]).Some? ==> Promise(busy[e]).value.gen < timer.gen && Promise(busy[e]).value.deadline <= now)
  }

  /** A strand touches the timer only while it owns it. */
  predicate InsideOk(owner: Exec, busy: map<Exec, Phase>) {
    forall e :: e in busy && e != owner ==> e.Loop? && !busy[e].Cancelling?
  }

  /** No generation is promised twice, or promised and emitted. */
  predicate OnceOk(busy: map<Exec, Phase>, emitted: seq<Emission>) {
    && (forall e, f :: e in busy && f in busy && e != f && Promise(busy[e]).Some? && Promise(busy[f]).Some? ==>
          Promise(busy[e]).value.gen != Promise(busy[f]).value.gen)
    && (forall e, i :: e in busy && Promise(busy[e]).Some? && 0 <= i < |emitted| ==>
          emitted[i].gen != Promise(busy[e]).value.gen)
    && (forall i, j :: 0 <= i < j < |emitted| ==> emitted[i].gen != emitted[j].gen)
  }

  predicate EmittedOk(timer: Core, emitted: seq<Emission>) {
    forall i :: 0 <= i < |emitted| ==>
      && emitted[i].gen < timer.gen && emitted[i].deadline <= emitted[i].time
      && (emitted[i].at.Strand? ==> emitted[i].at == emitted[i].owner)
  }

  predicate TokensOk(st: State) {
    EntriesOk(st.timer, st.entries) && TakenOk(st.timer, st.taken, st.now) && PostedOk(st.timer, st.posted, st.now)
  }

  predicate Safe(st: State) {
    && TokensOk(st)
    && PhasesOk(st.timer, st.busy, st.now) && InsideOk(st.owner, st.busy)
    && OnceOk(st.busy, st.emitted) && EmittedOk(st.timer, st.emitted)
  }

  lemma KeepPromise(busy: map<Exec, Phase>, emitted: seq<Emission>, e: Exec, p: Phase)
    requires OnceOk(busy, emitted) && e in busy && Promise(p) == Promise(busy[e])
    ensures OnceOk(busy[e := p], emitted) && OnceOk(busy - {e}, emitted)
  {
  }

  /** The current generation is fresh: nobody has promised or emitted it. */
  lemma NewPromise(st: State, e: Exec, p: Phase)
    requires Safe(st) && Promise(p).Some? && Promise(p).value.gen == st.timer.gen
    ensures OnceOk(st.busy[e := p], st.emitted)
  {
  }

  lemma EmitPromise(busy: map<Exec, Phase>, emitted: seq<Emission>, e: Exec, m: Emission)
    requires OnceOk(busy, emitted) && e in busy && Promise(busy[e]).Some? && m.gen == Promise(busy[e]).value.gen
    ensures OnceOk(busy - {e}, emitted + [m])
  {
  }

  lemma PhaseSet(timer: Core, timer': Core, busy: map<Exec, Phase>, now: int, e: Exec, p: Phase)
    requires PhasesOk(timer, busy, now) && (timer' == timer || timer'.gen == timer.gen + 1)
    requires PhaseOk(timer', p, now)
    requires Promise(p).Some? ==> Promise(p).value.gen < timer'.gen && Promise(p).value.deadline <= now
    ensures PhasesOk(timer', busy[e := p], now) && PhasesOk(timer', busy - {e}, now)
  {
  }

  lemma MigrateTokens(st: State, e: Exec, target: Exec)
    requires Safe(st) && CanOwner(st, Migrate(e, target))
    ensures TokensOk(DoOwner(st, Migrate(e, target)))
  {
  }

  lemma OwnerTokens(st: State, step: OwnerStep)
    requires Safe(st) && CanOwner(st, step)
    ensures var s' := DoOwner(st, step); TokensOk(s')
  {
    match step
    case Migrate(e, target) => MigrateTokens(st, e, target);
    case _ =>
  }

  lemma OwnerPhases(st: State, step: OwnerStep)
    requires Safe(st) && CanOwner(st, step)
    ensures var s' := DoOwner(st, step); PhasesOk(s'.timer, s'.busy, s'.now) && InsideOk(s'.owner, s'.busy)
  {
  }

  lemma OwnerOnce(st: State, step: OwnerStep)
    requires Safe(st) && CanOwner(st, step)
    ensures var s' := DoOwner(st, step); OnceOk(s'.busy, s'.emitted) && EmittedOk(s'.timer, s'.emitted)
  {
  }

  lemma StrandDispatchTokens(st: State, x: Entry)
    requires Safe(st) && CanFire(st, StrandDispatch(x))
    ensures TokensOk(DoFire(st, StrandDispatch(x)))
  {
  }

  lemma FireTokens(st: State, step: FireStep)
    requires Safe(st) && CanFire(st, step)
    ensures var s' := DoFire(st, step); TokensOk(s')
  {
    match step
    case StrandDispatch(x) => StrandDispatchTokens(st, x);
    case _ =>
  }

  lemma FirePhases(st: State, step: FireStep)
    requires Safe(st) && CanFire(st, step)
    ensures var s' := DoFire(st, step); PhasesOk(s'.timer, s'.busy, s'.now) && InsideOk(s'.owner, s'.busy)
  {
  }

  /** An executor that enters dispatchTimeout promises nothing yet. */
  lemma FiringPromisesNothing(busy: map<Exec, Phase>, emitted: seq<Emission>, e: Exec, g: nat)
    requires OnceOk(busy, emitted)
    ensures OnceOk(busy[e := Firing(g)], emitted)
  {
  }

  lemma FireOnce(st: State, step: FireStep)
    requires Safe(st) && CanFire(st, step)
    ensures var s' := DoFire(st, step); OnceOk(s'.busy, s'.emitted) && EmittedOk(s'.timer, s'.emitted)
  {
    match step
    case LoopDispatch(l) => FiringPromisesNothing(st.busy, st.emitted, Loop(l), st.taken[LoopTable(l)].gen);
    case StrandDispatch(x) => FiringPromisesNothing(st.busy, st.emitted, x.to, x.gen);
    case _ =>
  }

  lemma LockTokens(st: State, e: Exec, d: int)
    requires Safe(st) && CanDispatch(st, Lock(e, d))
    ensures TokensOk(DoDispatch(st, Lock(e, d)))
  {
  }

  lemma DispatchTokens(st: State, step: DispatchStep)
    requires Safe(st) && CanDispatch(st, step)
    ensures var s' := DoDispatch(st, step); TokensOk(s')
  {
    match step
    case Lock(e, d) => LockTokens(st, e, d);
    case _ =>
  }

  lemma DispatchPhases(st: State, step: DispatchStep)
    requires Safe(st) && CanDispatch(st, step)
    ensures var s' := DoDispatch(st, step); PhasesOk(s'.timer, s'.busy, s'.now) && InsideOk(s'.owner, s'.busy)
  {
    var s' := DoDispatch(st, step);
    PhaseSet(st.timer, s'.timer, st.busy, st.now, step.e, if step.e in s'.busy then s'.busy[step.e] else Cancelling);
  }

  lemma DispatchOnce(st: State, step: DispatchStep)
    requires Safe(st) && CanDispatch(st, step)
    ensures var s' := DoDispatch(st, step); OnceOk(s'.busy, s'.emitted) && EmittedOk(s'.timer, s'.emitted)
  {
    var s' := DoDispatch(st, step);
    match step
    case Lock(e, _) =>
      if s'.timer == st.timer { KeepPromise(st.busy, st.emitted, e, st.busy[e]); }
      else { NewPromise(st, e, s'.busy[e]); }
    case Emit(e) => EmitPromise(st.busy, st.emitted, e, s'.emitted[|st.emitted|]);
    case ReadOwner(e) => KeepPromise(st.busy, st.emitted, e, s'.busy[e]);
    case Schedule(e) => KeepPromise(st.busy, st.emitted, e, if e in s'.busy then s'.busy[e] else st.busy[e]);
  }

}
