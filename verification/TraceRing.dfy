/**
 The ring under every interleaving of its producer and its consumer, one step per load, copy and
 store. A copy into a slot takes time: the slot is torn in between. Any capacity.
 */
module TraceRing {
  import opened TraceBuffers

  type Event = nat

  datatype Cell = Torn | Whole(event: Event)

  datatype Producer =
    | Idle
    | HasHead(event: Event, head: nat)
    | Copies(event: Event, head: nat, next: nat)       // not full; the copy has not begun
    | Writes(event: Event, head: nat, next: nat)       // the slot is torn
    | Stores(event: Event, next: nat)                  // the copy is done

  /** `seen` is history: how many events had been pushed when the head was loaded. */
  datatype Consumer =
    | Rests
    | HasTail(tail: nat)
    | Loops(tail: nat, head: nat, seen: nat)
    | Reads(tail: nat, head: nat, seen: nat)           // copies out of the slot

  /** `pushed`, `drained` and `released` are history: what was published, read, and given back. */
  datatype State = State(
    capacity: nat, data: seq<Cell>, head: nat, tail: nat,
    producer: Producer, consumer: Consumer,
    pushed: seq<Event>, drained: seq<Event>, released: nat)

  datatype Step =
    | Push(event: Event)       // load m_head
    | CheckFull                // load m_tail
    | BeginCopy | EndCopy
    | StoreHead
    | Drain                    // load m_tail
    | LoadHead
    | BeginRead | EndRead
    | StoreTail

  predicate Enabled(st: State, step: Step) {
    match step
    case Push(_) => st.producer.Idle?
    case CheckFull => st.producer.HasHead? && st.capacity > 0
    case BeginCopy => st.producer.Copies? && st.producer.head < |st.data|
    case EndCopy => st.producer.Writes? && st.producer.head < |st.data|
    case StoreHead => st.producer.Stores?
    case Drain => st.consumer.Rests?
    case LoadHead => st.consumer.HasTail?
    case BeginRead => st.consumer.Loops? && st.consumer.tail != st.consumer.head
    case EndRead => st.consumer.Reads? && st.capacity > 0 && st.consumer.tail < |st.data|
      && st.data[st.consumer.tail].Whole?
    case StoreTail => st.consumer.Loops? && st.consumer.tail == st.consumer.head
  }

  /** What `push` finds after loading the tail. */
  predicate Full(st: State)
    requires Enabled(st, CheckFull)
  {
    (st.producer.head + 1) % st.capacity == st.tail
  }

  function Apply(st: State, step: Step): State
    requires Enabled(st, step)
  {
    match step
    case Push(e) => st.(producer := HasHead(e, st.head))
    case CheckFull =>
      if Full(st) then st.(producer := Idle)
      else st.(producer := Copies(st.producer.event, st.producer.head, (st.producer.head + 1) % st.capacity))
    case BeginCopy =>
      st.(producer := Writes(st.producer.event, st.producer.head, st.producer.next),
        data := st.data[st.producer.head := Torn])
    case EndCopy =>
      st.(producer := Stores(st.producer.event, st.producer.next),
        data := st.data[st.producer.head := Whole(st.producer.event)])
    case StoreHead => st.(producer := Idle, head := st.producer.next, pushed := st.pushed + [st.producer.event])
    case Drain => st.(consumer := HasTail(st.tail))
    case LoadHead => st.(consumer := Loops(st.consumer.tail, st.head, |st.pushed|))
    case BeginRead => st.(consumer := Reads(st.consumer.tail, st.consumer.head, st.consumer.seen))
    case EndRead =>
      st.(consumer := Loops((st.consumer.tail + 1) % st.capacity, st.consumer.head, st.consumer.seen),
          drained := st.drained + [st.data[st.consumer.tail].event])
    case StoreTail => st.(consumer := Rests, tail := st.consumer.tail, released := |st.drained|)
  }

  predicate Init(st: State) {
    && st.capacity > 0 && |st.data| == st.capacity && st.head == 0 && st.tail == 0
    && st.producer.Idle? && st.consumer.Rests? && st.pushed == [] && st.drained == [] && st.released == 0
  }

  // ------------------------------------------------------------------ positions as counters

  /** The slot of the `k`-th event. */
  function Slot(k: nat, capacity: nat): (s: nat)
    requires capacity > 0
    ensures s < capacity
  {
    if k == 0 then 0 else (Slot(k - 1, capacity) + 1) % capacity
  }

  /** `d` events further on, fewer than the capacity. */
  lemma {:induction false} SlotAhead(i: nat, d: nat, capacity: nat)
    requires d < capacity
    ensures Slot(i + d, capacity) == if Slot(i, capacity) + d < capacity then Slot(i, capacity) + d
      else Slot(i, capacity) + d - capacity
  {
    if d > 0 {
      SlotAhead(i, d - 1, capacity);
      Successor(Slot(i + d - 1, capacity), capacity);
    }
  }

  /** Fewer than `capacity` consecutive events sit in different slots. */
  lemma SlotsDiffer(i: nat, j: nat, capacity: nat)
    requires i < j < i + capacity
    ensures Slot(i, capacity) != Slot(j, capacity)
  {
    SlotAhead(i, j - i, capacity);
  }

  // ------------------------------------------------------------------ invariant

  predicate CountsOk(st: State) {
    && st.capacity > 0 && |st.data| == st.capacity
    && st.released <= |st.drained| <= |st.pushed| < st.released + st.capacity
    && st.head == Slot(|st.pushed|, st.capacity) && st.tail == Slot(st.released, st.capacity)
    && st.drained == st.pushed[..|st.drained|]
  }

  /** The events that are not given back are whole in their slots. */
  predicate StoredOk(capacity: nat, data: seq<Cell>, pushed: seq<Event>, released: nat)
    requires capacity > 0
  {
    forall k :: released <= k < |pushed| ==> Slot(k, capacity) < |data| && data[Slot(k, capacity)] == Whole(pushed[k])
  }

  /** Once it has found room, the producer owns the slot after the last event. */
  predicate ProducerOk(st: State)
    requires st.capacity > 0
  {
    match st.producer
    case Idle => true
    case HasHead(_, head) => head == Slot(|st.pushed|, st.capacity)
    case Copies(_, head, next) =>
      head == Slot(|st.pushed|, st.capacity) && next == Slot(|st.pushed| + 1, st.capacity) && |st.pushed|
        + 1 < st.released + st.capacity
    case Writes(_, head, next) =>
      head == Slot(|st.pushed|, st.capacity) && next == Slot(|st.pushed| + 1, st.capacity) && |st.pushed|
        + 1 < st.released + st.capacity
    case Stores(e, next) =>
      next == Slot(|st.pushed| + 1, st.capacity) && |st.pushed| + 1 < st.released + st.capacity
      && Slot(|st.pushed|, st.capacity) < |st.data| && st.data[Slot(|st.pushed|, st.capacity)] == Whole(e)
  }

  predicate ConsumerOk(st: State)
    requires st.capacity > 0
  {
    match st.consumer
    case Rests => |st.drained| == st.released
    case HasTail(tail) => |st.drained| == st.released && tail == st.tail
    case Loops(tail, head, seen) =>
      tail == Slot(|st.drained|, st.capacity) && head == Slot(seen, st.capacity) && |st.drained| <= seen <= |st.pushed|
    case Reads(tail, head, seen) =>
      tail == Slot(|st.drained|, st.capacity) && head == Slot(seen, st.capacity) && |st.drained| < seen <= |st.pushed|
  }

  predicate Inv(st: State) {
    CountsOk(st) && StoredOk(st.capacity, st.data, st.pushed, st.released) && ProducerOk(st) && ConsumerOk(st)
  }

  lemma Meets(pushed: nat, released: nat, capacity: nat)
    requires released <= pushed < released + capacity
    ensures Slot(pushed + 1, capacity) == Slot(released, capacity) <==> pushed - released == capacity - 1
  {
    if pushed + 1 < released + capacity { SlotsDiffer(released, pushed + 1, capacity); }
    else { FullCircle(released, capacity); }
  }

  /** `push` finds the ring full exactly when all but one slot hold events that are not given back. */
  lemma FullExactly(st: State)
    requires Inv(st) && Enabled(st, CheckFull)
    ensures Full(st) <==> |st.pushed| - st.released == st.capacity - 1
  {
    Meets(|st.pushed|, st.released, st.capacity);
  }

  lemma FullCircle(k: nat, capacity: nat)
    requires capacity > 0
    ensures Slot(k + capacity, capacity) == Slot(k, capacity)
  {
    SlotAhead(k, capacity - 1, capacity);
    Successor(Slot(k + capacity - 1, capacity), capacity);
  }

  /** Writing the free slot touches no stored event. */
  lemma WriteFree(st: State, cell: Cell)
    requires Inv(st) && |st.pushed| + 1 < st.released + st.capacity
    ensures StoredOk(st.capacity, st.data[Slot(|st.pushed|, st.capacity) := cell], st.pushed, st.released)
  {
    forall k | st.released <= k < |st.pushed|
      ensures Slot(k, st.capacity) != Slot(|st.pushed|, st.capacity)
    {
      SlotsDiffer(k, |st.pushed|, st.capacity);
    }
  }

  lemma CopyStep(st: State, step: Step)
    requires Inv(st) && Enabled(st, step) && (step.BeginCopy? || step.EndCopy?)
    ensures Inv(Apply(st, step))
  {
    WriteFree(st, if step.BeginCopy? then Torn else Whole(st.producer.event));
  }

  lemma StoreHeadStep(st: State)
    requires Inv(st) && Enabled(st, StoreHead)
    ensures Inv(Apply(st, StoreHead))
  {
  }

  lemma ProducerStep(st: State, step: Step)
    requires Inv(st) && Enabled(st, step)
    requires step.Push? || step.CheckFull? || step.BeginCopy? || step.EndCopy? || step.StoreHead?
    ensures Inv(Apply(st, step))
  {
    match step
    case Push(_) =>
    case CheckFull => FullExactly(st);
    case StoreHead => StoreHeadStep(st);
    case _ => CopyStep(st, step);
  }

  /** The loop ends only when everything seen has been read. */
  lemma LoopEnds(st: State)
    requires Inv(st) && st.consumer.Loops?
    ensures st.consumer.tail == st.consumer.head <==> |st.drained| == st.consumer.seen
  {
    if |st.drained| < st.consumer.seen { SlotsDiffer(|st.drained|, st.consumer.seen, st.capacity); }
  }

  lemma EndReadCounts(st: State)
    requires Inv(st) && Enabled(st, EndRead)
    ensures var s' := Apply(st, EndRead);
      && s'.drained == st.pushed[..|st.drained| + 1] && |st.drained| < |st.pushed|
      && s'.consumer.tail == Slot(|st.drained| + 1, st.capacity)
  {
    assert st.pushed[..|st.drained|] + [st.pushed[|st.drained|]] == st.pushed[..|st.drained| + 1];
  }

  lemma EndReadStep(st: State)
    requires Inv(st) && Enabled(st, EndRead)
    ensures Inv(Apply(st, EndRead))
  {
    EndReadCounts(st);
  }

  lemma ConsumerStep(st: State, step: Step)
    requires Inv(st) && Enabled(st, step)
    requires step.Drain? || step.LoadHead? || step.BeginRead? || step.EndRead? || step.StoreTail?
    ensures Inv(Apply(st, step))
  {
    match step
    case BeginRead => LoopEnds(st);
    case EndRead => EndReadStep(st);
    case _ =>
  }

  lemma StepInv(st: State, step: Step)
    requires Inv(st) && Enabled(st, step)
    ensures Inv(Apply(st, step))
  {
    if step.Push? || step.CheckFull? || step.BeginCopy? || step.EndCopy? || step.StoreHead? { ProducerStep(st, step); }
    else { ConsumerStep(st, step); }
  }

  // ------------------------------------------------------------------ whole runs

  predicate Runs(st: State, steps: seq<Step>)
    decreases |steps|
  {
    steps == [] || (Enabled(st, steps[0]) && Runs(Apply(st, steps[0]), steps[1..]))
  }

  function After(st: State, steps: seq<Step>): State
    requires Runs(st, steps)
    decreases |steps|
  {
    if steps == [] then st else After(Apply(st, steps[0]), steps[1..])
  }

  lemma {:induction false} RunInv(st: State, steps: seq<Step>)
    requires Inv(st) && Runs(st, steps)
    ensures Inv(After(st, steps))
    decreases |steps|
  {
    if steps != [] {
      StepInv(st, steps[0]);
      RunInv(Apply(st, steps[0]), steps[1..]);
    }
  }

  /** The events in the slots from the `from`-th event to the last. */
  function Stored(st: State, from: nat): seq<Cell>
    requires st.capacity > 0 && |st.data| == st.capacity && from <= |st.pushed|
  {
    seq(|st.pushed| - from, i requires 0 <= i < |st.pushed| - from => st.data[Slot(from + i, st.capacity)])
  }

  function Cells(events: seq<Event>): seq<Cell> {
    seq(|events|, i requires 0 <= i < |events| => Whole(events[i]))
  }

  /**
   Under every interleaving the ring is a bounded queue: what was drained, followed by what is still
   stored, is what was pushed, in order; nothing is torn, lost or read twice.
   */
  lemma DrainedAndStoredIsPushed(st: State, steps: seq<Step>)
    requires Init(st) && Runs(st, steps)
    ensures var s' := After(st, steps);
      && s'.capacity > 0 && |s'.data| == s'.capacity && |s'.drained| <= |s'.pushed|
      && Cells(s'.drained) + Stored(s', |s'.drained|) == Cells(s'.pushed)
      && |s'.pushed| - s'.released <= s'.capacity - 1
  {
    RunInv(st, steps);
    var s' := After(st, steps);
    assert forall i :: 0 <= i < |s'.drained| ==> s'.drained[i] == s'.pushed[i];
  }

  /** The producer never writes a slot whose event is not given back, least of all the one being read. */
  lemma NoUnreadSlotOverwritten(st: State, steps: seq<Step>, k: nat)
    requires Init(st) && Runs(st, steps) && After(st, steps).producer.Writes?
    requires After(st, steps).released <= k < |After(st, steps).pushed|
    ensures var s' := After(st, steps);
      && s'.capacity > 0 && s'.producer.head != Slot(k, s'.capacity)
      && (s'.consumer.Reads? ==> s'.consumer.tail != s'.producer.head)
  {
    RunInv(st, steps);
    var s' := After(st, steps);
    SlotsDiffer(k, |s'.pushed|, s'.capacity);
    if s'.consumer.Reads? { SlotsDiffer(|s'.drained|, |s'.pushed|, s'.capacity); }
  }

  /** A push is given up exactly when it finds capacity - 1 events that have not been given back. */
  lemma PushRefusedExactly(st: State, steps: seq<Step>)
    requires Init(st) && Runs(st, steps) && Enabled(After(st, steps), CheckFull)
    ensures var s' := After(st, steps);
      && (Apply(s', CheckFull).producer.Idle? <==> |s'.pushed| - s'.released == s'.capacity - 1)
      && Apply(s', CheckFull).pushed == s'.pushed
  {
    RunInv(st, steps);
    FullExactly(After(st, steps));
  }

  /** A consumer that is reading always finds a whole event: the read is never blocked or torn. */
  lemma ReadsAreWhole(st: State, steps: seq<Step>)
    requires Init(st) && Runs(st, steps) && After(st, steps).consumer.Reads?
    ensures Enabled(After(st, steps), EndRead)
    ensures var s' := After(st, steps);
      |s'.drained| < |s'.pushed| && s'.data[s'.consumer.tail] == Whole(s'.pushed[|s'.drained|])
  {
    RunInv(st, steps);
  }

  // ------------------------------------------------------------------ one push, one drain

  /** The event on its way into the ring. */
  predicate Carries(producer: Producer, e: Event) {
    match producer
    case Idle => false
    case HasHead(event, _) => event == e
    case Copies(event, _, _) => event == e
    case Writes(event, _, _) => event == e
    case Stores(event, _) => event == e
  }

  /** A push of `e` began when `before` had been pushed and there was room for it. */
  predicate OnItsWay(st: State, e: Event, before: seq<Event>) {
    && Inv(st)
    && if st.producer.Idle? then st.pushed == before + [e]
       else st.pushed == before && Carries(st.producer, e) && |st.pushed| - st.released < st.capacity - 1
  }

  predicate NoPush(steps: seq<Step>) { forall i :: 0 <= i < |steps| ==> !steps[i].Push? }

  predicate NoDrain(steps: seq<Step>) { forall i :: 0 <= i < |steps| ==> !steps[i].Drain? }

  lemma StaysOnItsWay(st: State, step: Step, e: Event, before: seq<Event>)
    requires OnItsWay(st, e, before) && Enabled(st, step) && !step.Push?
    ensures OnItsWay(Apply(st, step), e, before)
  {
    StepInv(st, step);
    if step.CheckFull? { FullExactly(st); }
  }

  lemma {:induction false} OnItsWayLong(st: State, steps: seq<Step>, e: Event, before: seq<Event>)
    requires OnItsWay(st, e, before) && Runs(st, steps) && NoPush(steps)
    ensures OnItsWay(After(st, steps), e, before)
    decreases |steps|
  {
    if steps != [] {
      StaysOnItsWay(st, steps[0], e, before);
      OnItsWayLong(Apply(st, steps[0]), steps[1..], e, before);
    }
  }

  /**
   A push that begins while fewer than capacity - 1 events wait to be given back succeeds: when it is
   over, its event is the last one pushed, whatever the consumer does meanwhile.
   */
  lemma PushArrives(st: State, run: seq<Step>, e: Event, steps: seq<Step>)
    requires Init(st) && Runs(st, run) && Enabled(After(st, run), Push(e))
    requires var now := After(st, run); |now.pushed| - now.released < now.capacity - 1
    requires NoPush(steps) && Runs(Apply(After(st, run), Push(e)), steps)
    ensures var now, later := After(st, run), After(Apply(After(st, run), Push(e)), steps);
      later.pushed == if later.producer.Idle? then now.pushed + [e] else now.pushed
  {
    RunInv(st, run);
    var now := After(st, run);
    StepInv(now, Push(e));
    OnItsWayLong(Apply(now, Push(e)), steps, e, now.pushed);
  }

  /** A drain that loaded the head when `n` events had been pushed. */
  predicate Drains(st: State, n: nat) {
    && Inv(st) && n <= |st.pushed|
    && match st.consumer
       case Rests => n <= st.released
       case HasTail(_) => false
       case Loops(_, _, seen) => n <= seen
       case Reads(_, _, seen) => n <= seen
  }

  lemma StaysDraining(st: State, step: Step, n: nat)
    requires Drains(st, n) && Enabled(st, step) && !step.Drain?
    ensures Drains(Apply(st, step), n)
  {
    StepInv(st, step);
    if step.StoreTail? { LoopEnds(st); }
  }

  lemma {:induction false} DrainsLong(st: State, steps: seq<Step>, n: nat)
    requires Drains(st, n) && Runs(st, steps) && NoDrain(steps)
    ensures Drains(After(st, steps), n)
    decreases |steps|
  {
    if steps != [] {
      StaysDraining(st, steps[0], n);
      DrainsLong(Apply(st, steps[0]), steps[1..], n);
    }
  }

  /** A drain takes out, and gives back, every event that was pushed when it loaded the head. */
  lemma DrainTakesAll(st: State, run: seq<Step>, steps: seq<Step>)
    requires Init(st) && Runs(st, run) && Enabled(After(st, run), LoadHead)
    requires NoDrain(steps) && Runs(Apply(After(st, run), LoadHead), steps)
    ensures var now, later := After(st, run), After(Apply(After(st, run), LoadHead), steps);
      later.consumer.Rests? ==> now.pushed <= later.drained && |now.pushed| <= later.released
  {
    RunInv(st, run);
    var now := After(st, run);
    StepInv(now, LoadHead);
    DrainsLong(Apply(now, LoadHead), steps, |now.pushed|);
    var later := After(Apply(now, LoadHead), steps);
    PushedGrows(Apply(now, LoadHead), steps);
    assert later.drained == later.pushed[..|later.drained|];
  }

  lemma {:induction false} PushedGrows(st: State, steps: seq<Step>)
    requires Runs(st, steps)
    ensures st.pushed <= After(st, steps).pushed
    decreases |steps|
  {
    if steps != [] { PushedGrows(Apply(st, steps[0]), steps[1..]); }
  }

  predicate ProducersStep(step: Step) {
    step.Push? || step.CheckFull? || step.BeginCopy? || step.EndCopy? || step.StoreHead?
  }

  /** Neither side ever waits for the other: each always has a next step. */
  lemma NeitherWaits(st: State, steps: seq<Step>)
    requires Init(st) && Runs(st, steps)
    ensures exists step :: ProducersStep(step) && Enabled(After(st, steps), step)
    ensures exists step :: !ProducersStep(step) && Enabled(After(st, steps), step)
  {
    RunInv(st, steps);
    var s' := After(st, steps);
    var next := match s'.producer
      case Idle => Push(0)
      case HasHead(_, _) => CheckFull
      case Copies(_, _, _) => BeginCopy
      case Writes(_, _, _) => EndCopy
      case Stores(_, _) => StoreHead;
    assert ProducersStep(next) && Enabled(s', next);
    var turn := match s'.consumer
      case Rests => Drain
      case HasTail(_) => LoadHead
      case Loops(tail, head, _) => if tail == head then StoreTail else BeginRead
      case Reads(_, _, _) => EndRead;
    assert !ProducersStep(turn) && Enabled(s', turn);
  }
}
