/**
 The descriptor thread, the threads that register and unregister watches, and the strands that run
 the callbacks, interleaved at every critical section.
 */
module IoProtocol {
  import opened IoServices

  datatype Phase = ToBePosted | Posted | Running | Done

  /** A callback collected by the descriptor thread, and how far it got. */
  datatype Call = Call(ready: Ready, phase: Phase)

  /** The descriptor thread: in `wait`, holding a batch of reports, posting from call `next` on, or gone. */
  datatype Poller = Waiting | Holds(batch: seq<Event>) | Posting(next: nat) | Exited

  /** `users` and `reports` are history: who made each registration, and all that the poller reported. */
  datatype State = State(
    service: ServiceData, poller: Poller, calls: seq<Call>, users: map<Registration, User>, reports: seq<Event>)

  datatype User = User(fd: Fd, strand: StrandId, callback: Callback)

  datatype Step =
    | Register(strand: StrandId, fd: Fd, events: Events, callback: Callback)
    | Modify(fd: Fd, events: Events)
    | Unregister(fd: Fd)
    | Stop
    | Report(batch: seq<Event>)     // wait() returns; one-shot: what reports is disarmed
    | CollectAll
    | PostNext
    | Start(i: nat)                 // a strand starts the callback
    | Finish(i: nat)                // it returns: markHandled

  ghost predicate Enabled(st: State, step: Step) {
    match step
    case Report(batch) => st.poller.Waiting? && forall e :: e in batch ==> e.fd in st.service.armed
    case CollectAll => st.poller.Holds?
    case PostNext => st.poller.Posting?
    case Start(i) => i < |st.calls| && st.calls[i].phase.Posted?
    case Finish(i) => i < |st.calls| && st.calls[i].phase.Running?
    case _ => true
  }

  function Fds(batch: seq<Event>): set<Fd> { set e | e in batch :: e.fd }

  function NewCalls(rs: seq<Ready>): seq<Call> { seq(|rs|, i requires 0 <= i < |rs| => Call(rs[i], ToBePosted)) }

  function SetPhase(calls: seq<Call>, i: nat, p: Phase): seq<Call>
    requires i < |calls|
  {
    calls[i := calls[i].(phase := p)]
  }

  function Apply(st: State, step: Step): State
    requires Enabled(st, step)
  {
    match step
    case Register(s, fd, events, cb) =>
      st.(service := st.service.Register(s, fd, events, cb),
          users := if fd < 0 || st.service.stopped then st.users
            else st.users[st.service.nextRegistration := User(fd, s, cb)])
    case Modify(fd, events) => st.(service := st.service.Modify(fd, events))
    case Unregister(fd) => st.(service := st.service.Unregister(fd))
    case Stop => st.(service := st.service.(stopped := true))
    case Report(batch) => 
      st.(poller := Holds(batch), service := st.service.(armed := st.service.armed - Fds(batch)),
          reports := st.reports + batch)
    case CollectAll =>
      if st.service.stopped then st.(poller := Exited)
      else st.(poller := Posting(|st.calls|), service := st.service.Collect(st.poller.batch),
               calls := st.calls + NewCalls(st.service.ToPost(st.poller.batch)))
    case PostNext =>
      if st.poller.next < |st.calls| then
        st.(poller := Posting(st.poller.next + 1), calls := SetPhase(st.calls, st.poller.next, Posted))
      else st.(poller := Waiting)
    case Start(i) => st.(calls := SetPhase(st.calls, i, Running))
    case Finish(i) =>
      st.(calls := SetPhase(st.calls, i, Done),
          service := st.service.MarkHandled(st.calls[i].ready.fd, st.calls[i].ready.registration))
  }

  // ------------------------------------------------------------------ invariant

  /** Call `i` belongs to this registration of the descriptor and has not finished. */
  ghost predicate Outstanding(calls: seq<Call>, i: nat, fd: Fd, registration: Registration) {
    i < |calls| && !calls[i].phase.Done? && calls[i].ready.fd == fd && calls[i].ready.registration == registration
  }

  ghost predicate Fresh(watches: map<Fd, Watch>, next: Registration, calls: seq<Call>) {
    && (forall fd :: fd in watches ==> watches[fd].registration < next)
    && (forall i :: 0 <= i < |calls| ==> calls[i].ready.registration < next)
  }

  ghost predicate OneEach(calls: seq<Call>) {
    forall i, j :: 0 <= i < j < |calls| && !calls[i].phase.Done? && !calls[j].phase.Done? ==>
      calls[i].ready.fd != calls[j].ready.fd || calls[i].ready.registration != calls[j].ready.registration
  }

  /** A watch is marked queued exactly while a call of its registration is outstanding. */
  ghost predicate QueuedOk(watches: map<Fd, Watch>, calls: seq<Call>) {
    && (forall i :: 0 <= i < |calls| && !calls[i].phase.Done? && calls[i].ready.fd in watches
                    && watches[calls[i].ready.fd].registration == calls[i].ready.registration ==>
          watches[calls[i].ready.fd].queued)
    && (forall fd :: fd in watches && watches[fd].queued ==>
          exists i :: Outstanding(calls, i, fd, watches[fd].registration))
  }

  /** Every watch without an outstanding call is armed for its current events, or about to be collected. */
  ghost predicate ArmedOk(service: ServiceData, poller: Poller) {
    !service.stopped ==> forall fd :: fd in service.watches && !service.watches[fd].queued ==>
      || (fd in service.armed && service.armed[fd] == service.watches[fd].events)
      || (poller.Holds? && fd in Fds(poller.batch))
  }

  ghost predicate PostingOk(poller: Poller, calls: seq<Call>) {
    && (poller.Posting? ==> poller.next <= |calls|)
    && (forall i :: 0 <= i < |calls| ==> (calls[i].phase.ToBePosted? <==> poller.Posting? && poller.next <= i))
  }

  ghost predicate Names(users: map<Registration, User>, reg: Registration, fd: Fd, strand: StrandId, cb: Callback) {
    reg in users && users[reg] == User(fd, strand, cb)
  }

  ghost predicate UsersOk(watches: map<Fd, Watch>, calls: seq<Call>, users: map<Registration, User>) {
    && (forall fd :: fd in watches ==>
          Names(users, watches[fd].registration, fd, watches[fd].strand, watches[fd].callback))
    && (forall i :: 0 <= i < |calls| ==>
          Names(users, calls[i].ready.registration, calls[i].ready.fd, calls[i].ready.strand, calls[i].ready.callback))
  }

  /** A call tells of a report that the poller made. */
  ghost predicate ReportsOk(poller: Poller, calls: seq<Call>, reports: seq<Event>) {
    && (poller.Holds? ==> forall e :: e in poller.batch ==> e in reports)
    && (forall i :: 0 <= i < |calls| ==> Event(calls[i].ready.fd, calls[i].ready.events) in reports)
  }

  ghost predicate CallsInv(service: ServiceData, calls: seq<Call>, users: map<Registration, User>) {
    && Fresh(service.watches, service.nextRegistration, calls)
    && OneEach(calls)
    && QueuedOk(service.watches, calls)
    && UsersOk(service.watches, calls, users)
  }

  ghost predicate Inv(st: State) {
    && CallsInv(st.service, st.calls, st.users) && ArmedOk(st.service, st.poller) && PostingOk(st.poller, st.calls)
    && ReportsOk(st.poller, st.calls, st.reports)
  }

  // ------------------------------------------------------------------ steps

  lemma RegisterCalls(st: State, step: Step)
    requires Inv(st) && Enabled(st, step)
    requires (step.Register? || step.Modify? || step.Unregister? || step.Stop? || step.Report?)
    ensures var s' := Apply(st, step); CallsInv(s'.service, s'.calls, s'.users)
  {
  }

  lemma RegisterArmed(st: State, step: Step)
    requires Inv(st) && Enabled(st, step)
    requires (step.Register? || step.Modify? || step.Unregister? || step.Stop? || step.Report?)
    ensures var s' := Apply(st, step); ArmedOk(s'.service, s'.poller) && PostingOk(s'.poller, s'.calls)
    ensures ReportsOk(Apply(st, step).poller, Apply(st, step).calls, Apply(st, step).reports)
  {
  }

  /** What is outstanding stays so, except for call `k`. */
  lemma StillOutstanding(calls: seq<Call>, calls': seq<Call>, k: nat)
    requires |calls| <= |calls'|
    requires forall i :: 0 <= i < |calls| && i != k ==> calls'[i].ready == calls[i].ready
    requires forall i :: 0 <= i < |calls| && i != k && calls'[i].phase.Done? ==> calls[i].phase.Done?
    ensures forall i, fd, reg :: Outstanding(calls, i, fd, reg) && i != k ==> Outstanding(calls', i, fd, reg)
  {
  }

  lemma CallsMove(st: State, step: Step)
    requires Inv(st) && Enabled(st, step) && (step.Start? || step.PostNext?)
    ensures Inv(Apply(st, step))
  {
    StillOutstanding(st.calls, Apply(st, step).calls, |st.calls|);
  }

  lemma FinishCalls(st: State, i: nat)
    requires Inv(st) && Enabled(st, Finish(i))
    ensures Inv(Apply(st, Finish(i)))
  {
    StillOutstanding(st.calls, Apply(st, Finish(i)).calls, i);
  }

  lemma CollectOneCalls(service: ServiceData, calls: seq<Call>, users: map<Registration, User>, event: Event)
    requires CallsInv(service, calls, users) && service.Collects(event)
    ensures CallsInv(service.CollectOne(event), calls + [Call(service.ReadyFor(event), ToBePosted)], users)
  {
    var calls' := calls + [Call(service.ReadyFor(event), ToBePosted)];
    StillOutstanding(calls, calls', |calls|);
    assert Outstanding(calls', |calls|, event.fd, service.watches[event.fd].registration);
  }

  lemma {:induction false} CollectCalls(service: ServiceData, calls: seq<Call>, users: map<Registration, User>,
                                        batch: seq<Event>)
    requires CallsInv(service, calls, users)
    ensures CallsInv(service.Collect(batch), calls + NewCalls(service.ToPost(batch)), users)
  {
    if batch == [] {
      assert calls + NewCalls(service.ToPost(batch)) == calls;
    } else {
      var init, event := batch[..|batch| - 1], batch[|batch| - 1];
      CollectCalls(service, calls, users, init);
      var before := service.Collect(init);
      if before.Collects(event) {
        CollectOneCalls(before, calls + NewCalls(service.ToPost(init)), users, event);
        assert calls + NewCalls(service.ToPost(batch))
            == calls + NewCalls(service.ToPost(init)) + [Call(before.ReadyFor(event), ToBePosted)];
      } else {
        assert service.ToPost(batch) == service.ToPost(init);
      }
    }
  }

  /** After the loop, the watches it went over are queued; the others are as before. */
  lemma {:induction false} CollectMarks(service: ServiceData, batch: seq<Event>)
    ensures var s' := service.Collect(batch);
      && s'.armed == service.armed && s'.stopped == service.stopped && s'.watches.Keys == service.watches.Keys
      && (forall fd :: fd in s'.watches ==>
            s'.watches[fd] == service.watches[fd].(queued := service.watches[fd].queued || fd in Fds(batch)))
  {
    if batch != [] {
      var init, event := batch[..|batch| - 1], batch[|batch| - 1];
      CollectMarks(service, init);
      assert batch == init + [event];
      assert Fds(batch) == Fds(init) + {event.fd};
    }
  }

  /** The report is the first of a watched descriptor that has no callback out. */
  ghost predicate Fires(service: ServiceData, batch: seq<Event>, i: nat) {
    && i < |batch| && batch[i].fd in service.watches && !service.watches[batch[i].fd].queued
    && forall j :: 0 <= j < i ==> batch[j].fd != batch[i].fd
  }

  /** The callback posted for a report: what was reported, to the strand and the function of the watch. */
  ghost predicate Tells(service: ServiceData, event: Event, ready: Ready) {
    && ready.fd == event.fd && ready.events == event.events && event.fd in service.watches
    && ready.strand == service.watches[event.fd].strand
    && ready.registration == service.watches[event.fd].registration
    && ready.callback == service.watches[event.fd].callback
  }

  /** One callback for each such report, in the order of the reports, and no others. */
  ghost predicate Answers(service: ServiceData, batch: seq<Event>, fired: seq<nat>, posted: seq<Ready>) {
    && |posted| == |fired|
    && (forall i: nat :: i in fired <==> Fires(service, batch, i))
    && (forall k, m :: 0 <= k < m < |fired| ==> fired[k] < fired[m])
    && (forall k :: 0 <= k < |fired| ==> fired[k] < |batch| && Tells(service, batch[fired[k]], posted[k]))
  }

  lemma AnswersSame(service: ServiceData, batch: seq<Event>, fired: seq<nat>, posted: seq<Ready>)
    requires batch != [] && Answers(service, batch[..|batch| - 1], fired, posted) && !Fires(service, batch, |batch| - 1)
    ensures Answers(service, batch, fired, posted)
  {
    FiresBefore(service, batch);
  }

  lemma AnswersOneMore(service: ServiceData, batch: seq<Event>, fired: seq<nat>, posted: seq<Ready>, ready: Ready)
    requires batch != [] && Answers(service, batch[..|batch| - 1], fired, posted) && Fires(service, batch, |batch| - 1)
    requires Tells(service, batch[|batch| - 1], ready)
    ensures Answers(service, batch, fired + [|batch| - 1], posted + [ready])
  {
    FiresBefore(service, batch);
    var fired' := fired + [|batch| - 1];
    assert forall i: nat :: i in fired' <==> i in fired || i == |batch| - 1;
  }

  /** What a batch of reports makes the descriptor thread post, told from the reports and the watches alone. */
  lemma {:induction false} PostsExactly(service: ServiceData, batch: seq<Event>) returns (fired: seq<nat>)
    ensures Answers(service, batch, fired, service.ToPost(batch))
  {
    if batch == [] {
      fired := [];
    } else {
      var init, last := batch[..|batch| - 1], |batch| - 1;
      fired := PostsExactly(service, init);
      LastFires(service, batch);
      LastPosted(service, batch);
      if Fires(service, batch, last) {
        AnswersOneMore(service, batch, fired, service.ToPost(init), service.Collect(init).ReadyFor(batch[last]));
        fired := fired + [last];
      } else {
        AnswersSame(service, batch, fired, service.ToPost(init));
      }
    }
  }

  lemma FiresBefore(service: ServiceData, batch: seq<Event>)
    requires batch != []
    ensures forall i: nat :: i < |batch| - 1 ==> (Fires(service, batch, i) <==> Fires(service, batch[..|batch| - 1], i))
  {
    var init := batch[..|batch| - 1];
    forall i: nat | i < |batch| - 1
      ensures Fires(service, batch, i) <==> Fires(service, init, i)
    {
      assert forall j :: 0 <= j <= i ==> init[j] == batch[j];
    }
  }

  /** The last report is collected exactly if it is the first of its descriptor. */
  lemma LastFires(service: ServiceData, batch: seq<Event>)
    requires batch != []
    ensures var init, event := batch[..|batch| - 1], batch[|batch| - 1]; var before := service.Collect(init);
      && (before.Collects(event) <==> Fires(service, batch, |batch| - 1))
      && (before.Collects(event) ==> Tells(service, event, before.ReadyFor(event)))
  {
    CollectMarks(service, batch[..|batch| - 1]);
  }

  lemma LastPosted(service: ServiceData, batch: seq<Event>)
    requires batch != []
    ensures var init, event := batch[..|batch| - 1], batch[|batch| - 1]; var before := service.Collect(init);
      service.ToPost(batch) ==
        if before.Collects(event) then service.ToPost(init) + [before.ReadyFor(event)] else service.ToPost(init)
  {
  }

  lemma PostedAreReported(service: ServiceData, batch: seq<Event>)
    ensures forall r :: r in service.ToPost(batch) ==> Event(r.fd, r.events) in batch
  {
    var fired := PostsExactly(service, batch);
    forall r | r in service.ToPost(batch) ensures Event(r.fd, r.events) in batch {
      var k :| 0 <= k < |service.ToPost(batch)| && service.ToPost(batch)[k] == r;
      assert batch[fired[k]] == Event(r.fd, r.events);
    }
  }

  lemma CollectStep(st: State)
    requires Inv(st) && Enabled(st, CollectAll)
    ensures Inv(Apply(st, CollectAll))
  {
    if !st.service.stopped {
      CollectCalls(st.service, st.calls, st.users, st.poller.batch);
      CollectMarks(st.service, st.poller.batch);
      PostedAreReported(st.service, st.poller.batch);
    }
  }

  lemma StepInv(st: State, step: Step)
    requires Inv(st) && Enabled(st, step)
    ensures Inv(Apply(st, step))
  {
    match step
    case CollectAll => CollectStep(st);
    case PostNext => CallsMove(st, step);
    case Start(_) => CallsMove(st, step);
    case Finish(i) => FinishCalls(st, i);
    case _ => RegisterCalls(st, step); RegisterArmed(st, step);
  }

  // ------------------------------------------------------------------ whole runs

  const Initial := State(ServiceData(map[], 1, false, map[]), Waiting, [], map[], [])

  ghost predicate Runs(st: State, steps: seq<Step>)
    decreases |steps|
  {
    steps == [] || (Enabled(st, steps[0]) && Runs(Apply(st, steps[0]), steps[1..]))
  }

  ghost function After(st: State, steps: seq<Step>): State
    requires Runs(st, steps)
    decreases |steps|
  {
    if steps == [] then st else After(Apply(st, steps[0]), steps[1..])
  }

  lemma {:induction false} RunInv(st: State, steps: seq<Step>)
    requires Inv(st) && Runs(st, steps)
    ensures Inv(After(st, steps))
    decreases |steps|
  {
    if steps != [] {
      StepInv(st, steps[0]);
      RunInv(Apply(st, steps[0]), steps[1..]);
    }
  }

  /** For each registration of a descriptor, at most one callback is collected and unfinished. */
  lemma NeverDoubles(steps: seq<Step>, i: nat, j: nat, fd: Fd, registration: Registration)
    requires Runs(Initial, steps)
    requires Outstanding(After(Initial, steps).calls, i, fd, registration)
    requires Outstanding(After(Initial, steps).calls, j, fd, registration)
    ensures i == j
  {
    RunInv(Initial, steps);
  }

  /**
   Until `stop`, every watch is armed for its current events, or in the batch the descriptor thread
   holds, or queued; it is queued exactly while a callback of its registration is outstanding.
   */
  lemma NeverDeaf(steps: seq<Step>, fd: Fd)
    requires Runs(Initial, steps)
    requires !After(Initial, steps).service.stopped && fd in After(Initial, steps).service.watches
    ensures var st := After(Initial, steps); var watch := st.service.watches[fd];
      && (watch.queued <==> exists i :: Outstanding(st.calls, i, fd, watch.registration))
      && (!watch.queued ==>
            || (fd in st.service.armed && st.service.armed[fd] == watch.events)
            || (st.poller.Holds? && fd in Fds(st.poller.batch)))
  {
    RunInv(Initial, steps);
  }

  /** The outstanding callback re-arms its watch when it returns, for the events wanted by then. */
  lemma FinishRearms(steps: seq<Step>, i: nat)
    requires Runs(Initial, steps) && Enabled(After(Initial, steps), Finish(i))
    ensures var st := After(Initial, steps); var s' := Apply(st, Finish(i)); var ready := st.calls[i].ready;
      !st.service.stopped && ready.fd in st.service.watches && st.service.watches[ready.fd].registration
        == ready.registration ==>
        && s'.service.watches == st.service.watches[ready.fd := st.service.watches[ready.fd].(queued := false)]
        && s'.service.armed == st.service.armed[ready.fd := st.service.watches[ready.fd].events]
        && forall j :: !Outstanding(s'.calls, j, ready.fd, ready.registration)
  {
    RunInv(Initial, steps);
  }

  /**
   A callback goes to the strand, and is the function, of the registration it carries; no reused
   descriptor mixes them up.
   */
  lemma DeliveredToItsRegistration(steps: seq<Step>, i: nat)
    requires Runs(Initial, steps) && i < |After(Initial, steps).calls|
    ensures var st := After(Initial, steps); var ready := st.calls[i].ready;
      && Names(st.users, ready.registration, ready.fd, ready.strand, ready.callback)
      && Event(ready.fd, ready.events) in st.reports
  {
    RunInv(Initial, steps);
  }

  /** A registration is made once, by one user: no step renames it. */
  lemma {:induction false} RegistrationsAreUnique(steps: seq<Step>, more: seq<Step>, registration: Registration)
    requires Runs(Initial, steps) && registration in After(Initial, steps).users
    requires Runs(After(Initial, steps), more)
    ensures var later := After(After(Initial, steps), more).users;
      registration in later && later[registration] == After(Initial, steps).users[registration]
  {
    RunUsers(Initial, steps);
    UsersStay(After(Initial, steps), more, registration);
  }

  ghost predicate UsersFresh(st: State) { forall r :: r in st.users ==> r < st.service.nextRegistration }

  lemma CollectKeepsNext(service: ServiceData, batch: seq<Event>)
    ensures service.Collect(batch).nextRegistration == service.nextRegistration
  {
  }

  lemma StepUsers(st: State, step: Step)
    requires UsersFresh(st) && Enabled(st, step)
    ensures UsersFresh(Apply(st, step))
    ensures forall r :: r in st.users ==> r in Apply(st, step).users && Apply(st, step).users[r] == st.users[r]
  {
    if step.CollectAll? { CollectKeepsNext(st.service, st.poller.batch); }
  }

  lemma {:induction false} RunUsers(st: State, steps: seq<Step>)
    requires UsersFresh(st) && Runs(st, steps)
    ensures UsersFresh(After(st, steps))
    decreases |steps|
  {
    if steps != [] {
      StepUsers(st, steps[0]);
      RunUsers(Apply(st, steps[0]), steps[1..]);
    }
  }

  lemma {:induction false} UsersStay(st: State, steps: seq<Step>, registration: Registration)
    requires UsersFresh(st) && Runs(st, steps) && registration in st.users
    ensures registration in After(st, steps).users && After(st, steps).users[registration] == st.users[registration]
    decreases |steps|
  {
    if steps != [] {
      StepUsers(st, steps[0]);
      UsersStay(Apply(st, steps[0]), steps[1..], registration);
    }
  }

  /** Once `stop` has been requested and the thread has left, no callback is collected or posted any more. */
  lemma {:induction false} NothingPostedAfterStop(st: State, steps: seq<Step>)
    requires Inv(st) && Runs(st, steps) && st.poller.Exited?
    ensures var s' := After(st, steps);
      && s'.poller.Exited? && |s'.calls| == |st.calls|
      && forall i :: 0 <= i < |s'.calls| ==> s'.calls[i].ready == st.calls[i].ready && !s'.calls[i].phase.ToBePosted?
    decreases |steps|
  {
    if steps != [] {
      StepInv(st, steps[0]);
      NothingPostedAfterStop(Apply(st, steps[0]), steps[1..]);
    }
  }

  /** The descriptor thread, and every callback, can always take its next step. */
  lemma CallbacksGoOn(st: State, i: nat)
    requires Inv(st) && i < |st.calls|
    ensures st.poller.Holds? ==> Enabled(st, CollectAll)
    ensures st.poller.Posting? ==> Enabled(st, PostNext)
    ensures match st.calls[i].phase
      case ToBePosted => Enabled(st, PostNext)
      case Posted => Enabled(st, Start(i))
      case Running => Enabled(st, Finish(i))
      case Done => true
  {
  }
}
