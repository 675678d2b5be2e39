/**
 The descriptor thread of a pool: the critical sections of `IoService.cpp` as functions of
 `ServiceData`, and the class that updates them in place. `armed` is the poller's side: the
 descriptors that will report, with the events they were armed for. Arming is one-shot.
 */
module IoServices {

  type Fd = int
  type Events = nat
  type StrandId = nat
  type Callback = nat
  type Registration = nat

  datatype Watch = Watch(strand: StrandId, events: Events, callback: Callback, queued: bool, registration: Registration)

  /** What the poller reports. */
  datatype Event = Event(fd: Fd, events: Events)

  /** A callback to be posted. */
  datatype Ready = Ready(strand: StrandId, fd: Fd, events: Events, registration: Registration, callback: Callback)

  datatype ServiceData = ServiceData(watches: map<Fd, Watch>, nextRegistration: Registration, stopped: bool,
    armed: map<Fd, Events>)
  {
    function Arm(fd: Fd, events: Events): ServiceData { this.(armed := armed[fd := events]) }

    /** A watch replaces the previous one of the descriptor; ignored for a bad descriptor and after `stop`. */
    function Register(strand: StrandId, fd: Fd, events: Events, callback: Callback): ServiceData {
      if fd < 0 || stopped then this
      else this.(watches := watches[fd := Watch(strand, events, callback, false, nextRegistration)],
                 nextRegistration := nextRegistration + 1).Arm(fd, events)
    }

    function Modify(fd: Fd, events: Events): ServiceData {
      if fd !in watches then this
      else
        var changed := this.(watches := watches[fd := watches[fd].(events := events)]);
        if watches[fd].queued || stopped then changed else changed.Arm(fd, events)
    }

    function Unregister(fd: Fd): ServiceData {
      if fd !in watches then this else this.(watches := watches - {fd}, armed := armed - {fd})
    }

    /** Inside the strand, after the callback. */
    function MarkHandled(fd: Fd, registration: Registration): ServiceData {
      if fd !in watches || watches[fd].registration != registration then this
      else
        var cleared := this.(watches := watches[fd := watches[fd].(queued := false)]);
        if stopped then cleared else cleared.Arm(fd, watches[fd].events)
    }

    predicate Collects(event: Event) { event.fd in watches && !watches[event.fd].queued }

    /** One report: nothing if the descriptor is not watched or its callback is still out. */
    function CollectOne(event: Event): ServiceData {
      if Collects(event) then this.(watches := watches[event.fd := watches[event.fd].(queued := true)]) else this
    }

    function ReadyFor(event: Event): Ready
      requires event.fd in watches
    {
      var w := watches[event.fd];
      Ready(w.strand, event.fd, event.events, w.registration, w.callback)
    }

    /** The loop over one batch of reports. */
    function Collect(batch: seq<Event>): ServiceData {
      if batch == [] then this else Collect(batch[..|batch| - 1]).CollectOne(batch[|batch| - 1])
    }

    function ToPost(batch: seq<Event>): seq<Ready> {
      if batch == [] then []
      else
        var before := Collect(batch[..|batch| - 1]);
        var event := batch[|batch| - 1];
        ToPost(batch[..|batch| - 1]) + if before.Collects(event) then [before.ReadyFor(event)] else []
    }
  }

  /** Some report of the batch is about this descriptor. */
  ghost predicate Reported(batch: seq<Event>, fd: Fd) { exists i :: 0 <= i < |batch| && batch[i].fd == fd }

  lemma ReportedLast(batch: seq<Event>, fd: Fd)
    requires batch != []
    ensures Reported(batch, fd) <==> Reported(batch[..|batch| - 1], fd) || batch[|batch| - 1].fd == fd
  {
    var init := batch[..|batch| - 1];
    assert forall i :: 0 <= i < |init| ==> init[i] == batch[i];
  }

  /** Collecting marks the reported watches, and changes nothing else. */
  lemma {:induction false} CollectMarks(s: ServiceData, batch: seq<Event>)
    ensures var s' := s.Collect(batch);
      && s'.armed == s.armed && s'.stopped == s.stopped && s'.nextRegistration == s.nextRegistration
      && s'.watches.Keys == s.watches.Keys
      && forall fd :: fd in s.watches ==>
           s'.watches[fd] == s.watches[fd].(queued := s.watches[fd].queued || Reported(batch, fd))
  {
    if batch != [] {
      CollectMarks(s, batch[..|batch| - 1]);
      forall fd ensures Reported(batch, fd) <==> Reported(batch[..|batch| - 1], fd) || batch[|batch| - 1].fd == fd {
        ReportedLast(batch, fd);
      }
    }
  }

  class IoService {
    var watches: map<Fd, Watch>
    var nextRegistration: Registration
    var stopped: bool
    var armed: map<Fd, Events>

    ghost function Data(): ServiceData
      reads this
    {
      ServiceData(watches, nextRegistration, stopped, armed)
    }

    /** The other descriptors are watched and armed as before. */
    ghost predicate OthersKept(was: ServiceData, fd: Fd)
      reads this
    {
      && watches - {fd} == was.watches - {fd} && armed - {fd} == was.armed - {fd}
      && stopped == was.stopped
    }

    constructor ()
      ensures Data() == ServiceData(map[], 1, false, map[])
    {
      watches, nextRegistration, stopped, armed := map[], 1, false, map[];
    }

    method RegisterIO(strand: StrandId, fd: Fd, events: Events, callback: Callback)
      modifies this
      ensures Data() == old(Data()).Register(strand, fd, events, callback)
      ensures fd >= 0 && !stopped ==>
        && fd in watches && watches[fd].registration == old(nextRegistration) < nextRegistration
        && fd in armed && armed[fd] == events == watches[fd].events && !watches[fd].queued
        && watches[fd].strand == strand && watches[fd].callback == callback
      ensures fd < 0 || stopped ==> Data() == old(Data())
      ensures OthersKept(old(Data()), fd)
    {
      if fd < 0 || stopped {
        return;
      }
      watches := watches[fd := Watch(strand, events, callback, false, nextRegistration)];
      nextRegistration := nextRegistration + 1;
      armed := armed[fd := events];
    }

    method ModifyIO(fd: Fd, events: Events)
      modifies this
      ensures Data() == old(Data()).Modify(fd, events)
      ensures watches.Keys == old(watches).Keys
      ensures fd in watches ==> watches[fd] == old(watches)[fd].(events := events)
      ensures armed == if fd in watches && !watches[fd].queued && !stopped then old(armed)[fd := events] else old(armed)
      ensures OthersKept(old(Data()), fd)
    {
      if fd !in watches {
        return;
      }
      watches := watches[fd := watches[fd].(events := events)];
      if !watches[fd].queued && !stopped {
        armed := armed[fd := events];
      }
    }

    method UnregisterIO(fd: Fd)
      modifies this
      ensures Data() == old(Data()).Unregister(fd)
      ensures fd !in watches && (fd in old(watches) ==> fd !in armed)
      ensures OthersKept(old(Data()), fd)
    {
      if fd in watches {
        watches, armed := watches - {fd}, armed - {fd};
      }
    }

    method Stop()
      modifies this
      ensures Data() == old(Data()).(stopped := true)
    {
      stopped := true;
    }

    method MarkHandled(fd: Fd, registration: Registration)
      modifies this
      ensures Data() == old(Data()).MarkHandled(fd, registration)
      ensures fd in watches && watches[fd].registration == registration ==>
        !watches[fd].queued && (!stopped ==> fd in armed && armed[fd] == watches[fd].events)
      ensures fd in watches ==>
        fd in old(watches) && watches[fd] == old(watches)[fd].(queued := watches[fd].queued)
      ensures watches.Keys == old(watches).Keys && OthersKept(old(Data()), fd)
    {
      if fd !in watches || watches[fd].registration != registration {
        return;
      }
      watches := watches[fd := watches[fd].(queued := false)];
      if !stopped {
        armed := armed[fd := watches[fd].events];
      }
    }

    /** The locked part of `run`, before `stop`. */
    method CollectBatch(batch: seq<Event>) returns (toPost: seq<Ready>)
      modifies this
      ensures Data() == old(Data()).Collect(batch)
      ensures toPost == old(Data()).ToPost(batch)
      ensures armed == old(armed) && watches.Keys == old(watches).Keys
      ensures forall fd :: fd in watches ==>
        watches[fd] == old(watches)[fd].(queued := old(watches)[fd].queued || Reported(batch, fd))
    {
      toPost := [];
      ghost var start := Data();
      for i := 0 to |batch|
        invariant Data() == start.Collect(batch[..i])
        invariant toPost == start.ToPost(batch[..i])
      {
        assert batch[..i + 1][..i] == batch[..i];
        var event := batch[i];
        if event.fd in watches && !watches[event.fd].queued {
          watches := watches[event.fd := watches[event.fd].(queued := true)];
          var w := watches[event.fd];
          toPost := toPost + [Ready(w.strand, event.fd, event.events, w.registration, w.callback)];
        }
      }
      assert batch[..|batch|] == batch;
      CollectMarks(start, batch);
    }
  }
}
