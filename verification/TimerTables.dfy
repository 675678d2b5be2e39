/**
 The two tables a timer can be armed in: the unsorted vector of an EventLoop, and the deadline
 thread's multimap with its index. Both are proved to behave as one map from timers to timeouts.
 */
module TimerTables {

  type TimerId = nat

  datatype Timeout = Timeout(to: nat, gen: nat, deadline: int)

  /** An element; `handle` stands for the multimap iterator that designates it. */
  datatype Item = Item(timer: TimerId, timeout: Timeout, handle: nat)

  type Table = map<TimerId, Timeout>

  /** One entry per timer. */
  predicate Distinct(items: seq<Item>) {
    forall i, j :: 0 <= i < j < |items| ==> items[i].timer != items[j].timer
  }

  lemma DistinctUnique(items: seq<Item>, x: Item, y: Item)
    requires Distinct(items) && x in items && y in items && x.timer == y.timer
    ensures x == y
  {
  }

  /** The timeout of each timer. */
  ghost function TableOf(items: seq<Item>): Table
    requires Distinct(items)
  {
    map x | x in items :: x.timer := x.timeout
  }

  ghost function Late(table: Table, now: int): Table { map t | t in table && table[t].deadline > now :: table[t] }

  ghost function Due(table: Table, now: int): Table { map t | t in table && table[t].deadline <= now :: table[t] }

  // ------------------------------------------------------------------ EventLoop::m_timers

  /** The vector without the entry of `timer`. */
  function Without(items: seq<Item>, timer: TimerId): (r: seq<Item>)
    ensures forall x :: x in r <==> x in items && x.timer != timer
    ensures Distinct(items) ==> Distinct(r)
  {
    if items == [] then []
    else if items[0].timer == timer then Without(items[1..], timer)
    else
      var rest := Without(items[1..], timer);
      assert forall x :: x in items <==> x == items[0] || x in items[1..];
      [items[0]] + rest
  }

  lemma TableWithout(queue: seq<Item>, r: seq<Item>, timer: TimerId)
    requires Distinct(queue) && Distinct(r) && forall y :: y in r <==> y in queue && y.timer != timer
    ensures TableOf(r) == TableOf(queue) - {timer}
  {
  }

  lemma TableWith(queue: seq<Item>, r: seq<Item>, x: Item)
    requires Distinct(queue) && Distinct(r) && (forall y :: y in r <==> y in queue || y == x)
    requires forall y :: y in queue ==> y.timer != x.timer
    ensures TableOf(r) == TableOf(queue)[x.timer := x.timeout]
  {
  }

  lemma DistinctWith(items: seq<Item>, x: Item)
    requires Distinct(items) && forall y :: y in items ==> y.timer != x.timer
    ensures Distinct(items + [x])
  {
  }

  /** Without the old entry and with the new one, the timer's timeout is replaced. */
  lemma ReplacedTable(items: seq<Item>, x: Item)
    requires Distinct(items)
    ensures Distinct(Without(items, x.timer) + [x])
    ensures TableOf(Without(items, x.timer) + [x]) == TableOf(items)[x.timer := x.timeout]
  {
    var rest := Without(items, x.timer);
    DistinctWith(rest, x);
    TableWithout(items, rest, x.timer);
    TableWith(rest, rest + [x], x);
    assert (TableOf(items) - {x.timer})[x.timer := x.timeout] == TableOf(items)[x.timer := x.timeout];
  }

  /** The items due at `now`, or the others, in their order. */
  function Part(items: seq<Item>, now: int, due: bool): seq<Item> {
    if items == [] then []
    else
      var init, last := items[..|items| - 1], items[|items| - 1];
      Part(init, now, due) + if last.timeout.deadline <= now <==> due then [last] else []
  }

  lemma {:induction false} PartMembers(items: seq<Item>, now: int, due: bool)
    ensures forall x :: x in Part(items, now, due) <==> x in items && (x.timeout.deadline <= now <==> due)
    ensures Distinct(items) ==> Distinct(Part(items, now, due))
  {
    if items != [] {
      var init, last := items[..|items| - 1], items[|items| - 1];
      PartMembers(init, now, due);
      assert forall x :: x in items <==> x in init || x == last;
    }
  }

  /** Whatever comes first in `part` comes first in `whole`. */
  ghost predicate KeepsOrder(part: seq<Item>, whole: seq<Item>) {
    forall i, j :: 0 <= i < j < |part| ==> Before(whole, part[i], part[j])
  }

  ghost predicate Before(items: seq<Item>, x: Item, y: Item) {
    exists i, j :: 0 <= i < j < |items| && items[i] == x && items[j] == y
  }

  lemma BeforeLonger(items: seq<Item>, x: Item, y: Item, last: Item)
    requires Before(items, x, y)
    ensures Before(items + [last], x, y)
  {
    var i, j :| 0 <= i < j < |items| && items[i] == x && items[j] == y;
    assert (items + [last])[i] == x && (items + [last])[j] == y;
  }

  lemma BeforeLast(items: seq<Item>, x: Item, last: Item)
    requires x in items
    ensures Before(items + [last], x, last)
  {
    var i :| 0 <= i < |items| && items[i] == x;
    assert (items + [last])[i] == x && (items + [last])[|items|] == last;
  }

  lemma {:induction false} PartKeepsOrder(items: seq<Item>, now: int, due: bool)
    ensures KeepsOrder(Part(items, now, due), items)
  {
    if items != [] {
      var init, last := items[..|items| - 1], items[|items| - 1];
      var part := Part(init, now, due);
      PartKeepsOrder(init, now, due);
      PartMembers(init, now, due);
      assert items == init + [last];
      forall i, j | 0 <= i < j < |Part(items, now, due)|
        ensures Before(items, Part(items, now, due)[i], Part(items, now, due)[j])
      {
        if j < |part| { BeforeLonger(init, part[i], part[j], last); } else { BeforeLast(init, part[i], last); }
      }
    }
  }

  /** Where one more item goes. */
  lemma PartStep(all: seq<Item>, k: nat, now: int)
    requires k < |all|
    ensures Part(all[..k + 1], now, true) == Part(all[..k], now, true)
      + if all[k].timeout.deadline <= now then [all[k]] else []
    ensures Part(all[..k + 1], now, false) == Part(all[..k], now, false) + if all[k].timeout.deadline <= now then []
      else [all[k]]
  {
    assert all[..k + 1][..k] == all[..k];
  }

  /** The vector after `k` items have been looked at: the ones kept, then the others. */
  ghost predicate SplitAt(all: seq<Item>, k: nat, now: int, timers: seq<Item>, due: seq<Item>) {
    k <= |all| && due == Part(all[..k], now, true) && timers == Part(all[..k], now, false) + all[k..]
  }

  lemma SplitNext(all: seq<Item>, k: nat, now: int, timers: seq<Item>, due: seq<Item>)
    requires SplitAt(all, k, now, timers, due) && k < |all|
    ensures var i := |Part(all[..k], now, false)|;
      && i < |timers| && timers[i] == all[k]
      && (all[k].timeout.deadline <= now ==>
            SplitAt(all, k + 1, now, timers[..i] + timers[i + 1..], due + [all[k]])
              && |Part(all[..k + 1], now, false)| == i)
      && (all[k].timeout.deadline > now ==>
            SplitAt(all, k + 1, now, timers, due) && |Part(all[..k + 1], now, false)| == i + 1)
  {
    PartStep(all, k, now);
    EraseAt(Part(all[..k], now, false), all[k..]);
    assert all[k..][1..] == all[k + 1..];
  }

  lemma EraseAt(kept: seq<Item>, rest: seq<Item>)
    requires rest != []
    ensures (kept + rest)[..|kept|] + (kept + rest)[|kept| + 1..] == kept + rest[1..]
    ensures kept + rest == kept + [rest[0]] + rest[1..]
  {
  }

  class LoopTimers {
    var timers: seq<Item>

    ghost predicate Valid()
      reads this
    {
      Distinct(timers)
    }

    constructor ()
      ensures Valid() && TableOf(timers) == map[]
    {
      timers := [];
    }

    method ScheduleTimer(timer: TimerId, timeout: Timeout)
      requires Valid()
      modifies this
      ensures Valid() && TableOf(timers) == TableOf(old(timers))[timer := timeout]
      ensures timers != [] && timers[|timers| - 1] == Item(timer, timeout, 0)
    {
      ReplacedTable(timers, Item(timer, timeout, 0));
      timers := Without(timers, timer) + [Item(timer, timeout, 0)];
    }

    method CancelTimer(timer: TimerId)
      requires Valid()
      modifies this
      ensures Valid() && TableOf(timers) == TableOf(old(timers)) - {timer}
    {
      TableWithout(timers, Without(timers, timer), timer);
      timers := Without(timers, timer);
    }

    /** Takes the due entries out, in the order they were scheduled. */
    method TakeDueTimers(now: int) returns (due: seq<Item>)
      requires Valid()
      modifies this
      ensures Valid() && Distinct(due) && KeepsOrder(due, old(timers)) && KeepsOrder(timers, old(timers))
      ensures TableOf(due) == Due(TableOf(old(timers)), now) && TableOf(timers) == Late(TableOf(old(timers)), now)
    {
      PartMembers(timers, now, true);
      PartMembers(timers, now, false);
      PartKeepsOrder(timers, now, true);
      PartKeepsOrder(timers, now, false);
      due := SplitDue(now);
    }

    /** The loop of `takeDueTimers`, which erases in place. */
    method SplitDue(now: int) returns (due: seq<Item>)
      modifies this
      ensures due == Part(old(timers), now, true) && timers == Part(old(timers), now, false)
    {
      due := [];
      var i := 0;
      ghost var all, k: nat := timers, 0;
      while i < |timers|
        invariant SplitAt(all, k, now, timers, due) && i == |Part(all[..k], now, false)|
        decreases |timers| - i
      {
        i, due := SplitOne(now, i, due, all, k);
        k := k + 1;
      }
      assert all[..k] == all && all[k..] == [];
    }

    /** One turn of that loop. */
    method SplitOne(now: int, at: nat, before: seq<Item>, ghost all: seq<Item>, ghost k: nat)
      returns (i: nat, due: seq<Item>)
      requires k < |all| && SplitAt(all, k, now, timers, before) && at == |Part(all[..k], now, false)|
      modifies this
      ensures SplitAt(all, k + 1, now, timers, due) && i == |Part(all[..k + 1], now, false)|
      ensures |timers| - i < |old(timers)| - at
    {
      SplitNext(all, k, now, timers, before);
      i, due := at, before;
      if timers[at].timeout.deadline <= now {
        due := before + [timers[at]];
        timers := timers[..at] + timers[at + 1..];
      } else {
        i := at + 1;
      }
    }
  }

  // ------------------------------------------------------------------ TimerService

  predicate Sorted(items: seq<Item>) {
    forall i, j :: 0 <= i < j < |items| ==> items[i].timeout.deadline <= items[j].timeout.deadline
  }

  /** `multimap::emplace`: after the elements with an equal key. */
  function Inserted(items: seq<Item>, x: Item): (r: seq<Item>)
    ensures forall y :: y in r <==> y in items || y == x
    decreases |items|
  {
    if items == [] then [x]
    else
      var init, last := items[..|items| - 1], items[|items| - 1];
      assert forall y :: y in items <==> y in init || y == last;
      if x.timeout.deadline < last.timeout.deadline then Inserted(init, x) + [last] else items + [x]
  }

  /** A later item of another timer goes last. */
  lemma SnocOrdered(items: seq<Item>, x: Item)
    requires Sorted(items) && Distinct(items)
    requires forall y :: y in items ==> y.timeout.deadline <= x.timeout.deadline && y.timer != x.timer
    ensures Sorted(items + [x]) && Distinct(items + [x])
  {
  }

  lemma LastIsGreatest(items: seq<Item>)
    requires Sorted(items) && Distinct(items) && items != []
    ensures var init, last := items[..|items| - 1], items[|items| - 1];
      && Sorted(init) && Distinct(init)
      && forall y :: y in init ==> y.timeout.deadline <= last.timeout.deadline && y.timer != last.timer
  {
  }

  lemma {:induction false} InsertedOrdered(items: seq<Item>, x: Item)
    requires Sorted(items) && Distinct(items) && forall y :: y in items ==> y.timer != x.timer
    ensures Sorted(Inserted(items, x)) && Distinct(Inserted(items, x))
    decreases |items|
  {
    if items != [] {
      var init, last := items[..|items| - 1], items[|items| - 1];
      LastIsGreatest(items);
      assert forall y :: y in items <==> y in init || y == last;
      if x.timeout.deadline < last.timeout.deadline {
        InsertedOrdered(init, x);
        SnocOrdered(Inserted(init, x), last);
      } else {
        SnocOrdered(items, x);
      }
    }
  }

  /** The new element goes after everything that is not later, and before everything that is. */
  predicate PlacedAt(items: seq<Item>, k: nat, x: Item) {
    && k < |items| && items[k] == x
    && (forall j :: 0 <= j < k ==> items[j].timeout.deadline <= x.timeout.deadline)
    && (forall j :: k < j < |items| ==> items[j].timeout.deadline > x.timeout.deadline)
  }

  lemma {:induction false} InsertedPlace(items: seq<Item>, x: Item) returns (k: nat)
    requires Sorted(items)
    ensures PlacedAt(Inserted(items, x), k, x) && k <= |items|
    ensures Inserted(items, x) == items[..k] + [x] + items[k..]
    decreases |items|
  {
    k := |items|;
    if items != [] && x.timeout.deadline < items[|items| - 1].timeout.deadline {
      var init := items[..|items| - 1];
      k := InsertedPlace(init, x);
      assert items[..k] == init[..k] && items[k..] == init[k..] + [items[|items| - 1]];
    }
  }

  /** `multimap::erase(iterator)`. */
  function Erased(items: seq<Item>, handle: nat): (r: seq<Item>)
    ensures forall x :: x in r <==> x in items && x.handle != handle
  {
    if items == [] then []
    else
      var rest := Erased(items[1..], handle);
      assert forall x :: x in items <==> x == items[0] || x in items[1..];
      if items[0].handle == handle then rest else [items[0]] + rest
  }

  lemma ConsOrdered(x: Item, rest: seq<Item>)
    requires Sorted(rest) && Distinct(rest)
    requires forall y :: y in rest ==> x.timeout.deadline <= y.timeout.deadline && x.timer != y.timer
    ensures Sorted([x] + rest) && Distinct([x] + rest)
  {
    assert forall i :: 0 < i < |[x] + rest| ==> ([x] + rest)[i] == rest[i - 1] && rest[i - 1] in rest;
  }

  lemma FirstIsLeast(items: seq<Item>)
    requires Sorted(items) && Distinct(items) && items != []
    ensures Sorted(items[1..]) && Distinct(items[1..])
    ensures forall y :: y in items[1..] ==> items[0].timeout.deadline <= y.timeout.deadline && items[0].timer != y.timer
  {
  }

  lemma {:induction false} ErasedOrdered(items: seq<Item>, handle: nat)
    requires Sorted(items) && Distinct(items)
    ensures Sorted(Erased(items, handle)) && Distinct(Erased(items, handle))
  {
    if items != [] {
      FirstIsLeast(items);
      ErasedOrdered(items[1..], handle);
      ConsOrdered(items[0], Erased(items[1..], handle));
    }
  }

  /** The handle of each timer. */
  ghost function IndexOf(items: seq<Item>): map<TimerId, nat>
    requires Distinct(items)
  {
    map x | x in items :: x.timer := x.handle
  }

  /** Handles tell the elements apart: `issued` says for which timer each one was made. */
  predicate Handled(items: seq<Item>, issued: seq<TimerId>) {
    forall x :: x in items ==> x.handle < |issued| && issued[x.handle] == x.timer
  }

  /** The multimap is sorted, and the index designates its one entry of each timer. */
  ghost predicate Agree(queue: seq<Item>, index: map<TimerId, nat>, issued: seq<TimerId>) {
    Sorted(queue) && Distinct(queue) && Handled(queue, issued) && index == IndexOf(queue)
  }

  lemma IndexWithout(queue: seq<Item>, r: seq<Item>, timer: TimerId)
    requires Distinct(queue) && Distinct(r) && forall y :: y in r <==> y in queue && y.timer != timer
    ensures IndexOf(r) == IndexOf(queue) - {timer}
  {
  }

  lemma IndexWith(queue: seq<Item>, r: seq<Item>, x: Item)
    requires Distinct(queue) && Distinct(r) && (forall y :: y in r <==> y in queue || y == x)
    requires forall y :: y in queue ==> y.timer != x.timer
    ensures IndexOf(r) == IndexOf(queue)[x.timer := x.handle]
  {
  }

  lemma ErasedMembers(queue: seq<Item>, issued: seq<TimerId>, x: Item)
    requires Handled(queue, issued) && x in queue && forall y :: y in queue && y.timer == x.timer ==> y == x
    ensures forall y :: y in Erased(queue, x.handle) <==> y in queue && y.timer != x.timer
  {
  }

  /** The lookup and the two erasures that `schedule` and `cancel` share. */
  function Removed(queue: seq<Item>, index: map<TimerId, nat>, timer: TimerId): seq<Item> {
    if timer in index then Erased(queue, index[timer]) else queue
  }

  lemma RemovedAgree(queue: seq<Item>, index: map<TimerId, nat>, issued: seq<TimerId>, timer: TimerId)
    requires Agree(queue, index, issued)
    ensures Agree(Removed(queue, index, timer), index - {timer}, issued)
    ensures TableOf(Removed(queue, index, timer)) == TableOf(queue) - {timer}
  {
    if timer in index {
      var x :| x in queue && x.timer == timer;
      forall y | y in queue && y.timer == timer ensures y == x { DistinctUnique(queue, x, y); }
      ErasedMembers(queue, issued, x);
      ErasedOrdered(queue, x.handle);
      IndexWithout(queue, Removed(queue, index, timer), timer);
      TableWithout(queue, Removed(queue, index, timer), timer);
    } else {
      assert forall y :: y in queue ==> y.timer in IndexOf(queue);
      IndexWithout(queue, queue, timer);
      TableWithout(queue, queue, timer);
    }
  }

  lemma InsertedAgree(queue: seq<Item>, index: map<TimerId, nat>, issued: seq<TimerId>, x: Item)
    requires Agree(queue, index, issued) && x.timer !in index && x.handle == |issued|
    ensures Agree(Inserted(queue, x), index[x.timer := x.handle], issued + [x.timer])
    ensures TableOf(Inserted(queue, x)) == TableOf(queue)[x.timer := x.timeout]
  {
    assert forall y :: y in queue ==> y.timer in IndexOf(queue);
    InsertedOrdered(queue, x);
    IndexWith(queue, Inserted(queue, x), x);
    TableWith(queue, Inserted(queue, x), x);
  }

  lemma ScheduledAgree(queue: seq<Item>, index: map<TimerId, nat>, issued: seq<TimerId>, x: Item)
    requires Agree(queue, index, issued) && x.handle == |issued|
    ensures Agree(Inserted(Removed(queue, index, x.timer), x), index[x.timer := x.handle], issued + [x.timer])
    ensures TableOf(Inserted(Removed(queue, index, x.timer), x)) == TableOf(queue)[x.timer := x.timeout]
  {
    RemovedAgree(queue, index, issued, x.timer);
    InsertedAgree(Removed(queue, index, x.timer), index - {x.timer}, issued, x);
    assert (index - {x.timer})[x.timer := x.handle] == index[x.timer := x.handle];
    assert (TableOf(queue) - {x.timer})[x.timer := x.timeout] == TableOf(queue)[x.timer := x.timeout];
  }

  function TimersOf(items: seq<Item>): set<TimerId> { set x | x in items :: x.timer }

  lemma FirstTimer(due: seq<Item>, index: map<TimerId, nat>)
    requires due != []
    ensures index - {due[0].timer} - TimersOf(due[1..]) == index - TimersOf(due)
  {
    assert due == [due[0]] + due[1..];
    assert TimersOf(due) == {due[0].timer} + TimersOf(due[1..]);
  }

  lemma {:induction false} SuffixAgree(due: seq<Item>, late: seq<Item>, all: seq<Item>, index: map<TimerId, nat>,
                                       issued: seq<TimerId>)
    requires all == due + late && Agree(all, index, issued)
    ensures Agree(late, index - TimersOf(due), issued)
    decreases |due|
  {
    if due == [] {
      assert due + late == late && index - TimersOf(due) == index;
    } else {
      AgreeTail(all, index, issued);
      FirstTimer(due, index);
      SuffixAgree(due[1..], late, all[1..], index - {due[0].timer}, issued);
    }
  }

  lemma AgreeTail(queue: seq<Item>, index: map<TimerId, nat>, issued: seq<TimerId>)
    requires Agree(queue, index, issued) && queue != []
    ensures Agree(queue[1..], index - {queue[0].timer}, issued)
  {
    FirstIsLeast(queue);
    assert forall x :: x in queue <==> x == queue[0] || x in queue[1..];
    IndexWithout(queue, queue[1..], queue[0].timer);
  }

  /** A sorted table splits at the first timeout that is not due. */
  lemma PassTables(all: seq<Item>, due: seq<Item>, late: seq<Item>, now: int)
    requires all == due + late && Sorted(all) && Distinct(all)
    requires forall x :: x in due ==> x.timeout.deadline <= now
    requires late != [] ==> late[0].timeout.deadline > now
    ensures Sorted(due) && Distinct(due) && Distinct(late)
    ensures TableOf(due) == Due(TableOf(all), now) && TableOf(late) == Late(TableOf(all), now)
  {
    assert forall i :: 0 <= i < |due| ==> all[i] == due[i];
    assert forall i :: 0 <= i < |late| ==> all[|due| + i] == late[i];
    assert forall x :: x in late ==> x.timeout.deadline > now;
  }

  class TimerService {
    var queue: seq<Item>
    var index: map<TimerId, nat>
    var stopped: bool
    var issued: seq<TimerId>

    ghost predicate Valid()
      reads this
    {
      Agree(queue, index, issued) && (stopped ==> queue == [])
    }

    constructor ()
      ensures Valid() && !stopped && TableOf(queue) == map[]
    {
      queue, index, stopped, issued := [], map[], false, [];
    }

    method Schedule(timer: TimerId, timeout: Timeout)
      requires Valid()
      modifies this
      ensures Valid() && stopped == old(stopped)
      ensures TableOf(queue) == if stopped then TableOf(old(queue)) else TableOf(old(queue))[timer := timeout]
      ensures !stopped ==> exists k :: PlacedAt(queue, k, Item(timer, timeout, |old(issued)|))
    {
      if stopped {
        return;
      }
      var x := Item(timer, timeout, |issued|);
      ScheduledAgree(queue, index, issued, x);
      RemovedAgree(queue, index, issued, timer);
      var k := InsertedPlace(Removed(queue, index, timer), x);
      queue := Inserted(Removed(queue, index, timer), x);
      index, issued := index[timer := x.handle], issued + [timer];
    }

    method Cancel(timer: TimerId)
      requires Valid()
      modifies this`queue, this`index
      ensures Valid() && TableOf(queue) == TableOf(old(queue)) - {timer}
    {
      RemovedAgree(queue, index, issued, timer);
      queue, index := Removed(queue, index, timer), index - {timer};
    }

    method Stop()
      requires Valid()
      modifies this
      ensures Valid() && stopped && TableOf(queue) == map[]
    {
      stopped, queue, index := true, [], map[];
    }

    /** One pass of `run`: takes out exactly the timeouts due at `now`, in deadline order. */
    method TakeDue(now: int) returns (due: seq<Item>)
      requires Valid()
      modifies this`queue, this`index
      ensures Valid() && old(queue) == due + queue
      ensures Sorted(due) && Distinct(due)
      ensures TableOf(due) == Due(TableOf(old(queue)), now) && TableOf(queue) == Late(TableOf(old(queue)), now)
    {
      ghost var all, was := queue, index;
      due := TakeFront(now);
      SuffixAgree(due, queue, all, was, issued);
      PassTables(all, due, queue, now);
    }

    /** The loop of that pass. */
    method TakeFront(now: int) returns (due: seq<Item>)
      modifies this`queue, this`index
      ensures old(queue) == due + queue && index == old(index) - TimersOf(due)
      ensures forall x :: x in due ==> x.timeout.deadline <= now
      ensures queue != [] ==> queue[0].timeout.deadline > now
    {
      due := [];
      ghost var all, was := queue, index;
      while queue != [] && queue[0].timeout.deadline <= now
        invariant all == due + queue && index == was - TimersOf(due)
        invariant forall x :: x in due ==> x.timeout.deadline <= now
        decreases |queue|
      {
        index := index - {queue[0].timer};
        due := due + [queue[0]];
        queue := queue[1..];
      }
    }
  }
}
