/** The profiler's per-thread ring: one producer pushes, one consumer drains, and one slot stays empty. */
module TraceBuffers {

  /** The elements from `tail` up to `head`, going round the end. */
  ghost function Between<T>(data: seq<T>, tail: nat, head: nat): seq<T>
    requires tail < |data| && head < |data|
  {
    if tail <= head then data[tail..head] else data[tail..] + data[..head]
  }

  lemma Successor(i: nat, n: nat)
    requires i < n
    ensures (i + 1) % n == if i + 1 == n then 0 else i + 1
  {
    if i + 1 < n { SmallMod(i + 1, n); }
  }

  lemma SmallMod(i: nat, n: nat)
    requires i < n
    ensures i % n == i
  {
  }

  lemma OneMore<T>(data: seq<T>, tail: nat, head: nat, e: T, next: nat)
    requires tail < |data| && head < |data| && next == (if head + 1 == |data| then 0 else head + 1)
    ensures next == tail <==> |Between(data, tail, head)| == |data| - 1
    ensures next != tail ==> Between(data[head := e], tail, next) == Between(data, tail, head) + [e]
  {
  }

  lemma OneLess<T>(data: seq<T>, tail: nat, head: nat, next: nat)
    requires tail < |data| && head < |data| && tail != head && next == (if tail + 1 == |data| then 0 else tail + 1)
    ensures Between(data, tail, head) == [data[tail]] + Between(data, next, head)
  {
  }

  /** One turn of the drain loop. */
  lemma DrainNext<T>(all: seq<T>, data: seq<T>, tail: nat, head: nat, next: nat, goal: seq<T>)
    requires tail < |data| && head < |data| && tail != head && next == (if tail + 1 == |data| then 0 else tail + 1)
    requires all + Between(data, tail, head) == goal
    ensures all + [data[tail]] + Between(data, next, head) == goal
    ensures |Between(data, next, head)| < |Between(data, tail, head)|
  {
    OneLess(data, tail, head, next);
  }

  lemma NothingBetween<T>(all: seq<T>, data: seq<T>, at: nat)
    requires at < |data|
    ensures Between(data, at, at) == [] && all + Between(data, at, at) == all
  {
  }

  class TraceBuffer<Event> {
    const data: array<Event>
    var head: nat
    var tail: nat

    ghost predicate Valid()
      reads this
    {
      head < data.Length && tail < data.Length
    }

    ghost function Contents(): seq<Event>
      reads this, data
      requires Valid()
    {
      Between(data[..], tail, head)
    }

    constructor (capacity: nat, blank: Event)
      requires capacity > 0
      ensures Valid() && fresh(data) && data.Length == capacity && Contents() == []
    {
      data := new Event[capacity](_ => blank);
      head, tail := 0, 0;
    }

    method Advance(i: nat) returns (next: nat)
      requires i < data.Length
      ensures next == if i + 1 == data.Length then 0 else i + 1
    {
      Successor(i, data.Length);
      next := (i + 1) % data.Length;
    }

    /** Refused only when one slot is left. */
    method Push(e: Event) returns (ok: bool)
      requires Valid()
      modifies this`head, data
      ensures Valid() && ok == (|old(Contents())| < data.Length - 1)
      ensures Contents() == if ok then old(Contents()) + [e] else old(Contents())
    {
      var next := Advance(head);
      OneMore(data[..], tail, head, e, next);
      if next == tail {
        return false;
      }
      ghost var was := data[..];
      data[head] := e;
      assert data[..] == was[head := e];
      head := next;
      ok := true;
    }

    method Drain(out: seq<Event>) returns (all: seq<Event>)
      requires Valid()
      modifies this`tail
      ensures Valid() && Contents() == []
      ensures all == out + old(Contents())
    {
      all := out;
      var t: nat := tail;
      ghost var goal := out + Contents();
      while t != head
        invariant t < data.Length && Valid()
        invariant all + Between(data[..], t, head) == goal
        decreases |Between(data[..], t, head)|
      {
        var next := Advance(t);
        DrainNext(all, data[..], t, head, next, goal);
        all := all + [data[t]];
        t := next;
      }
      NothingBetween(all, data[..], t);
      tail := t;
    }
  }
}
