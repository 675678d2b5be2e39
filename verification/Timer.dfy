/** The state of a timer under its own mutex: the locked part of each member function of `Timer.cpp`. */
module Timers {

  function SanitizeInterval(interval: int): (r: nat)
    ensures interval >= 0 ==> r == interval
    ensures interval < 0 ==> r == 0
  {
    if interval < 0 then 0 else interval
  }

  /** The fields that m_mutex protects, without the interval. */
  datatype Core = Core(active: bool, gen: nat, singleShot: bool, deadline: int)
  {
    /** Every start is a new generation: timeouts of older ones are void. */
    function Restarted(d: int): Core { this.(active := true, gen := gen + 1, deadline := d) }

    function Stopped(): Core { this.(active := false, gen := gen + 1) }

    /** A timeout of generation `g` is emitted only if the timer has not been stopped or restarted since. */
    predicate Accepts(g: nat) { active && g == gen }

    /** What an accepted timeout leaves. */
    function Fired(d: int): Core { if singleShot then Stopped() else Restarted(d) }

    /** A timeout of the current generation is for the current deadline, and the timer is active. */
    predicate Current(g: nat, d: int) { g <= gen && (g == gen ==> active && d == deadline) }
  }

  class Timer {
    var active: bool
    var generation: nat
    var singleShot: bool
    var deadline: int
    var interval: int

    ghost function Data(): Core
      reads this
    {
      Core(active, generation, singleShot, deadline)
    }

    constructor ()
      ensures Data() == Core(false, 0, false, 0) && interval == 0
    {
      active, generation, singleShot, deadline, interval := false, 0, false, 0, 0;
    }

    /** `start(interval)`; returns what is scheduled on the owner. */
    method Start(newInterval: int, now: int) returns (gen: nat, due: int)
      modifies this
      ensures Data() == old(Data()).Restarted(now + interval) && interval == SanitizeInterval(newInterval)
      ensures active && gen == generation > old(generation) && singleShot == old(singleShot)
      ensures due == deadline == now + (if newInterval < 0 then 0 else newInterval)
      ensures forall g :: Data().Accepts(g) <==> g == gen
    {
      interval := SanitizeInterval(newInterval);
      active, generation, deadline := true, generation + 1, now + interval;
      gen, due := generation, deadline;
    }

    method Stop()
      modifies this
      ensures Data() == old(Data()).Stopped() && interval == old(interval) && singleShot == old(singleShot)
      ensures !active && generation > old(generation)
      ensures forall g :: !Data().Accepts(g)
    {
      active, generation := false, generation + 1;
    }

    /** Restarts a running timer with its new interval; returns whether it has to be scheduled. */
    method SetInterval(newInterval: int, now: int) returns (reschedule: bool, gen: nat, due: int)
      modifies this
      ensures interval == SanitizeInterval(newInterval) && reschedule == old(active)
      ensures Data() == if reschedule then old(Data()).Restarted(now + interval) else old(Data())
      ensures reschedule ==> active && gen == generation > old(generation)
      ensures reschedule ==> due == deadline == now + (if newInterval < 0 then 0 else newInterval)
      ensures !reschedule ==> !active && generation == old(generation) && deadline == old(deadline)
      ensures singleShot == old(singleShot)
    {
      reschedule, gen, due := false, 0, 0;
      interval := SanitizeInterval(newInterval);
      if active {
        reschedule := true;
        generation, deadline := generation + 1, now + interval;
        gen, due := generation, deadline;
      }
    }

    /** `dispatchTimeout`: a periodic timer starts its next generation before the signal is emitted. */
    method DispatchTimeout(g: nat, now: int) returns (emits: bool, reschedule: bool, gen: nat, due: int)
      modifies this
      ensures emits == (old(active) && g == old(generation)) && reschedule == (emits && !old(singleShot))
      ensures Data() == if emits then old(Data()).Fired(now + SanitizeInterval(interval)) else old(Data())
      ensures interval == old(interval) && singleShot == old(singleShot)
      ensures reschedule ==> active && gen == generation == g + 1
      ensures reschedule ==> due == deadline == now + (if interval < 0 then 0 else interval)
      ensures emits && singleShot ==> !active && generation > g
    {
      emits, reschedule, gen, due := false, false, 0, 0;
      if !active || g != generation {
        return;
      }
      emits := true;
      if singleShot {
        active, generation := false, generation + 1;
      } else {
        reschedule := true;
        generation := generation + 1;
        deadline := now + SanitizeInterval(interval);
        gen, due := generation, deadline;
      }
    }
  }
}
