/** The native `Profiler`: a stack of monotonic time stamps. `start` pushes
    the current time, `stopAndGetInterval` pops the most recent stamp and
    returns the milliseconds elapsed since it. The clock is not read here:
    each call is given the time `now` the clock would have returned. */
module Profiler {

  /** A `timespec`: whole seconds and nanoseconds. */
  datatype Timespec = Timespec(sec: int, nsec: int)

  /** The instant a stamp denotes, in nanoseconds. */
  function Nanos(t: Timespec): int
  {
    t.sec * 1_000_000_000 + t.nsec
  }

  /** The interval `stopAndGetInterval` computes: the second difference times
      1000 plus the nanosecond difference over 10^6 (exact reals here).
      It is the nanosecond difference of the two instants in milliseconds,
      whatever the split between `sec` and `nsec`. */
  function IntervalMs(prev: Timespec, now: Timespec): (ms: real)
    ensures ms * 1_000_000.0 == (Nanos(now) - Nanos(prev)) as real
    ensures ms >= 0.0 <==> Nanos(prev) <= Nanos(now)
    ensures ms == 0.0 <==> Nanos(prev) == Nanos(now)
  {
    (now.sec - prev.sec) as real * 1000.0 + (now.nsec - prev.nsec) as real / 1_000_000.0
  }

  class Profiler {
    /** `mTimespecs`, bottom first: the last element is the top. */
    var timespecs: seq<Timespec>

    /** The clock is monotonic at `now`: no stamp on the stack is later. */
    ghost predicate MonotonicAt(now: Timespec)
      reads this
    {
      forall i :: 0 <= i < |timespecs| ==> Nanos(timespecs[i]) <= Nanos(now)
    }

    /** A new profiler has nothing on its stack. */
    constructor ()
      ensures timespecs == []
    {
      timespecs := [];
    }

    /** How many `start`s are still waiting for their `stopAndGetInterval`. */
    function Depth(): (n: nat)
      reads this
      ensures n == |timespecs|
    {
      |timespecs|
    }

    /** `start`: pushes exactly the current time. */
    method Start(now: Timespec)
      modifies this
      ensures timespecs == old(timespecs) + [now]
      ensures Depth() == old(Depth()) + 1
    {
      timespecs := timespecs + [now];
    }

    /** `stopAndGetInterval`: pops exactly the top stamp and measures from it
        to `now`. Popping an empty `std::stack` is undefined, hence the
        precondition. With a monotonic clock the interval is never negative. */
    method StopAndGetInterval(now: Timespec) returns (ms: real)
      requires timespecs != []
      modifies this
      ensures timespecs == old(timespecs[..|timespecs| - 1])
      ensures Depth() == old(Depth()) - 1
      ensures ms == IntervalMs(old(timespecs[|timespecs| - 1]), now)
      ensures old(MonotonicAt(now)) ==> ms >= 0.0
    {
      var prev := timespecs[|timespecs| - 1];
      timespecs := timespecs[..|timespecs| - 1];
      ms := IntervalMs(prev, now);
    }
  }

  /** Nested profiling on one profiler, which the stack allows (the native
      detectors themselves only use sequential start/stop pairs): two
      `start`s at t0 and t1, then two stops at t2 and t3. The stops pair with
      the starts last-in first-out, the stack ends empty, and with a
      monotonic clock the inner interval never exceeds the outer one. */
  method NestedIntervals(t0: Timespec, t1: Timespec, t2: Timespec, t3: Timespec)
    returns (inner: real, outer: real, depth: nat)
    ensures inner == IntervalMs(t1, t2)
    ensures outer == IntervalMs(t0, t3)
    ensures depth == 0
    ensures Nanos(t0) <= Nanos(t1) <= Nanos(t2) <= Nanos(t3) ==> 0.0 <= inner <= outer
  {
    var profiler := new Profiler();
    profiler.Start(t0);
    profiler.Start(t1);
    inner := profiler.StopAndGetInterval(t2);
    outer := profiler.StopAndGetInterval(t3);
    depth := profiler.Depth();
  }
}
