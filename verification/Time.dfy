/** A monotonic clock, as `perf_counter` and `monotonic` read it. */
module Time {
  const MS_PER_SECOND := 1000.0

  /** It may advance by any amount before it is read; a sleep takes at least its time. */
  class Clock {
    var now: real

    constructor (start: real)
      ensures now == start
    {
      now := start;
    }

    method Read() returns (t: real)
      modifies this
      ensures t == now >= old(now)
    {
      var passed: real := *;
      if passed > 0.0 {
        now := now + passed;
      }
      t := now;
    }

    method Sleep(seconds: real)
      requires seconds >= 0.0
      modifies this
      ensures now >= old(now) + seconds
    {
      var late: real := *;
      now := now + seconds + if late > 0.0 then late else 0.0;
    }
  }
}
