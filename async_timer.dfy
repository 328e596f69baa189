/** The countdown timer. `unsigned long` is 32 bits wide on the ESP32, so elapsed time
    is computed modulo 2^32; the current time (`millis()`) is a parameter. */
module AsyncTimer {
  import opened CanTypes

  const Two32 := 0x1_0000_0000

  class AsyncTimer {
    var duration: uint32
    var start: uint32
    var isActive: bool

    /** `AsyncTimer(duration = 0)`: inactive, started at time 0. */
    constructor (duration: uint32 := 0)
      ensures this.duration == duration && start == 0 && !isActive
    {
      this.start := 0;
      this.duration := duration;
      this.isActive := false;
    }

    /** `Start(duration)`: arm the timer for `duration` ms from `now`. */
    method StartFor(duration: uint32, now: uint32)
      modifies this
      ensures isActive && this.duration == duration && start == now
    {
      isActive := true;
      this.duration := duration;
      start := now;
    }

    /** `Start()`: re-arm with the stored duration. */
    method Start(now: uint32)
      modifies this
      ensures isActive && duration == old(duration) && start == now
    {
      StartFor(duration, now);
    }

    /** `Stop()`: only the active flag changes. */
    method Stop()
      modifies this`isActive
      ensures !isActive && duration == old(duration) && start == old(start)
    {
      isActive := false;
    }

    function IsActive(): bool
      reads this
    {
      isActive
    }

    /** `millis() - m_start` in unsigned 32-bit arithmetic. */
    function Elapsed(now: uint32): (e: uint32)
      reads this
      ensures now >= start ==> e == now - start
      ensures now < start ==> e == now + Two32 - start
    {
      Wrap32(now - start)
    }

    /** `RanOut()`: strictly more than `duration` ms have passed since the start, counted
        modulo 2^32; the active flag is not consulted. */
    function RanOut(now: uint32): (r: bool)
      reads this
      ensures r <==> (now - start) % Two32 > duration
    {
      if Elapsed(now) > duration then true else false
    }

    /** `GetTimeLeft()`: `max(0, int32(duration) - int32(elapsed))`. The subtraction of the
        two `int32_t` values is taken modulo 2^32, as the hardware computes it. */
    function GetTimeLeft(now: uint32): (r: uint32)
      reads this
      ensures r < 0x8000_0000
      ensures Elapsed(now) <= duration < 0x8000_0000 ==> r == duration - Elapsed(now)
      ensures duration <= Elapsed(now) < 0x8000_0000 ==> r == 0
    {
      var left := ToInt32(ToInt32(duration) - ToInt32(Elapsed(now)));
      if 0 > left then 0 else left
    }
  }

  /** A new timer has not run out at time 0 and has its whole duration left, as long as
      the duration is below 2^31. */
  lemma NewTimerAtStart(t: AsyncTimer)
    requires t.start == 0 && t.duration < 0x8000_0000
    ensures !t.RanOut(0) && t.GetTimeLeft(0) == t.duration
  {
  }

  /** At the very tick where the elapsed time equals the duration, no time is left and yet
      the timer has not run out (the comparison is strict). */
  lemma BoundaryTick(t: AsyncTimer, now: uint32)
    requires t.Elapsed(now) == t.duration
    ensures t.GetTimeLeft(now) == 0 && !t.RanOut(now)
  {
  }

  /** Before the duration is reached the two queries agree: not run out, and the time left
      is what remains of the duration. */
  lemma BeforeDuration(t: AsyncTimer, now: uint32)
    requires t.Elapsed(now) < t.duration < 0x8000_0000
    ensures !t.RanOut(now) && t.GetTimeLeft(now) == t.duration - t.Elapsed(now) > 0
  {
  }

  /** After the duration (and within 2^31 ms) the timer has run out and no time is left. */
  lemma AfterDuration(t: AsyncTimer, now: uint32)
    requires t.duration < t.Elapsed(now) < 0x8000_0000
    ensures t.RanOut(now) && t.GetTimeLeft(now) == 0
  {
  }

  /** Elapsed time survives the wrap of `millis()` past 2^32. */
  lemma ElapsedAcrossWrap(t: AsyncTimer, now: uint32)
    requires t.start == Two32 - 10 && now == 5
    ensures t.Elapsed(now) == 15
  {
  }

  /** From 2^31 ms elapsed on, the signed conversion makes the elapsed time negative. The
      timer has run out, and the time left is 0 up to 2^31 + `duration` ms; beyond that
      the wrapped difference turns positive and `GetTimeLeft` reports time left although
      the timer has run out. */
  lemma LongElapsedDisagreement(t: AsyncTimer, now: uint32)
    requires t.duration < 0x8000_0000 <= t.Elapsed(now)
    ensures t.RanOut(now)
    ensures t.Elapsed(now) <= 0x8000_0000 + t.duration ==> t.GetTimeLeft(now) == 0
    ensures 0x8000_0000 + t.duration < t.Elapsed(now) ==>
      t.GetTimeLeft(now) == t.duration + Two32 - t.Elapsed(now) > 0
  {
  }
}
