/** Deadlines and what is left of them (lib/lmsgQLib.c:1072-1093, 1176-1186; lib/lsemLib.c:481-492, 631-640). */
module Timeouts {

  /** gettimeofday and struct timespec. */
  datatype Timeval = Timeval(sec: int, usec: int) {
    predicate Valid() { 0 <= usec < 1_000_000 }

    function Micros(): int { sec * 1_000_000 + usec }
  }

  datatype Timespec = Timespec(sec: int, nsec: int) {
    /** A whole number of microseconds, up to and including a full second. */
    predicate Whole() { 0 <= nsec <= 1_000_000_000 && nsec % 1000 == 0 }

    function Micros(): int { sec * 1_000_000 + nsec / 1000 }
  }

  /** What a 32-bit int makes of `x`. */
  function Int32(x: int): (r: int)
    ensures -0x8000_0000 <= r < 0x8000_0000
  {
    (x + 0x8000_0000) % 0x1_0000_0000 - 0x8000_0000
  }

  /** `max_wait * V2PT_TICK * 1000`, in an int. */
  function Product(wait: int): int { Int32(Int32(wait * 10) * 1000) }

  /**
    The deadline `wait` ticks of 10 ms from `now`; the carry is taken only above a full second, and an
    overflown product counts backwards.
  */
  function Deadline(now: Timeval, wait: int): Timespec {
    var usec := Product(wait) + now.usec;
    if usec > 1_000_000
    then Timespec(now.sec + usec / 1_000_000, usec % 1_000_000 * 1000)
    else Timespec(now.sec, usec * 1000)
  }

  /** The product is exact, for a wait that is not negative, up to 214748 ticks and no further. */
  lemma ProductFits(wait: nat)
    requires wait <= 0x7fff_ffff
    ensures Product(wait) == 10_000 * wait <==> wait <= 214_748
  {
    if wait > 214_748 { assert 10_000 * wait > 0x7fff_ffff; }
  }

  /** Whatever the product has become, the deadline is that many microseconds from now. */
  lemma DeadlineOf(now: Timeval, wait: int)
    requires now.Valid()
    ensures Deadline(now, wait).Micros() == now.Micros() + Product(wait)
    ensures Product(wait) >= 0 ==> Deadline(now, wait).Whole()
    ensures Product(wait) >= 0 ==>
              (Deadline(now, wait).nsec == 1_000_000_000 <==> now.usec + Product(wait) == 1_000_000)
  {
    hide Product;
    var usec := Product(wait) + now.usec;
    Thousands(usec);
    Thousands(usec % 1_000_000);
    assert usec == usec / 1_000_000 * 1_000_000 + usec % 1_000_000;
  }

  lemma Thousands(x: int)
    ensures x * 1000 % 1000 == 0 && x * 1000 / 1000 == x
  {}

  /**
    The deadline of a wait is exact if and only if the wait is of 214748 ticks at most; its nanoseconds
    are then out of range exactly when the carry is missed.
  */
  lemma DeadlineIsExact(now: Timeval, wait: nat)
    requires now.Valid() && wait <= 0x7fff_ffff
    ensures Deadline(now, wait).Micros() == now.Micros() + 10_000 * wait <==> wait <= 214_748
    ensures wait <= 214_748 ==>
              && Deadline(now, wait).Whole()
              && (Deadline(now, wait).nsec == 1_000_000_000 <==> now.usec + 10_000 * wait == 1_000_000)
  {
    DeadlineOf(now, wait);
    ProductFits(wait);
  }

  /** The queue's two branches: borrow a second if the nanoseconds are behind. */
  function Remaining(timeout: Timespec, now: Timeval): int {
    if timeout.nsec > now.usec * 1000 then
      var usec := (timeout.nsec - now.usec * 1000) / 1000;
      if timeout.sec < now.sec then 0 else usec + (timeout.sec - now.sec) * 1_000_000
    else
      var usec := (timeout.nsec + 1_000_000_000 - now.usec * 1000) / 1000;
      if timeout.sec - 1 < now.sec then 0 else usec + (timeout.sec - 1 - now.sec) * 1_000_000
  }

  /** time_expired of the semaphores. */
  predicate Expired(timeout: Timespec, now: Timeval) {
    if timeout.sec < now.sec then true
    else if timeout.sec > now.sec then false
    else timeout.nsec <= now.usec * 1000
  }

  /** The queue computes the time left, and none when the deadline has passed. */
  lemma RemainingIsTimeLeft(timeout: Timespec, now: Timeval)
    requires timeout.Whole() && now.Valid()
    ensures Remaining(timeout, now) ==
            if timeout.Micros() > now.Micros() then timeout.Micros() - now.Micros() else 0
  {
    var k := timeout.nsec / 1000;
    assert timeout.nsec == k * 1000;
    assert (timeout.nsec - now.usec * 1000) / 1000 == k - now.usec;
    assert (timeout.nsec + 1_000_000_000 - now.usec * 1000) / 1000 == k + 1_000_000 - now.usec;
  }

  /** Queues and semaphores agree on when a deadline has passed. */
  lemma ExpiredIffNothingLeft(timeout: Timespec, now: Timeval)
    requires timeout.Whole() && now.Valid()
    ensures Expired(timeout, now) <==> Remaining(timeout, now) == 0
  {
    RemainingIsTimeLeft(timeout, now);
    var k := timeout.nsec / 1000;
    assert timeout.nsec == k * 1000;
  }

  /** For queues and semaphores alike, the wait is over exactly from `wait` ticks after `start` on. */
  predicate OverAsAsked(start: Timeval, wait: nat, now: Timeval) {
    var due := now.Micros() >= start.Micros() + 10_000 * wait;
    (Expired(Deadline(start, wait), now) <==> due) && (Remaining(Deadline(start, wait), now) == 0 <==> due)
  }

  lemma OverInTime(start: Timeval, wait: nat, now: Timeval)
    requires start.Valid() && now.Valid() && wait <= 214_748
    ensures OverAsAsked(start, wait, now)
  {
    DeadlineIsExact(start, wait);
    RemainingIsTimeLeft(Deadline(start, wait), now);
    ExpiredIffNothingLeft(Deadline(start, wait), now);
  }

  /** A longer wait is over too early: at the start, or when the overflown product says. */
  lemma OverTooEarly(start: Timeval, wait: nat) returns (now: Timeval)
    requires start.Valid() && 214_748 < wait <= 0x7fff_ffff
    ensures now.Valid() && !OverAsAsked(start, wait, now)
  {
    hide Product;
    var p, d := Product(wait), Deadline(start, wait);
    DeadlineOf(start, wait);
    if p < 0 {
      now := start;
    } else {
      var m := start.usec + p;
      now := Timeval(start.sec + m / 1_000_000, m % 1_000_000);
      assert now.Micros() == start.Micros() + p;
      RemainingIsTimeLeft(d, now);
      ExpiredIffNothingLeft(d, now);
      ProductIsInt(wait);
    }
  }

  lemma ProductIsInt(wait: int)
    ensures Product(wait) <= 0x7fff_ffff
  {}

  /** A wait is over exactly when it should be, whenever one looks, if and only if it is of 214748 ticks at most. */
  lemma WaitsExactly(start: Timeval, wait: nat)
    requires start.Valid() && wait <= 0x7fff_ffff
    ensures (forall now: Timeval :: now.Valid() ==> OverAsAsked(start, wait, now)) <==> wait <= 214_748
  {
    hide OverAsAsked;
    if wait <= 214_748 {
      forall now: Timeval | now.Valid()
        ensures OverAsAsked(start, wait, now)
      {
        OverInTime(start, wait, now);
      }
    } else {
      var now := OverTooEarly(start, wait);
    }
  }
}
