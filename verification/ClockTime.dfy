/** Seconds and nanoseconds: the conversions the timing programs make, with C's division. */
module ClockTime {

  const BILLION: int := 1_000_000_000
  const MILLION: int := 1_000_000

  /** C's quotient and remainder, which truncate toward zero. */
  function Quot(a: int, b: int): int
    requires b > 0
  {
    if a >= 0 then a / b else -((-a) / b)
  }

  function Rest(a: int, b: int): int
    requires b > 0
  {
    a - b * Quot(a, b)
  }

  datatype Timespec = Timespec(sec: int, nsec: int)

  predicate Normalised(t: Timespec) { 0 <= t.nsec < BILLION }

  function ToNs(t: Timespec): int { t.sec * BILLION + t.nsec }

  function FromNs(ns: int): Timespec { Timespec(Quot(ns, BILLION), Rest(ns, BILLION)) }

  /** Any number of nanoseconds survives the trip through a timespec. */
  lemma NsRoundTrip(ns: int)
    ensures ToNs(FromNs(ns)) == ns
  {
    assert BILLION * Quot(ns, BILLION) == Quot(ns, BILLION) * BILLION;
  }

  /** The timespec is one the clock calls accept if and only if the time is not negative or is a
      whole number of seconds. */
  lemma FromNsNormalisedIff(ns: int)
    ensures 0 <= FromNs(ns).nsec < 1_000_000_000 <==> ns >= 0 || ns % 1_000_000_000 == 0
  {
    if ns < 0 {
      var q := (-ns) / BILLION;
      assert -ns == BILLION * q + (-ns) % BILLION;
      assert Rest(ns, BILLION) == -((-ns) % BILLION);
      assert ns == BILLION * (-q) - (-ns) % BILLION;
    }
  }

  /** The parts come back as they were exactly when they agree in sign and the second is below a second. */
  lemma PartsRoundTripIff(t: Timespec)
    ensures FromNs(ToNs(t)) == t <==>
      -BILLION < t.nsec < BILLION && (t.sec > 0 ==> t.nsec >= 0) && (t.sec < 0 ==> t.nsec <= 0)
  {
    var ns := ToNs(t);
    if ns >= 0 {
      assert ns == BILLION * (ns / BILLION) + ns % BILLION;
    } else {
      assert -ns == BILLION * ((-ns) / BILLION) + (-ns) % BILLION;
    }
  }

  /** timespec_diff_ns. */
  function Diff(start: Timespec, end: Timespec): int
  {
    (end.sec - start.sec) * BILLION + (end.nsec - start.nsec)
  }

  /** Differences of readings are differences of instants, and add up along a chain of readings. */
  lemma DiffIsElapsed(a: Timespec, b: Timespec, c: Timespec)
    ensures Diff(a, b) == ToNs(b) - ToNs(a)
    ensures Diff(a, b) + Diff(b, c) == Diff(a, c)
  {
  }

  // ------------------------------------------------------ abs_time_after_ms

  function AfterMs(now: Timespec, ms: int): Timespec
  {
    var sec := now.sec + Quot(ms, 1000);
    var nsec := now.nsec + Rest(ms, 1000) * MILLION;
    if nsec >= BILLION then Timespec(sec + 1, nsec - BILLION) else Timespec(sec, nsec)
  }

  /** The carry is right: the result is ms milliseconds later whatever the sign of ms, and it is
      normalised if and only if the milliseconds taken back do not reach below the current second. */
  lemma AfterMsIsLater(now: Timespec, ms: int)
    requires Normalised(now)
    ensures ToNs(AfterMs(now, ms)) == ToNs(now) + ms * 1_000_000
    ensures Normalised(AfterMs(now, ms)) <==> now.nsec + Rest(ms, 1000) * MILLION >= 0
    ensures ms >= 0 ==> Normalised(AfterMs(now, ms))
  {
    RestBounds(ms);
    assert ms == 1000 * Quot(ms, 1000) + Rest(ms, 1000);
  }

  lemma RestBounds(ms: int)
    ensures -1000 < Rest(ms, 1000) < 1000
    ensures ms >= 0 ==> Rest(ms, 1000) >= 0
  {
    if ms >= 0 {
      assert ms == 1000 * (ms / 1000) + ms % 1000;
    } else {
      assert -ms == 1000 * ((-ms) / 1000) + (-ms) % 1000;
    }
  }

  /** Adding with a carry and converting the sum give the same timespec. */
  lemma AfterMsIsConversion(now: Timespec, ms: int)
    requires Normalised(now) && now.sec >= 0 && ms >= 0
    ensures AfterMs(now, ms) == FromNs(ToNs(now) + ms * MILLION)
  {
    AfterMsIsLater(now, ms);
    PartsRoundTripIff(AfterMs(now, ms));
  }

  /** A timespec that is updated in place. */
  class TimespecCell {
    var sec: int
    var nsec: int

    ghost function Value(): Timespec
      reads this
    {
      Timespec(sec, nsec)
    }

    constructor ()
      ensures Value() == Timespec(0, 0)
    {
      sec, nsec := 0, 0;
    }

    /** abs_time_after_ms, with the clock reading as an argument. */
    method AbsTimeAfterMs(now: Timespec, ms: int)
      modifies this
      ensures Value() == AfterMs(now, ms)
    {
      sec, nsec := now.sec, now.nsec;
      sec := sec + Quot(ms, 1000);
      var addNs := Rest(ms, 1000) * MILLION;
      nsec := nsec + addNs;
      if nsec >= BILLION {
        sec := sec + 1;
        nsec := nsec - BILLION;
      }
    }

    /** ns_to_timespec. */
    method SetNs(ns: int)
      modifies this
      ensures Value() == FromNs(ns)
    {
      sec := Quot(ns, BILLION);
      nsec := Rest(ns, BILLION);
    }
  }
}
