/**
  When a periodic game event is on, and how long the scheduler may sleep.

  The window test and the sleep prediction both use C's remainder, whose sign
  follows the dividend; the dividend is negative while the leap-day shift has
  not yet elapsed. Products of 32-bit fields wrap, and every delay is cut to 32 bits.
 */
module EventWindow {
  import opened Basics

  const MINUTE: int := 60
  const DAY: int := 86400
  const MAX_CHECK_DELAY: nat := 86400
  const YEAR_LENGTH: nat := 525600

  datatype GameEvent = GameEvent(
    start: int, end: int, occurence: nat, length: nat, leapDays: nat, hardcoded: bool, disabled: bool)
  {
    predicate IsValid() { length > 0 }

    /** Seconds between two starts, and seconds the event lasts, as 32-bit products. */
    function Period(): nat { ToUint32(occurence * MINUTE) }
    function Duration(): nat { ToUint32(length * MINUTE) }

    /** Seconds since the shifted start; the dividend of both tests. */
    function Elapsed(t: int): int { t - start - leapDays * DAY }

    /**
      Neither the window nor the prediction divides by zero at time t; both look at the period only
      from start to end.
     */
    predicate DefinedAt(t: int) { Period() > 0 || t < start || end < t }

    /** Leap days are counted only for yearly events that are shorter than a year. */
    predicate Loaded() { leapDays > 0 ==> occurence == YEAR_LENGTH && 0 < length < YEAR_LENGTH }
  }

  /** No moment divides by zero exactly if the event has a period, or ends before it starts. */
  lemma DefinedIff(e: GameEvent)
    ensures (forall t :: e.DefinedAt(t)) <==> e.Period() > 0 || e.end < e.start
  {
    assert !(e.Period() > 0 || e.end < e.start) ==> !e.DefinedAt(e.start);
  }

  /** C's remainder, by the law it obeys: its sign follows the dividend. */
  function CRem(a: int, p: int): (r: int)
    requires p > 0
    ensures -p < r < p
    ensures a >= 0 ==> 0 <= r <= a
    ensures a <= 0 ==> a <= r <= 0
    decreases if a < 0 then -a else a
  {
    if a >= p then CRem(a - p, p)
    else if a <= -p then CRem(a + p, p)
    else a
  }

  predicate CheckOneGameEvent(e: GameEvent, now: int)
    requires e.DefinedAt(now)
  {
    e.start <= now < e.end && CRem(e.Elapsed(now), e.Period()) < e.Duration()
  }

  function NextCheck(e: GameEvent, now: int): (delay: nat)
    requires e.DefinedAt(now)
    ensures delay < UINT32_RANGE
    ensures now > e.end ==> delay == MAX_CHECK_DELAY
    ensures now < e.start <= e.end && e.start - now < UINT32_RANGE ==> now + delay == e.start
    ensures now <= e.end && e.start <= e.end && e.end - now < UINT32_RANGE ==> now + delay <= e.end
  {
    if now > e.end then MAX_CHECK_DELAY
    else if e.start > now then ToUint32(e.start - now)
    else
      var rem := CRem(e.Elapsed(now), e.Period());
      var delay := ToUint32((if rem < e.Duration() then e.Duration() else e.Period()) - rem);
      if e.end < now + delay then ToUint32(e.end - now) else delay
  }

  // ---- Remainder facts -------------------------------------------------------------------

  lemma OneMore(q: int, p: int)
    ensures (q + 1) * p == q * p + p
  {
  }

  /** CRem is the remainder of the division that truncates toward zero. */
  lemma {:induction false} CRemIsTruncated(a: int, p: int) returns (q: int)
    requires p > 0
    ensures a == q * p + CRem(a, p)
    ensures a >= 0 ==> q >= 0
    ensures a <= 0 ==> q <= 0
    decreases if a < 0 then -a else a
  {
    if a >= p {
      q := CRemIsTruncated(a - p, p);
      OneMore(q, p);
      q := q + 1;
    } else if a <= -p {
      q := CRemIsTruncated(a + p, p);
      OneMore(q - 1, p);
      q := q - 1;
    } else {
      q := 0;
    }
  }

  /** Moving forward inside one period of a non-negative dividend just adds to the remainder. */
  lemma {:induction false} RemForward(a: int, p: int, j: int)
    requires p > 0 && a >= 0 && 0 <= j && CRem(a, p) + j < p
    ensures CRem(a + j, p) == CRem(a, p) + j
    decreases a
  {
    if a >= p { RemForward(a - p, p, j); }
  }

  /** At the end of a period the remainder starts over. */
  lemma {:induction false} RemWraps(a: int, p: int)
    requires p > 0 && a >= 0
    ensures CRem(a - CRem(a, p) + p, p) == 0
    decreases a
  {
    if a >= p { RemWraps(a - p, p); }
  }

  /** A negative dividend short of its next multiple climbs towards it second by second. */
  lemma {:induction false} RemClimb(a: int, p: int, j: int)
    requires p > 0 && a < 0 && 0 <= j < -CRem(a, p)
    ensures CRem(a + j, p) == CRem(a, p) + j
    decreases -a
  {
    if a <= -p { RemClimb(a + p, p, j); }
  }

  /** One second past a negative multiple the remainder is negative again. */
  lemma {:induction false} RemLeavesZero(a: int, p: int)
    requires p > 1 && a < 0 && CRem(a, p) == 0
    ensures CRem(a + 1, p) < 0
    decreases -a
  {
    if a + p < 0 { RemLeavesZero(a + p, p); }
  }

  /** Within a window: the remainder stays below the duration for the rest of the window. */
  lemma RemStaysBelow(a: int, p: int, d: int, j: int)
    requires p > 0 && d > 0 && CRem(a, p) < d && 0 <= j < d - CRem(a, p)
    ensures CRem(a + j, p) < d
  {
    if a + j <= 0 || p <= d {
    } else if a >= 0 {
      RemForward(a, p, j);
    }
  }

  // ---- When an event is on -----------------------------------------------------------------

  /** When the k-th window opens, counted from the shifted start. */
  function Opens(e: GameEvent, k: nat): int { e.start + e.leapDays * DAY + k * e.Period() }

  /** From the shifted start on an event is on exactly within its windows, before its end. */
  lemma WindowIff(e: GameEvent, now: int)
    requires e.Period() > 0 && e.Elapsed(now) >= 0
    ensures CheckOneGameEvent(e, now) <==>
            e.start <= now < e.end && exists k :: k >= 0 && Opens(e, k) <= now < Opens(e, k) + e.Duration()
  {
    var p, d, a := e.Period(), e.Duration(), e.Elapsed(now);
    var q := CRemIsTruncated(a, p);
    assert now - Opens(e, q) == CRem(a, p);
    if k :| k >= 0 && Opens(e, k) <= now < Opens(e, k) + d {
      if d < p { SameWindow(k, q, p, d, a); }
    }
  }

  lemma SameWindow(k: nat, q: nat, p: nat, d: nat, a: int)
    requires k * p <= a < k * p + d && q * p <= a < q * p + p && d <= p
    ensures k == q
  {
    if k < q { Multiples(k, q, p); } else if q < k { Multiples(q, k, p); }
  }

  lemma Multiples(k: nat, q: nat, p: nat)
    requires k < q
    ensures k * p + p <= q * p
  {
    assert (q - k - 1) * p >= 0;
    assert q * p == k * p + p + (q - k - 1) * p;
  }

  /** Before its start and from its end on it is off. */
  lemma OffOutside(e: GameEvent, now: int)
    requires e.DefinedAt(now) && (now < e.start || e.end <= now)
    ensures !CheckOneGameEvent(e, now)
  {
  }

  // ---- The scheduler never sleeps over a change ------------------------------------------

  /** The event is on at t exactly if it is on now. */
  ghost predicate SameAt(e: GameEvent, now: int, t: int)
    requires e.DefinedAt(now)
  {
    e.DefinedAt(t) && CheckOneGameEvent(e, t) == CheckOneGameEvent(e, now)
  }

  /** Nothing changes before the predicted delay has passed. */
  ghost predicate Quiet(e: GameEvent, now: int)
    requires e.DefinedAt(now)
  {
    forall t :: now <= t < now + NextCheck(e, now) ==> SameAt(e, now, t)
  }

  /**
    No state change is slept over: until the predicted delay has passed, a loaded event is on
    exactly if it is on now. Holds with wrapped products and cut delays, and while the leap-day
    shift makes the dividend negative.
   */
  lemma NextCheckSound(e: GameEvent, now: int, t: int)
    requires e.Loaded() && e.DefinedAt(now) && now <= t < now + NextCheck(e, now)
    ensures SameAt(e, now, t)
  {
    LoadedIsNoticed(e, now);
    NextCheckSoundIff(e, now);
  }

  lemma PositiveLengthIsQuiet(e: GameEvent, now: int, t: int)
    requires e.DefinedAt(now) && e.Duration() > 0
    requires now <= t < now + NextCheck(e, now)
    ensures SameAt(e, now, t)
  {
    var p, d := e.Period(), e.Duration();
    if e.start <= now <= e.end {
      var a := e.Elapsed(now);
      var rem := CRem(a, p);
      var j := t - now;
      assert e.Elapsed(t) == a + j;
      if rem < d {
        assert j < d - rem;
        RemStaysBelow(a, p, d, j);
      } else {
        assert a >= 0 && j < p - rem;
        RemForward(a, p, j);
      }
      assert t < e.end;
    }
  }

  /**
    What would change unnoticed: an event whose duration has wrapped to zero while the shifted
    start is a whole, positive number of periods ahead.
   */
  predicate Unnoticed(e: GameEvent, now: int)
  {
    && e.Period() > 1
    && e.Duration() == 0
    && e.start <= now && now + 1 < e.end
    && e.Elapsed(now) < 0 && CRem(e.Elapsed(now), e.Period()) == 0
  }

  /** No event is loaded like that: only lengths below a year come with leap days. */
  lemma LoadedIsNoticed(e: GameEvent, now: int)
    requires e.Loaded()
    ensures !Unnoticed(e, now)
  {
  }

  lemma UnnoticedIsNotQuiet(e: GameEvent, now: int)
    requires Unnoticed(e, now)
    ensures !Quiet(e, now)
  {
    RemLeavesZero(e.Elapsed(now), e.Period());
    assert e.Elapsed(now + 1) == e.Elapsed(now) + 1;
    assert !SameAt(e, now, now + 1);
    assert NextCheck(e, now) > 1;
  }

  lemma ZeroLengthIsQuiet(e: GameEvent, now: int, t: int)
    requires e.DefinedAt(now) && e.Duration() == 0 && !Unnoticed(e, now)
    requires now <= t < now + NextCheck(e, now)
    ensures SameAt(e, now, t)
  {
    var p, a, j := e.Period(), e.Elapsed(now), t - now;
    assert e.Elapsed(t) == a + j;
    if e.start <= now <= e.end {
      if CRem(a, p) < 0 {
        RemClimb(a, p, j);
      } else if a >= 0 {
        RemForward(a, p, j);
      }
    }
  }

  /** Exactly when the prediction can be trusted, for any event at all and every moment. */
  lemma NextCheckSoundIff(e: GameEvent, now: int)
    requires e.DefinedAt(now)
    ensures Quiet(e, now) <==> !Unnoticed(e, now)
  {
    if Unnoticed(e, now) {
      UnnoticedIsNotQuiet(e, now);
    } else {
      forall t | now <= t < now + NextCheck(e, now)
        ensures SameAt(e, now, t)
      {
        if e.Duration() > 0 { PositiveLengthIsQuiet(e, now, t); } else { ZeroLengthIsQuiet(e, now, t); }
      }
    }
  }

  /** A loaded event of length zero is never on. */
  lemma EmptyIsOff(e: GameEvent, now: int)
    requires e.Loaded() && e.length == 0 && e.DefinedAt(now)
    ensures !CheckOneGameEvent(e, now)
  {
  }

  /** The delay really is the time to the next change, whenever nothing is cut or wrapped. */
  lemma NextCheckTight(e: GameEvent, now: int)
    requires 0 < e.Duration() < e.Period()
    requires e.start <= now && e.Elapsed(now) >= 0
    requires now + NextCheck(e, now) < e.end
    ensures NextCheck(e, now) > 0
    ensures CheckOneGameEvent(e, now + NextCheck(e, now)) == !CheckOneGameEvent(e, now)
  {
    var p, d, a := e.Period(), e.Duration(), e.Elapsed(now);
    var rem := CRem(a, p);
    var delay := NextCheck(e, now);
    assert e.Elapsed(now + delay) == a + delay;
    if rem < d {
      assert delay == d - rem;
      RemForward(a, p, delay);
    } else {
      assert delay == p - rem;
      RemWraps(a, p);
    }
  }

  /** Unless nothing changes before the end of the event: then the delay reaches exactly the end. */
  lemma NextCheckReaches(e: GameEvent, now: int)
    requires 0 < e.Duration() < e.Period()
    requires e.start <= now <= e.end && e.Elapsed(now) >= 0 && e.end - now < UINT32_RANGE
    ensures var t := now + NextCheck(e, now);
            t == e.end || (now < t < e.end && CheckOneGameEvent(e, t) == !CheckOneGameEvent(e, now))
  {
    if now + NextCheck(e, now) < e.end { NextCheckTight(e, now); }
  }

  /** Before its first start an event is off, and it turns on exactly at the predicted second. */
  lemma FirstStartExact(e: GameEvent, now: int)
    requires e.Period() > 0 && e.Duration() > 0
    requires now < e.start < e.end && e.start - now < UINT32_RANGE
    ensures !CheckOneGameEvent(e, now)
    ensures CheckOneGameEvent(e, now + NextCheck(e, now))
  {
  }
}
