/** lib/pacer.go: when the next hit is due. */
module Pacer {
  import opened GoInt

  /** What one call of Pace does. `Fault` is an integer division by zero; `Unspecified` marks the
      float to integer conversions whose outcome Go leaves to the platform. */
  datatype Pace = Wait(nanos: int) | Stop | Fault | Unspecified

  /** A ConstantPacer: `freq` hits every `per` nanoseconds. */
  datatype Constant = Constant(freq: int, per: int) {

    predicate Wellformed() { IsInt64(freq) && IsInt64(per) }

    /** A rate of at most one hit per nanosecond. */
    predicate Sane() { Wellformed() && 0 < freq <= per }

    function Interval(): (i: int)
      requires freq != 0
    {
      Quo(per, freq)
    }

    function ExpectedHits(elapsed: int): (n: int)
      requires per != 0
      ensures IsUint64(n)
    {
      Uint64(Uint64(freq) * Uint64(Quo(elapsed, per)))
    }

    function Pace(elapsed: int, hits: int): (p: Pace)
      requires IsInt64(elapsed) && IsUint64(hits) && Wellformed()
    {
      if per == 0 || freq == 0 then Wait(0)
      else if per < 0 || freq < 0 then Stop
      else if hits < ExpectedHits(elapsed) then Wait(0)
      else
        var interval := Uint64(Interval());
        if interval == 0 then Fault
        else if MAX_INT64 / interval < hits then Stop
        else
          var delta := Int64(Uint64(Uint64(hits + 1) * interval));
          Wait(Int64(delta - elapsed))
    }
  }

  /** How long time.Sleep sleeps: zero and negative durations return at once. */
  function Slept(wait: int): int { Max(0, wait) }

  /** The one-line schedule: hit number `hits`, counted from 0, is due at (hits+1)*(per/freq). */
  function Due(cp: Constant, elapsed: int, hits: int): int
    requires cp.freq != 0
  {
    (hits + 1) * cp.Interval() - elapsed
  }

  // ------------------------------------------------------------------ constant rate

  lemma {:induction false} IntervalBounds(cp: Constant)
    requires cp.Sane()
    ensures 1 <= cp.Interval() <= cp.per
    ensures cp.freq * cp.Interval() <= cp.per
  {
    var i := cp.Interval();
    assert cp.per == cp.freq * i + cp.per % cp.freq;
    if i < 1 { MulLe(i, 0, cp.freq); assert false; }
    MulLe(1, cp.freq, i);
  }

  /** Without a rate there is no limit, and a negative one stops the attack at once. */
  lemma {:induction false} WithoutARate(cp: Constant, elapsed: int, hits: int)
    requires cp.Wellformed() && IsInt64(elapsed) && IsUint64(hits) && (cp.freq <= 0 || cp.per <= 0)
    ensures cp.Pace(elapsed, hits) == if cp.freq == 0 || cp.per == 0 then Wait(0) else Stop
  {
  }

  /** The interval is the largest number of nanoseconds of which `freq` fit into `per`. */
  lemma {:induction false} IntervalIsFloor(cp: Constant)
    requires cp.Sane()
    ensures cp.freq * cp.Interval() <= cp.per < cp.freq * (cp.Interval() + 1)
  {
    IntervalBounds(cp);
    QuoTruncates(cp.per, cp.freq);
    assert cp.freq * (cp.Interval() + 1) == cp.Interval() * cp.freq + cp.freq;
  }

  /** `expectedHits` never overflows at a sane rate, and the hits it counts were all due. */
  lemma {:induction false} ExpectedHitsWereDue(cp: Constant, elapsed: int)
    requires cp.Sane() && IsInt64(elapsed) && 0 <= elapsed
    ensures cp.ExpectedHits(elapsed) == cp.freq * (elapsed / cp.per)
    ensures cp.ExpectedHits(elapsed) * cp.Interval() <= elapsed
  {
    var q := elapsed / cp.per;
    var i := cp.Interval();
    assert elapsed == cp.per * q + elapsed % cp.per;
    assert q >= 0 by { if q < 0 { MulLe(q, -1, cp.per); } }
    MulLe(cp.freq, cp.per, q);
    MulLe(0, cp.freq, q);
    MulLe(1, cp.per, q);
    IntervalBounds(cp);
    MulLe(cp.freq * i, cp.per, q);
    assert (cp.freq * q) * i == (cp.freq * i) * q;
  }

  /** Pace stops exactly when it is not behind and the hits already sent fill the int64 range. */
  lemma {:induction false} StopsExactlyAtOverflow(cp: Constant, elapsed: int, hits: int)
    requires cp.Sane() && IsInt64(elapsed) && 0 <= elapsed && IsUint64(hits)
    ensures cp.Pace(elapsed, hits).Wait? || cp.Pace(elapsed, hits).Stop?
    ensures cp.Pace(elapsed, hits).Stop? <==>
            hits >= cp.freq * (elapsed / cp.per) && hits * cp.Interval() > MAX_INT64
  {
    IntervalBounds(cp);
    ExpectedHitsWereDue(cp, elapsed);
    var i := cp.Interval();
    QuotientBound(MAX_INT64, i, hits);
  }

  /** The waiting branch, with its conversions. */
  lemma {:induction false} PaceWaits(cp: Constant, elapsed: int, hits: int)
    requires cp.Sane() && IsInt64(elapsed) && 0 <= elapsed && IsUint64(hits) && 1 <= cp.Interval() <= MAX_INT64
    requires hits >= cp.ExpectedHits(elapsed) && hits * cp.Interval() <= MAX_INT64
    ensures cp.Pace(elapsed, hits) ==
            Wait(Int64(Int64(Uint64(Uint64(hits + 1) * cp.Interval())) - elapsed))
  {
    QuotientBound(MAX_INT64, cp.Interval(), hits);
  }

  lemma {:induction false} WrapsCancel(i: int, elapsed: int, hits: int)
    requires 1 <= i <= MAX_INT64 && 0 <= hits <= hits * i <= MAX_INT64
    ensures Int64(Int64(Uint64(Uint64(hits + 1) * i)) - elapsed) == Int64((hits + 1) * i - elapsed)
  {
    var d := (hits + 1) * i;
    assert d == hits * i + i;
    WrapIsCongruent(d);
    Int64Congruence(Int64(d) - elapsed, d - elapsed);
  }

  /** The waiting branch computes the schedule modulo 2^64: the wrap of `delta` is undone by the
      wrap of the subtraction. */
  lemma {:induction false} WaitingBranch(cp: Constant, elapsed: int, hits: int)
    requires cp.Sane() && IsInt64(elapsed) && 0 <= elapsed && IsUint64(hits)
    requires hits >= cp.ExpectedHits(elapsed) && hits * cp.Interval() <= MAX_INT64
    ensures cp.Pace(elapsed, hits) == Wait(Int64(Due(cp, elapsed, hits)))
  {
    IntervalBounds(cp);
    MulLe(1, cp.Interval(), hits);
    PaceWaits(cp, elapsed, hits);
    WrapsCancel(cp.Interval(), elapsed, hits);
  }

  /** Constant pacing refines the one-line schedule. Whenever Pace does not stop, the attacker
      sleeps until the hit is due, neither less nor more, if and only if the remaining time fits
      an int64. */
  lemma {:induction false} RefinesSchedule(cp: Constant, elapsed: int, hits: int)
    requires cp.Sane() && IsInt64(elapsed) && 0 <= elapsed && IsUint64(hits)
    requires !cp.Pace(elapsed, hits).Stop?
    ensures cp.Pace(elapsed, hits).Wait?
    ensures Slept(cp.Pace(elapsed, hits).nanos) == Max(0, Due(cp, elapsed, hits)) <==>
            Due(cp, elapsed, hits) <= MAX_INT64
  {
    StopsExactlyAtOverflow(cp, elapsed, hits);
    IntervalBounds(cp);
    ExpectedHitsWereDue(cp, elapsed);
    var i := cp.Interval();
    var due := Due(cp, elapsed, hits);
    if hits < cp.ExpectedHits(elapsed) {
      MulLe(hits + 1, cp.ExpectedHits(elapsed), i);
      assert due <= 0;
    } else {
      WaitingBranch(cp, elapsed, hits);
      assert (hits + 1) * i == hits * i + i;
      MulLe(0, hits, i);
      if due > MAX_INT64 {
        Int64Congruence(due, due - TWO_64);
      }
    }
  }

  /** Once `hits` hits have been sent on schedule the remaining time always fits, so from then on
      pacing is exact however long the attack runs. */
  lemma {:induction false} OnScheduleStaysExact(cp: Constant, elapsed: int, hits: int)
    requires cp.Sane() && IsInt64(elapsed) && 0 <= elapsed && IsUint64(hits)
    requires hits * cp.Interval() <= elapsed
    ensures cp.Pace(elapsed, hits).Wait?
    ensures Slept(cp.Pace(elapsed, hits).nanos) == Max(0, Due(cp, elapsed, hits))
  {
    IntervalBounds(cp);
    StopsExactlyAtOverflow(cp, elapsed, hits);
    assert (hits + 1) * cp.Interval() == hits * cp.Interval() + cp.Interval();
    RefinesSchedule(cp, elapsed, hits);
  }

  /** The overflow guard lets one value of `hits` too many through: here the hit is due in more
      than 292 years and Pace asks for no wait at all. */
  lemma {:induction false} GuardIsOffByOne()
    ensures var cp := Constant(1, 2);
            var hits := MAX_INT64 / 2;
            cp.Sane() && cp.Pace(0, hits).Wait? && Slept(cp.Pace(0, hits).nanos) == 0
            && Due(cp, 0, hits) > MAX_INT64
  {
    var cp := Constant(1, 2);
    var hits := MAX_INT64 / 2;
    assert cp.Interval() == 2;
    WaitingBranch(cp, 0, hits);
    assert Due(cp, 0, hits) == TWO_63;
  }

  /** Rates above one hit per nanosecond make `interval` zero: Pace divides by zero exactly when
      the attack is not running behind. */
  lemma {:induction false} FaultsExactlyAboveOnePerNano(cp: Constant, elapsed: int, hits: int)
    requires cp.Wellformed() && IsInt64(elapsed) && IsUint64(hits)
    ensures cp.Pace(elapsed, hits).Fault? <==>
            0 < cp.per < cp.freq && hits >= cp.ExpectedHits(elapsed)
  {
    if 0 < cp.freq && 0 < cp.per {
      var i := cp.Interval();
      assert cp.per == cp.freq * i + cp.per % cp.freq;
      if cp.freq <= cp.per {
        IntervalBounds(cp);
      } else if i != 0 {
        if i > 0 { MulLe(1, i, cp.freq); } else { MulLe(i, -1, cp.freq); }
        assert false;
      }
    }
  }

  /** Two hits per nanosecond: the very first call divides by zero. */
  lemma {:induction false} TwoPerNanoFaults()
    ensures Constant(2, 1).Wellformed() && Constant(2, 1).Pace(0, 0) == Fault
  {
    FaultsExactlyAboveOnePerNano(Constant(2, 1), 0, 0);
  }

  // ------------------------------------------------------------------ linear ramp

  const NANOS: real := 1000000000.0

  /** A LinearPacer over exact reals: `startAt` hits at first, `slope` hits/s more every second. */
  datatype Linear = Linear(startAt: Constant, slope: real) {

    predicate Ramp() { startAt.freq > 0 && startAt.per > 0 && slope >= 0.0 }

    function Seconds(t: real): real { t / NANOS }

    /** StartAt in hits per second. */
    function Base(): real
      requires startAt.per != 0
    {
      startAt.freq as real / startAt.per as real * NANOS
    }

    function Rate(elapsed: real): real
      requires startAt.per != 0
    {
      slope * Seconds(elapsed) + Base()
    }

    /** The integral of the rate: hits due after t nanoseconds. */
    function Hits(t: real): real
      requires startAt.per != 0
    {
      if t < 0.0 then 0.0
      else slope * (Seconds(t) * Seconds(t)) / 2.0 + Base() * Seconds(t)
    }

    function Pace(elapsed: int, hits: nat): (p: Pace)
    {
      if startAt.per == 0 || startAt.freq == 0 then Wait(0)
      else if startAt.per < 0 || startAt.freq < 0 then Stop
      else
        var expected := Hits(elapsed as real);
        if hits == 0 then Wait(0)
        else if expected < 0.0 then Unspecified
        else if hits < expected.Floor then Wait(0)
        else
          var rate := Rate(elapsed as real);
          if rate <= 0.0 then Unspecified
          else
            var interval := (NANOS / rate + 0.5).Floor;
            if interval != 0 && MAX_INT64 / interval < hits then Stop
            else
              var delta := (hits + 1) as real - expected;
              var wait := (interval as real * delta).Floor;
              if wait > MAX_INT64 then Unspecified else Wait(wait)
    }
  }

  lemma {:induction false} DivPos(x: real, y: real)
    requires y > 0.0
    ensures x >= 0.0 ==> x / y >= 0.0
    ensures x > 0.0 ==> x / y > 0.0
    ensures x / y * y == x
  {
  }

  lemma {:induction false} MulPos(x: real, y: real)
    requires x >= 0.0 && y >= 0.0
    ensures x * y >= 0.0
  {
  }

  lemma {:induction false} BasePositive(p: Linear)
    requires p.Ramp()
    ensures p.Base() > 0.0
  {
    var q := p.startAt.freq as real / p.startAt.per as real;
    DivPos(p.startAt.freq as real, p.startAt.per as real);
    assert p.Base() == q * NANOS;
  }

  lemma {:induction false} RatePositive(p: Linear, t: real)
    requires p.Ramp() && t >= 0.0
    ensures p.Rate(t) > 0.0
  {
    BasePositive(p);
    MulPos(p.slope, p.Seconds(t));
  }

  /** Waiting w at time t gains at least rate(t)*w hits: a ramp that rises never slows down. */
  lemma {:induction false} RampGains(p: Linear, t: real, w: real)
    requires p.Ramp() && t >= 0.0 && w >= 0.0
    ensures p.Hits(t + w) >= p.Hits(t) + p.Rate(t) * p.Seconds(w)
  {
    var x, y, a, b := p.Seconds(t), p.Seconds(w), p.slope, p.Base();
    assert p.Seconds(t + w) == x + y;
    assert (x + y) * (x + y) == x * x + 2.0 * (x * y) + y * y;
    assert a * ((x + y) * (x + y)) == a * (x * x) + 2.0 * (a * (x * y)) + a * (y * y);
    MulPos(y, y);
    MulPos(a, y * y);
    assert (a * x + b) * y == a * (x * y) + b * y;
    assert b * (x + y) == b * x + b * y;
  }

  /** Hits is the integral of Rate: over any stretch it grows by the mean of the rates at its ends
      times its length. */
  lemma {:induction false} HitsIntegrateRate(p: Linear, t: real, w: real)
    requires p.startAt.per != 0 && t >= 0.0 && w >= 0.0
    ensures p.Hits(0.0) == 0.0
    ensures p.Hits(t + w) - p.Hits(t) == (p.Rate(t) + p.Rate(t + w)) / 2.0 * p.Seconds(w)
  {
    assert p.Seconds(t + w) == p.Seconds(t) + p.Seconds(w);
    Trapezium(p.slope, p.Base(), p.Seconds(t), p.Seconds(w));
  }

  lemma {:induction false} Trapezium(a: real, b: real, x: real, y: real)
    ensures a * ((x + y) * (x + y)) / 2.0 + b * (x + y) - (a * (x * x) / 2.0 + b * x) ==
            ((a * x + b) + (a * (x + y) + b)) / 2.0 * y
  {
    assert (x + y) * (x + y) == x * x + 2.0 * (x * y) + y * y;
    assert a * ((x + y) * (x + y)) == a * (x * x) + 2.0 * (a * (x * y)) + a * (y * y);
    assert a * (x + y) == a * x + a * y;
    assert (2.0 * (a * x) + a * y + 2.0 * b) * y == 2.0 * (a * (x * y)) + a * (y * y) + 2.0 * (b * y);
    assert b * (x + y) == b * x + b * y;
  }

  /** How far rounding the interval and truncating the wait can be off. */
  lemma {:induction false} RoundingLoss(rate: real, interval: int, delta: real, wait: int)
    requires rate > 0.0 && delta >= 0.0
    requires interval == (NANOS / rate + 0.5).Floor
    requires wait == (interval as real * delta).Floor
    ensures interval >= 0 && wait >= 0
    ensures rate * (wait as real / NANOS) >= delta - rate * (delta / 2.0 + 1.0) / NANOS
  {
    var q := NANOS / rate;
    DivPos(NANOS, rate);
    assert interval as real >= q - 0.5;
    assert interval >= 0;
    MulPos(interval as real, delta);
    MulPos(interval as real - (q - 0.5), delta);
    assert interval as real * delta >= (q - 0.5) * delta;
    assert (q - 0.5) * delta == q * delta - delta / 2.0;
    assert wait as real > q * delta - (delta / 2.0 + 1.0);
    var lo := q * delta - (delta / 2.0 + 1.0);
    MulPos(rate, wait as real - lo);
    assert rate * (wait as real) >= rate * lo;
    assert rate * lo == rate * q * delta - rate * (delta / 2.0 + 1.0);
    assert rate * q == NANOS;
    assert rate * (wait as real) >= NANOS * delta - rate * (delta / 2.0 + 1.0);
    assert rate * (wait as real / NANOS) == rate * (wait as real) / NANOS;
  }

  /** How far they can be off the other way. */
  lemma {:induction false} RoundingGain(rate: real, interval: int, delta: real, wait: int)
    requires rate > 0.0 && delta >= 0.0
    requires interval == (NANOS / rate + 0.5).Floor
    requires wait == (interval as real * delta).Floor
    ensures rate * (wait as real / NANOS) <= delta + rate * (delta / 2.0) / NANOS
  {
    var q := NANOS / rate;
    DivPos(NANOS, rate);
    MulPos(q + 0.5 - interval as real, delta);
    assert interval as real * delta <= (q + 0.5) * delta;
    assert (q + 0.5) * delta == q * delta + delta / 2.0;
    var hi := q * delta + delta / 2.0;
    MulPos(rate, hi - wait as real);
    assert rate * (wait as real) <= rate * hi;
    assert rate * hi == rate * q * delta + rate * (delta / 2.0);
    assert rate * q == NANOS;
    assert rate * (wait as real / NANOS) == rate * (wait as real) / NANOS;
  }

  /** What a pacer may be early by: half a nanosecond of interval per hit and one of wait. */
  function Slack(rate: real, delta: real): real { rate * (delta / 2.0 + 1.0) / NANOS }

  lemma {:induction false} WaitReaches(h0: real, rate: real, hits: nat, wait: int)
    requires rate > 0.0 && hits >= h0.Floor
    requires wait == ((NANOS / rate + 0.5).Floor as real * ((hits + 1) as real - h0)).Floor
    ensures wait >= 0
    ensures h0 + rate * (wait as real / NANOS) >= (hits + 1) as real - Slack(rate, (hits + 1) as real - h0)
  {
    RoundingLoss(rate, (NANOS / rate + 0.5).Floor, (hits + 1) as real - h0, wait);
  }

  /** Running behind a rising ramp, the next hit was already due. */
  lemma {:induction false} LinearCatchesUp(p: Linear, elapsed: int, hits: nat)
    requires p.Ramp() && 1 <= hits < p.Hits(elapsed as real).Floor
    ensures p.Pace(elapsed, hits) == Wait(0) && p.Hits(elapsed as real) >= (hits + 1) as real
  {
    assert p.Hits(elapsed as real).Floor as real >= (hits + 1) as real;
  }

  lemma {:induction false} LinearWaits(p: Linear, elapsed: int, hits: nat)
    requires p.Ramp() && elapsed >= 0 && hits >= 1 && hits >= p.Hits(elapsed as real).Floor
    requires p.Pace(elapsed, hits).Wait?
    ensures p.Rate(elapsed as real) > 0.0
    ensures p.Pace(elapsed, hits).nanos ==
            ((NANOS / p.Rate(elapsed as real) + 0.5).Floor as real *
             ((hits + 1) as real - p.Hits(elapsed as real))).Floor
  {
    RatePositive(p, elapsed as real);
  }

  lemma {:induction false} WaitIsEnough(p: Linear, t: real, hits: nat, w: int)
    requires p.Ramp() && t >= 0.0 && hits >= p.Hits(t).Floor && p.Rate(t) > 0.0
    requires w == ((NANOS / p.Rate(t) + 0.5).Floor as real * ((hits + 1) as real - p.Hits(t))).Floor
    ensures w >= 0
    ensures p.Hits(t + w as real) >=
            (hits + 1) as real - Slack(p.Rate(t), (hits + 1) as real - p.Hits(t))
  {
    WaitReaches(p.Hits(t), p.Rate(t), hits, w);
    RampGains(p, t, w as real);
    assert p.Seconds(w as real) == w as real / NANOS;
  }

  /** Otherwise a rising ramp is never early beyond the rounding bound. */
  lemma {:induction false} LinearNeverEarly(p: Linear, elapsed: int, hits: nat)
    requires p.Ramp() && elapsed >= 0 && hits >= 1 && hits >= p.Hits(elapsed as real).Floor
    requires p.Pace(elapsed, hits).Wait?
    ensures var w := p.Pace(elapsed, hits).nanos;
            var t := elapsed as real;
            && w >= 0
            && p.Hits(t + w as real) >=
               (hits + 1) as real - Slack(p.Rate(t), (hits + 1) as real - p.Hits(t))
  {
    LinearWaits(p, elapsed, hits);
    WaitIsEnough(p, elapsed as real, hits, p.Pace(elapsed, hits).nanos);
  }

  lemma {:induction false} HitsNonNegative(p: Linear, t: real)
    requires p.Ramp() && t >= 0.0
    ensures p.Hits(t) >= 0.0
  {
    BasePositive(p);
    MulPos(p.Seconds(t), p.Seconds(t));
    MulPos(p.slope, p.Seconds(t) * p.Seconds(t));
    MulPos(p.Base(), p.Seconds(t));
  }

  lemma {:induction false} WaitOverflows(interval: int, hits: nat, expected: real)
    requires interval >= 0 && expected >= 0.0
    requires (interval as real * ((hits + 1) as real - expected)).Floor > MAX_INT64
    ensures interval * (hits + 1) > MAX_INT64
  {
    var delta := (hits + 1) as real - expected;
    MulPos(interval as real, expected);
    assert interval as real * delta == interval as real * (hits + 1) as real - interval as real * expected;
    assert interval as real * (hits + 1) as real == (interval * (hits + 1)) as real;
  }

  lemma {:induction false} GuardOverflows(interval: int, hits: nat)
    requires interval > 0 && MAX_INT64 / interval < hits
    ensures interval * (hits + 1) > MAX_INT64
  {
    QuotientBound(MAX_INT64, interval, hits);
    assert interval * (hits + 1) == hits * interval + interval;
  }

  /** Waiting so long at this rate gains at most delta hits, and half a nanosecond's worth for each. */
  ghost predicate NotMore(rate: real, delta: real, wait: int) {
    rate * (wait as real / NANOS) <= delta + rate * (delta / 2.0) / NANOS
  }

  lemma {:induction false} WaitIsNotMore(h0: real, rate: real, hits: nat, wait: int)
    requires rate > 0.0 && hits >= h0.Floor
    requires wait == ((NANOS / rate + 0.5).Floor as real * ((hits + 1) as real - h0)).Floor
    ensures NotMore(rate, (hits + 1) as real - h0, wait)
  {
    RoundingGain(rate, (NANOS / rate + 0.5).Floor, (hits + 1) as real - h0, wait);
  }

  /** Nor does it wait longer than it takes to the next hit at the present rate, beyond the rounding
      of the interval. */
  lemma {:induction false} LinearNotLate(p: Linear, elapsed: int, hits: nat)
    requires p.Ramp() && elapsed >= 0 && hits >= 1 && hits >= p.Hits(elapsed as real).Floor
    requires p.Pace(elapsed, hits).Wait?
    ensures NotMore(p.Rate(elapsed as real), (hits + 1) as real - p.Hits(elapsed as real),
                    p.Pace(elapsed, hits).nanos)
  {
    LinearWaits(p, elapsed, hits);
    WaitIsNotMore(p.Hits(elapsed as real), p.Rate(elapsed as real), hits, p.Pace(elapsed, hits).nanos);
  }

  /** The first hit is sent at once; without a rate there is no limit, and a negative one stops the
      attack at once. */
  lemma {:induction false} LinearFirstHit(p: Linear, elapsed: int, hits: nat)
    requires hits == 0 || p.startAt.freq <= 0 || p.startAt.per <= 0
    ensures p.Pace(elapsed, hits) ==
            if p.startAt.freq == 0 || p.startAt.per == 0 then Wait(0)
            else if p.startAt.freq < 0 || p.startAt.per < 0 then Stop
            else Wait(0)
  {
  }

  /** The rate starts with that of startAt and grows by slope every second. */
  lemma {:induction false} RateIsLinear(p: Linear, t: real)
    requires p.startAt.per > 0
    ensures p.Rate(0.0) * p.startAt.per as real == p.startAt.freq as real * NANOS
    ensures p.Rate(t + NANOS) == p.Rate(t) + p.slope
  {
    var q := p.startAt.freq as real / p.startAt.per as real;
    assert q * p.startAt.per as real == p.startAt.freq as real;
    assert p.Seconds(t + NANOS) == p.Seconds(t) + 1.0;
    assert p.slope * (p.Seconds(t) + 1.0) == p.slope * p.Seconds(t) + p.slope;
    assert p.Rate(0.0) == q * NANOS;
    assert q * NANOS * p.startAt.per as real == q * p.startAt.per as real * NANOS;
  }

  /** On a rising ramp Pace gives up, or leaves the wait to the platform, only when the wait would
      not fit an int64. */
  lemma {:induction false} LinearGivesUpOnlyAtOverflow(p: Linear, elapsed: int, hits: nat)
    requires p.Ramp() && elapsed >= 0 && !p.Pace(elapsed, hits).Wait?
    ensures hits >= 1
    ensures (NANOS / p.Rate(elapsed as real) + 0.5).Floor * (hits + 1) > MAX_INT64
  {
    var t := elapsed as real;
    HitsNonNegative(p, t);
    RatePositive(p, t);
    DivPos(NANOS, p.Rate(t));
    var interval := (NANOS / p.Rate(t) + 0.5).Floor;
    if p.Pace(elapsed, hits).Stop? {
      GuardOverflows(interval, hits);
    } else {
      WaitOverflows(interval, hits, p.Hits(t));
    }
  }
}
