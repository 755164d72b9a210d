/**
 Conversion between dates, which count seconds from 2001, and timestamps, which count whole
 seconds and nanoseconds from 1970. Dates are exact reals here.
 */
module Timestamp {

  const INT64_MIN := -0x8000_0000_0000_0000
  const INT64_MAX := 0x7FFF_FFFF_FFFF_FFFF

  newtype int64 = x: int | -0x8000_0000_0000_0000 <= x < 0x8000_0000_0000_0000
  newtype int32 = x: int | -0x8000_0000 <= x < 0x8000_0000

  // The reference date, 2001, in seconds since 1970.
  const SINCE_1970 := 978307200
  const BILLION := 1_000_000_000

  datatype Timestamp = Null | Time(seconds: int64, nanoseconds: int32)

  // A date's distance from the reference date.
  datatype Interval = NaN | PlusInfinity | MinusInfinity | Finite(t: real)

  datatype Date = NoDate | At(interval: Interval)

  function Truncate(x: real): int {
    if x >= 0.0 then x.Floor else -(-x).Floor
  }

  // Both parts count in the same direction, and the second is less than one second.
  predicate Normal(ts: Timestamp) {
    ts.Time? ==>
      && -BILLION < ts.nanoseconds as int < BILLION
      && (ts.seconds > 0 ==> ts.nanoseconds >= 0)
      && (ts.seconds < 0 ==> ts.nanoseconds <= 0)
  }

  // Nanoseconds since 1970.
  function Nanos(ts: Timestamp): int
    requires ts.Time?
  {
    ts.seconds as int * BILLION + ts.nanoseconds as int
  }

  predicate NotAfter(a: Timestamp, b: Timestamp)
    requires a.Time? && b.Time?
  {
    a.seconds < b.seconds || (a.seconds == b.seconds && a.nanoseconds <= b.nanoseconds)
  }

  lemma NormalOrder(a: Timestamp, b: Timestamp)
    requires Normal(a) && Normal(b) && a.Time? && b.Time?
    ensures NotAfter(a, b) <==> Nanos(a) <= Nanos(b)
  {
  }

  // ---- Reference conversion ----

  const LAST := Time(0x7FFF_FFFF_FFFF_FFFF, 999_999_999)
  const FIRST := Time(-0x8000_0000_0000_0000, -999_999_999)

  predicate TooLate(t: real) {
    t >= (INT64_MAX - SINCE_1970) as real
  }

  predicate TooEarly(t: real) {
    t - SINCE_1970 as real < INT64_MIN as real
  }

  // The date in whole nanoseconds since 1970, cut off toward the reference date.
  function DateNanos(t: real): int {
    Truncate(t * BILLION as real) + SINCE_1970 * BILLION
  }

  // The normal timestamp with `n` nanoseconds since 1970.
  function FromNanos(n: int): (ts: Timestamp)
    requires -0x8000_0000_0000_0000 * BILLION < n < 0x8000_0000_0000_0000 * BILLION
    ensures ts.Time? && Normal(ts) && Nanos(ts) == n
  {
    if n >= 0 then Time((n / BILLION) as int64, (n % BILLION) as int32)
    else Time((-(-n / BILLION)) as int64, (-(-n % BILLION)) as int32)
  }

  lemma DateNanosBounds(t: real)
    requires !TooLate(t) && !TooEarly(t)
    ensures (INT64_MIN + 2 * SINCE_1970) * BILLION <= DateNanos(t) < INT64_MAX * BILLION
  {
  }

  function Convert(t: real): (ts: Timestamp)
    ensures ts.Time? && Normal(ts)
  {
    if TooLate(t) then LAST
    else if TooEarly(t) then FIRST
    else
      DateNanosBounds(t);
      FromNanos(DateNanos(t))
  }

  // ---- The conversions ----

  lemma SplitTruncation(t: real)
    ensures var seconds := Truncate(t);
            var nanoseconds := Truncate((t - seconds as real) * BILLION as real);
            && -BILLION < nanoseconds < BILLION
            && Truncate(t * BILLION as real) == seconds * BILLION + nanoseconds
            && (t >= 0.0 ==> seconds >= 0 && nanoseconds >= 0)
            && (t < 0.0 ==> seconds <= 0 && nanoseconds <= 0)
  {
    var seconds := Truncate(t);
    var rest := (t - seconds as real) * BILLION as real;
    assert t * BILLION as real == (seconds * BILLION) as real + rest;
    if t >= 0.0 {
      FloorShift(seconds * BILLION, rest);
    } else {
      FloorShift(-seconds * BILLION, -rest);
    }
  }

  lemma FloorShift(n: int, x: real)
    ensures (n as real + x).Floor == n + x.Floor
  {
  }

  method TimestampForDate(date: Date) returns (ts: Timestamp)
    ensures date.NoDate? ==> ts == Null
    ensures date == At(NaN) ==> ts == Time(0, 0)
    ensures date == At(PlusInfinity) ==> ts == LAST
    ensures date == At(MinusInfinity) ==> ts == FIRST
    ensures date.At? && date.interval.Finite? ==> ts == Convert(date.interval.t)
  {
    if date.NoDate? {
      return Null;
    }
    match date.interval {
      case NaN => return Time(0, 0);
      case PlusInfinity => return LAST;
      case MinusInfinity => return FIRST;
      case Finite(t) =>
        if t >= (INT64_MAX - SINCE_1970) as real {
          return Time(INT64_MAX as int64, (BILLION - 1) as int32);
        }
        if t - SINCE_1970 as real < INT64_MIN as real {
          return Time(INT64_MIN as int64, (-BILLION + 1) as int32);
        }
        SplitTruncation(t);
        DateNanosBounds(t);
        var seconds := Truncate(t) as int64;
        var nanoseconds := Truncate((t - seconds as int as real) * BILLION as real) as int32;
        seconds := seconds + SINCE_1970 as int64;
        if nanoseconds < 0 && seconds > 0 {
          nanoseconds := nanoseconds + BILLION as int32;
          seconds := seconds - 1;
        }
        ts := Time(seconds, nanoseconds);
        NormalOrder(ts, Convert(t));
        NormalOrder(Convert(t), ts);
    }
  }

  function ToInterval(ts: Timestamp): real
    requires ts.Time?
  {
    ts.seconds as int as real - SINCE_1970 as real + ts.nanoseconds as int as real / BILLION as real
  }

  // ---- Properties ----

  /** The reference date is 31 years with 8 leap days after the start of 1970, and both dates have
      the timestamps that follow. */
  lemma KnownDates()
    ensures SINCE_1970 == (31 * 365 + 8) * 24 * 60 * 60
    ensures Convert(0.0) == Time(978_307_200, 0) && Convert(-978_307_200.0) == Time(0, 0)
    ensures Convert(-978_307_200.5) == Time(0, -500_000_000) && Convert(0.25) == Time(978_307_200, 250_000_000)
  {
  }

  lemma TruncateMonotone(x: real, y: real)
    requires x <= y
    ensures Truncate(x) <= Truncate(y)
  {
  }

  /** An earlier date never gets a later timestamp, across the clamps, 1970 and 2001. */
  lemma ConvertMonotone(t1: real, t2: real)
    requires t1 <= t2
    ensures NotAfter(Convert(t1), Convert(t2))
  {
    if !TooLate(t1) && !TooEarly(t1) && !TooLate(t2) && !TooEarly(t2) {
      assert t1 * BILLION as real <= t2 * BILLION as real;
      TruncateMonotone(t1 * BILLION as real, t2 * BILLION as real);
      NormalOrder(Convert(t1), Convert(t2));
    } else if !TooEarly(t1) && !TooLate(t1) {
      DateNanosBounds(t1);
      NormalOrder(Convert(t1), LAST);
    } else if !TooEarly(t2) && !TooLate(t2) {
      DateNanosBounds(t2);
      NormalOrder(FIRST, Convert(t2));
    }
  }

  lemma IntervalNanos(ts: Timestamp)
    requires ts.Time?
    ensures ToInterval(ts) * BILLION as real == (Nanos(ts) - SINCE_1970 * BILLION) as real
  {
    assert ts.nanoseconds as int as real / BILLION as real * BILLION as real == ts.nanoseconds as int as real;
  }

  // The timestamps that dates can stand for: the clamps leave out all of the last second but its
  // last nanosecond, and all but the very first nanosecond of the first 2 * SINCE_1970 seconds.
  predicate Representable(ts: Timestamp)
    requires ts.Time?
  {
    && (ts.seconds as int == INT64_MAX ==> ts.nanoseconds == 999_999_999)
    && (ts == FIRST || Nanos(ts) >= (INT64_MIN + 2 * SINCE_1970) * BILLION)
  }

  /** Timestamp to date to timestamp is the identity exactly on the representable timestamps. */
  lemma TimestampRoundTrip(ts: Timestamp)
    requires ts.Time? && Normal(ts)
    ensures Convert(ToInterval(ts)) == ts <==> Representable(ts)
  {
    var t := ToInterval(ts);
    IntervalNanos(ts);
    assert TooLate(t) <==> Nanos(ts) >= INT64_MAX * BILLION;
    assert TooEarly(t) <==> Nanos(ts) < (INT64_MIN + 2 * SINCE_1970) * BILLION;
    if !TooLate(t) && !TooEarly(t) {
      assert Truncate((Nanos(ts) - SINCE_1970 * BILLION) as real) == Nanos(ts) - SINCE_1970 * BILLION;
      assert Nanos(Convert(t)) == Nanos(ts);
      NormalOrder(ts, Convert(t));
      NormalOrder(Convert(t), ts);
    }
  }

  // Every intermediate result of an unclamped conversion fits its type.
  predicate StepsFit(t: real) {
    INT64_MIN <= Truncate(t) <= INT64_MAX && INT64_MIN <= Truncate(t) + SINCE_1970 <= INT64_MAX
  }

  /** The dates that are clamped although the conversion would fit: at the lower end all that the
      subtracted offset cuts off, at the upper end the last second. Clamping less than that is
      not enough: dates before them have a timestamp, but the cast to seconds since 2001 would
      overflow. */
  lemma NeedlesslyClamped(t: real)
    ensures (TooEarly(t) || TooLate(t)) && StepsFit(t)
       <==> || INT64_MIN as real - 1.0 < t < (INT64_MIN + SINCE_1970) as real
            || (INT64_MAX - SINCE_1970) as real <= t < (INT64_MAX - SINCE_1970 + 1) as real
    ensures INT64_MIN <= Truncate(t) + SINCE_1970 && Truncate(t) < INT64_MIN
       <==> (INT64_MIN - SINCE_1970) as real - 1.0 < t <= INT64_MIN as real - 1.0
  {
  }

  /** Date to timestamp to date moves an unclamped date by less than a nanosecond, toward 2001. */
  lemma DateRoundTrip(t: real)
    requires !TooLate(t) && !TooEarly(t)
    ensures var back := ToInterval(Convert(t));
            && -1.0 < (back - t) * BILLION as real < 1.0
            && (t >= 0.0 ==> 0.0 <= back <= t)
            && (t <= 0.0 ==> t <= back <= 0.0)
  {
    var back := ToInterval(Convert(t));
    IntervalNanos(Convert(t));
    var x := t * BILLION as real;
    assert back * BILLION as real == Truncate(x) as real;
    assert (back - t) * BILLION as real == Truncate(x) as real - x;
  }
}
