/**
 `java.util.concurrent.TimeUnit` as the builders use it: each unit is an
 integer number of nanoseconds, `toNanos` saturates at the `long` bounds, and
 `toMillis` truncates toward zero from finer units and saturates from coarser
 ones.
 */
module TimeUnits {
  import opened JavaLang

  datatype TimeUnit = NANOSECONDS | MICROSECONDS | MILLISECONDS | SECONDS | MINUTES | HOURS | DAYS

  const NanosPerMilli: nat := 1_000_000

  /** The length of one unit, in nanoseconds. */
  function NanosPer(u: TimeUnit): (s: nat)
    ensures s >= 1
    ensures s < NanosPerMilli ==> NanosPerMilli % s == 0
    ensures s >= NanosPerMilli ==> s % NanosPerMilli == 0
  {
    match u
    case NANOSECONDS => 1
    case MICROSECONDS => 1_000
    case MILLISECONDS => 1_000_000
    case SECONDS => 1_000_000_000
    case MINUTES => 60_000_000_000
    case HOURS => 3_600_000_000_000
    case DAYS => 86_400_000_000_000
  }

  /**
   Multiplies by a positive scale the way the JDK does: compare against
   `Long.MAX_VALUE / scale` first and answer the bound instead of overflowing.
   */
  function ScaleChecked(d: Long, scale: nat): Long
    requires scale >= 1
  {
    var max := MaxLong / scale;
    if d > max then MaxLong
    else if d < -max then MinLong
    else
      assert -MaxLong <= d * scale <= MaxLong by { MultiplyWithinBound(d, scale, max); }
      d * scale
  }

  lemma MultiplyWithinBound(d: int, scale: nat, max: int)
    requires scale >= 1 && max == MaxLong / scale && -max <= d <= max
    ensures -MaxLong <= d * scale <= MaxLong
  {
    if d >= 0 {
      assert d * scale <= max * scale;
    } else {
      assert (-d) * scale <= max * scale;
    }
  }

  lemma {:induction false} ScaleCheckedSaturates(d: Long, u: TimeUnit)
    ensures ScaleChecked(d, NanosPer(u)) == Saturate(d * NanosPer(u))
  {
    match u
    case NANOSECONDS =>
    case MICROSECONDS =>
    case MILLISECONDS =>
    case SECONDS =>
    case MINUTES =>
    case HOURS =>
    case DAYS =>
  }

  /** `unit.toNanos(d)`: the exact product, saturated to the `long` range. */
  function ToNanos(d: Long, u: TimeUnit): (r: Long)
    ensures r == Saturate(d * NanosPer(u))
    ensures r == 0 <==> d == 0
    ensures r > 0 <==> d > 0
  {
    ScaleCheckedSaturates(d, u);
    if u == NANOSECONDS then d else ScaleChecked(d, NanosPer(u))
  }

  /**
   `unit.toMillis(d)`, which is what `TimeUnit.MILLISECONDS.convert(d, unit)`
   returns: the exact duration in milliseconds truncated toward zero, and
   saturated to the `long` range.
   */
  function ToMillis(d: Long, u: TimeUnit): (r: Long)
    ensures r == Saturate(TruncDiv(d * NanosPer(u), NanosPerMilli))
  {
    var s := NanosPer(u);
    if s <= NanosPerMilli then
      if s == NanosPerMilli then d
      else
        assert TruncDiv(d, NanosPerMilli / s) == TruncDiv(d * s, NanosPerMilli) by { FinerToMillis(d, u); }
        TruncDiv(d, NanosPerMilli / s)
    else
      assert ScaleChecked(d, s / NanosPerMilli) == Saturate(TruncDiv(d * s, NanosPerMilli)) by { CoarserToMillis(d, u); }
      ScaleChecked(d, s / NanosPerMilli)
  }

  lemma {:induction false} FinerToMillis(d: Long, u: TimeUnit)
    requires NanosPer(u) < NanosPerMilli
    ensures TruncDiv(d, NanosPerMilli / NanosPer(u)) == TruncDiv(d * NanosPer(u), NanosPerMilli)
  {
    match u
    case NANOSECONDS =>
    case MICROSECONDS =>
  }

  lemma {:induction false} CoarserToMillis(d: Long, u: TimeUnit)
    requires NanosPer(u) > NanosPerMilli
    ensures ScaleChecked(d, NanosPer(u) / NanosPerMilli) == Saturate(TruncDiv(d * NanosPer(u), NanosPerMilli))
  {
    match u
    case SECONDS =>
    case MINUTES =>
    case HOURS =>
    case DAYS =>
  }
}
