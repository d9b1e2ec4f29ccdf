/**
 Java-level value semantics the client builders rely on: the `long` and `int`
 ranges, the narrowing `(int)` cast, division that truncates toward zero,
 `String.valueOf(long)`, nullable references and exceptions that do not roll
 back the state a call had already changed.
 */
module JavaLang {

  const MinLong: int := -0x8000_0000_0000_0000
  const MaxLong: int := 0x7FFF_FFFF_FFFF_FFFF
  const MinInt: int := -0x8000_0000
  const MaxInt: int := 0x7FFF_FFFF

  /** A Java `long`. */
  type Long = x: int | MinLong <= x <= MaxLong

  /** A Java `int`. */
  type Int = x: int | MinInt <= x <= MaxInt

  /** A nullable reference: `None` is Java's `null`. */
  datatype Option<+T> = None | Some(value: T)

  /** The exceptions the builders can raise. */
  datatype Exception =
    | UnsupportedOperation
    | NullPointer
    | ClassCast

  /**
   A call on mutable state. A Java exception does not undo the assignments made
   before it was thrown, so the state after the call is part of both outcomes.
   */
  datatype Call<S> = Returned(state: S) | Threw(state: S, error: Exception)

  /** A computed value, or the exception thrown instead of it. */
  datatype Result<T> = Ok(value: T) | Err(error: Exception)

  /** Clamps an exact integer into the `long` range, as the JDK's saturating conversions do. */
  function Saturate(x: int): (r: Long)
    ensures MinLong <= x <= MaxLong ==> r == x
    ensures x > MaxLong ==> r == MaxLong
    ensures x < MinLong ==> r == MinLong
  {
    if x > MaxLong then MaxLong else if x < MinLong then MinLong else x
  }

  /** Java's integer `/` for a positive divisor: the quotient is truncated toward zero. */
  function TruncDiv(a: int, b: int): (q: int)
    requires b > 0
    ensures a >= 0 ==> q == a / b
    ensures a <= 0 ==> q <= 0 && -q == (-a) / b
  {
    if a >= 0 then a / b else -((-a) / b)
  }

  /**
   The narrowing conversion `(int) x` of a `long`: the low 32 bits of the two's
   complement representation, read back as a signed `int`.
   */
  function Int32Cast(x: Long): (r: Int)
    ensures (x - r) % 0x1_0000_0000 == 0
    ensures MinInt <= x <= MaxInt ==> r == x
  {
    var low := x % 0x1_0000_0000;
    if low > MaxInt then low - 0x1_0000_0000 else low
  }

  /** The character of a decimal digit. */
  function DigitChar(d: nat): (c: char)
    requires d < 10
    ensures '0' <= c <= '9'
  {
    "0123456789"[d]
  }

  /** The value of a decimal digit character. */
  function DigitValue(c: char): (d: nat)
    requires '0' <= c <= '9'
    ensures d < 10 && DigitChar(d) == c
  {
    (c as int - '0' as int) as nat
  }

  predicate IsDigits(s: string) {
    forall i :: 0 <= i < |s| ==> '0' <= s[i] <= '9'
  }

  /** The decimal numeral of a natural number, without leading zeros. */
  function NatToString(n: nat): (s: string)
    ensures |s| >= 1 && IsDigits(s)
    ensures |s| > 1 ==> s[0] != '0'
    decreases n
  {
    if n < 10 then [DigitChar(n)] else NatToString(n / 10) + [DigitChar(n % 10)]
  }

  /** The number a decimal numeral denotes. */
  function StringToNat(s: string): nat
    requires IsDigits(s)
  {
    if s == [] then 0 else StringToNat(s[..|s| - 1]) * 10 + DigitValue(s[|s| - 1])
  }

  lemma {:induction false} NatStringRoundTrip(n: nat)
    ensures StringToNat(NatToString(n)) == n
    decreases n
  {
    if n >= 10 {
      var s := NatToString(n);
      assert s == NatToString(n / 10) + [DigitChar(n % 10)];
      assert s[..|s| - 1] == NatToString(n / 10);
      assert DigitValue(s[|s| - 1]) == n % 10;
      NatStringRoundTrip(n / 10);
      assert StringToNat(s) == (n / 10) * 10 + n % 10;
    } else {
      assert DigitValue(DigitChar(n)) == n;
    }
  }

  /** `String.valueOf(long)`: an optional minus sign followed by the decimal numeral of the magnitude. */
  function LongToString(n: Long): (s: string)
    ensures |s| >= 1 && (s[0] == '-' <==> n < 0)
    ensures var digits := if n < 0 then s[1..] else s;
            && |digits| >= 1 && IsDigits(digits)
            && (|digits| > 1 ==> digits[0] != '0')
  {
    if n < 0 then "-" + NatToString(-(n as int)) else NatToString(n)
  }

  /** Reads back a numeral produced by `LongToString`. */
  function ParseLong(s: string): Option<int> {
    if s == [] then None
    else if s[0] == '-' then
      if |s| > 1 && IsDigits(s[1..]) then Some(-(StringToNat(s[1..]) as int)) else None
    else if IsDigits(s) then Some(StringToNat(s) as int)
    else None
  }

  /** `String.valueOf(long)` loses nothing: the numeral reads back as the same number. */
  lemma {:induction false} LongStringRoundTrip(n: Long)
    ensures ParseLong(LongToString(n)) == Some(n as int)
  {
    var m: int := n;
    if m < 0 {
      assert LongToString(n) == "-" + NatToString(-m);
      NegativeRoundTrip(-m);
    } else {
      assert LongToString(n) == NatToString(m);
      NonNegativeRoundTrip(m);
    }
  }

  lemma {:induction false} NegativeRoundTrip(m: nat)
    requires m > 0
    ensures ParseLong("-" + NatToString(m)) == Some(-(m as int))
  {
    var t := NatToString(m);
    assert ("-" + t)[1..] == t;
    NatStringRoundTrip(m);
  }

  lemma {:induction false} NonNegativeRoundTrip(m: nat)
    ensures ParseLong(NatToString(m)) == Some(m as int)
  {
    var t := NatToString(m);
    assert '0' <= t[0] <= '9';
    NatStringRoundTrip(m);
  }
}
