/** Decimal numerals as .NET writes and reads them, the current culture
    taken to be the invariant one: `int.ToString()`, `int.TryParse`/`int.Parse` and the explicit
    `(int?)` conversion of an XML attribute (both accept the style
    NumberStyles.Integer: surrounding white space, one leading sign, decimal
    digits, a value within 32 bits), and `double.TryParse` with
    NumberStyles.Float, whose value the model keeps opaque. */
module Numerals {
  import opened Wrappers

  const INT32_MIN: int := -0x8000_0000
  const INT32_MAX: int := 0x7FFF_FFFF

  predicate IsInt32(x: int) {
    INT32_MIN <= x <= INT32_MAX
  }

  /** Two's-complement wrap-around of a mathematical integer into 32 bits:
      what unchecked C# `int` arithmetic produces. */
  function Wrap32(x: int): (r: int)
    ensures IsInt32(r)
    ensures (x - r) % 0x1_0000_0000 == 0
    ensures IsInt32(x) ==> r == x
  {
    var m := (x - INT32_MIN) % 0x1_0000_0000;
    m + INT32_MIN
  }

  predicate IsDigit(c: char) {
    '0' <= c <= '9'
  }

  predicate AllDigits(s: string) {
    forall k :: 0 <= k < |s| ==> IsDigit(s[k])
  }

  function DigitChar(d: nat): (c: char)
    requires d < 10
    ensures IsDigit(c) && DigitValue(c) == d
  {
    (d + '0' as int) as char
  }

  /** The value of a decimal digit (the offset from '0' for any other
      character, where it is never used). */
  function DigitValue(c: char): int
  {
    c as int - '0' as int
  }

  /** `n.ToString()` for a non-negative `n`: its decimal digits, most
      significant first, without leading zeros. */
  function NatToString(n: nat): (r: string)
    ensures |r| >= 1 && AllDigits(r)
    ensures r[0] == '0' ==> n == 0
    decreases n
  {
    if n < 10 then [DigitChar(n)] else NatToString(n / 10) + [DigitChar(n % 10)]
  }

  /** `x.ToString()`: a minus sign before the digits of a negative number. */
  function IntToString(x: int): (r: string)
    ensures |r| >= 1
    ensures x >= 0 ==> AllDigits(r)
    ensures x < 0 ==> r[0] == '-' && AllDigits(r[1..])
  {
    if x < 0 then "-" + NatToString(-x) else NatToString(x)
  }

  /** The number a string of decimal digits denotes. */
  function DigitsValue(s: string): int
    decreases |s|
  {
    if s == [] then 0 else DigitsValue(s[..|s| - 1]) * 10 + DigitValue(s[|s| - 1])
  }

  /** Reading back the numeral of `n` gives `n`. */
  lemma {:induction false} DigitsValueOfNatToString(n: nat)
    ensures DigitsValue(NatToString(n)) == n
    decreases n
  {
    var s := NatToString(n);
    if n >= 10 {
      DigitsValueOfNatToString(n / 10);
      assert s[..|s| - 1] == NatToString(n / 10);
    }
  }

  /** Distinct numbers have distinct numerals. */
  lemma NatToStringInjective(a: nat, b: nat)
    requires NatToString(a) == NatToString(b)
    ensures a == b
  {
    DigitsValueOfNatToString(a);
    DigitsValueOfNatToString(b);
  }

  /** Distinct integers have distinct numerals. */
  lemma IntToStringInjective(a: int, b: int)
    requires IntToString(a) == IntToString(b)
    ensures a == b
  {
    var s := IntToString(a);
    if a < 0 && b < 0 {
      assert s[1..] == NatToString(-a) == NatToString(-b);
      NatToStringInjective(-a, -b);
    } else if a >= 0 && b >= 0 {
      NatToStringInjective(a, b);
    }
  }

  /** One more than `k` has the same number of digits as `k`, or one more. */
  lemma {:induction false} NatToStringLengthStep(k: nat)
    ensures |NatToString(k)| <= |NatToString(k + 1)| <= |NatToString(k)| + 1
    decreases k
  {
    if k >= 10 {
      NatToStringLengthStep(k / 10);
      assert (k + 1) / 10 == k / 10 || (k + 1) / 10 == k / 10 + 1;
    }
  }

  /** The white space NumberStyles.AllowLeadingWhite/AllowTrailingWhite accept. */
  predicate IsNumberWhite(c: char) {
    c == ' ' || ('\t' <= c <= '\r')
  }

  /** Where a left-to-right reading of NumberStyles.Integer text stands:
      before the number, after its sign, inside its digits (with the
      magnitude read so far), after it, or past a character the style
      refuses. */
  datatype IntScan =
    | Leading
    | Signed(negative: bool)
    | InDigits(negative: bool, magnitude: int)
    | Trailing(negative: bool, magnitude: int)
    | Refused

  /** Reads one more character: white space, then one optional sign, then
      decimal digits, then white space. */
  function IntStep(st: IntScan, c: char): IntScan {
    match st
    case Leading =>
      if IsNumberWhite(c) then Leading
      else if c == '-' || c == '+' then Signed(c == '-')
      else if IsDigit(c) then InDigits(false, DigitValue(c))
      else Refused
    case Signed(neg) =>
      if IsDigit(c) then InDigits(neg, DigitValue(c)) else Refused
    case InDigits(neg, m) =>
      if IsDigit(c) then InDigits(neg, m * 10 + DigitValue(c))
      else if IsNumberWhite(c) then Trailing(neg, m)
      else Refused
    case Trailing(neg, m) =>
      if IsNumberWhite(c) then st else Refused
    case Refused => Refused
  }

  /** Reads `s` from state `st`. */
  function ScanInt(st: IntScan, s: string): IntScan
    decreases |s|
  {
    if s == [] then st else IntStep(ScanInt(st, s[..|s| - 1]), s[|s| - 1])
  }

  /** The signed value, when it fits in 32 bits. */
  function InRange(negative: bool, magnitude: int): (r: Option<int>)
    ensures r.Some? ==> IsInt32(r.value)
  {
    var v := if negative then -magnitude else magnitude;
    if IsInt32(v) then Some(v) else None
  }

  /** `int.TryParse(s, out v)`, the current culture taken to be the
      invariant one: white space, an
      optional sign, at least one digit, white space, and a value within 32
      bits. `Some(v)` on success, `None` where .NET reports failure (and
      where `int.Parse` and the `(int?)` attribute conversion throw). */
  function ParseInt(s: string): (r: Option<int>)
    ensures r.Some? ==> IsInt32(r.value)
  {
    match ScanInt(Leading, s)
    case InDigits(neg, m) => InRange(neg, m)
    case Trailing(neg, m) => InRange(neg, m)
    case _ => None
  }

  lemma {:induction false} ScanIntAppend(st: IntScan, a: string, b: string)
    ensures ScanInt(st, a + b) == ScanInt(ScanInt(st, a), b)
    decreases |b|
  {
    if b == [] {
      assert a + b == a;
    } else {
      assert (a + b)[..|a + b| - 1] == a + b[..|b| - 1];
      assert (a + b)[|a + b| - 1] == b[|b| - 1];
      ScanIntAppend(st, a, b[..|b| - 1]);
    }
  }

  /** Digits read after the sign, or at the start, accumulate their value. */
  lemma {:induction false} ScanIntDigits(st: IntScan, neg: bool, d: string)
    requires st == Signed(neg) || (st == Leading && !neg)
    requires d != [] && AllDigits(d)
    ensures ScanInt(st, d) == InDigits(neg, DigitsValue(d))
    decreases |d|
  {
    var init := d[..|d| - 1];
    if init == [] {
      assert DigitsValue(d) == DigitsValue(init) * 10 + DigitValue(d[0]);
    } else {
      ScanIntDigits(st, neg, init);
    }
  }

  lemma {:induction false} ParseIntOfNonNegative(x: int)
    requires 0 <= x <= INT32_MAX
    ensures ParseInt(IntToString(x)) == Some(x)
  {
    var s := NatToString(x);
    DigitsValueOfNatToString(x);
    ScanIntDigits(Leading, false, s);
  }

  lemma {:induction false} ParseIntOfNegative(x: int)
    requires INT32_MIN <= x < 0
    ensures ParseInt(IntToString(x)) == Some(x)
  {
    var d := NatToString(-x);
    assert IntToString(x) == "-" + d;
    DigitsValueOfNatToString(-x);
    ScanIntAppend(Leading, "-", d);
    assert "-"[..0] == [];
    assert ScanInt(Leading, "-") == Signed(true);
    ScanIntDigits(Signed(true), true, d);
    assert ScanInt(Leading, IntToString(x)) == InDigits(true, -x);
  }

  /** Every 32-bit integer survives a trip through its numeral. */
  lemma ParseIntOfIntToString(x: int)
    requires IsInt32(x)
    ensures ParseInt(IntToString(x)) == Some(x)
  {
    if x < 0 {
      ParseIntOfNegative(x);
    } else {
      ParseIntOfNonNegative(x);
    }
  }

  /** A double as the model keeps it: the text it was read from. The model
      never computes with these values or compares them, so it does not
      evaluate them. */
  datatype Double = Double(literal: string)

  /** Where a left-to-right reading of NumberStyles.Float text stands:
      before the number, after its sign, in the digits before the point, at
      a point with no digit before it, in the digits after the point, after
      the exponent mark, after the exponent's sign, in the exponent's
      digits, after the number, or past a character the style refuses. */
  datatype FloatScan =
    | BeforeFloat | FloatSign | Whole | BarePoint | Fraction
    | ExponentMark | ExponentSign | Exponent | AfterFloat | NotFloat

  predicate IsExponentMark(c: char) {
    c == 'e' || c == 'E'
  }

  function FloatStep(st: FloatScan, c: char): FloatScan {
    match st
    case BeforeFloat =>
      if IsNumberWhite(c) then BeforeFloat
      else if c == '+' || c == '-' then FloatSign
      else if IsDigit(c) then Whole
      else if c == '.' then BarePoint
      else NotFloat
    case FloatSign =>
      if IsDigit(c) then Whole else if c == '.' then BarePoint else NotFloat
    case Whole =>
      if IsDigit(c) then Whole
      else if c == '.' then Fraction
      else if IsExponentMark(c) then ExponentMark
      else if IsNumberWhite(c) then AfterFloat
      else NotFloat
    case BarePoint =>
      if IsDigit(c) then Fraction else NotFloat
    case Fraction =>
      if IsDigit(c) then Fraction
      else if IsExponentMark(c) then ExponentMark
      else if IsNumberWhite(c) then AfterFloat
      else NotFloat
    case ExponentMark =>
      if c == '+' || c == '-' then ExponentSign else if IsDigit(c) then Exponent else NotFloat
    case ExponentSign =>
      if IsDigit(c) then Exponent else NotFloat
    case Exponent =>
      if IsDigit(c) then Exponent else if IsNumberWhite(c) then AfterFloat else NotFloat
    case AfterFloat =>
      if IsNumberWhite(c) then AfterFloat else NotFloat
    case NotFloat => NotFloat
  }

  /** The states in which the text read so far is a complete literal:
      a mantissa with at least one digit, and an exponent with at least one
      digit if it has a mark. */
  predicate FloatAccepts(st: FloatScan) {
    st == Whole || st == Fraction || st == Exponent || st == AfterFloat
  }

  /** Reading the rest of the text, `s`, from state `st` ends in a complete
      literal. */
  predicate FloatCompletes(st: FloatScan, s: string)
    decreases |s|
  {
    if s == [] then FloatAccepts(st) else FloatCompletes(FloatStep(st, s[0]), s[1..])
  }

  /** `double.TryParse(s, NumberStyles.Float, CultureInfo.InvariantCulture, out v)`:
      white space, an optional sign, digits with an optional decimal point
      and at least one digit in all, an optional exponent (`e` or `E`, an
      optional sign, at least one digit), white space. */
  function ParseDouble(s: string): Option<Double> {
    if FloatCompletes(BeforeFloat, s) then Some(Double(s)) else None
  }

  /** Digits extend the whole part and leave it complete. */
  lemma {:induction false} WholeDigits(d: string)
    requires AllDigits(d)
    ensures FloatCompletes(Whole, d)
    decreases |d|
  {
    if d != [] {
      WholeDigits(d[1..]);
    }
  }

  /** A plain decimal numeral reads back as itself. */
  lemma ParseDoubleOfDigits(d: string)
    requires d != [] && AllDigits(d)
    ensures ParseDouble(d) == Some(Double(d))
  {
    WholeDigits(d[1..]);
  }
}
