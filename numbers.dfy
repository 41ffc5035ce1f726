/** Decimal integers and the integer arithmetic the sources use: JVM and Rust parsing
    rules, decimal formatting, and division that truncates toward zero. */
module Numbers {
  import opened Base

  const INT_MIN: int := -0x8000_0000
  const INT_MAX: int := 0x7FFF_FFFF
  const LONG_MIN: int := -0x8000_0000_0000_0000
  const LONG_MAX: int := 0x7FFF_FFFF_FFFF_FFFF
  const U32_MAX: int := 0xFFFF_FFFF
  const U64_MAX: int := 0xFFFF_FFFF_FFFF_FFFF

  predicate IsDigit(c: char)
  {
    '0' <= c <= '9'
  }

  predicate AllDigits(s: string)
  {
    forall i :: 0 <= i < |s| ==> IsDigit(s[i])
  }

  function DigitChar(d: nat): (c: char)
    requires d < 10
    ensures IsDigit(c) && c as int - '0' as int == d
  {
    ('0' as int + d) as char
  }

  /** The value of a string of decimal digits, most significant first. */
  function DigitsValue(s: string): nat
    requires AllDigits(s)
  {
    if s == [] then 0 else DigitsValue(s[..|s| - 1]) * 10 + (s[|s| - 1] as int - '0' as int)
  }

  /** Shortest decimal form of n, as Kotlin string templates and Rust `{}` print it. */
  function NatToString(n: nat): (r: string)
    ensures |r| >= 1 && AllDigits(r)
    ensures r[0] != '0' || n == 0
  {
    if n < 10 then [DigitChar(n)] else NatToString(n / 10) + [DigitChar(n % 10)]
  }

  function IntToString(i: int): (r: string)
    ensures |r| >= 1
  {
    if i < 0 then "-" + NatToString(0 - i) else NatToString(i)
  }

  function BoolToString(b: bool): string
  {
    if b then "true" else "false"
  }

  lemma {:induction false} DigitsOfNatToString(n: nat)
    ensures DigitsValue(NatToString(n)) == n
  {
    if n >= 10 {
      var s := NatToString(n);
      assert s[..|s| - 1] == NatToString(n / 10);
      DigitsOfNatToString(n / 10);
    }
  }

  /** Decimal text as `Integer.parseInt`, `Long.parseLong` and Kotlin `toIntOrNull` read
      it: an optional sign and at least one digit, the value within [lo, hi]. */
  function ParseSigned(s: string, lo: int, hi: int): (r: Option<int>)
    ensures r.Some? ==> lo <= r.value <= hi
    ensures r.Some? ==> |s| >= 1 && (AllDigits(s) || ((s[0] == '-' || s[0] == '+') && |s| >= 2 && AllDigits(s[1..])))
  {
    if |s| == 0 then None
    else if s[0] == '-' || s[0] == '+' then
      var body := s[1..];
      if |body| == 0 || !AllDigits(body) then None
      else
        var d: int := DigitsValue(body);
        var v := if s[0] == '-' then -d else d;
        if lo <= v <= hi then Some(v) else None
    else if AllDigits(s) then
      var v := DigitsValue(s);
      if lo <= v <= hi then Some(v) else None
    else None
  }

  /** Decimal text as Rust's `str::parse` reads an unsigned integer: an optional `+`,
      at least one digit, the value at most max. */
  function ParseUnsigned(s: string, max: nat): (r: Option<nat>)
    ensures r.Some? ==> r.value <= max
    ensures r.Some? ==> |s| >= 1 && (AllDigits(s) || (s[0] == '+' && |s| >= 2 && AllDigits(s[1..])))
  {
    if |s| == 0 then None
    else
      var body := if s[0] == '+' then s[1..] else s;
      if |body| == 0 || !AllDigits(body) then None
      else if DigitsValue(body) <= max then Some(DigitsValue(body)) else None
  }

  function ToIntOrNull(s: string): Option<int>
  {
    ParseSigned(s, INT_MIN, INT_MAX)
  }

  function ToLongOrNull(s: string): Option<int>
  {
    ParseSigned(s, LONG_MIN, LONG_MAX)
  }

  /** Formatting then parsing gives the number back when it is in range. */
  lemma {:induction false} ParseSignedOfIntToString(i: int, lo: int, hi: int)
    requires lo <= i <= hi
    ensures ParseSigned(IntToString(i), lo, hi) == Some(i)
  {
    if i < 0 {
      ParseNegative(NatToString(-i), -i, lo, hi);
    } else {
      DigitsOfNatToString(i);
      var s := NatToString(i);
      assert IsDigit(s[0]);
    }
  }

  lemma ParseNegative(digits: string, n: nat, lo: int, hi: int)
    requires digits == NatToString(n) && lo <= -(n as int) <= hi
    ensures ParseSigned("-" + digits, lo, hi) == Some(-(n as int))
  {
    DigitsOfNatToString(n);
    var s := "-" + digits;
    assert s[0] == '-' && s[1..] == digits;
  }

  lemma {:induction false} ParseUnsignedOfNatToString(n: nat, max: nat)
    requires n <= max
    ensures ParseUnsigned(NatToString(n), max) == Some(n)
  {
    DigitsOfNatToString(n);
  }

  /** A `long` narrowed to an `int` (`Long.intValue`): the low 32 bits, read as signed. */
  function Wrap32(n: int): (r: int)
    ensures INT_MIN <= r <= INT_MAX
    ensures INT_MIN <= n <= INT_MAX ==> r == n
    ensures (n - r) % 0x1_0000_0000 == 0
  {
    (n - INT_MIN) % 0x1_0000_0000 + INT_MIN
  }

  /** Two to the k. */
  function Pow2(k: nat): (r: nat)
    ensures r >= 1
  {
    if k == 0 then 1 else 2 * Pow2(k - 1)
  }

  lemma {:induction false} Pow2Grows(k: nat)
    requires k >= 4
    ensures Pow2(k) >= 16
  {
    if k > 4 {
      Pow2Grows(k - 1);
    }
  }

  /** 64-bit signed arithmetic (`Long` on the JVM): the low 64 bits, read as signed. */
  function Wrap64(n: int): (r: int)
    ensures LONG_MIN <= r <= LONG_MAX
    ensures LONG_MIN <= n <= LONG_MAX ==> r == n
    ensures (n - r) % 0x1_0000_0000_0000_0000 == 0
  {
    (n - LONG_MIN) % 0x1_0000_0000_0000_0000 + LONG_MIN
  }

  /** Integer division rounding toward zero, as Kotlin, Swift and Rust divide. */
  function TruncDiv(a: int, b: int): (q: int)
    requires b != 0
    ensures a >= 0 && b > 0 ==> q == a / b
    ensures (a >= 0) == (b > 0) || a == 0 ==> q >= 0
  {
    var m := (if a < 0 then -a else a) / (if b < 0 then -b else b);
    if (a < 0) != (b < 0) then -m else m
  }
}
