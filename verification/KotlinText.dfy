/**
  The few pieces of the Kotlin and Java runtime that the application's
  arithmetic and text handling rely on: 32-bit `Int` wrap-around,
  `String.toIntOrNull()`, `Int.toString()` and `String.format("%0Nd", n)`.
  Only ASCII digits are modelled.
 */
module KotlinText {
  import opened Optional

  const MinInt: int := -0x8000_0000
  const MaxInt: int := 0x7fff_ffff
  const TwoTo32: int := 0x1_0000_0000

  predicate IsInt32(n: int) {
    MinInt <= n <= MaxInt
  }

  /** The two's-complement wrap-around of a Kotlin `Int` operation whose exact result is `n`. */
  function Wrap32(n: int): (r: int)
    ensures IsInt32(r)
    ensures (r - n) % TwoTo32 == 0
    ensures IsInt32(n) ==> r == n
  {
    (n - MinInt) % TwoTo32 + MinInt
  }

  predicate IsDigit(c: char) {
    '0' <= c <= '9'
  }

  predicate AllDigits(s: string) {
    forall i :: 0 <= i < |s| ==> IsDigit(s[i])
  }

  function DigitValue(c: char): (d: nat)
    requires IsDigit(c)
    ensures d <= 9
  {
    (c as int) - ('0' as int)
  }

  function DigitChar(d: nat): (c: char)
    requires d <= 9
    ensures IsDigit(c) && DigitValue(c) == d
  {
    (('0' as int) + d) as char
  }

  /** The value of a string of decimal digits, most significant digit first. */
  function DigitsValue(s: string): nat
    requires AllDigits(s)
  {
    if s == [] then 0 else DigitsValue(s[..|s| - 1]) * 10 + DigitValue(s[|s| - 1])
  }

  /** The shortest decimal spelling of `n`. */
  function Digits(n: nat): (s: string)
    ensures |s| >= 1 && AllDigits(s)
    ensures DigitsValue(s) == n
    ensures s[0] == '0' ==> n == 0
  {
    if n < 10 then [DigitChar(n)]
    else
      var prefix := Digits(n / 10);
      var s := prefix + [DigitChar(n % 10)];
      assert s[..|s| - 1] == prefix;
      s
  }

  /** A magnitude with its sign applied. */
  function Signed(magnitude: nat, negative: bool): int {
    if negative then -(magnitude as int) else magnitude
  }

  /** The digits after an optional sign, read as an `Int`; `None` when they are not all
      digits, when there are none, or when the value does not fit in 32 bits. */
  function SignedDigits(digits: string, negative: bool): (r: Option<int>)
    ensures r.Some? <==>
              && digits != [] && AllDigits(digits)
              && IsInt32(Signed(DigitsValue(digits), negative))
    ensures r.Some? ==> r.value == Signed(DigitsValue(digits), negative)
  {
    if digits == [] || !AllDigits(digits) then None
    else
      var v := Signed(DigitsValue(digits), negative);
      if IsInt32(v) then Some(v) else None
  }

  /** Kotlin's `String.toIntOrNull()`: an optional leading `-` or `+`, then one or more
      digits, and a value inside the `Int` range; anything else is `null`. */
  function ToIntOrNull(s: string): (r: Option<int>)
    ensures r.Some? ==> IsInt32(r.value)
    ensures r.Some? ==> |s| >= 1 && (IsDigit(s[0]) || s[0] == '-' || s[0] == '+')
    ensures r.Some? ==> AllDigits(s[1..])
    ensures r.Some? && IsDigit(s[0]) ==> AllDigits(s) && r.value == DigitsValue(s)
    ensures |s| >= 1 && AllDigits(s) && DigitsValue(s) <= MaxInt ==> r == Some(DigitsValue(s))
    ensures |s| >= 2 && s[0] == '-' && AllDigits(s[1..]) && DigitsValue(s[1..]) <= -MinInt ==>
              r == Some(-(DigitsValue(s[1..]) as int))
    ensures |s| >= 2 && s[0] == '+' && AllDigits(s[1..]) && DigitsValue(s[1..]) <= MaxInt ==>
              r == Some(DigitsValue(s[1..]))
    ensures r.Some? ==> |s| >= 2 || IsDigit(s[0])
    ensures r.Some? && s[0] == '-' ==> AllDigits(s[1..]) && r.value == -(DigitsValue(s[1..]) as int)
    ensures r.Some? && s[0] == '+' ==> AllDigits(s[1..]) && r.value == DigitsValue(s[1..])
  {
    if |s| == 0 then None
    else if s[0] < '0' then
      if |s| == 1 then None
      else if s[0] == '-' then SignedDigits(s[1..], true)
      else if s[0] == '+' then SignedDigits(s[1..], false)
      else None
    else
      SignedDigits(s, false)
  }

  function Zeros(k: nat): (s: string)
    ensures |s| == k && forall i :: 0 <= i < k ==> s[i] == '0'
  {
    if k == 0 then [] else Zeros(k - 1) + "0"
  }

  /** `digits` left-padded with zeros to at least `width` characters. */
  function ZeroPad(digits: string, width: int): (s: string)
    ensures |s| == if |digits| < width then width else |digits|
  {
    if |digits| < width then Zeros(width - |digits|) + digits else digits
  }

  /** Java's `String.format("%0<width>d", n)`: the sign, then the magnitude's digits
      zero-padded so that the whole text is at least `width` characters. */
  function FormatPadded(n: int, width: nat): string {
    if n < 0 then "-" + ZeroPad(Digits(-n), width - 1) else ZeroPad(Digits(n), width)
  }

  /** Kotlin's `Int.toString()`. */
  function IntToString(n: int): (s: string)
    ensures s == FormatPadded(n, 0)
  {
    if n < 0 then "-" + Digits(-n) else Digits(n)
  }

  lemma {:induction false} LeadingZeroValue(t: string)
    requires AllDigits(t)
    ensures AllDigits("0" + t) && DigitsValue("0" + t) == DigitsValue(t)
  {
    var s := "0" + t;
    assert AllDigits(s) by {
      forall i | 0 <= i < |s| ensures IsDigit(s[i]) {
        if i > 0 { assert s[i] == t[i - 1]; }
      }
    }
    if t != [] {
      var init := t[..|t| - 1];
      assert s[..|s| - 1] == "0" + init;
      LeadingZeroValue(init);
    }
  }

  lemma {:induction false} ZerosValue(k: nat, t: string)
    requires AllDigits(t)
    ensures AllDigits(Zeros(k) + t) && DigitsValue(Zeros(k) + t) == DigitsValue(t)
  {
    if k > 0 {
      assert Zeros(k) + t == Zeros(k - 1) + ("0" + t);
      LeadingZeroValue(t);
      ZerosValue(k - 1, "0" + t);
      assert DigitsValue(Zeros(k - 1) + ("0" + t)) == DigitsValue(t);
    } else {
      assert Zeros(k) + t == t;
    }
  }

  /** Round trip: whatever `%0Nd` prints for an `Int`, `toIntOrNull` reads back. */
  lemma FormatPaddedRoundTrip(n: int, width: nat)
    requires IsInt32(n)
    ensures ToIntOrNull(FormatPadded(n, width)) == Some(n)
  {
    if n < 0 {
      NegativeRoundTrip(-n, width);
    } else {
      PaddedDigits(n, width);
      var text := ZeroPad(Digits(n), width);
      assert FormatPadded(n, width) == text;
      assert ToIntOrNull(text) == Some(DigitsValue(text));
    }
  }

  lemma NegativeRoundTrip(m: nat, width: nat)
    requires 0 < m <= -MinInt
    ensures ToIntOrNull(FormatPadded(-(m as int), width)) == Some(-(m as int))
  {
    var padded := ZeroPad(Digits(m), width - 1);
    PaddedDigits(m, width - 1);
    var text := "-" + padded;
    assert FormatPadded(-(m as int), width) == text;
    assert text[1..] == padded;
    ReadNegative(text, m);
  }

  /** A minus sign followed by the digits of a magnitude within range reads back negated. */
  lemma ReadNegative(text: string, m: nat)
    requires |text| >= 2 && text[0] == '-' && AllDigits(text[1..])
    requires DigitsValue(text[1..]) == m <= -MinInt
    ensures ToIntOrNull(text) == Some(-(m as int))
  {
  }

  /** Zero padding keeps the digits' value. */
  lemma PaddedDigits(m: nat, w: int)
    ensures var padded := ZeroPad(Digits(m), w);
      |padded| >= 1 && AllDigits(padded) && DigitsValue(padded) == m
  {
    var digits := Digits(m);
    var k := if |digits| < w then w - |digits| else 0;
    ZerosValue(k, digits);
    assert ZeroPad(digits, w) == Zeros(k) + digits;
  }

  /** Round trip: `toIntOrNull` reads back what `Int.toString()` prints. */
  lemma IntToStringRoundTrip(n: int)
    requires IsInt32(n)
    ensures ToIntOrNull(IntToString(n)) == Some(n)
  {
    FormatPaddedRoundTrip(n, 0);
  }
}
