/**
  `CountDownFormatter.formatToMinutes`: a number of seconds rendered as minutes and seconds,
  each part through `String(format: "%02d", _)`.

  Swift's `/` and `%` on `Int` truncate toward zero, and printf's `%02d` pads with zeros to a
  width of two characters, the sign included; both are written out here so that the
  function is total on `int`, as the source's is.
 */
module CountdownFormatter {
  import opened Wrappers

  predicate IsDigit(c: char) {
    '0' <= c <= '9'
  }

  predicate AllDigits(s: string) {
    forall i :: 0 <= i < |s| ==> IsDigit(s[i])
  }

  function DigitChar(d: nat): (c: char)
    requires d < 10
    ensures IsDigit(c) && c as int - '0' as int == d
  {
    ('0' as int + d) as char
  }

  /** The decimal digits of `n`, most significant first, without leading zeros (Swift's `"\(n)"`). */
  function Decimal(n: nat): (s: string)
    ensures 1 <= |s| && AllDigits(s)
    ensures s[0] == '0' ==> n == 0
  {
    if n < 10 then [DigitChar(n)] else Decimal(n / 10) + [DigitChar(n % 10)]
  }

  /** The number a string of decimal digits denotes; leading zeros add nothing. */
  function DigitsValue(s: string): nat
    requires AllDigits(s)
  {
    if s == [] then 0 else DigitsValue(s[..|s| - 1]) * 10 + (s[|s| - 1] as int - '0' as int)
  }

  /** Swift's `"\(n)"` for any `Int`: a minus sign before the digits of a negative number. */
  function IntDescription(n: int): (s: string)
    ensures n >= 0 ==> s == Decimal(n)
    ensures n < 0 ==> 2 <= |s| && s[0] == '-' && s[1..] == Decimal(-n)
  {
    if n < 0 then "-" + Decimal(-n) else Decimal(n)
  }

  /** `String(format: "%02d", n)`: at least two characters, zero-padded when `n` is one digit. */
  function Pad2(n: int): (s: string)
    ensures 2 <= |s|
    ensures n >= 0 ==> AllDigits(s)
  {
    if 0 <= n < 10 then "0" + Decimal(n) else IntDescription(n)
  }

  /** Swift's `a / b` for a positive divisor: the quotient truncated toward zero. */
  function Quot(a: int, b: int): (q: int)
    requires b > 0
    ensures a >= 0 ==> q == a / b
    ensures a < 0 ==> q == -((-a) / b)
  {
    if a >= 0 then a / b else -((-a) / b)
  }

  /** Swift's `a % b` for a positive divisor: the remainder takes the sign of `a`. */
  function Rem(a: int, b: int): (r: int)
    requires b > 0
    ensures a >= 0 ==> r == a % b
    ensures a < 0 ==> -b < r <= 0
    ensures Quot(a, b) * b + r == a
  {
    a - b * Quot(a, b)
  }

  /** `formatToMinutes(from:)`: minutes, a colon, seconds. */
  function FormatToMinutes(timeInSeconds: int): (s: string)
    ensures 5 <= |s|
    ensures timeInSeconds >= 0 ==>
      s[|s| - 3] == ':' && AllDigits(s[..|s| - 3]) && AllDigits(s[|s| - 2..])
  {
    var minutes, seconds := Pad2(Quot(timeInSeconds, 60)), Pad2(Rem(timeInSeconds, 60));
    if timeInSeconds >= 0 then
      Pad2Value(timeInSeconds / 60);
      Pad2Value(timeInSeconds % 60);
      var s := minutes + ":" + seconds;
      assert s[..|s| - 3] == minutes && s[|s| - 2..] == seconds;
      s
    else
      minutes + ":" + seconds
  }

  /** The index of the first ':' in `s`, or `|s|` when there is none. */
  function ColonIndex(s: string): (i: nat)
    ensures i <= |s|
    ensures forall j :: 0 <= j < i ==> s[j] != ':'
    ensures i < |s| ==> s[i] == ':'
  {
    if s == [] || s[0] == ':' then 0 else 1 + ColonIndex(s[1..])
  }

  /** Reads an "MM:SS" text back as a number of seconds (an independent inverse of the formatter). */
  function ParseMinutes(s: string): (t: Option<nat>)
    ensures ':' !in s ==> t.None?
    ensures t.Some? ==> ':' in s && forall j :: 0 <= j < |s| && s[j] != ':' ==> IsDigit(s[j])
    ensures t.Some? ==> forall j, k :: 0 <= j < k < |s| && s[j] == ':' ==> s[k] != ':'
  {
    var i := ColonIndex(s);
    if i < |s| && AllDigits(s[..i]) && AllDigits(s[i + 1..])
    then Some(DigitsValue(s[..i]) * 60 + DigitsValue(s[i + 1..]))
    else None
  }

  lemma {:induction false} DecimalValue(n: nat)
    ensures DigitsValue(Decimal(n)) == n
  {
    if n >= 10 {
      DecimalValue(n / 10);
      var s := Decimal(n);
      assert s[..|s| - 1] == Decimal(n / 10);
    }
  }

  lemma DecimalLength(n: nat)
    ensures n < 10 ==> |Decimal(n)| == 1
    ensures 10 <= n < 100 ==> |Decimal(n)| == 2
  {
  }

  lemma {:induction false} LeadingZero(s: string)
    requires AllDigits(s)
    ensures AllDigits("0" + s) && DigitsValue("0" + s) == DigitsValue(s)
  {
    if s != [] {
      LeadingZero(s[..|s| - 1]);
      assert ("0" + s)[..|s|] == "0" + s[..|s| - 1];
    }
  }

  /** For a non-negative number, `%02d` gives digits denoting that number; two of them below 100. */
  lemma Pad2Value(n: nat)
    ensures AllDigits(Pad2(n)) && DigitsValue(Pad2(n)) == n
    ensures n < 100 ==> |Pad2(n)| == 2
  {
    DecimalValue(n);
    DecimalLength(n);
    if n < 10 {
      LeadingZero(Decimal(n));
    }
  }

  lemma {:induction false} ColonAfterDigits(a: string, b: string)
    requires AllDigits(a)
    ensures ColonIndex(a + ":" + b) == |a|
  {
    if a != [] {
      assert (a + ":" + b)[1..] == a[1..] + ":" + b;
      ColonAfterDigits(a[1..], b);
    }
  }

  /** For a non-negative input the two fields are `t / 60` and `t % 60`, each through `%02d`. */
  lemma FormatFields(t: nat)
    ensures FormatToMinutes(t) == Pad2(t / 60) + ":" + Pad2(t % 60)
    ensures t % 60 < 60
  {
  }

  /** Below 100 minutes the text is exactly "MM:SS": five characters, the colon at index 2,
      minutes `t / 60` before it and seconds `t % 60` (00 to 59) after it. */
  lemma FormatShape(t: nat)
    requires t < 6000
    ensures |FormatToMinutes(t)| == 5 && FormatToMinutes(t)[2] == ':'
    ensures AllDigits(FormatToMinutes(t)[..2]) && DigitsValue(FormatToMinutes(t)[..2]) == t / 60
    ensures AllDigits(FormatToMinutes(t)[3..]) && DigitsValue(FormatToMinutes(t)[3..]) == t % 60
    ensures DigitsValue(FormatToMinutes(t)[3..]) < 60
  {
    Pad2Value(t / 60);
    Pad2Value(t % 60);
    var s := FormatToMinutes(t);
    assert s[..2] == Pad2(t / 60);
    assert s[3..] == Pad2(t % 60);
  }

  /** Reading the text back gives the input again, for every non-negative input (minutes are not capped). */
  lemma FormatRoundTrip(t: nat)
    ensures ParseMinutes(FormatToMinutes(t)) == Some(t)
  {
    var m, sec := Pad2(t / 60), Pad2(t % 60);
    Pad2Value(t / 60);
    Pad2Value(t % 60);
    var s := FormatToMinutes(t);
    assert s == m + ":" + sec;
    ColonAfterDigits(m, sec);
    assert s[..|m|] == m;
    assert s[|m| + 1..] == sec;
  }

  /** The cases the source's tests and its callers rely on. */
  lemma FormatExamples()
    ensures FormatToMinutes(60) == "01:00"
    ensures FormatToMinutes(65) == "01:05"
    ensures FormatToMinutes(300) == "05:00"
    ensures FormatToMinutes(3600) == "60:00"
    ensures FormatToMinutes(0) == "00:00"
  {
  }

  /** A negative input is formatted with truncating division, as Swift does: -1 gives "00:-1". */
  lemma FormatNegative()
    ensures FormatToMinutes(-1) == "00:-1"
    ensures FormatToMinutes(-61) == "-1:-1"
  {
  }
}
