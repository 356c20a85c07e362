/**
 * Python's `int(s)` on a string, restricted to ASCII decimal literals:
 * an optional '+' or '-' followed by one or more digits.  Anything else
 * raises ValueError, modelled as None.
 */
module PythonInt {
  import opened Outcomes

  predicate IsDigit(c: char) {
    '0' <= c <= '9'
  }

  predicate AllDigits(s: string) {
    forall i :: 0 <= i < |s| ==> IsDigit(s[i])
  }

  function DigitValue(c: char): nat
    requires IsDigit(c)
  {
    c as int - '0' as int
  }

  /** The value of a string of decimal digits, most significant first. */
  function DigitsValue(s: string): nat
    requires AllDigits(s)
  {
    if s == [] then 0 else 10 * DigitsValue(s[..|s| - 1]) + DigitValue(s[|s| - 1])
  }

  /** The text after an optional leading sign. */
  function Unsigned(s: string): string {
    if |s| > 0 && (s[0] == '+' || s[0] == '-') then s[1..] else s
  }

  /**
   * Accepts exactly the strings whose unsigned part is a non-empty run of
   * digits; the value has the sign of a leading '-' and the magnitude of
   * those digits.
   */
  function ParseInt(s: string): (r: Option<int>)
    ensures r.Some? <==> |Unsigned(s)| > 0 && AllDigits(Unsigned(s))
    ensures r.Some? ==> (if |s| > 0 && s[0] == '-' then r.value <= 0 else r.value >= 0)
    ensures r.Some? ==> Magnitude(r.value) == DigitsValue(Unsigned(s))
  {
    if |s| > 0 && (s[0] == '+' || s[0] == '-') then
      var digits := s[1..];
      if |digits| > 0 && AllDigits(digits) then
        var magnitude: int := DigitsValue(digits);
        Some(if s[0] == '-' then -magnitude else magnitude)
      else None
    else if |s| > 0 && AllDigits(s) then Some(DigitsValue(s))
    else None
  }

  function Magnitude(k: int): nat {
    if k < 0 then -k else k
  }

  function DigitChar(d: nat): (c: char)
    requires d < 10
    ensures IsDigit(c) && DigitValue(c) == d
  {
    ('0' as int + d) as char
  }

  /** Python's `str(n)` for an int. */
  function FormatNat(n: nat): (s: string)
    ensures |s| > 0 && AllDigits(s)
  {
    if n < 10 then [DigitChar(n)] else FormatNat(n / 10) + [DigitChar(n % 10)]
  }

  function FormatInt(n: int): string {
    if n < 0 then "-" + FormatNat(-n) else FormatNat(n)
  }

  lemma {:induction false} DigitsValueOfFormat(n: nat)
    ensures DigitsValue(FormatNat(n)) == n
  {
    if n >= 10 {
      var s := FormatNat(n);
      assert s[..|s| - 1] == FormatNat(n / 10);
      DigitsValueOfFormat(n / 10);
    }
  }

  /** `int(str(n)) == n` for every integer n. */
  lemma ParseFormatRoundTrip(n: int)
    ensures ParseInt(FormatInt(n)) == Some(n)
  {
    if n < 0 {
      var s := FormatInt(n);
      assert s[1..] == FormatNat(-n);
      DigitsValueOfFormat(-n);
    } else {
      DigitsValueOfFormat(n);
    }
  }

  lemma {:induction false} LeadingZeroValue(s: string)
    requires AllDigits(s)
    ensures AllDigits("0" + s) && DigitsValue("0" + s) == DigitsValue(s)
  {
    if s != [] {
      var t := "0" + s;
      assert t[..|t| - 1] == "0" + s[..|s| - 1];
      LeadingZeroValue(s[..|s| - 1]);
    }
  }

  /** Leading zeros do not change the parsed value, so "1" and "01" are the same channel index. */
  lemma LeadingZeroIgnored(s: string)
    requires |s| > 0 && AllDigits(s)
    ensures ParseInt("0" + s) == ParseInt(s) && ParseInt(s).Some?
  {
    LeadingZeroValue(s);
  }

  /** Drops leading zeros, keeping at least one digit. */
  function DropZeros(d: string): (r: string)
    ensures |d| > 0 ==> |r| > 0
  {
    if |d| > 1 && d[0] == '0' then DropZeros(d[1..]) else d
  }

  lemma {:induction false} DropZerosValue(d: string)
    requires |d| > 0 && AllDigits(d)
    ensures var z := DropZeros(d);
      AllDigits(z) && DigitsValue(z) == DigitsValue(d) && (|z| == 1 || z[0] != '0')
  {
    if |d| > 1 && d[0] == '0' {
      DropZerosValue(d[1..]);
      assert d == "0" + d[1..];
      LeadingZeroValue(d[1..]);
    }
  }

  lemma {:induction false} LeadingDigitPositive(d: string)
    requires |d| > 0 && AllDigits(d) && d[0] != '0'
    ensures DigitsValue(d) > 0
  {
    if |d| > 1 {
      LeadingDigitPositive(d[..|d| - 1]);
    }
  }

  /** A digit string without superfluous leading zeros is the decimal rendering of its value. */
  lemma {:induction false} FormatOfCanonical(d: string)
    requires |d| > 0 && AllDigits(d) && (|d| == 1 || d[0] != '0')
    ensures FormatNat(DigitsValue(d)) == d
  {
    var n := DigitsValue(d);
    var front, last := d[..|d| - 1], d[|d| - 1];
    if |d| == 1 {
      assert DigitChar(DigitValue(last)) == last;
      assert d == [last];
    } else {
      LeadingDigitPositive(front);
      assert n == 10 * DigitsValue(front) + DigitValue(last);
      assert n / 10 == DigitsValue(front) && n % 10 == DigitValue(last);
      FormatOfCanonical(front);
      assert DigitChar(DigitValue(last)) == last;
      assert d == front + [last];
    }
  }

  /**
   * The converse of the round trip: every string `int()` accepts is the
   * rendering of its value, up to an optional sign and leading zeros.
   */
  lemma ParseIntCanonical(s: string)
    requires ParseInt(s).Some?
    ensures var k, d := ParseInt(s).value, Unsigned(s);
      && |d| > 0 && AllDigits(d)
      && DropZeros(d) == FormatNat(Magnitude(k))
      && (k < 0 ==> s[0] == '-')
  {
    var d := Unsigned(s);
    DropZerosValue(d);
    FormatOfCanonical(DropZeros(d));
  }
}
