/** `Integer.parseInt(String)` and `Integer.toString(int)` (which is what
    `String.format("%s", n)` prints for an `int`), restricted to ASCII digits.
    The cursors of the pagination are decimal strings built and read by these two. */
module JavaInteger {
  import opened Java

  predicate IsDigit(c: char) {
    '0' <= c <= '9'
  }

  function DigitValue(c: char): (d: nat)
    requires IsDigit(c)
    ensures d < 10
  {
    c as int - '0' as int
  }

  function DigitChar(d: nat): (c: char)
    requires d < 10
    ensures IsDigit(c) && DigitValue(c) == d
  {
    (d + '0' as int) as char
  }

  predicate AllDigits(s: string) {
    forall i :: 0 <= i < |s| ==> IsDigit(s[i])
  }

  /** The value of a non-empty run of decimal digits (leading zeros allowed,
      as Java allows them); `None` when `s` is empty or holds a non-digit. */
  function ParseDigits(s: string): (r: Option<nat>)
    ensures r.Some? <==> |s| > 0 && AllDigits(s)
    decreases |s|
  {
    if |s| == 0 || !IsDigit(s[|s| - 1]) then None
    else if |s| == 1 then Some(DigitValue(s[0]))
    else match ParseDigits(s[..|s| - 1])
      case None => None
      case Some(v) => Some(10 * v + DigitValue(s[|s| - 1]))
  }

  /** An optional `-` or `+` followed by at least one ASCII digit. */
  predicate IsNumeral(s: string) {
    || (|s| > 0 && AllDigits(s))
    || (|s| > 1 && (s[0] == '-' || s[0] == '+') && AllDigits(s[1..]))
  }

  /** `Integer.parseInt(s)`: an optional `-` or `+` followed by at least one
      digit, whose value fits in an `int`; `None` stands for the
      `NumberFormatException` Java throws otherwise. */
  function ParseInt(s: string): (r: Option<Int32>)
    // anything but a signed run of digits throws
    ensures r.Some? ==> IsNumeral(s)
    // an unsigned run of digits reads as its value exactly when that fits in an `int`
    ensures |s| > 0 && AllDigits(s) ==>
              (r.Some? <==> ParseDigits(s).value <= MAX_INT) &&
              (r.Some? ==> r.value == ParseDigits(s).value)
    ensures |s| > 1 && s[0] == '-' && AllDigits(s[1..]) ==>
              (r.Some? <==> ParseDigits(s[1..]).value <= -MIN_INT) &&
              (r.Some? ==> r.value == -(ParseDigits(s[1..]).value as int))
    ensures |s| > 1 && s[0] == '+' && AllDigits(s[1..]) ==>
              (r.Some? <==> ParseDigits(s[1..]).value <= MAX_INT) &&
              (r.Some? ==> r.value == ParseDigits(s[1..]).value)
    ensures r.Some? && r.value < 0 ==> s[0] == '-'
  {
    if |s| > 1 && s[0] == '-' then
      match ParseDigits(s[1..])
      case Some(v) => if -(v as int) >= MIN_INT then Some(-(v as int)) else None
      case None => None
    else if |s| > 1 && s[0] == '+' then
      match ParseDigits(s[1..])
      case Some(v) => if v <= MAX_INT then Some(v) else None
      case None => None
    else
      match ParseDigits(s)
      case Some(v) => if v <= MAX_INT then Some(v) else None
      case None => None
  }

  /** The shortest decimal spelling of `n`: no sign, no leading zero. */
  function FormatNat(n: nat): (r: string)
    ensures |r| > 0 && AllDigits(r)
    ensures r[0] == '0' ==> n == 0
    ensures n < 10 <==> |r| == 1
  {
    if n < 10 then [DigitChar(n)] else FormatNat(n / 10) + [DigitChar(n % 10)]
  }

  /** `Integer.toString(n)`. */
  function IntToString(n: Int32): (r: string)
    ensures |r| > 0
    ensures r[0] == '-' <==> n < 0
    ensures n >= 0 ==> AllDigits(r)
  {
    if n < 0 then "-" + FormatNat(-(n as int)) else FormatNat(n)
  }

  /** The strings `Integer.toString` can produce: `0`, or an optional minus
      sign followed by digits that do not start with `0`. */
  predicate IsCanonical(s: string) {
    || s == "0"
    || (|s| > 0 && '1' <= s[0] <= '9' && AllDigits(s))
    || (|s| > 1 && s[0] == '-' && '1' <= s[1] <= '9' && AllDigits(s[1..]))
  }

  lemma {:induction false} ParseFormatNat(n: nat)
    ensures ParseDigits(FormatNat(n)) == Some(n)
  {
    if n >= 10 {
      var s := FormatNat(n);
      assert s[..|s| - 1] == FormatNat(n / 10);
      ParseFormatNat(n / 10);
    }
  }

  /** Parsing what `Integer.toString` printed gives the number back. */
  lemma ParseIntToString(n: Int32)
    ensures ParseInt(IntToString(n)) == Some(n)
  {
    var s := IntToString(n);
    if n < 0 {
      var m: nat := -(n as int);
      assert s == "-" + FormatNat(m);
      assert |s| > 1 && s[0] == '-' && s[1..] == FormatNat(m);
      ParseFormatNat(m);
      assert ParseDigits(s[1..]) == Some(m);
    } else {
      ParseFormatNat(n);
    }
  }

  /** `Integer.toString` spells every number canonically. */
  lemma IntToStringIsCanonical(n: Int32)
    ensures IsCanonical(IntToString(n))
  {
  }

  lemma {:induction false} ParseDigitsPositive(s: string)
    requires |s| > 0 && AllDigits(s) && s[0] != '0'
    ensures ParseDigits(s).Some? && ParseDigits(s).value >= 1
    decreases |s|
  {
    if |s| > 1 {
      ParseDigitsPositive(s[..|s| - 1]);
    }
  }

  lemma {:induction false} FormatParseDigits(s: string)
    requires |s| > 0 && AllDigits(s) && s[0] != '0'
    ensures ParseDigits(s).Some? && FormatNat(ParseDigits(s).value) == s
    decreases |s|
  {
    if |s| > 1 {
      var p := s[..|s| - 1];
      FormatParseDigits(p);
      ParseDigitsPositive(p);
      var v := ParseDigits(p).value;
      var n := 10 * v + DigitValue(s[|s| - 1]);
      assert n / 10 == v && n % 10 == DigitValue(s[|s| - 1]);
      assert s == p + [s[|s| - 1]];
    }
  }

  /** A canonical numeral is exactly what `Integer.toString` prints for the
      value `Integer.parseInt` reads from it. */
  lemma ToStringParseInt(s: string, n: Int32)
    requires IsCanonical(s) && ParseInt(s) == Some(n)
    ensures IntToString(n) == s
  {
    if s == "0" {
    } else if s[0] == '-' {
      FormatParseDigits(s[1..]);
      ParseDigitsPositive(s[1..]);
      assert s == "-" + s[1..];
    } else {
      FormatParseDigits(s);
    }
  }

  /** For a canonical numeral, being the string `"0"` and denoting zero are the same. */
  lemma CanonicalZero(s: string, n: Int32)
    requires IsCanonical(s) && ParseInt(s) == Some(n)
    ensures s == "0" <==> n == 0
  {
    ToStringParseInt(s, n);
  }
}
