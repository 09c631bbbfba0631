/**
 * The JavaScript numbers the application stores and compares: integers and
 * NaN, as produced by `parseInt` and printed by `String(n)`.
 */
module JsNumber {
  import opened Options
  import opened JsString

  /** An integral JavaScript number, or NaN. */
  datatype Number = Num(value: int) | NaN

  /** `a < b`; false as soon as either side is NaN. */
  predicate Less(a: Number, b: Number) {
    a.Num? && b.Num? && a.value < b.value
  }

  /** `a <= b`; false as soon as either side is NaN. */
  predicate AtMost(a: Number, b: Number) {
    a.Num? && b.Num? && a.value <= b.value
  }

  /** The digit value of `c` in radices up to 36, or 36 when `c` is no digit. */
  function DigitValue(c: char): (d: nat)
    ensures d <= 36
    ensures IsDigit(c) ==> d == c as int - '0' as int
  {
    if '0' <= c <= '9' then c as int - '0' as int
    else if 'a' <= c <= 'z' then c as int - 'a' as int + 10
    else if 'A' <= c <= 'Z' then c as int - 'A' as int + 10
    else 36
  }

  /** The longest prefix of `s` made of digits in the given radix. */
  function DigitPrefix(s: string, radix: nat): (r: string)
    ensures r <= s
    ensures forall i :: 0 <= i < |r| ==> DigitValue(r[i]) < radix
    ensures |r| < |s| ==> DigitValue(s[|r|]) >= radix
  {
    if s != [] && DigitValue(s[0]) < radix then [s[0]] + DigitPrefix(s[1..], radix) else []
  }

  /** The value of a digit string in the given radix, most significant digit first. */
  function DigitsValue(ds: string, radix: nat): nat {
    if ds == [] then 0
    else DigitsValue(ds[..|ds| - 1], radix) * radix + DigitValue(ds[|ds| - 1])
  }

  /** The sign `parseInt` reads: a leading "-" makes the result negative. */
  predicate IsNegative(t: string) {
    t != [] && t[0] == '-'
  }

  /** The text after one leading "+" or "-". */
  function StripSign(t: string): (u: string)
    ensures |u| <= |t|
  {
    if t != [] && (t[0] == '-' || t[0] == '+') then t[1..] else t
  }

  /** A "0x" or "0X" prefix, which selects radix 16. */
  predicate HasHexPrefix(u: string) {
    |u| >= 2 && u[0] == '0' && (u[1] == 'x' || u[1] == 'X')
  }

  /** The magnitude `parseInt` reads from unsigned text, if it has any digit. */
  function ParseMagnitude(u: string): (m: Option<nat>) {
    var radix := if HasHexPrefix(u) then 16 else 10;
    var digits := DigitPrefix(if HasHexPrefix(u) then u[2..] else u, radix);
    if digits == [] then None else Some(DigitsValue(digits, radix))
  }

  /**
   * `parseInt(s)` without a radix: leading white space is skipped, one sign
   * is read, a "0x"/"0X" prefix selects radix 16 (otherwise 10), and the
   * longest digit prefix is converted; no digit at all gives NaN.
   */
  function ParseInt(s: string): (n: Number) {
    var t := TrimStart(s);
    match ParseMagnitude(StripSign(t))
    case None => NaN
    case Some(m) => if IsNegative(t) then Num(-(m as int)) else Num(m)
  }

  function DigitChar(d: nat): (c: char)
    requires d < 10
    ensures IsDigit(c) && DigitValue(c) == d
  {
    ('0' as int + d) as char
  }

  /** The decimal numeral of `n`, without leading zeros. */
  function NatString(n: nat): (s: string)
    ensures s != []
    ensures forall i :: 0 <= i < |s| ==> IsDigit(s[i])
    ensures s[0] == '0' ==> n == 0 && |s| == 1
  {
    if n < 10 then [DigitChar(n)] else NatString(n / 10) + [DigitChar(n % 10)]
  }

  /** `String(n)`: the decimal numeral, "-" before a negative one, "NaN" for NaN. */
  function ShowNumber(n: Number): (r: string)
    ensures r != []
    ensures r[0] == '-' <==> n.Num? && n.value < 0
    ensures n.Num? ==> forall i :: (if n.value < 0 then 1 else 0) <= i < |r| ==> IsDigit(r[i])
  {
    match n
    case NaN => "NaN"
    case Num(v) => if v < 0 then "-" + NatString(-v) else NatString(v)
  }

  lemma {:induction false} NatStringValue(n: nat)
    ensures DigitsValue(NatString(n), 10) == n
  {
    var s := NatString(n);
    if n >= 10 {
      NatStringValue(n / 10);
      assert s[..|s| - 1] == NatString(n / 10);
    }
  }

  lemma {:induction false} DigitPrefixOfDigits(s: string)
    requires forall i :: 0 <= i < |s| ==> IsDigit(s[i])
    ensures DigitPrefix(s, 10) == s
  {
    if s != [] {
      DigitPrefixOfDigits(s[1..]);
    }
  }

  /** A decimal numeral, leading zeros allowed, reads back as its value. */
  lemma ParseMagnitudeOfNumeral(s: string)
    requires s != [] && forall i :: 0 <= i < |s| ==> IsDigit(s[i])
    ensures ParseMagnitude(s) == Some(DigitsValue(s, 10))
  {
    assert !HasHexPrefix(s);
    DigitPrefixOfDigits(s);
  }

  /** "NaN" has no digit, so `parseInt("NaN")` is NaN. */
  lemma ParseNaNText()
    ensures ParseInt("NaN") == NaN
  {
    var t := "NaN";
    assert !IsWhitespace(t[0]);
    assert TrimStart(t) == t;
    assert StripSign(t) == t;
    assert !HasHexPrefix(t);
    assert DigitValue(t[0]) >= 10;
    assert DigitPrefix(t, 10) == [];
  }

  /** Text that its own sign and magnitude determine parses to that signed magnitude. */
  lemma ParseUntrimmed(t: string, m: nat)
    requires TrimStart(t) == t
    requires ParseMagnitude(StripSign(t)) == Some(m)
    ensures ParseInt(t) == if IsNegative(t) then Num(-(m as int)) else Num(m)
  {
  }

  /** Unsigned text starting with a digit parses to the magnitude it reads. */
  lemma ParseUnsigned(s: string, m: nat)
    requires s != [] && IsDigit(s[0])
    requires ParseMagnitude(s) == Some(m)
    ensures ParseInt(s) == Num(m)
  {
    SignOrDigitNotWhitespace(s[0]);
    TrimStartNoop(s);
    assert !IsNegative(s) && StripSign(s) == s;
    ParseUntrimmed(s, m);
  }

  /** "-" before unsigned text starting with a digit parses to the negated magnitude. */
  lemma ParseSigned(s: string, m: nat)
    requires s != [] && IsDigit(s[0])
    requires ParseMagnitude(s) == Some(m)
    ensures ParseInt("-" + s) == Num(-(m as int))
  {
    var t := "-" + s;
    SignOrDigitNotWhitespace(t[0]);
    TrimStartNoop(t);
    assert t[1..] == s;
    assert IsNegative(t) && StripSign(t) == s;
    ParseUntrimmed(t, m);
  }

  /** A decimal numeral parses to its value `m`; leading zeros ("05000") are read as decimal digits. */
  lemma ParseNumeral(s: string, m: nat)
    requires s != [] && forall i :: 0 <= i < |s| ==> IsDigit(s[i])
    requires m == DigitsValue(s, 10)
    ensures ParseInt(s) == Num(m)
  {
    ParseMagnitudeOfNumeral(s);
    ParseUnsigned(s, m);
  }

  /** "-" followed by a decimal numeral parses to its negated value. */
  lemma ParseNegativeNumeral(s: string, m: nat)
    requires s != [] && forall i :: 0 <= i < |s| ==> IsDigit(s[i])
    requires m == DigitsValue(s, 10)
    ensures ParseInt("-" + s) == Num(-(m as int))
  {
    ParseMagnitudeOfNumeral(s);
    ParseSigned(s, m);
  }

  /** `parseInt(String(n)) === n`, and NaN prints as "NaN", which parses back to NaN. */
  lemma ParseShowRoundTrip(n: Number)
    ensures ParseInt(ShowNumber(n)) == n
  {
    match n
    case NaN =>
      ParseNaNText();
    case Num(v) =>
      if v < 0 {
        ShowNegativeRoundTrip(v);
      } else {
        ShowNonNegativeRoundTrip(v);
      }
  }

  lemma ShowNegativeRoundTrip(v: int)
    requires v < 0
    ensures ParseInt(ShowNumber(Num(v))) == Num(v)
  {
    var digits := NatString(-v);
    assert ShowNumber(Num(v)) == "-" + digits;
    NatStringValue(-v);
    ParseNegativeNumeral(digits, -v);
  }

  lemma ShowNonNegativeRoundTrip(v: nat)
    ensures ParseInt(ShowNumber(Num(v))) == Num(v)
  {
    var digits := NatString(v);
    assert ShowNumber(Num(v)) == digits;
    NatStringValue(v);
    ParseNumeral(digits, v);
  }
}
