/** Decimal numerals as JavaScript reads and writes them for object keys:
    `String(n)` for an integer, `Number(k)` for a key, and the "array index"
    keys that `Object.keys` lists first, in ascending numeric order. */
module JsNumber {
  import opened Wrappers
  import Text

  predicate IsDigit(c: char) { '0' <= c <= '9' }

  predicate AllDigits(s: string) {
    forall i :: 0 <= i < |s| ==> IsDigit(s[i])
  }

  function DigitChar(d: nat): (c: char)
    requires d < 10
    ensures IsDigit(c)
  {
    ('0' as int + d) as char
  }

  function DigitValue(c: char): (d: nat)
    requires IsDigit(c)
    ensures d < 10
  {
    c as int - '0' as int
  }

  /** The value of a string of decimal digits, most significant first. */
  function DecimalValue(s: string): nat
    requires AllDigits(s)
  {
    if s == [] then 0 else DecimalValue(s[..|s| - 1]) * 10 + DigitValue(s[|s| - 1])
  }

  /** A numeral with no superfluous leading zero: what `String` produces. */
  predicate IsCanonicalNat(s: string) {
    s != [] && AllDigits(s) && (s[0] == '0' ==> |s| == 1)
  }

  /** `String(n)` for a natural number. */
  function NatToString(n: nat): (s: string)
    ensures IsCanonicalNat(s)
    ensures DecimalValue(s) == n
  {
    if n < 10 then [DigitChar(n)]
    else
      var p := NatToString(n / 10);
      var s := p + [DigitChar(n % 10)];
      assert s[..|s| - 1] == p;
      s
  }

  /** `String(n)` for an integer. */
  function IntToString(n: int): (s: string)
    ensures s != []
    ensures n >= 0 ==> s == NatToString(n)
    ensures n < 0 ==> s == "-" + NatToString(-n)
  {
    if n < 0 then "-" + NatToString(-n) else NatToString(n)
  }

  /** The keys ECMAScript calls array indices: canonical numerals below 2^32 - 1. */
  predicate IsArrayIndex(k: string) {
    IsCanonicalNat(k) && DecimalValue(k) < 0xFFFF_FFFF
  }

  /** The longest prefix of `s` made of digits. */
  function LeadingDigits(s: string): (d: string)
    ensures AllDigits(d) && d <= s
    ensures |d| < |s| ==> !IsDigit(s[|d|])
  {
    if s != [] && IsDigit(s[0]) then [s[0]] + LeadingDigits(s[1..]) else []
  }

  /** A fraction that does not change an integer's value: "." followed by zeros. */
  predicate IsZeroFraction(t: string) {
    t == [] || (t[0] == '.' && forall i :: 1 <= i < |t| ==> t[i] == '0')
  }

  /** `Number(k)` restricted to keys whose value is an integer: white space
      around the key is ignored, the empty key reads as 0, and an optional
      sign, digits and an all-zero fraction are accepted. The integer part
      may be left out when the fraction has a digit (".0" is 0, "." is
      NaN). `None` stands for NaN. */
  function ParseNumberKey(k: string): (r: Option<int>)
    ensures Text.Trim(k) == [] ==> r == Some(0)
  {
    var t := Text.Trim(k);
    if t == [] then Some(0)
    else
      var rest := if t[0] == '-' || t[0] == '+' then t[1..] else t;
      var u := ReadUnsigned(rest);
      if u.None? then None
      else if t[0] == '-' then Some(-(u.value as int))
      else Some(u.value)
  }

  /** An unsigned numeral with an optional all-zero fraction; the digits
      before the point may be missing, but not all digits. */
  function ReadUnsigned(rest: string): (r: Option<nat>)
    ensures rest == "." ==> r.None?
    ensures AllDigits(rest) && rest != [] ==> r == Some(DecimalValue(rest))
  {
    var digits := LeadingDigits(rest);
    assert AllDigits(rest) ==> digits == rest by {
      if AllDigits(rest) { LeadingDigitsOfDigits(rest); }
    }
    if IsZeroFraction(rest[|digits|..]) && (digits != [] || |rest| > 1) then
      Some(DecimalValue(digits))
    else None
  }

  lemma LeadingDigitsOfDigits(s: string)
    requires AllDigits(s)
    ensures LeadingDigits(s) == s
  {
    if s != [] {
      LeadingDigitsOfDigits(s[1..]);
    }
  }

  /** A plain numeral reads as its value. */
  lemma ParseDigits(d: string)
    requires AllDigits(d) && d != []
    ensures ParseNumberKey(d) == Some(DecimalValue(d))
  {
    LeadingDigitsOfDigits(d);
    assert Text.IsTrimmed(d);
    Text.TrimOfTrimmed(d);
    assert d[|d|..] == [];
  }

  /** A minus sign and a numeral read as the negated value. */
  lemma ParseNegated(d: string)
    requires AllDigits(d) && d != []
    ensures ParseNumberKey("-" + d) == Some(-(DecimalValue(d) as int))
  {
    var s := "-" + d;
    assert s[0] == '-' && s[1..] == d;
    NegatedIsTrimmed(d);
    LeadingDigitsOfDigits(d);
    assert IsZeroFraction(d[|d|..]);
  }

  lemma NegatedIsTrimmed(d: string)
    requires AllDigits(d) && d != []
    ensures Text.Trim("-" + d) == "-" + d
  {
    var s := "-" + d;
    assert s[|s| - 1] == d[|d| - 1];
    assert Text.IsTrimmed(s);
    Text.TrimOfTrimmed(s);
  }

  /** A point alone is not a number, with or without white space
      around it. */
  lemma ParseLonePoint(k: string)
    requires Text.Trim(k) == "."
    ensures ParseNumberKey(k) == None
  {
  }

  /** A zero fraction without an integer part reads as 0, signed or not. */
  lemma ParseFractionOnly(z: string)
    requires z != [] && forall i :: 0 <= i < |z| ==> z[i] == '0'
    ensures ParseNumberKey("." + z) == Some(0)
    ensures ParseNumberKey("-" + ("." + z)) == Some(0)
  {
    ParseUnsignedPointZeros(z);
    ParseNegatedPointZeros(z);
  }

  lemma ParseUnsignedPointZeros(z: string)
    requires z != [] && forall i :: 0 <= i < |z| ==> z[i] == '0'
    ensures ParseNumberKey("." + z) == Some(0)
  {
    var s := "." + z;
    ReadPointZeros(z);
    EndsTrimmed(s);
    assert s[0] == '.';
  }

  lemma ParseNegatedPointZeros(z: string)
    requires z != [] && forall i :: 0 <= i < |z| ==> z[i] == '0'
    ensures ParseNumberKey("-" + ("." + z)) == Some(0)
  {
    ReadPointZeros(z);
    ParseNegatedZero("." + z);
  }

  lemma ParseNegatedZero(s: string)
    requires |s| >= 2 && s[|s| - 1] == '0' && ReadUnsigned(s) == Some(0)
    ensures ParseNumberKey("-" + s) == Some(0)
  {
    MinusParts(s);
    EndsTrimmed("-" + s);
    ParseMinus("-" + s);
  }

  lemma MinusParts(s: string)
    requires s != []
    ensures var m := "-" + s;
      |m| >= 2 && m[0] == '-' && m[1..] == s && m[|m| - 1] == s[|s| - 1]
  {
  }

  /** A trimmed key with a leading minus reads as the negated unsigned
      part. */
  lemma ParseMinus(t: string)
    requires Text.Trim(t) == t && t != [] && t[0] == '-'
    requires ReadUnsigned(t[1..]).Some?
    ensures ParseNumberKey(t) == Some(-(ReadUnsigned(t[1..]).value as int))
  {
  }

  /** A string that starts with a non-blank and ends in '0' needs no trim. */
  lemma EndsTrimmed(s: string)
    requires |s| >= 2 && (s[0] == '.' || s[0] == '-') && s[|s| - 1] == '0'
    ensures Text.Trim(s) == s
  {
    assert Text.IsTrimmed(s);
    Text.TrimOfTrimmed(s);
  }

  lemma ReadPointZeros(z: string)
    requires z != [] && forall i :: 0 <= i < |z| ==> z[i] == '0'
    ensures ReadUnsigned("." + z) == Some(0)
  {
    var s := "." + z;
    assert !IsDigit(s[0]);
    assert LeadingDigits(s) == [];
    assert s[0] == '.' && forall i :: 1 <= i < |s| ==> s[i] == '0';
    assert IsZeroFraction(s);
  }

  /** Reading back what `String` wrote gives the same integer. */
  lemma ParseIntToString(n: int)
    ensures ParseNumberKey(IntToString(n)) == Some(n)
  {
    if n < 0 {
      ParseNegated(NatToString(-n));
    } else {
      ParseDigits(NatToString(n));
    }
  }
}
