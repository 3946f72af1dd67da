/** Decimal printing and parsing of 64-bit integers: fmt's "%d" and strconv.ParseInt(s, 10, 64). */
module Decimal {
  import opened Common

  function DigitChar(d: nat): (c: char)
    requires d < 10
    ensures IsDigit(c) && DigitValue(c) == d
  {
    ('0' as int + d) as char
  }

  predicate IsDigit(c: char) {
    '0' <= c <= '9'
  }

  function DigitValue(c: char): (d: nat)
    requires IsDigit(c)
    ensures d < 10
  {
    c as int - '0' as int
  }

  predicate AllDigits(s: string) {
    forall i | 0 <= i < |s| :: IsDigit(s[i])
  }

  function FormatNat(n: nat): (s: string)
    ensures s != "" && AllDigits(s)
  {
    if n < 10 then [DigitChar(n)] else FormatNat(n / 10) + [DigitChar(n % 10)]
  }

  function FormatInt(n: int): string {
    if n < 0 then "-" + FormatNat(-n) else FormatNat(n)
  }

  function Magnitude(s: string): nat
    requires AllDigits(s)
  {
    if s == "" then 0 else 10 * Magnitude(s[..|s| - 1]) + DigitValue(s[|s| - 1])
  }

  /** None stands for a syntax or a range error. */
  function ParseInt(s: string): (r: Option<int64>) {
    if s == "" then None else
    var negative := s[0] == '-';
    var digits := if negative || s[0] == '+' then s[1..] else s;
    if digits == "" || !AllDigits(digits) then None else
    var m := Magnitude(digits);
    var n: int := if negative then 0 - m else m;
    if -0x8000_0000_0000_0000 <= n < 0x8000_0000_0000_0000 then Some(n) else None
  }

  lemma {:induction false} MagnitudeOfFormat(n: nat)
    ensures Magnitude(FormatNat(n)) == n
  {
    var s := FormatNat(n);
    if n < 10 {
      assert s[..|s| - 1] == "";
    } else {
      MagnitudeOfFormat(n / 10);
      assert s[..|s| - 1] == FormatNat(n / 10);
    }
  }

  /** Parsing an optional minus sign before digits. */
  lemma ParseSigned(digits: string, negative: bool)
    requires digits != "" && AllDigits(digits)
    ensures
      var n: int := if negative then 0 - Magnitude(digits) else Magnitude(digits);
      -0x8000_0000_0000_0000 <= n < 0x8000_0000_0000_0000 ==>
        ParseInt((if negative then "-" else "") + digits) == Some(n)
  {
    hide Magnitude;
    var s := (if negative then "-" else "") + digits;
    assert IsDigit(digits[0]);
    if negative {
      assert s[1..] == digits;
    } else {
      assert s == digits;
    }
  }

  /** s is digits behind an optional sign. */
  predicate Numeral(s: string, sign: string, digits: string) {
    sign in {"", "+", "-"} && s == sign + digits && digits != "" && AllDigits(digits)
  }

  function ValueOf(sign: string, digits: string): int
    requires AllDigits(digits)
  {
    if sign == "-" then 0 - Magnitude(digits) else Magnitude(digits)
  }

  predicate Fits(n: int) {
    -0x8000_0000_0000_0000 <= n < 0x8000_0000_0000_0000
  }

  lemma SignedParse(s: string, sign: string, digits: string)
    requires Numeral(s, sign, digits)
    ensures ParseInt(s) == if Fits(ValueOf(sign, digits)) then Some(ValueOf(sign, digits)) else None
  {
    hide Magnitude;
    assert IsDigit(digits[0]);
    if sign == "" {
      assert s == digits;
    } else {
      assert s[1..] == digits;
    }
  }

  /** Exactly digits behind an optional sign whose value fits 64 bits are parsed, as that value. */
  lemma {:induction false} ParsesIff(s: string, n: int64)
    ensures ParseInt(s) == Some(n) <==> exists sign, digits :: Numeral(s, sign, digits) && ValueOf(sign, digits) == n
  {
    hide Magnitude;
    if sign, digits :| Numeral(s, sign, digits) && ValueOf(sign, digits) == n { SignedParse(s, sign, digits); }
    if ParseInt(s) == Some(n) {
      var sign := if s[0] == '-' then "-" else if s[0] == '+' then "+" else "";
      var digits := s[|sign|..];
      assert s == sign + digits;
      assert Numeral(s, sign, digits) && ValueOf(sign, digits) == n;
    }
  }

  /** Every 64-bit integer survives printing and parsing, and its print never reads as "all". */
  lemma {:induction false} ParseAfterFormat(n: int64)
    ensures ParseInt(FormatInt(n)) == Some(n)
    ensures FormatInt(n) != "all" && FormatInt(n) != ""
  {
    hide ParseInt, FormatNat, Magnitude;
    var magnitude: int := if n < 0 then 0 - n else n;
    var digits := FormatNat(magnitude);
    MagnitudeOfFormat(magnitude);
    ParseSigned(digits, n < 0);
    assert "" + digits == digits;
    assert IsDigit(digits[0]);
    assert FormatInt(n)[0] == if n < 0 then '-' else digits[0];
  }
}
