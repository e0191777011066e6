/** The two conversions between text and integers that the proxy checker performs:
    the global `parseInt` applied to the `port` parameter, and the decimal
    text a non-negative integer becomes inside a template literal. A JS
    number is modelled as `NaN` or an exact integer; `parseInt` never yields
    a fraction. */
module JsNumber {
  import opened Options
  import opened Strings

  datatype Number = NaN | Num(value: int)

  predicate IsDecimalDigit(c: char) {
    '0' <= c <= '9'
  }

  /** Digit value of `c` in any radix up to 36 (`0-9`, then `a-z`/`A-Z` as
      10..35); 36 for a character that is no digit at all. */
  function DigitValue(c: char): (v: nat)
    ensures v <= 36
  {
    if '0' <= c <= '9' then c as int - '0' as int
    else if 'a' <= c <= 'z' then c as int - 'a' as int + 10
    else if 'A' <= c <= 'Z' then c as int - 'A' as int + 10
    else 36
  }

  /** The text holds no character `0`..`9`. */
  predicate NoDecimalDigit(s: string) {
    forall i :: 0 <= i < |s| ==> !IsDecimalDigit(s[i])
  }

  predicate IsRadixDigit(c: char, radix: nat) {
    DigitValue(c) < radix
  }

  /** The longest prefix of `s` made of digits of `radix`. */
  function DigitPrefix(s: string, radix: nat): string
    decreases |s|
  {
    if |s| > 0 && IsRadixDigit(s[0], radix) then [s[0]] + DigitPrefix(s[1..], radix) else []
  }

  /** The digit prefix is a prefix of `s`, made of digits, and ends at the
      first character that is not one. */
  lemma {:induction false} DigitPrefixSpec(s: string, radix: nat)
    ensures var z := DigitPrefix(s, radix);
      && |z| <= |s| && z == s[..|z|]
      && (forall i :: 0 <= i < |z| ==> IsRadixDigit(z[i], radix))
      && (|z| < |s| ==> !IsRadixDigit(s[|z|], radix))
    decreases |s|
  {
    if |s| > 0 && IsRadixDigit(s[0], radix) {
      DigitPrefixSpec(s[1..], radix);
      var z := DigitPrefix(s, radix);
      assert z[1..] == DigitPrefix(s[1..], radix);
    }
  }


  /** Positional value of a digit string, most significant digit first. */
  function DigitsValue(z: string, radix: nat): nat
    decreases |z|
  {
    if |z| == 0 then 0 else DigitsValue(z[..|z| - 1], radix) * radix + DigitValue(z[|z| - 1])
  }

  /** The text after an optional leading `-` or `+`. */
  function StripSign(t: string): (u: string)
    ensures |u| <= |t| && u == t[|t| - |u|..]
  {
    if |t| > 0 && (t[0] == '-' || t[0] == '+') then t[1..] else t
  }

  /** The unsigned part of `parseInt`: radix 16 after a `0x`/`0X` prefix,
      radix 10 otherwise, then the longest run of digits; `None` when there
      is no digit. */
  function Magnitude(u: string): (m: Option<nat>)
    ensures NoDecimalDigit(u) ==> m == None
  {
    var hex := |u| >= 2 && u[0] == '0' && (u[1] == 'x' || u[1] == 'X');
    var radix := if hex then 16 else 10;
    var digits := DigitPrefix(if hex then u[2..] else u, radix);
    if |digits| == 0 then None
    else
      assert hex || IsDecimalDigit(u[0]);
      Some(DigitsValue(digits, radix))
  }

  /** `parseInt(s)` with no radix argument: skip leading whitespace, read an
      optional sign, then the magnitude; no digit at all gives `NaN`. */
  function ParseInt(s: string): (r: Number)
    ensures NoDecimalDigit(s) ==> r == NaN
  {
    var t := TrimStart(s);
    var u := StripSign(t);
    assert NoDecimalDigit(s) ==> NoDecimalDigit(u) by {
      if NoDecimalDigit(s) {
        forall i | 0 <= i < |u|
          ensures !IsDecimalDigit(u[i])
        {
          assert u[i] == s[|s| - |u| + i];
        }
      }
    }
    match Magnitude(u)
    case None => NaN
    case Some(m) => if |t| > 0 && t[0] == '-' then Num(-(m as int)) else Num(m)
  }

  function DigitChar(d: nat): (c: char)
    requires d < 10
    ensures IsDecimalDigit(c) && DigitValue(c) == d
  {
    ('0' as int + d) as char
  }

  /** The decimal text of `n`, as `${n}` renders a non-negative integer. */
  function DecimalString(n: nat): (r: string)
    ensures |r| >= 1
    decreases n
  {
    if n < 10 then [DigitChar(n)] else DecimalString(n / 10) + [DigitChar(n % 10)]
  }

  /** The text is all decimal digits, with a leading zero only for `0`. */
  lemma {:induction false} DecimalStringDigits(n: nat)
    ensures var r := DecimalString(n);
      && (forall i :: 0 <= i < |r| ==> IsDecimalDigit(r[i]))
      && (r[0] == '0' <==> n == 0)
    decreases n
  {
    if n >= 10 {
      DecimalStringDigits(n / 10);
      var r := DecimalString(n);
      assert r[0] == DecimalString(n / 10)[0];
    }
  }

  /** Reading the decimal text of `n` back digit by digit gives `n`. */
  lemma {:induction false} DecimalStringValue(n: nat)
    ensures DigitsValue(DecimalString(n), 10) == n
    decreases n
  {
    if n >= 10 {
      DecimalStringValue(n / 10);
      var r := DecimalString(n);
      assert r[..|r| - 1] == DecimalString(n / 10);
    }
  }

  /** The decimal digits of `n` are the digit prefix of `DecimalString(n) + rest`
      when `rest` does not start with a digit. */
  lemma {:induction false} DigitPrefixOfDecimal(z: string, rest: string)
    requires forall i :: 0 <= i < |z| ==> IsDecimalDigit(z[i])
    requires rest == [] || !IsDecimalDigit(rest[0])
    ensures DigitPrefix(z + rest, 10) == z
    decreases |z|
  {
    if |z| > 0 {
      assert (z + rest)[1..] == z[1..] + rest;
      DigitPrefixOfDecimal(z[1..], rest);
      assert [z[0]] + z[1..] == z;
    }
  }

  /** A text that starts with a decimal digit and is not a hexadecimal
      prefix is read in radix 10, without sign or whitespace. */
  lemma ParseIntLeadingDigit(s: string)
    requires |s| >= 1 && IsDecimalDigit(s[0])
    requires |s| >= 2 && s[0] == '0' ==> s[1] != 'x' && s[1] != 'X'
    ensures ParseInt(s) == Num(DigitsValue(DigitPrefix(s, 10), 10))
  {
    assert !IsJsSpace(s[0]);
    assert TrimStart(s) == s;
    assert StripSign(s) == s;
    var z := DigitPrefix(s, 10);
    assert z != [] by { assert IsRadixDigit(s[0], 10); }
    assert !(|s| >= 2 && s[0] == '0' && (s[1] == 'x' || s[1] == 'X'));
    assert Magnitude(s) == Some(DigitsValue(z, 10));
  }

  /** `parseInt` reads back what `${n}` wrote, ignoring any trailing text that
      does not continue the number. The exception is `0` followed by `x`,
      which `parseInt` takes as a hexadecimal prefix. */
  lemma ParseIntOfDecimal(n: nat, rest: string)
    requires rest == [] || !IsDecimalDigit(rest[0])
    requires n == 0 ==> rest == [] || (rest[0] != 'x' && rest[0] != 'X')
    ensures ParseInt(DecimalString(n) + rest) == Num(n)
  {
    var z := DecimalString(n);
    var s := z + rest;
    DecimalStringDigits(n);
    if |s| >= 2 && s[0] == '0' {
      assert n == 0 && z == "0";
      assert s[1] == rest[0];
    }
    ParseIntLeadingDigit(s);
    DigitPrefixOfDecimal(z, rest);
    DecimalStringValue(n);
  }
}
