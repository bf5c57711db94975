/**
 * JavaScript's conversions between numbers and digit strings, as the
 * disassembler and the symbol-file reader use them: `Number.prototype.toString(base)`
 * on integers, and `parseInt(string, radix)`. Digits above 9 are the lowercase
 * letters on output; parseInt accepts either case. A parse that finds no
 * digit is NaN.
 */
module Numerals {
  /** A JavaScript number as these conversions produce it: an integer, or NaN. */
  datatype JsNumber = Number(value: int) | NaN

  /** The character of digit d: 0-9, then a-z. */
  function DigitChar(d: int): (c: char)
    requires 0 <= d < 36
    ensures DigitValue(c) == d
  {
    if d < 10 then (48 + d) as char else (87 + d) as char
  }

  /** The value of a digit character in either case, or 36 for a character that is no digit. */
  function DigitValue(c: char): (r: int)
    ensures 0 <= r <= 36
  {
    if '0' <= c <= '9' then c as int - 48
    else if 'a' <= c <= 'z' then c as int - 87
    else if 'A' <= c <= 'Z' then c as int - 55
    else 36
  }

  /** c is a digit in the given radix. */
  predicate IsDigit(c: char, radix: int) {
    DigitValue(c) < radix
  }

  /** The digits of n in the given base, most significant first, without leading zeros. */
  function NatToBase(n: nat, base: int): (s: string)
    requires 2 <= base <= 36
    ensures |s| >= 1
    decreases n
  {
    if n < base then [DigitChar(n)] else NatToBase(n / base, base) + [DigitChar(n % base)]
  }

  /** `value.toString(base)` for an integer value: a minus sign before the digits of a negative one. */
  function ToBase(v: int, base: int): (s: string)
    requires 2 <= base <= 36
  {
    if v < 0 then "-" + NatToBase(-v, base) else NatToBase(v, base)
  }

  /** The value of a string of digits in the given radix, most significant first. */
  function DigitsValue(s: string, radix: int): int {
    if |s| == 0 then 0 else DigitsValue(s[..|s| - 1], radix) * radix + DigitValue(s[|s| - 1])
  }

  /** The number of digits in the given radix at the start of s. */
  function DigitRun(s: string, radix: int): (n: nat)
    ensures n <= |s|
  {
    if |s| == 0 || !IsDigit(s[0], radix) then 0 else 1 + DigitRun(s[1..], radix)
  }

  /** The run is all digits, and stops at the first character that is not one. */
  lemma {:induction false} DigitRunStops(s: string, radix: int)
    ensures forall i :: 0 <= i < DigitRun(s, radix) ==> IsDigit(s[i], radix)
    ensures DigitRun(s, radix) < |s| ==> !IsDigit(s[DigitRun(s, radix)], radix)
    decreases |s|
  {
    if |s| > 0 && IsDigit(s[0], radix) {
      DigitRunStops(s[1..], radix);
      assert forall i :: 1 <= i < |s| ==> s[i] == s[1..][i - 1];
    }
  }

  /** The white space and line terminators that parseInt skips before a number. */
  predicate IsJsWhitespace(c: char) {
    c as int in {0x09, 0x0a, 0x0b, 0x0c, 0x0d, 0x20, 0xa0, 0x1680, 0x2028, 0x2029, 0x202f, 0x205f, 0x3000, 0xfeff}
    || 0x2000 <= c as int <= 0x200a
  }

  /** s without its leading white space. */
  function TrimStart(s: string): (r: string)
    ensures |r| <= |s| && r == s[|s| - |r|..]
    ensures |r| > 0 ==> !IsJsWhitespace(r[0])
  {
    if |s| > 0 && IsJsWhitespace(s[0]) then TrimStart(s[1..]) else s
  }

  /**
   * `parseInt(s, radix)` for a radix of 10 or 16: leading white space is
   * skipped, then an optional sign, then the unsigned number.
   */
  function ParseInt(s: string, radix: int): JsNumber
    requires radix == 10 || radix == 16
  {
    var t := TrimStart(s);
    if |t| > 0 && t[0] == '-' then Negate(ParseUnsigned(t[1..], radix))
    else if |t| > 0 && t[0] == '+' then ParseUnsigned(t[1..], radix)
    else ParseUnsigned(t, radix)
  }

  /** -x, where -NaN is NaN. */
  function Negate(x: JsNumber): (r: JsNumber)
    ensures r.NaN? <==> x.NaN?
    ensures x.Number? ==> r.value == -x.value
  {
    if x.NaN? then NaN else Number(-x.value)
  }

  /**
   * The unsigned part of parseInt: (radix 16 only) an optional 0x or 0X, then
   * the longest run of digits; an empty run is NaN.
   */
  function ParseUnsigned(u: string, radix: int): JsNumber
    requires radix == 10 || radix == 16
  {
    var digits :=
      if radix == 16 && |u| >= 2 && u[0] == '0' && (u[1] == 'x' || u[1] == 'X')
      then u[2..] else u;
    var n := DigitRun(digits, radix);
    if n == 0 then NaN else Number(DigitsValue(digits[..n], radix))
  }

  /** The characters NatToBase writes are digits of the base. */
  lemma {:induction false} NatToBaseDigits(n: nat, base: int)
    requires 2 <= base <= 36
    ensures forall i :: 0 <= i < |NatToBase(n, base)| ==> IsDigit(NatToBase(n, base)[i], base)
    decreases n
  {
    if n >= base {
      NatToBaseDigits(n / base, base);
      var prefix := NatToBase(n / base, base);
      var s := prefix + [DigitChar(n % base)];
      assert NatToBase(n, base) == s;
      forall i | 0 <= i < |s|
        ensures IsDigit(s[i], base)
      {
        if i < |prefix| {
          assert s[i] == prefix[i];
        }
      }
    }
  }

  /** The digits NatToBase writes are worth n. */
  lemma {:induction false} NatToBaseValue(n: nat, base: int)
    requires 2 <= base <= 36
    ensures DigitsValue(NatToBase(n, base), base) == n
    decreases n
  {
    if n >= base {
      var q := n / base;
      NatToBaseValue(q, base);
      AppendLastDigit(NatToBase(q, base), n, base);
    } else {
      SingleDigitValue(n, base);
    }
  }

  /** Appending a digit multiplies the value by the radix and adds the digit. */
  lemma DigitsValueAppend(s: string, c: char, radix: int)
    ensures DigitsValue(s + [c], radix) == DigitsValue(s, radix) * radix + DigitValue(c)
  {
    assert (s + [c])[..|s|] == s;
  }

  /** One digit is worth its value. */
  lemma SingleDigitValue(n: nat, base: int)
    requires 2 <= base <= 36 && n < base
    ensures DigitsValue(NatToBase(n, base), base) == n
  {
    DigitsValueAppend([], DigitChar(n), base);
    assert [] + [DigitChar(n)] == NatToBase(n, base);
  }

  /** Digits worth n / base, followed by the digit of n % base, are worth n. */
  lemma AppendLastDigit(prefix: string, n: nat, base: int)
    requires 2 <= base <= 36 && DigitsValue(prefix, base) == n / base
    ensures DigitsValue(prefix + [DigitChar(n % base)], base) == n
  {
    DigitsValueAppend(prefix, DigitChar(n % base), base);
  }

  /** The digits of n have no more than k characters when n is below base^k. */
  lemma {:induction false} NatToBaseLength(n: nat, base: int, k: nat)
    requires 2 <= base <= 36 && 1 <= k && n < Power(base, k)
    ensures |NatToBase(n, base)| <= k
    decreases k
  {
    if n >= base {
      assert Power(base, 1) == base;
      QuotientBelowPower(n, base, k - 1);
      NatToBaseLength(n / base, base, k - 1);
    }
  }

  /** base^k. */
  function Power(base: int, k: nat): int {
    if k == 0 then 1 else base * Power(base, k - 1)
  }

  lemma QuotientBelowPower(n: nat, base: int, k: nat)
    requires 2 <= base && n < base * Power(base, k)
    ensures n / base < Power(base, k)
  {
  }

  /** parseInt reads back what toString writes, for every integer. */
  lemma ParseIntToBase(v: int, radix: int)
    requires radix == 10 || radix == 16
    ensures ParseInt(ToBase(v, radix), radix) == Number(v)
  {
    if v < 0 {
      var text := "-" + NatToBase(-v, radix);
      ParseUnsignedToBase(-v, radix);
      TrimStartKeeps(text);
      assert text[1..] == NatToBase(-v, radix);
    } else {
      NatToBaseNumeral(v, radix);
      ParseIntNumeral(NatToBase(v, radix), radix, v);
    }
  }

  /** A string that does not start with white space is its own TrimStart. */
  lemma TrimStartKeeps(s: string)
    requires |s| > 0 && !IsJsWhitespace(s[0])
    ensures TrimStart(s) == s
  {
  }

  /** text is a non-empty run of digits of the radix, worth v. */
  predicate Numeral(text: string, radix: int, v: int) {
    |text| > 0 && (forall i :: 0 <= i < |text| ==> IsDigit(text[i], radix)) && DigitsValue(text, radix) == v
  }

  /** NatToBase writes a numeral worth n. */
  lemma NatToBaseNumeral(n: nat, base: int)
    requires 2 <= base <= 36
    ensures Numeral(NatToBase(n, base), base, n)
  {
    NatToBaseDigits(n, base);
    NatToBaseValue(n, base);
  }

  /** parseInt reads a numeral as its value. */
  lemma ParseIntNumeral(text: string, radix: int, v: int)
    requires radix == 10 || radix == 16
    requires Numeral(text, radix, v)
    ensures ParseInt(text, radix) == Number(v)
  {
    NoDigitIsSpecial(text[0], radix);
    TrimStartKeeps(text);
    ParseUnsignedNumeral(text, radix, v);
  }

  /** The unsigned part of parseInt reads a numeral as its value. */
  lemma ParseUnsignedNumeral(text: string, radix: int, v: int)
    requires radix == 10 || radix == 16
    requires Numeral(text, radix, v)
    ensures ParseUnsigned(text, radix) == Number(v)
  {
    DigitRunAll(text, radix);
    assert text[..|text|] == text;
    if |text| >= 2 {
      NoDigitIsSpecial(text[1], radix);
    }
  }

  /** The unsigned part of parseInt reads back the digits of n. */
  lemma ParseUnsignedToBase(n: nat, radix: int)
    requires radix == 10 || radix == 16
    ensures ParseUnsigned(NatToBase(n, radix), radix) == Number(n)
  {
    NatToBaseNumeral(n, radix);
    ParseUnsignedNumeral(NatToBase(n, radix), radix, n);
  }

  /** No digit is white space, a sign, or the x of a 0x prefix. */
  lemma NoDigitIsSpecial(c: char, radix: int)
    requires radix == 10 || radix == 16
    requires IsDigit(c, radix)
    ensures !IsJsWhitespace(c) && c != '-' && c != '+' && c != 'x' && c != 'X'
  {
  }

  /** A string of digits is all one run. */
  lemma {:induction false} DigitRunAll(s: string, radix: int)
    requires forall i :: 0 <= i < |s| ==> IsDigit(s[i], radix)
    ensures DigitRun(s, radix) == |s|
    decreases |s|
  {
    if |s| > 0 {
      DigitRunAll(s[1..], radix);
    }
  }
}
