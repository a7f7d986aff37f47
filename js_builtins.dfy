/** Models of the JavaScript built-ins the helpers rely on: `parseInt` with no radix,
    `String.prototype.toLowerCase` and `String.prototype.includes`. */
module JsBuiltins {
  import opened Wrappers

  // ---------------------------------------------------------------------------
  // parseInt(s), as ECMAScript defines it for an absent radix
  // ---------------------------------------------------------------------------

  /** The white space and line terminators that parseInt skips before the number. */
  predicate IsStrWhiteSpace(c: char) {
    c == '\t' || c == '\n' || c == '\U{000B}' || c == '\U{000C}' || c == '\r' || c == ' '
    || c == '\U{00A0}' || c == '\U{1680}' || ('\U{2000}' <= c <= '\U{200A}')
    || c == '\U{2028}' || c == '\U{2029}' || c == '\U{202F}' || c == '\U{205F}'
    || c == '\U{3000}' || c == '\U{FEFF}'
  }

  /** `s` with its leading white space removed. */
  function TrimStart(s: string): (r: string)
    ensures |r| <= |s| && r == s[|s| - |r|..]
    ensures r == [] || !IsStrWhiteSpace(r[0])
    ensures forall i :: 0 <= i < |s| - |r| ==> IsStrWhiteSpace(s[i])
  {
    if |s| > 0 && IsStrWhiteSpace(s[0]) then TrimStart(s[1..]) else s
  }

  /** The value of `c` as a digit of radix up to 16, if it is one. */
  function DigitValue(c: char): (d: Option<nat>)
    ensures d.Some? ==> d.value < 16
  {
    if '0' <= c <= '9' then Some(c as int - '0' as int)
    else if 'a' <= c <= 'f' then Some(c as int - 'a' as int + 10)
    else if 'A' <= c <= 'F' then Some(c as int - 'A' as int + 10)
    else None
  }

  predicate IsDigitOf(c: char, radix: nat) {
    DigitValue(c).Some? && DigitValue(c).value < radix
  }

  /** The length of the longest prefix of `s` made of radix digits. */
  function DigitRun(s: string, radix: nat): (n: nat)
    ensures n <= |s|
    ensures forall i :: 0 <= i < n ==> IsDigitOf(s[i], radix)
    ensures n < |s| ==> !IsDigitOf(s[n], radix)
  {
    if |s| > 0 && IsDigitOf(s[0], radix) then 1 + DigitRun(s[1..], radix) else 0
  }

  /** The number that the digit string `ds` denotes in the given radix. */
  function DigitsValue(ds: string, radix: nat): nat
    requires forall i :: 0 <= i < |ds| ==> IsDigitOf(ds[i], radix)
  {
    if ds == [] then 0
    else
      assert IsDigitOf(ds[|ds| - 1], radix);
      DigitsValue(ds[..|ds| - 1], radix) * radix + DigitValue(ds[|ds| - 1]).value
  }

  /** The digits at the start of `body` in the given radix; NaN (`None`) when there are none. */
  function ParseDigits(body: string, radix: nat): (r: Option<nat>)
    ensures r.None? <==> DigitRun(body, radix) == 0
  {
    var n := DigitRun(body, radix);
    if n == 0 then None else Some(DigitsValue(body[..n], radix))
  }

  /** The unsigned part: radix 16 after a `0x` or `0X` prefix, radix 10 otherwise. */
  function ParseUnsigned(u: string): Option<nat> {
    if |u| >= 2 && u[0] == '0' && (u[1] == 'x' || u[1] == 'X') then ParseDigits(u[2..], 16)
    else ParseDigits(u, 10)
  }

  /** An optional sign, then the unsigned part. */
  function ParseSigned(t: string): Option<int> {
    if |t| > 0 && (t[0] == '-' || t[0] == '+') then
      match ParseUnsigned(t[1..])
      case None => None
      case Some(v) => var w: int := v; Some(if t[0] == '-' then -w else w)
    else
      match ParseUnsigned(t)
      case None => None
      case Some(v) => Some(v)
  }

  /** `parseInt(s)`: skip leading white space, read an optional sign, switch to radix 16
      after a `0x` or `0X` prefix, then read the longest run of digits. With no digit to
      read the result is NaN, here `None`. */
  function ParseInt(s: string): Option<int> {
    ParseSigned(TrimStart(s))
  }

  // ---------------------------------------------------------------------------
  // The decimal form of a natural number, the inverse of parseInt
  // ---------------------------------------------------------------------------

  function DecimalDigit(d: nat): (c: char)
    requires d < 10
    ensures IsDigitOf(c, 10) && DigitValue(c) == Some(d)
  {
    ('0' as int + d) as char
  }

  /** The plain decimal numeral of `n`, with no leading zero (what `String(n)` gives below 10^21). */
  function DecimalString(n: nat): (s: string)
    ensures |s| > 0
    ensures forall i :: 0 <= i < |s| ==> IsDigitOf(s[i], 10)
    ensures n > 0 ==> s[0] != '0'
    ensures n == 0 ==> s == "0"
  {
    if n < 10 then [DecimalDigit(n)] else DecimalString(n / 10) + [DecimalDigit(n % 10)]
  }

  lemma {:induction false} DigitsValueOfDecimalString(n: nat)
    ensures DigitsValue(DecimalString(n), 10) == n
  {
    var s := DecimalString(n);
    if n >= 10 {
      DigitsValueOfDecimalString(n / 10);
      assert s[..|s| - 1] == DecimalString(n / 10);
    } else {
      assert s[..0] == [];
    }
  }

  lemma DigitRunOfDigits(s: string, radix: nat)
    requires forall i :: 0 <= i < |s| ==> IsDigitOf(s[i], radix)
    ensures DigitRun(s, radix) == |s|
  {
  }

  lemma DigitIsNotSpaceOrSign(c: char)
    requires IsDigitOf(c, 10)
    ensures '0' <= c <= '9' && !IsStrWhiteSpace(c) && c != '-' && c != '+'
  {
  }

  /** The numeral of `n`, read without a sign, is `n`. */
  lemma ParseUnsignedOfDecimal(n: nat)
    ensures ParseUnsigned(DecimalString(n)) == Some(n)
  {
    var s := DecimalString(n);
    DigitRunOfDigits(s, 10);
    assert s[..|s|] == s;
    DigitsValueOfDecimalString(n);
  }

  /** parseInt reads back every numeral that `DecimalString` writes. */
  lemma ParseIntOfDecimalString(n: nat)
    ensures ParseInt(DecimalString(n)) == Some(n)
  {
    var s := DecimalString(n);
    DigitIsNotSpaceOrSign(s[0]);
    assert TrimStart(s) == s;
    ParseUnsignedOfDecimal(n);
  }

  /** ... and with a leading minus sign, the negated number. */
  lemma ParseIntOfNegativeDecimalString(n: nat)
    ensures ParseInt("-" + DecimalString(n)) == Some(0 - n)
  {
    var s := DecimalString(n);
    var t := "-" + s;
    assert TrimStart(t) == t;
    DigitIsNotSpaceOrSign(s[0]);
    assert t[1..] == s;
    ParseUnsignedOfDecimal(n);
  }

  /** Leading white space does not change what parseInt reads. */
  lemma ParseIntSkipsWhiteSpace(c: char, s: string)
    requires IsStrWhiteSpace(c)
    ensures ParseInt([c] + s) == ParseInt(s)
  {
    assert ([c] + s)[1..] == s;
  }

  /** A string with no decimal digit in it is NaN; without a `0` it has no `0x` prefix
      either, so letters such as "abc" are not read as hexadecimal. */
  lemma ParseIntOfNoDigits(s: string)
    requires forall i :: 0 <= i < |s| ==> !IsDigitOf(s[i], 10)
    ensures ParseInt(s) == None
  {
    var t := TrimStart(s);
    assert forall i :: 0 <= i < |t| ==> !IsDigitOf(t[i], 10) by {
      forall i | 0 <= i < |t| ensures !IsDigitOf(t[i], 10) {
        assert t[i] == s[|s| - |t| + i];
      }
    }
    var u := if |t| > 0 && (t[0] == '-' || t[0] == '+') then t[1..] else t;
    assert u == [] || !IsDigitOf(u[0], 10);
    assert u == [] || u[0] != '0';
    assert ParseUnsigned(u) == ParseDigits(u, 10);
    assert DigitRun(u, 10) == 0;
  }

  // ---------------------------------------------------------------------------
  // toLowerCase and includes
  // ---------------------------------------------------------------------------

  /** The lower-case form of one character; only the ASCII letters have one here. */
  function ToLowerChar(c: char): (l: char)
    ensures 'A' <= c <= 'Z' ==> l as int == c as int + 32
    ensures !('A' <= c <= 'Z') ==> l == c
  {
    if 'A' <= c <= 'Z' then (c as int + 32) as char else c
  }

  /** The upper-case form of one character (ASCII letters only). */
  function ToUpperChar(c: char): (u: char)
    ensures 'a' <= c <= 'z' ==> u as int == c as int - 32
    ensures !('a' <= c <= 'z') ==> u == c
  {
    if 'a' <= c <= 'z' then (c as int - 32) as char else c
  }

  /** `s.toLowerCase()`, character by character. */
  function ToLowerCase(s: string): string {
    seq(|s|, i requires 0 <= i < |s| => ToLowerChar(s[i]))
  }

  /** `s.toUpperCase()`, character by character. */
  function ToUpperCase(s: string): string {
    seq(|s|, i requires 0 <= i < |s| => ToUpperChar(s[i]))
  }

  lemma ToLowerCaseIdempotent(s: string)
    ensures ToLowerCase(ToLowerCase(s)) == ToLowerCase(s)
  {
  }

  /** Upper-casing first makes no difference to the lower-case form. */
  lemma ToLowerCaseOfUpperCase(s: string)
    ensures ToLowerCase(ToUpperCase(s)) == ToLowerCase(s)
  {
    forall i | 0 <= i < |s|
      ensures ToLowerCase(ToUpperCase(s))[i] == ToLowerCase(s)[i]
    {
      assert ToUpperCase(s)[i] == ToUpperChar(s[i]);
    }
  }

  /** `search` occurs in `s` starting at position `i`. */
  ghost predicate OccursAt(s: string, search: string, i: int) {
    0 <= i && i + |search| <= |s| && s[i..i + |search|] == search
  }

  /** `s.includes(search)`: does `search` occur somewhere in `s`? */
  function Includes(s: string, search: string): bool
    decreases |s|
  {
    search <= s || (|s| > 0 && Includes(s[1..], search))
  }

  /** `Includes` holds exactly when `search` occurs at some position of `s`. */
  lemma {:induction false} IncludesIffOccurs(s: string, search: string)
    ensures Includes(s, search) <==> exists i :: OccursAt(s, search, i)
  {
    if search <= s {
      assert OccursAt(s, search, 0);
    } else if |s| > 0 {
      IncludesIffOccurs(s[1..], search);
      if Includes(s[1..], search) {
        var i :| OccursAt(s[1..], search, i);
        assert s[1..][i..i + |search|] == s[i + 1..i + 1 + |search|];
        assert OccursAt(s, search, i + 1);
      } else {
        forall i | 0 < i && i + |search| <= |s|
          ensures !OccursAt(s, search, i)
        {
          assert s[1..][i - 1..i - 1 + |search|] == s[i..i + |search|];
          assert !OccursAt(s[1..], search, i - 1);
        }
      }
    }
  }

  /** Every string includes the empty string. */
  lemma IncludesEmpty(s: string)
    ensures Includes(s, "")
  {
  }
}
