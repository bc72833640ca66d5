/**
 * The two number conversions the watermark in localStorage goes through:
 * `parseInt(string)` with no radix when it is read, and the decimal text of an
 * integer when it is written (`setItem` stores `String(n)`).
 *
 * Numbers are mathematical integers here; JavaScript's doubles round above
 * 2^53 and are written in exponent form from 10^21, far beyond any millisecond
 * timestamp.
 */
module JsNumbers {
  import opened JsValues

  /** The characters `parseInt` skips before the number: white space and line terminators. */
  predicate IsStrWhiteSpace(c: char)
  {
    || c == '\t' || c == '\n' || c == '\U{B}' || c == '\U{C}' || c == '\r'
    || c == ' ' || c == '\U{A0}' || c == '\U{1680}' || ('\U{2000}' <= c <= '\U{200A}')
    || c == '\U{2028}' || c == '\U{2029}' || c == '\U{202F}' || c == '\U{205F}'
    || c == '\U{3000}' || c == '\U{FEFF}'
  }

  /** `s` without its leading white space. */
  function TrimStart(s: string): (r: string)
    ensures |r| <= |s| && r == s[|s| - |r|..]
    ensures forall i :: 0 <= i < |s| - |r| ==> IsStrWhiteSpace(s[i])
    ensures r == [] || !IsStrWhiteSpace(r[0])
  {
    if s != [] && IsStrWhiteSpace(s[0]) then TrimStart(s[1..]) else s
  }

  /** The value of `c` as a digit in base `radix` (10 or 16), or -1 when it is not one. */
  function DigitValue(c: char, radix: nat): (d: int)
    requires radix == 10 || radix == 16
    ensures -1 <= d < radix
  {
    if '0' <= c <= '9' then c as int - '0' as int
    else if radix == 16 && 'a' <= c <= 'f' then c as int - 'a' as int + 10
    else if radix == 16 && 'A' <= c <= 'F' then c as int - 'A' as int + 10
    else -1
  }

  predicate IsDigit(c: char, radix: nat)
    requires radix == 10 || radix == 16
  {
    DigitValue(c, radix) >= 0
  }

  /** The length of the longest prefix of `s` made of base-`radix` digits. */
  function DigitRun(s: string, radix: nat): (n: nat)
    requires radix == 10 || radix == 16
    ensures n <= |s|
    ensures forall i :: 0 <= i < n ==> IsDigit(s[i], radix)
    ensures n < |s| ==> !IsDigit(s[n], radix)
  {
    if s != [] && IsDigit(s[0], radix) then 1 + DigitRun(s[1..], radix) else 0
  }

  /** The number a string of base-`radix` digits denotes, most significant digit first. */
  function DigitsValue(z: string, radix: nat): nat
    requires radix == 10 || radix == 16
    requires forall i :: 0 <= i < |z| ==> IsDigit(z[i], radix)
  {
    if z == [] then 0
    else
      var last := z[|z| - 1];
      assert IsDigit(last, radix);
      DigitsValue(z[..|z| - 1], radix) * radix + DigitValue(last, radix)
  }

  /**
   * The unsigned part of `parseInt`: a `0x`/`0X` prefix switches to base 16;
   * the longest run of digits that follows is the number and anything after
   * it is ignored. No digits at all gives NaN, here `None`.
   */
  function ParseUnsigned(u: string): (r: Option<nat>)
  {
    var hex := |u| >= 2 && u[0] == '0' && (u[1] == 'x' || u[1] == 'X');
    var radix := if hex then 16 else 10;
    var v := if hex then u[2..] else u;
    var z := v[..DigitRun(v, radix)];
    if z == [] then None else Some(DigitsValue(z, radix))
  }

  /**
   * `parseInt(s)`: skip leading white space, read an optional sign, then the
   * unsigned number.
   */
  function ParseInt(s: string): Option<int>
  {
    ParseSigned(TrimStart(s))
  }

  /** An optional `-` or `+`, then the unsigned number, negated after a `-`. */
  function ParseSigned(t: string): (r: Option<int>)
    ensures r.Some? ==> t != []
  {
    var sign := if t != [] && t[0] == '-' then -1 else 1;
    var u := if t != [] && (t[0] == '-' || t[0] == '+') then t[1..] else t;
    match ParseUnsigned(u)
    case None => None
    case Some(m) => Some(sign * m)
  }

  function DigitChar(d: nat): (c: char)
    requires d < 10
    ensures IsDigit(c, 10) && DigitValue(c, 10) == d
  {
    ['0', '1', '2', '3', '4', '5', '6', '7', '8', '9'][d]
  }

  /** The decimal digits of `n`, most significant first, without leading zeros. */
  function NatToString(n: nat): (r: string)
    ensures r != []
    ensures forall i :: 0 <= i < |r| ==> IsDigit(r[i], 10)
    ensures |r| > 1 ==> r[0] != '0'
    decreases n
  {
    if n < 10 then [DigitChar(n)] else NatToString(n / 10) + [DigitChar(n % 10)]
  }

  /** `String(n)` for an integer `n`: its decimal digits, after a `-` when negative. */
  function IntToString(n: int): (r: string)
    ensures r != [] && (r[0] == '-' || IsDigit(r[0], 10))
  {
    if n < 0 then "-" + NatToString(-n) else NatToString(n)
  }

  /** Reading back the decimal digits of `n` gives `n`. */
  lemma {:induction false} NatToStringValue(n: nat)
    ensures DigitsValue(NatToString(n), 10) == n
    decreases n
  {
    if n >= 10 {
      NatToStringValue(n / 10);
      var r := NatToString(n);
      assert r[..|r| - 1] == NatToString(n / 10);
    }
  }

  /** The unsigned part of `parseInt` reads the decimal digits of `m` back as `m`. */
  lemma ParseUnsignedOfNatToString(m: nat)
    ensures ParseUnsigned(NatToString(m)) == Some(m)
  {
    var u := NatToString(m);
    assert !(|u| >= 2 && (u[1] == 'x' || u[1] == 'X')) by {
      if |u| >= 2 {
        assert IsDigit(u[1], 10);
      }
    }
    DigitRunAll(u);
    assert u[..DigitRun(u, 10)] == u;
    NatToStringValue(m);
  }

  /** A string that does not start with white space is its own trimmed form. */
  lemma TrimStartNonSpace(s: string)
    requires s != [] && !IsStrWhiteSpace(s[0])
    ensures TrimStart(s) == s
  {
  }

  /** A decimal digit is neither white space nor a sign. */
  lemma DigitNotSpaceOrSign(c: char)
    requires IsDigit(c, 10)
    ensures !IsStrWhiteSpace(c) && c != '-' && c != '+'
  {
  }

  /** `parseInt` of a `-` followed by an unsigned number is its negation. */
  lemma ParseIntNegative(digits: string, m: nat)
    requires ParseUnsigned(digits) == Some(m)
    ensures ParseInt("-" + digits) == Some(-(m as int))
  {
    var s := "-" + digits;
    assert s[0] == '-' && s[1..] == digits;
    TrimStartNonSpace(s);
    assert ParseSigned(s) == Some(-1 * m);
  }

  /** `parseInt` of a string that starts with a digit is its unsigned value. */
  lemma ParseIntDigitFirst(s: string, m: nat)
    requires s != [] && IsDigit(s[0], 10)
    requires ParseUnsigned(s) == Some(m)
    ensures ParseInt(s) == Some(m as int)
  {
    DigitNotSpaceOrSign(s[0]);
    TrimStartNonSpace(s);
    assert ParseSigned(s) == Some(1 * m);
  }

  /** `parseInt` reads the text of a negative integer back. */
  lemma ParseIntOfNegative(n: int)
    requires n < 0
    ensures ParseInt(IntToString(n)) == Some(n)
  {
    ParseUnsignedOfNatToString(-n);
    ParseIntNegative(NatToString(-n), -n);
  }

  /** `parseInt` reads the text of a non-negative integer back. */
  lemma ParseIntOfNonNegative(n: nat)
    ensures ParseInt(IntToString(n)) == Some(n)
  {
    var s := NatToString(n);
    assert IsDigit(s[0], 10);
    ParseUnsignedOfNatToString(n);
    ParseIntDigitFirst(s, n);
  }

  /** `parseInt(String(n)) == n`: the watermark survives its trip through localStorage. */
  lemma ParseIntOfIntToString(n: int)
    ensures ParseInt(IntToString(n)) == Some(n)
  {
    if n < 0 {
      ParseIntOfNegative(n);
    } else {
      ParseIntOfNonNegative(n);
    }
  }

  /** A string made only of digits is one whole run of digits. */
  lemma {:induction false} DigitRunAll(s: string)
    requires forall i :: 0 <= i < |s| ==> IsDigit(s[i], 10)
    ensures DigitRun(s, 10) == |s|
    decreases |s|
  {
    if s != [] {
      DigitRunAll(s[1..]);
    }
  }
}
