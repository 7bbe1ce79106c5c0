/**
 * `parseInt(s, 10)` as ECMAScript defines it, and the decimal rendering of an
 * integer (`String(n)`), which is how a year travels from the year list into
 * the year filter's `<option value>` and back.
 *
 * parseInt skips leading white space and line terminators, reads one optional
 * sign, then the longest run of ASCII decimal digits; no digits gives NaN and
 * anything after the digits is ignored. It never fails.
 */
module ParseInt {
  import opened JsNumber

  /** The code points ECMAScript's TrimString removes: WhiteSpace and LineTerminator. */
  const WhiteSpaceChars: set<char> := {
    '\U{0009}', '\U{000A}', '\U{000B}', '\U{000C}', '\U{000D}', '\U{0020}', '\U{00A0}',
    '\U{1680}', '\U{2000}', '\U{2001}', '\U{2002}', '\U{2003}', '\U{2004}', '\U{2005}',
    '\U{2006}', '\U{2007}', '\U{2008}', '\U{2009}', '\U{200A}', '\U{2028}', '\U{2029}',
    '\U{202F}', '\U{205F}', '\U{3000}', '\U{FEFF}'
  }

  predicate IsWhiteSpace(c: char)
  {
    c in WhiteSpaceChars
  }

  /** A radix-10 digit: only the ASCII characters 0 to 9. */
  predicate IsDigit(c: char)
  {
    '0' <= c <= '9'
  }

  predicate AllWhiteSpace(s: string)
  {
    forall i :: 0 <= i < |s| ==> IsWhiteSpace(s[i])
  }

  predicate AllDigits(s: string)
  {
    forall i :: 0 <= i < |s| ==> IsDigit(s[i])
  }

  function DigitValue(c: char): (d: nat)
    requires IsDigit(c)
    ensures d < 10
  {
    c as int - '0' as int
  }

  function DigitChar(d: nat): (c: char)
    requires d < 10
    ensures IsDigit(c) && DigitValue(c) == d
  {
    ('0' as int + d) as char
  }

  /** The string with its leading white space removed. */
  function TrimStart(s: string): (r: string)
    ensures r == [] || !IsWhiteSpace(r[0])
  {
    if s != [] && IsWhiteSpace(s[0]) then TrimStart(s[1..]) else s
  }

  /** The length of the longest prefix of s made of decimal digits. */
  function LeadingDigits(s: string): (n: nat)
    ensures n <= |s| && AllDigits(s[..n])
    ensures n == |s| || !IsDigit(s[n])
  {
    if s != [] && IsDigit(s[0]) then 1 + LeadingDigits(s[1..]) else 0
  }

  /** The value of a string of decimal digits, most significant first. */
  function DigitsValue(ds: string): nat
    requires AllDigits(ds)
  {
    if ds == [] then 0 else DigitsValue(ds[..|ds| - 1]) * 10 + DigitValue(ds[|ds| - 1])
  }

  /** Removing leading white space brings in no digit. */
  lemma {:induction false} TrimStartKeepsNoDigits(s: string)
    ensures (forall k :: 0 <= k < |s| ==> !IsDigit(s[k]))
            ==> forall k :: 0 <= k < |TrimStart(s)| ==> !IsDigit(TrimStart(s)[k])
  {
    if s != [] && IsWhiteSpace(s[0]) {
      assert forall k :: 0 <= k < |s[1..]| ==> s[1..][k] == s[k + 1];
      TrimStartKeepsNoDigits(s[1..]);
    }
  }

  /**
   * `parseInt(s, 10)`: always a number, never `null`, and NaN for text
   * without any decimal digit.
   */
  function ParseInt10(s: string): (r: Num)
    ensures !r.Null?
    ensures (forall k :: 0 <= k < |s| ==> !IsDigit(s[k])) ==> r == NaN
  {
    TrimStartKeepsNoDigits(s);
    ParseSigned(TrimStart(s))
  }

  /** parseInt after the white space: one optional sign, then the digits. */
  function ParseSigned(t: string): Num
  {
    if t != [] && (t[0] == '-' || t[0] == '+') then ParseDigits(t[0] == '-', t[1..])
    else ParseDigits(false, t)
  }

  /** parseInt after the sign: the leading digits with the sign applied, or NaN if there are none. */
  function ParseDigits(negative: bool, u: string): Num
  {
    var n := LeadingDigits(u);
    if n == 0 then NaN
    else
      var magnitude: int := DigitsValue(u[..n]);
      Val(if negative then -magnitude else magnitude)
  }

  /** The decimal digits of a natural number, without leading zeros. */
  function NatToString(n: nat): (s: string)
    ensures s != [] && AllDigits(s)
    ensures s[0] == '0' <==> n == 0
    ensures |s| > 1 ==> s[0] != '0'
  {
    if n < 10 then [DigitChar(n)] else NatToString(n / 10) + [DigitChar(n % 10)]
  }

  /**
   * `String(n)` for an integer: a minus sign exactly for negatives, then
   * decimal digits without leading zeros.
   */
  function IntToString(n: int): (r: string)
    ensures n >= 0 ==> r != [] && AllDigits(r) && (r[0] == '0' <==> n == 0) && (|r| > 1 ==> r[0] != '0')
    ensures n < 0 ==> |r| >= 2 && r[0] == '-' && AllDigits(r[1..]) && r[1] != '0'
  {
    if n < 0 then "-" + NatToString(-n) else NatToString(n)
  }

  /** Reading back the digits of n gives n. */
  lemma {:induction false} DigitsValueOfNatToString(n: nat)
    ensures DigitsValue(NatToString(n)) == n
  {
    if n >= 10 {
      DigitsValueOfNatToString(n / 10);
      var s := NatToString(n);
      assert s[..|s| - 1] == NatToString(n / 10);
    }
  }

  /** Leading white space is exactly what TrimStart removes. */
  lemma {:induction false} TrimStartAfterWhiteSpace(ws: string, rest: string)
    requires AllWhiteSpace(ws)
    requires rest == [] || !IsWhiteSpace(rest[0])
    ensures TrimStart(ws + rest) == rest
  {
    if ws != [] {
      var s := ws + rest;
      assert s[0] == ws[0] && IsWhiteSpace(s[0]);
      assert s[1..] == ws[1..] + rest;
      assert AllWhiteSpace(ws[1..]) by {
        forall i | 0 <= i < |ws| - 1 ensures IsWhiteSpace(ws[1..][i]) {
          assert ws[1..][i] == ws[i + 1];
        }
      }
      TrimStartAfterWhiteSpace(ws[1..], rest);
    }
  }

  /** Digits followed by a non-digit (or nothing) are read in full. */
  lemma {:induction false} LeadingDigitsOfNumeral(digits: string, rest: string)
    requires AllDigits(digits)
    requires rest == [] || !IsDigit(rest[0])
    ensures LeadingDigits(digits + rest) == |digits|
  {
    if digits != [] {
      assert (digits + rest)[1..] == digits[1..] + rest;
      LeadingDigitsOfNumeral(digits[1..], rest);
    }
  }

  /** The leading digits of digits + rest, read with a given sign. */
  lemma {:induction false} ParseDigitsOfNumeral(negative: bool, digits: string, rest: string)
    requires digits != [] && AllDigits(digits)
    requires rest == [] || !IsDigit(rest[0])
    ensures ParseDigits(negative, digits + rest)
         == Val(if negative then -(DigitsValue(digits) as int) else DigitsValue(digits))
  {
    LeadingDigitsOfNumeral(digits, rest);
    assert (digits + rest)[..|digits|] == digits;
  }

  /** An optional sign followed by a numeral. */
  lemma {:induction false} ParseSignedOfNumeral(sign: string, digits: string, rest: string)
    requires sign == "" || sign == "+" || sign == "-"
    requires digits != [] && AllDigits(digits)
    requires rest == [] || !IsDigit(rest[0])
    ensures ParseSigned(sign + digits + rest)
         == Val(if sign == "-" then -(DigitsValue(digits) as int) else DigitsValue(digits))
  {
    ParseDigitsOfNumeral(sign == "-", digits, rest);
    var u := digits + rest;
    assert IsDigit(u[0]);
    if sign == "" {
      assert sign + digits + rest == u;
    } else {
      var t := sign + digits + rest;
      assert t == [sign[0]] + u;
      assert t[0] == sign[0] && t[1..] == u;
    }
  }

  /**
   * The happy path: white space, an optional sign, a non-empty run of digits
   * and any trailing text that does not begin with a digit parse to the
   * signed value of the digits; the trailing text is ignored.
   */
  lemma {:induction false} ParseIntOfNumeral(ws: string, sign: string, digits: string, rest: string)
    requires AllWhiteSpace(ws)
    requires sign == "" || sign == "+" || sign == "-"
    requires digits != [] && AllDigits(digits)
    requires rest == [] || !IsDigit(rest[0])
    ensures ParseInt10(ws + sign + digits + rest)
         == Val(if sign == "-" then -(DigitsValue(digits) as int) else DigitsValue(digits))
  {
    var body := sign + digits + rest;
    assert ws + sign + digits + rest == ws + body;
    assert body[0] == (if sign == "" then digits[0] else sign[0]);
    TrimStartAfterWhiteSpace(ws, body);
    ParseSignedOfNumeral(sign, digits, rest);
  }

  /**
   * The error path: when the first character after the white space and the
   * optional sign is not a digit, the result is NaN (and never a failure).
   */
  lemma {:induction false} ParseIntWithoutDigits(ws: string, sign: string, rest: string)
    requires AllWhiteSpace(ws)
    requires sign == "" || sign == "+" || sign == "-"
    requires rest == [] || !IsDigit(rest[0])
    requires sign == "" ==> rest == [] || !(IsWhiteSpace(rest[0]) || rest[0] == '+' || rest[0] == '-')
    ensures ParseInt10(ws + sign + rest) == NaN
  {
    var body := sign + rest;
    assert ws + sign + rest == ws + body;
    assert body != [] ==> body[0] == (if sign == "" then rest[0] else sign[0]);
    TrimStartAfterWhiteSpace(ws, body);
    if sign != "" {
      assert body[1..] == rest;
    } else {
      assert body == rest;
    }
  }

  /** A bare numeral parses to its value. */
  lemma {:induction false} ParseIntOfDigits(digits: string)
    requires digits != [] && AllDigits(digits)
    ensures ParseInt10(digits) == Val(DigitsValue(digits))
  {
    ParseIntOfNumeral([], "", digits, []);
    assert [] + "" + digits + [] == digits;
  }

  /** A minus sign followed by a numeral parses to the negated value. */
  lemma {:induction false} ParseIntOfNegatedDigits(digits: string)
    requires digits != [] && AllDigits(digits)
    ensures ParseInt10("-" + digits) == Val(-(DigitsValue(digits) as int))
  {
    ParseIntOfNumeral([], "-", digits, []);
    assert [] + "-" + digits + [] == "-" + digits;
  }

  /** Round trip: `parseInt(String(n), 10) === n` for every integer n. */
  lemma {:induction false} ParseIntOfIntToString(n: int)
    ensures ParseInt10(IntToString(n)) == Val(n)
  {
    if n < 0 {
      DigitsValueOfNatToString(-n);
      ParseIntOfNegatedDigits(NatToString(-n));
    } else {
      DigitsValueOfNatToString(n);
      ParseIntOfDigits(NatToString(n));
    }
  }
}
