/**
 * `parseInt(v, 10)` as the global function `parseInt` of ECMAScript
 * (section 19.2.5 of ECMA-262) computes it for radix 10: convert the
 * argument to a string, skip leading white space, read an optional sign,
 * take the longest prefix of decimal digits, and answer NaN when that
 * prefix is empty. Everything after the digits is ignored.
 */
module ParseInt {
  import opened JsValues

  /** What `parseInt` returns: an integer, or NaN. */
  datatype Number = NaN | Int(value: int)

  /**
   * StrWhiteSpaceChar of ECMA-262: the WhiteSpace code points (TAB, VT, FF,
   * ZWNBSP and every space separator) and the LineTerminator code points.
   */
  predicate IsJsWhitespace(c: char) {
    || c == '\t' || c == '\U{000B}' || c == '\U{000C}' || c == '\U{FEFF}'
    || c == ' ' || c == '\U{00A0}' || c == '\U{1680}' || ('\U{2000}' <= c <= '\U{200A}')
    || c == '\U{202F}' || c == '\U{205F}' || c == '\U{3000}'
    || c == '\n' || c == '\r' || c == '\U{2028}' || c == '\U{2029}'
  }

  predicate AllWhitespace(w: string) {
    forall i :: 0 <= i < |w| ==> IsJsWhitespace(w[i])
  }

  /** The string with its leading white space removed. */
  function TrimStart(s: string): (r: string)
    ensures |r| <= |s| && r == s[|s| - |r|..]
    ensures AllWhitespace(s[..|s| - |r|])
    ensures r == [] || !IsJsWhitespace(r[0])
  {
    if |s| > 0 && IsJsWhitespace(s[0]) then
      var r := TrimStart(s[1..]);
      var skipped := s[..|s| - |r|];
      forall i | 0 <= i < |skipped|
        ensures IsJsWhitespace(skipped[i])
      {
        if i > 0 {
          assert skipped[i] == s[1..][..|s| - 1 - |r|][i - 1];
        }
      }
      r
    else s
  }

  /** -1 when the (trimmed) input starts with a minus sign, 1 otherwise. */
  function Sign(s: string): int {
    if |s| > 0 && s[0] == '-' then -1 else 1
  }

  /** The input without a leading `+` or `-`. */
  function DropSign(s: string): string {
    if |s| > 0 && (s[0] == '-' || s[0] == '+') then s[1..] else s
  }

  /** The longest prefix of the input made of decimal digits. */
  function DigitPrefix(s: string): (r: string)
    ensures |r| <= |s| && r == s[..|r|]
    ensures AllDigits(r)
    ensures |r| == |s| || !IsDigit(s[|r|])
  {
    if |s| > 0 && IsDigit(s[0]) then [s[0]] + DigitPrefix(s[1..]) else []
  }

  /** The value of a decimal numeral, most significant digit first. */
  function DigitsValue(d: string): nat
    requires AllDigits(d)
  {
    if |d| == 0 then 0 else 10 * DigitsValue(d[..|d| - 1]) + DigitValue(d[|d| - 1])
  }

  /** `parseInt(s, 10)` on a string. */
  function ParseDecimal(s: string): (r: Number)
    ensures r.NaN? <==> DigitPrefix(DropSign(TrimStart(s))) == []
  {
    var t := TrimStart(s);
    var d := DigitPrefix(DropSign(t));
    if d == [] then NaN else Int(Sign(t) * DigitsValue(d))
  }

  /** `parseInt(v, 10)` on a request-body field: `String(v)` first. */
  function ParseIntValue(v: JsValue): Number {
    ParseDecimal(ToJsString(v))
  }

  lemma {:induction false} TrimStartSkips(w: string, x: string)
    requires AllWhitespace(w)
    requires |x| > 0 && !IsJsWhitespace(x[0])
    ensures TrimStart(w + x) == x
    decreases |w|
  {
    if |w| > 0 {
      assert (w + x)[1..] == w[1..] + x;
      TrimStartSkips(w[1..], x);
    } else {
      assert w + x == x;
    }
  }

  lemma {:induction false} DigitPrefixStops(d: string, rest: string)
    requires AllDigits(d)
    requires rest == [] || !IsDigit(rest[0])
    ensures DigitPrefix(d + rest) == d
    decreases |d|
  {
    if |d| > 0 {
      assert (d + rest)[1..] == d[1..] + rest;
      DigitPrefixStops(d[1..], rest);
    } else {
      assert d + rest == rest;
    }
  }

  /** A sign followed by digits: where the sign ends and what it means. */
  lemma SignedParts(sign: string, d: string, rest: string)
    requires sign == "" || sign == "+" || sign == "-"
    requires |d| > 0 && AllDigits(d)
    ensures var x := sign + (d + rest);
      && |x| > 0 && !IsJsWhitespace(x[0])
      && DropSign(x) == d + rest
      && Sign(x) == (if sign == "-" then -1 else 1)
  {
    var x := sign + (d + rest);
    if sign == "" {
      assert x == d + rest;
    } else {
      assert x[0] == sign[0];
      assert x[1..] == d + rest;
    }
  }

  /**
   * The reading rule of `parseInt`: white space, an optional sign, a
   * non-empty run of digits and anything that does not start with a digit
   * parse to the signed value of the digits.
   */
  lemma ParseDecimalOfParts(w: string, sign: string, d: string, rest: string)
    requires AllWhitespace(w)
    requires sign == "" || sign == "+" || sign == "-"
    requires |d| > 0 && AllDigits(d)
    requires rest == [] || !IsDigit(rest[0])
    ensures ParseDecimal(w + (sign + (d + rest))) == Int((if sign == "-" then -1 else 1) * DigitsValue(d))
  {
    var x := sign + (d + rest);
    TrimStartSkips(w, x);
    SignedParts(sign, d, rest);
    DigitPrefixStops(d, rest);
  }

  /** What follows the sign when no digit does: no digit prefix at all. */
  lemma NoDigitsAfterSign(x: string, sign: string, rest: string)
    requires sign == "" || sign == "+" || sign == "-"
    requires rest == [] || (!IsDigit(rest[0]) && (sign == "" ==> rest[0] != '+' && rest[0] != '-'))
    requires x == sign + rest
    ensures DigitPrefix(DropSign(x)) == []
  {
    if sign != "" {
      assert x[0] == sign[0];
      assert x[1..] == rest;
    } else {
      assert x == rest;
    }
  }

  /**
   * No digit after the white space and the sign means NaN. After a sign
   * anything but a digit ends the number ("- 5", "--1"); without one, `rest`
   * is where the white space and the optional sign end.
   */
  lemma ParseDecimalNaN(w: string, sign: string, rest: string)
    requires AllWhitespace(w)
    requires sign == "" || sign == "+" || sign == "-"
    requires rest == [] || !IsDigit(rest[0])
    requires sign == "" && rest != [] ==> !IsJsWhitespace(rest[0]) && rest[0] != '+' && rest[0] != '-'
    ensures ParseDecimal(w + (sign + rest)) == NaN
  {
    var x := sign + rest;
    var s := w + x;
    if x == [] {
      assert s == w;
      assert TrimStart(s) == [];
    } else {
      assert x[0] == (if sign == "" then rest[0] else sign[0]);
      TrimStartSkips(w, x);
      NoDigitsAfterSign(x, sign, rest);
    }
  }

  lemma {:induction false} NatToDecimalValue(n: nat)
    ensures DigitsValue(NatToDecimal(n)) == n
    decreases n
  {
    if n >= 10 {
      var r := NatToDecimal(n);
      assert r == NatToDecimal(n / 10) + [DigitChar(n % 10)];
      assert r[..|r| - 1] == NatToDecimal(n / 10);
      NatToDecimalValue(n / 10);
    }
  }

  lemma NatToDecimalRoundTrip(n: nat, rest: string)
    requires rest == [] || !IsDigit(rest[0])
    ensures ParseDecimal(NatToDecimal(n) + rest) == Int(n)
  {
    var d := NatToDecimal(n);
    assert "" + ("" + (d + rest)) == d + rest;
    NatToDecimalValue(n);
    ParseDecimalOfParts("", "", d, rest);
  }

  lemma NegativeRoundTrip(n: int, rest: string)
    requires n < 0
    requires rest == [] || !IsDigit(rest[0])
    ensures ParseDecimal(IntToDecimal(n) + rest) == Int(n)
  {
    var m: nat := -n;
    var d := NatToDecimal(m);
    calc {
      ParseDecimal(IntToDecimal(n) + rest);
      == { NegativeText(n, d, rest); }
      ParseDecimal("" + ("-" + (d + rest)));
      == { ParseDecimalOfParts("", "-", d, rest); }
      Int(-1 * (DigitsValue(d) as int));
      == { NatToDecimalValue(m); }
      Int(n);
    }
  }

  /** The text of a negative number, split into the parts of the reading rule. */
  lemma NegativeText(n: int, d: string, rest: string)
    requires n < 0 && d == NatToDecimal(-n)
    ensures IntToDecimal(n) + rest == "" + ("-" + (d + rest))
  {
    var x := "-" + (d + rest);
    assert IntToDecimal(n) == "-" + d;
    assert "" + x == x;
  }

  /** Printing an integer and parsing it back gives the integer, whatever follows it. */
  lemma IntToDecimalRoundTrip(n: int, rest: string)
    requires rest == [] || !IsDigit(rest[0])
    ensures ParseDecimal(IntToDecimal(n) + rest) == Int(n)
  {
    if n >= 0 {
      NatToDecimalRoundTrip(n, rest);
    } else {
      NegativeRoundTrip(n, rest);
    }
  }

  /** A number in the body parses to itself: the coercion to a string loses nothing. */
  lemma ParseIntOfNumber(n: int)
    ensures ParseIntValue(Num(n)) == Int(n)
  {
    IntToDecimalRoundTrip(n, []);
    assert IntToDecimal(n) + [] == IntToDecimal(n);
  }

  /** The decimal text of an integer, sent as a string, parses to the integer. */
  /** The decimal text of an integer, alone, reads back as that integer. */
  lemma ParseDecimalOfIntText(n: int)
    ensures ParseDecimal(IntToDecimal(n)) == Int(n)
  {
    IntToDecimalRoundTrip(n, []);
    assert IntToDecimal(n) + [] == IntToDecimal(n);
  }

  lemma ParseIntOfDecimalText(n: int)
    ensures ParseIntValue(Str(IntToDecimal(n))) == Int(n)
  {
    IntToDecimalRoundTrip(n, []);
    assert IntToDecimal(n) + [] == IntToDecimal(n);
  }

  /** A missing field parses to NaN (`parseInt(undefined, 10)`). */
  lemma ParseIntOfUndefined()
    ensures ParseIntValue(Undefined) == NaN
  {
    ParseDecimalNaN("", "", "undefined");
    assert "" + ("" + "undefined") == "undefined";
  }
}
