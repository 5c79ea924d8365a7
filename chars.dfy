/** Character access and character classes shared by the two parsers.
    A JavaScript string index past the end yields `undefined`, modelled
    as `None`; the regular expressions of the source become explicit
    ASCII predicates. */
module Chars {
  import opened Wrappers

  /** Why a parse stops without a result: a JavaScript `TypeError` (a
      character test that calls `.match` on `undefined`), or the bound the
      model puts on a loop that may run forever. */
  datatype ParseError = TypeError | OutOfFuel

  /** A parsed value and the cursor position after it. */
  datatype Parsed<+T> = Parsed(value: T, pos: nat)

  /** What a parser method leaves behind, as one value: its result and the
      cursor position it ends at. */
  function After<T>(r: Result<T, ParseError>, pos: nat): Result<Parsed<T>, ParseError> {
    match r
    case Success(v) => Success(Parsed(v, pos))
    case Failure(e) => Failure(e)
  }

  /** `prefix` put in front of the text of a `consumeWhile` result. */
  function Prefixed(prefix: string, r: Result<Parsed<string>, ParseError>): Result<Parsed<string>, ParseError> {
    match r
    case Success(p) => Success(Parsed(prefix + p.value, p.pos))
    case Failure(e) => Failure(e)
  }

  lemma PrefixedTwice(a: string, b: string, r: Result<Parsed<string>, ParseError>)
    ensures Prefixed(a, Prefixed(b, r)) == Prefixed(a + b, r)
    ensures Prefixed("", r) == r
  {
    if r.Success? {
      assert a + (b + r.value.value) == (a + b) + r.value.value;
      assert "" + r.value.value == r.value.value;
    }
  }

  /** `s[i]` in JavaScript: the character, or `undefined` past the end. */
  function CharAt(s: string, i: int): (r: Option<char>)
    ensures r.Some? <==> 0 <= i < |s|
    ensures r.Some? ==> r.value == s[i]
  {
    if 0 <= i < |s| then Some(s[i]) else None
  }

  predicate IsAsciiDigit(c: char) {
    '0' <= c <= '9'
  }

  predicate IsAsciiLetter(c: char) {
    'a' <= c <= 'z' || 'A' <= c <= 'Z'
  }

  predicate IsHexDigit(c: char) {
    IsAsciiDigit(c) || 'a' <= c <= 'f' || 'A' <= c <= 'F'
  }

  function DigitValue(c: char): (d: nat)
    requires IsAsciiDigit(c)
    ensures d < 10
  {
    (c as int) - ('0' as int)
  }

  function HexDigitValue(c: char): (d: nat)
    requires IsHexDigit(c)
    ensures d < 16
  {
    if IsAsciiDigit(c) then DigitValue(c)
    else if 'a' <= c <= 'f' then (c as int) - ('a' as int) + 10
    else (c as int) - ('A' as int) + 10
  }

  /** Length of the longest prefix of `s` whose characters satisfy `p`. */
  function PrefixLength(s: string, p: char -> bool): (n: nat)
    ensures n <= |s|
    ensures forall i :: 0 <= i < n ==> p(s[i])
    ensures n < |s| ==> !p(s[n])
  {
    if s == [] || !p(s[0]) then 0 else 1 + PrefixLength(s[1..], p)
  }

  /** Value of a string of hexadecimal digits, most significant first. */
  function HexValue(s: string): (v: nat)
    requires forall i :: 0 <= i < |s| ==> IsHexDigit(s[i])
  {
    if s == [] then 0 else HexValue(s[..|s| - 1]) * 16 + HexDigitValue(s[|s| - 1])
  }

  function Pow(b: nat, e: nat): nat {
    if e == 0 then 1 else b * Pow(b, e - 1)
  }

  /** A string of `n` hexadecimal digits has a value below 16^n. */
  lemma {:induction false} HexValueBound(s: string)
    requires forall i :: 0 <= i < |s| ==> IsHexDigit(s[i])
    ensures HexValue(s) < Pow(16, |s|)
  {
    if s != [] {
      HexValueBound(s[..|s| - 1]);
    }
  }

  /** The characters `s[pos]`, ..., `s[pos + n - 1]` that exist. JavaScript
      concatenates `undefined` for the missing ones; no digit can follow
      it, so leaving them out changes no digit value. */
  function Window(s: string, pos: nat, n: nat): (w: string)
    ensures |w| <= n
    ensures pos + n <= |s| ==> w == s[pos..pos + n]
    ensures 0 < n && pos < |s| ==> |w| > 0 && w[0] == s[pos]
  {
    if pos >= |s| then [] else s[pos..if pos + n <= |s| then pos + n else |s|]
  }

  /** Value of a string of decimal digits, most significant first. */
  function DecimalValue(s: string): (v: nat)
    requires forall i :: 0 <= i < |s| ==> IsAsciiDigit(s[i])
  {
    if s == [] then 0 else DecimalValue(s[..|s| - 1]) * 10 + DigitValue(s[|s| - 1])
  }

  lemma {:induction false} PowMono(b: nat, m: nat, n: nat)
    requires 1 <= b && m <= n
    ensures Pow(b, m) <= Pow(b, n)
  {
    if m < n {
      PowMono(b, m, n - 1);
      assert Pow(b, n) == b * Pow(b, n - 1) >= Pow(b, n - 1);
    }
  }

  /** The white space `parseInt` and `parseFloat` skip before the number:
      the WhiteSpace and LineTerminator characters of ECMAScript (sections
      12.2 and 12.3 of ECMA-262), with the Unicode space separators written
      out. */
  predicate IsJsWhitespace(c: char) {
    c == '\t' || c == '\n' || c == '\U{B}' || c == '\U{C}' || c == '\r' || c == ' '
    || c == '\U{A0}' || c == '\U{1680}' || '\U{2000}' <= c <= '\U{200A}'
    || c == '\U{2028}' || c == '\U{2029}' || c == '\U{202F}' || c == '\U{205F}'
    || c == '\U{3000}' || c == '\U{FEFF}'
  }

  /** `s` without its leading white space. */
  function TrimStart(s: string): (t: string)
    ensures |t| <= |s| && t == s[|s| - |t|..]
    ensures forall i :: 0 <= i < |s| - |t| ==> IsJsWhitespace(s[i])
    ensures t != [] ==> !IsJsWhitespace(t[0])
  {
    s[PrefixLength(s, IsJsWhitespace)..]
  }

  /** An optional leading sign: whether it is `-`, and the text after it. */
  function SplitSign(t: string): (r: (bool, string))
    ensures r.1 == (if t != [] && (t[0] == '-' || t[0] == '+') then t[1..] else t)
    ensures r.0 <==> t != [] && t[0] == '-'
  {
    if t != [] && (t[0] == '-' || t[0] == '+') then (t[0] == '-', t[1..]) else (false, t)
  }

  function Abs(x: int): nat {
    if x < 0 then -x else x
  }

  /** 10 to the power `n`. */
  function Pow10(n: nat): (p: real)
    ensures 1.0 <= p
  {
    if n == 0 then 1.0 else 10.0 * Pow10(n - 1)
  }

  /** The factor an exponent part (`e` or `E`, an optional sign, at least
      one digit) at the start of `s` stands for; 1 when there is none. */
  function ExponentScale(s: string): (f: real)
    ensures 0.0 < f
  {
    if s != [] && (s[0] == 'e' || s[0] == 'E') then
      var signed := SplitSign(s[1..]);
      var n := PrefixLength(signed.1, IsAsciiDigit);
      if n == 0 then 1.0
      else if signed.0 then 1.0 / Pow10(DecimalValue(signed.1[..n]))
      else Pow10(DecimalValue(signed.1[..n]))
    else 1.0
  }

  /** The value of the longest prefix of `u` that is an unsigned decimal
      literal: digits, then optionally `.` and digits, with at least one
      digit in all, then optionally an exponent part. `None` when `u` does
      not start with one. */
  function UnsignedDecimalPrefix(u: string): (r: Option<real>)
    ensures r.Some? <==> u != [] && (IsAsciiDigit(u[0]) || (u[0] == '.' && |u| > 1 && IsAsciiDigit(u[1])))
  {
    var whole := PrefixLength(u, IsAsciiDigit);
    var rest := u[whole..];
    if rest != [] && rest[0] == '.' then
      var fraction := PrefixLength(rest[1..], IsAsciiDigit);
      if whole + fraction == 0 then None
      else
        var mantissa := DecimalValue(u[..whole]) as real + DecimalValue(rest[1..][..fraction]) as real / Pow10(fraction);
        Some(mantissa * ExponentScale(rest[1 + fraction..]))
    else if whole == 0 then None
    else Some(DecimalValue(u[..whole]) as real * ExponentScale(rest))
  }

  /** `Number.parseFloat(s)`: leading white space skipped, an optional
      sign, then the longest decimal literal; `None` stands for `NaN`. */
  function ParseFloat(s: string): (r: Option<real>)
  {
    SignedDecimal(TrimStart(s))
  }

  /** `parseFloat` after the white space: an optional sign, then the
      longest decimal literal. */
  function SignedDecimal(t: string): (r: Option<real>)
  {
    var signed := SplitSign(t);
    match UnsignedDecimalPrefix(signed.1)
    case None => None
    case Some(v) => Some(if signed.0 then -v else v)
  }

  /** `parseInt(s, 16)`: leading white space skipped, an optional sign, an
      optional `0x` or `0X`, then the longest run of hexadecimal digits;
      `None` stands for `NaN`, when there is no digit. */
  function ParseInt16(s: string): Option<int>
  {
    SignedHex(TrimStart(s))
  }

  /** `parseInt(s, 16)` after the white space. */
  function SignedHex(t: string): Option<int>
  {
    var signed := SplitSign(t);
    match HexPrefixValue(HexDigitsAfterPrefix(signed.1))
    case None => None
    case Some(v) => Some(if signed.0 then -(v as int) else v as int)
  }

  /** `u` without a leading `0x` or `0X`. */
  function HexDigitsAfterPrefix(u: string): (w: string)
    ensures |w| <= |u|
  {
    if |u| >= 2 && u[0] == '0' && (u[1] == 'x' || u[1] == 'X') then u[2..] else u
  }

  /** The value of the hexadecimal digits that start `w`; `None` when
      there is none. */
  function HexPrefixValue(w: string): Option<nat> {
    var n := PrefixLength(w, IsHexDigit);
    if n == 0 then None else Some(HexValue(w[..n]))
  }

  lemma HexPrefixValueBound(w: string)
    ensures HexPrefixValue(w).Some? ==> HexPrefixValue(w).value < Pow(16, |w|)
  {
    var n := PrefixLength(w, IsHexDigit);
    if n > 0 {
      HexValueBound(w[..n]);
      PowMono(16, n, |w|);
    }
  }

  /** The magnitude of `parseInt(s, 16)` is below 16 to the power of the
      length of `s`. */
  lemma ParseInt16Bound(s: string)
    ensures ParseInt16(s).Some? ==> Abs(ParseInt16(s).value) < Pow(16, |s|)
  {
    var w := HexDigitsAfterPrefix(SplitSign(TrimStart(s)).1);
    HexPrefixValueBound(w);
    PowMono(16, |w|, |s|);
  }

  /** Both number parsers skip leading white space. */
  lemma {:induction false} ParsersSkipWhitespace(c: char, s: string)
    requires IsJsWhitespace(c)
    ensures ParseFloat([c] + s) == ParseFloat(s)
    ensures ParseInt16([c] + s) == ParseInt16(s)
  {
    assert ([c] + s)[1..] == s;
    assert TrimStart([c] + s) == TrimStart(s);
  }

  /** A `-` in front of a number negates it, and leaves `NaN` alone. */
  lemma ParseFloatNegates(t: string)
    requires t == [] || !(IsJsWhitespace(t[0]) || t[0] == '-' || t[0] == '+')
    ensures ParseFloat("-" + t) == if ParseFloat(t).Some? then Some(-ParseFloat(t).value) else None
  {
    assert ("-" + t)[1..] == t;
    assert TrimStart("-" + t) == "-" + t;
    assert TrimStart(t) == t;
    assert SplitSign("-" + t) == (true, t) && SplitSign(t) == (false, t);
  }

  /** A `-` in front of a number negates it, and leaves `NaN` alone. */
  lemma ParseInt16Negates(t: string)
    requires t == [] || !(IsJsWhitespace(t[0]) || t[0] == '-' || t[0] == '+')
    ensures ParseInt16("-" + t) == if ParseInt16(t).Some? then Some(-ParseInt16(t).value) else None
  {
    assert ("-" + t)[1..] == t;
    assert TrimStart("-" + t) == "-" + t;
    assert TrimStart(t) == t;
    assert SplitSign("-" + t) == (true, t) && SplitSign(t) == (false, t);
  }

  /** A run of decimal digits is read as its value, by `parseFloat`. */
  lemma {:induction false} ParseFloatOfDigits(ds: string)
    requires ds != [] && forall i :: 0 <= i < |ds| ==> IsAsciiDigit(ds[i])
    ensures ParseFloat(ds) == Some(DecimalValue(ds) as real)
  {
    assert TrimStart(ds) == ds;
    assert ds[..|ds|] == ds;
  }

  /** A run of hexadecimal digits is read as its value, by `parseInt(s, 16)`. */
  lemma {:induction false} ParseInt16OfHexDigits(ds: string)
    requires ds != [] && forall i :: 0 <= i < |ds| ==> IsHexDigit(ds[i])
    ensures ParseInt16(ds) == Some(HexValue(ds) as int)
  {
    assert TrimStart(ds) == ds;
    assert ds[..|ds|] == ds;
  }

  /** Text that starts with no white space, sign or hexadecimal digit is
      `NaN` to `parseInt(s, 16)`. */
  lemma ParseInt16NoDigit(s: string)
    requires s != [] && !(IsJsWhitespace(s[0]) || s[0] == '+' || s[0] == '-' || IsHexDigit(s[0]))
    ensures ParseInt16(s) == None
  {
    assert TrimStart(s) == s;
    assert SplitSign(s) == (false, s);
  }

  /** `parseInt(s, 16)` passes over leading white space. */
  lemma ParseInt16SpaceExample()
    ensures ParseInt16("  d") == Some(13)
  {
    assert SignedHex("d") == Some(13) by {
      assert SplitSign("d") == (false, "d");
      assert HexDigitsAfterPrefix("d") == "d";
      assert PrefixLength("d", IsHexDigit) == 1 && "d"[..1] == "d";
      assert HexPrefixValue("d") == Some(13);
    }
    assert TrimStart("  d") == "d";
  }

  /** `parseInt(s, 16)` takes in a sign. */
  lemma ParseInt16SignExample()
    ensures ParseInt16("-ff") == Some(-255)
  {
    assert SignedHex("-ff") == Some(-255) by {
      assert SplitSign("-ff") == (true, "ff");
      assert HexDigitsAfterPrefix("ff") == "ff";
      assert PrefixLength("ff", IsHexDigit) == 2 && "ff"[..2] == "ff";
      assert HexValue("ff") == 255;
      assert HexPrefixValue("ff") == Some(255);
    }
    assert TrimStart("-ff") == "-ff";
  }

  /** `parseInt(s, 16)` passes over a `0x`. */
  lemma ParseInt16PrefixExample()
    ensures ParseInt16("0x1") == Some(1)
  {
    assert SignedHex("0x1") == Some(1) by {
      assert SplitSign("0x1") == (false, "0x1");
      assert "0x1"[0] == '0' && "0x1"[1] == 'x' && "0x1"[2..] == "1";
      assert HexDigitsAfterPrefix("0x1") == "1";
      assert PrefixLength("1", IsHexDigit) == 1 && "1"[..1] == "1";
      assert HexPrefixValue("1") == Some(1);
    }
    assert TrimStart("0x1") == "0x1";
  }

  /** A `+` in front of a number changes nothing. */
  lemma ParseFloatPlus(t: string)
    requires t == [] || !(IsJsWhitespace(t[0]) || t[0] == '-' || t[0] == '+')
    ensures ParseFloat("+" + t) == ParseFloat(t)
  {
    assert ("+" + t)[1..] == t;
    assert TrimStart("+" + t) == "+" + t;
    assert TrimStart(t) == t;
  }

  /** A `.` in front of decimal digits makes them a fraction. */
  lemma {:induction false} ParseFloatFraction(ds: string)
    requires ds != [] && forall i :: 0 <= i < |ds| ==> IsAsciiDigit(ds[i])
    ensures ParseFloat("." + ds) == Some(DecimalValue(ds) as real / Pow10(|ds|))
  {
    var s := "." + ds;
    assert s[1..] == ds;
    assert TrimStart(s) == s;
    assert SplitSign(s).1 == s;
    assert PrefixLength(s, IsAsciiDigit) == 0;
    assert PrefixLength(ds, IsAsciiDigit) == |ds|;
    assert ds[..|ds|] == ds && ds[|ds|..] == [];
  }

  /** Text that starts with no white space, sign, digit or `.` is `NaN`. */
  lemma ParseFloatNoNumber(s: string)
    requires s != [] && !(IsJsWhitespace(s[0]) || s[0] == '+' || s[0] == '-' || s[0] == '.' || IsAsciiDigit(s[0]))
    ensures ParseFloat(s) == None
  {
    assert TrimStart(s) == s;
  }

  /** What `parseFloat` makes of white space or a sign followed by
      decimal digits: white space and `+` leave the digits' value, and `-`
      negates it. */
  lemma {:induction false} ParseFloatSignedDigits(c: char, ds: string)
    requires ds != [] && forall i :: 0 <= i < |ds| ==> IsAsciiDigit(ds[i])
    ensures IsJsWhitespace(c) || c == '+' ==> ParseFloat([c] + ds) == Some(DecimalValue(ds) as real)
    ensures c == '-' ==> ParseFloat([c] + ds) == Some(-(DecimalValue(ds) as real))
  {
    if IsJsWhitespace(c) {
      ParsersSkipWhitespace(c, ds);
      ParseFloatOfDigits(ds);
    } else if c == '+' {
      assert [c] + ds == "+" + ds;
      ParseFloatPlus(ds);
      ParseFloatOfDigits(ds);
    } else if c == '-' {
      assert [c] + ds == "-" + ds;
      ParseFloatOfDigits(ds);
      assert !IsJsWhitespace(ds[0]);
      ParseFloatNegates(ds);
    }
  }

  /** What `parseFloat` makes of any other character followed by decimal
      digits: `.` makes them a fraction, a digit joins them, and anything
      else that is neither white space nor a sign is `NaN`. */
  lemma {:induction false} ParseFloatLeadChar(c: char, ds: string)
    requires ds != [] && forall i :: 0 <= i < |ds| ==> IsAsciiDigit(ds[i])
    ensures c == '.' ==> ParseFloat([c] + ds) == Some(DecimalValue(ds) as real / Pow10(|ds|))
    ensures IsAsciiDigit(c) ==> ParseFloat([c] + ds) == Some(DecimalValue([c] + ds) as real)
    ensures !(IsJsWhitespace(c) || c == '+' || c == '-' || c == '.' || IsAsciiDigit(c)) ==> ParseFloat([c] + ds) == None
  {
    if c == '.' {
      assert [c] + ds == "." + ds;
      ParseFloatFraction(ds);
    } else if IsAsciiDigit(c) {
      assert forall i :: 0 <= i < |[c] + ds| ==> IsAsciiDigit(([c] + ds)[i]);
      ParseFloatOfDigits([c] + ds);
    } else if !(IsJsWhitespace(c) || c == '+' || c == '-') {
      ParseFloatNoNumber([c] + ds);
    }
  }

  /** Lower-casing of the ASCII letters. `String.prototype.toLowerCase`
      also lowers other letters, but only `P` and `X` lower to `p` and `x`,
      so comparing the result with `px` comes out the same. */
  function AsciiLower(s: string): (r: string)
    ensures |r| == |s|
    ensures forall i :: 0 <= i < |s| ==> (r[i] == s[i] || ('A' <= s[i] <= 'Z' && r[i] as int == s[i] as int + 32))
  {
    if s == [] then []
    else [if 'A' <= s[0] <= 'Z' then (s[0] as int + 32) as char else s[0]] + AsciiLower(s[1..])
  }
}
