/**
 * Python's `int(s)` and `float(s)` on decimal literals, with floats modelled as
 * exact reals, and the text form of integers that those parsers invert.
 */
module Numbers {
  import opened Wrappers
  import opened Text

  predicate IsDigit(c: char) {
    '0' <= c <= '9'
  }

  predicate AllDigits(s: string) {
    forall i :: 0 <= i < |s| ==> IsDigit(s[i])
  }

  function DigitValue(c: char): nat
    requires IsDigit(c)
  {
    c as int - '0' as int
  }

  function DigitChar(d: nat): char
    requires d < 10
  {
    ('0' as int + d) as char
  }

  /** The value of a string of decimal digits. */
  function DigitsValue(s: string): nat
    requires AllDigits(s)
    decreases |s|
  {
    if s == [] then 0 else DigitsValue(s[..|s| - 1]) * 10 + DigitValue(s[|s| - 1])
  }

  function Pow10(n: nat): (p: nat)
    ensures p >= 1
  {
    if n == 0 then 1 else 10 * Pow10(n - 1)
  }

  /** The shortest decimal digits of `n` (`str(n)` for n >= 0). */
  function NatToString(n: nat): (s: string)
    ensures s != [] && AllDigits(s) && DigitsValue(s) == n
    decreases n
  {
    if n < 10 then [DigitChar(n)]
    else
      var s := NatToString(n / 10) + [DigitChar(n % 10)];
      assert s[..|s| - 1] == NatToString(n / 10);
      s
  }

  /** `str(i)` */
  function IntToString(i: int): string {
    if i < 0 then "-" + NatToString(-i) else NatToString(i)
  }

  /** An optional leading sign: whether it is `-`, and what follows it. */
  function SplitSign(t: string): (bool, string) {
    if t != [] && (t[0] == '+' || t[0] == '-') then (t[0] == '-', t[1..]) else (false, t)
  }

  /**
   * The whitespace `int()` and `float()` skip around a literal: what `isspace()`
   * accepts except U+001C..U+001F, which CPython's number parsers do not skip.
   */
  predicate IsNumberSpace(c: char) {
    IsSpace(c) && !('\U{1c}' <= c <= '\U{1f}')
  }

  /** `s` without the number whitespace before it (`TrimLeftIsSuffix`). */
  function TrimLeft(s: string): (r: string)
    ensures |r| <= |s|
    ensures r == [] || !IsNumberSpace(r[0])
    ensures forall i :: 0 <= i < |s| - |r| ==> IsNumberSpace(s[i])
    decreases |s|
  {
    if s != [] && IsNumberSpace(s[0]) then TrimLeft(s[1..]) else s
  }

  lemma {:induction false} TrimLeftIsSuffix(s: string)
    ensures TrimLeft(s) == s[|s| - |TrimLeft(s)|..]
    decreases |s|
  {
    if s != [] && IsNumberSpace(s[0]) {
      TrimLeftIsSuffix(s[1..]);
    }
  }

  /** `s` without the number whitespace after it (`TrimRightIsPrefix`). */
  function TrimRight(s: string): (r: string)
    ensures |r| <= |s|
    ensures r == [] || !IsNumberSpace(r[|r| - 1])
    ensures forall i :: |r| <= i < |s| ==> IsNumberSpace(s[i])
    decreases |s|
  {
    if s != [] && IsNumberSpace(s[|s| - 1]) then TrimRight(s[..|s| - 1]) else s
  }

  lemma {:induction false} TrimRightIsPrefix(s: string)
    ensures TrimRight(s) == s[..|TrimRight(s)|]
    decreases |s|
  {
    if s != [] && IsNumberSpace(s[|s| - 1]) {
      TrimRightIsPrefix(s[..|s| - 1]);
    }
  }

  /** The literal `int()` and `float()` read inside `s`. */
  function Trim(s: string): string {
    TrimRight(TrimLeft(s))
  }

  lemma TrimLeftSplits(s: string) returns (a: string)
    ensures s == a + TrimLeft(s)
    ensures forall i :: 0 <= i < |a| ==> IsNumberSpace(a[i])
  {
    TrimLeftIsSuffix(s);
    a := s[..|s| - |TrimLeft(s)|];
  }

  lemma TrimRightSplits(s: string) returns (b: string)
    ensures s == TrimRight(s) + b
    ensures forall i :: 0 <= i < |b| ==> IsNumberSpace(b[i])
  {
    TrimRightIsPrefix(s);
    var t := TrimRight(s);
    b := s[|t|..];
    forall i | 0 <= i < |b| ensures IsNumberSpace(b[i]) {
      assert b[i] == s[|t| + i];
    }
  }

  /** `s` is the number whitespace before `Trim(s)`, `Trim(s)` itself, and the number whitespace after it. */
  lemma TrimSplits(s: string) returns (a: string, b: string)
    ensures s == a + Trim(s) + b
    ensures forall i :: 0 <= i < |a| ==> IsNumberSpace(a[i])
    ensures forall i :: 0 <= i < |b| ==> IsNumberSpace(b[i])
  {
    a := TrimLeftSplits(s);
    b := TrimRightSplits(TrimLeft(s));
    assert a + (Trim(s) + b) == a + Trim(s) + b;
  }

  /** A text that `strip()` leaves alone, the number parsers leave alone too. */
  lemma {:induction false} TrimOfTrimmed(s: string)
    requires Trimmed(s)
    ensures Trim(s) == s
  {
    assert TrimLeft(s) == s;
    assert TrimRight(s) == s;
  }

  /** `int(s)`: surrounding whitespace, an optional sign and at least one digit; None where Python raises ValueError. */
  function ParseInt(s: string): Option<int> {
    var (negative, body) := SplitSign(Trim(s));
    if body != [] && AllDigits(body) then
      Some(if negative then -(DigitsValue(body) as int) else DigitsValue(body))
    else None
  }

  /** The value of the digits after a decimal point: `0.d1d2d3...`. */
  function FractionValue(f: string): (x: real)
    requires AllDigits(f)
    ensures 0.0 <= x <= 1.0
    decreases |f|
  {
    if f == [] then 0.0 else (DigitValue(f[0]) as real + FractionValue(f[1..])) / 10.0
  }

  /** An unsigned decimal literal: digits, optionally a point and more digits, at least one digit in all. */
  function UnsignedDecimal(b: string): Option<real> {
    if '.' !in b then
      if b != [] && AllDigits(b) then Some(DigitsValue(b) as real) else None
    else
      var i := IndexOf(b, '.');
      var whole, fraction := b[..i], b[i + 1..];
      if AllDigits(whole) && AllDigits(fraction) && |whole| + |fraction| > 0 then
        Some(DigitsValue(whole) as real + FractionValue(fraction))
      else None
  }

  /** `float(s)` on decimal literals; None where Python raises ValueError. */
  function ParseReal(s: string): Option<real> {
    var (negative, body) := SplitSign(Trim(s));
    match UnsignedDecimal(body)
    case None => None
    case Some(x) => Some(if negative then -x else x)
  }

  /** `int(x)` for a float `x`: the integer part, rounding toward zero. */
  function Truncate(x: real): (n: int)
    ensures x >= 0.0 ==> n >= 0 && n as real <= x < n as real + 1.0
    ensures x < 0.0 ==> n <= 0 && n as real - 1.0 < x <= n as real
  {
    if x >= 0.0 then x.Floor else -((-x).Floor)
  }

  /** The text of an integer has no whitespace at either end. */
  lemma IntToStringTrimmed(i: int)
    ensures Trimmed(IntToString(i))
    ensures forall k :: 0 <= k < |IntToString(i)| ==> IntToString(i)[k] == '-' || IsDigit(IntToString(i)[k])
  {
    var n := if i < 0 then -i else i;
    var s := NatToString(n);
    assert !IsSpace(s[0]) && !IsSpace(s[|s| - 1]);
  }

  /** `int(str(i)) == i` */
  lemma {:induction false} ParseIntRoundTrip(i: int)
    ensures ParseInt(IntToString(i)) == Some(i)
  {
    IntToStringTrimmed(i);
    TrimOfTrimmed(IntToString(i));
    if i < 0 {
      assert SplitSign(IntToString(i)) == (true, NatToString(-i));
    } else {
      assert SplitSign(IntToString(i)) == (false, NatToString(i));
    }
  }

  /** Every literal `int()` accepts, `float()` accepts with the same value. */
  lemma {:induction false} ParseIntThenParseReal(s: string)
    requires ParseInt(s).Some?
    ensures ParseReal(s) == Some(ParseInt(s).value as real)
  {
  }

  /** `float(str(i)) == i` */
  lemma {:induction false} ParseRealRoundTrip(i: int)
    ensures ParseReal(IntToString(i)) == Some(i as real)
  {
    ParseIntRoundTrip(i);
    ParseIntThenParseReal(IntToString(i));
  }

  /** An unsigned literal starts and ends with a digit or the point. */
  lemma UnsignedDecimalEnds(b: string)
    requires UnsignedDecimal(b).Some?
    ensures b != []
    ensures IsDigit(b[0]) || b[0] == '.'
    ensures IsDigit(b[|b| - 1]) || b[|b| - 1] == '.'
  {
    if '.' in b {
      var i := IndexOf(b, '.');
      assert b == b[..i] + ['.'] + b[i + 1..];
      if i > 0 { assert b[0] == b[..i][0]; }
      if i < |b| - 1 { assert b[|b| - 1] == b[i + 1..][|b| - i - 2]; }
    }
  }

  /**
   * A text `float()` reads is, after `strip()`, exactly the literal: stripping
   * it first changes neither the text read nor the value.
   */
  lemma {:induction false} ParseRealOfStripped(s: string)
    requires ParseReal(s).Some?
    ensures Strip(s) == Trim(s) != []
    ensures ParseReal(Strip(s)) == ParseReal(s)
  {
    var t := Trim(s);
    var (negative, body) := SplitSign(t);
    UnsignedDecimalEnds(body);
    assert t != [] && !IsSpace(t[0]) && !IsSpace(t[|t| - 1]) by {
      if t != [] && (t[0] == '+' || t[0] == '-') {
        assert body == t[1..];
      } else {
        assert body == t;
      }
    }
    var a, b := TrimSplits(s);
    StripPadding(a, t, b);
    TrimOfTrimmed(t);
  }

  /** The leading digit of a digit string weighs `10^(n-1)`. */
  lemma {:induction false} DigitsValueFront(f: string)
    requires AllDigits(f) && f != []
    ensures DigitsValue(f) == DigitValue(f[0]) * Pow10(|f| - 1) + DigitsValue(f[1..])
    decreases |f|
  {
    if |f| > 1 {
      var g := f[..|f| - 1];
      DigitsValueFront(g);
      assert g[0] == f[0] && g[1..] == f[1..][..|f[1..]| - 1];
      assert f[1..][|f[1..]| - 1] == f[|f| - 1];
    }
  }

  /** One more leading digit: `(d + r / p) / 10 == (d * p + r) / (10 * p)`. */
  lemma ShiftDigit(fv: real, ft: real, d: nat, r: nat, p: nat, dv: nat, pv: nat)
    requires p > 0
    requires fv == (d as real + ft) / 10.0 && ft == r as real / p as real
    requires dv == d * p + r && pv == 10 * p
    ensures fv == dv as real / pv as real
  {
    assert dv as real == d as real * p as real + r as real;
    assert d as real + r as real / p as real == (d as real * p as real + r as real) / p as real;
  }

  /** The digits after a point stand for their value over a power of ten: `0.25 == 25 / 100`. */
  lemma {:induction false} FractionValueIsQuotient(f: string)
    requires AllDigits(f)
    ensures FractionValue(f) == DigitsValue(f) as real / Pow10(|f|) as real
    decreases |f|
  {
    if f != [] {
      var t := f[1..];
      FractionValueIsQuotient(t);
      DigitsValueFront(f);
      ShiftDigit(FractionValue(f), FractionValue(t), DigitValue(f[0]), DigitsValue(t), Pow10(|t|),
                 DigitsValue(f), Pow10(|f|));
    }
  }

  /** The first point of `ws + "." + f`, for digits `ws`, is the one after `ws`. */
  lemma {:induction false} PointAfterDigits(ws: string, f: string)
    requires AllDigits(ws)
    ensures var s := ws + "." + f;
      '.' in s && IndexOf(s, '.') == |ws| && s[..|ws|] == ws && s[|ws| + 1..] == f
  {
    var s := ws + "." + f;
    assert s[|ws|] == '.';
    assert forall k :: 0 <= k < |ws| ==> s[k] == ws[k] && IsDigit(s[k]);
  }

  /** An unsigned literal with a point: the whole part plus the fraction. */
  lemma {:induction false} UnsignedDecimalOfPointed(ws: string, f: string)
    requires AllDigits(ws) && AllDigits(f) && |ws| + |f| > 0
    ensures UnsignedDecimal(ws + "." + f) == Some(DigitsValue(ws) as real + FractionValue(f))
  {
    PointAfterDigits(ws, f);
  }

  /** `float()` of digits, a point and more digits: the whole part plus the fraction. */
  lemma {:induction false} ParseRealOfPointed(ws: string, f: string)
    requires ws != [] && AllDigits(ws) && AllDigits(f)
    ensures ParseReal(ws + "." + f) == Some(DigitsValue(ws) as real + FractionValue(f))
  {
    var s := ws + "." + f;
    assert s[0] == ws[0] && IsDigit(ws[0]);
    assert IsDigit(s[|s| - 1]) || s[|s| - 1] == '.' by {
      if f != [] { assert s[|s| - 1] == f[|f| - 1]; }
    }
    TrimOfTrimmed(s);
    assert SplitSign(s) == (false, s);
    UnsignedDecimalOfPointed(ws, f);
  }

  /** `float("w.f")` is `w` plus the digits `f` over `10^|f|`: `float("2.8") == 2.8`. */
  lemma {:induction false} ParseRealOfDecimal(w: nat, f: string)
    requires AllDigits(f)
    ensures ParseReal(NatToString(w) + "." + f) == Some(w as real + DigitsValue(f) as real / Pow10(|f|) as real)
  {
    ParseRealOfPointed(NatToString(w), f);
    FractionValueIsQuotient(f);
  }
}
