/** The number conversions the dashboard code relies on: parseFloat and
    parseInt (base 10, and without a radix, where "0x" selects base 16) as prefix parsers, Math.round, Math.ceil,
    truncation toward zero and String(number). Numbers are exact reals;
    IEEE-754 rounding is not modelled. */
module JsNumbers {
  import opened Options
  import opened Text

  predicate IsDigit(c: char) {
    '0' <= c <= '9'
  }

  function DigitValue(c: char): nat
    requires IsDigit(c)
  {
    c as int - '0' as int
  }

  /** Length of the run of decimal digits at the start of `s`. */
  function DigitRun(s: string): (n: nat)
    ensures n <= |s|
    ensures forall k :: 0 <= k < n ==> IsDigit(s[k])
    ensures n == |s| || !IsDigit(s[n])
  {
    if |s| > 0 && IsDigit(s[0]) then 1 + DigitRun(s[1..]) else 0
  }

  /** The value of a string of decimal digits. */
  function DigitsValue(d: string): nat
    requires forall k :: 0 <= k < |d| ==> IsDigit(d[k])
  {
    if |d| == 0 then 0 else DigitsValue(d[..|d| - 1]) * 10 + DigitValue(d[|d| - 1])
  }

  function Pow10(n: nat): (r: nat)
    ensures r >= 1
  {
    if n == 0 then 1 else 10 * Pow10(n - 1)
  }

  /** 10 raised to an integer power. */
  function Scale(e: int): (r: real)
    ensures r > 0.0
  {
    if e >= 0 then Pow10(e) as real else 1.0 / Pow10(-e) as real
  }

  /** The exponent part `e[+-]ddd` at the start of `s`, or 0 when there is none. */
  function ExponentOf(s: string): int {
    if |s| >= 2 && (s[0] == 'e' || s[0] == 'E') then
      var signed := s[1] == '+' || s[1] == '-';
      var body := if signed then s[2..] else s[1..];
      var n := DigitRun(body);
      if n == 0 then 0
      else if signed && s[1] == '-' then -(DigitsValue(body[..n]) as int)
      else DigitsValue(body[..n])
    else 0
  }

  /** The text after leading white space and an optional sign, and whether that sign was '-'. */
  function Unsigned(s: string): (bool, string) {
    var t := TrimStart(s);
    if |t| > 0 && (t[0] == '-' || t[0] == '+') then (t[0] == '-', t[1..]) else (false, t)
  }

  /** Length of the fraction digits after a '.' at the start of `s` (0 when there is no '.'). */
  function FractionRun(s: string): (n: nat)
    ensures n == 0 || (|s| > 0 && s[0] == '.' && n + 1 <= |s|)
    ensures n > 0 <==> |s| > 1 && s[0] == '.' && IsDigit(s[1])
  {
    if |s| > 0 && s[0] == '.' then DigitRun(s[1..]) else 0
  }

  /** The value of the decimal literal `ddd[.fff][e±xx]` at the start of `body`. */
  function LiteralValue(body: string): real {
    var i := DigitRun(body);
    var after := body[i..];
    var f := FractionRun(after);
    var frac := if f > 0 then after[1..1 + f] else "";
    var rest := if f > 0 then after[1 + f..] else if |after| > 0 && after[0] == '.' then after[1..] else after;
    var whole := DigitsValue(body[..i]) as real;
    var mantissa := if |frac| == 0 then whole else whole + DigitsValue(frac) as real / Pow10(|frac|) as real;
    var e := ExponentOf(rest);
    // 10^0 is 1, so a literal without exponent is its mantissa
    if e == 0 then mantissa else mantissa * Scale(e)
  }

  /** parseFloat: the longest decimal literal after leading white space; None stands for NaN. */
  function ParseFloat(s: string): (r: Option<real>)
    ensures r.None? <==> DigitRun(Unsigned(s).1) == 0 && FractionRun(Unsigned(s).1) == 0
  {
    var (neg, body) := Unsigned(s);
    if DigitRun(body) == 0 && FractionRun(body) == 0 then None
    else
      var v := LiteralValue(body);
      Some(if neg then -v else v)
  }

  /** parseInt(s, 10): optional sign and at least one digit after leading white space; None stands for NaN. */
  function ParseInt(s: string): (r: Option<int>)
    ensures r.None? <==> DigitRun(Unsigned(s).1) == 0
  {
    var (neg, body) := Unsigned(s);
    var n := DigitRun(body);
    if n == 0 then None
    else if neg then Some(-(DigitsValue(body[..n]) as int))
    else Some(DigitsValue(body[..n]))
  }

  predicate IsHexDigit(c: char) {
    IsDigit(c) || 'a' <= c <= 'f' || 'A' <= c <= 'F'
  }

  function HexValue(c: char): (v: nat)
    requires IsHexDigit(c)
    ensures v < 16
    ensures IsDigit(c) ==> v == DigitValue(c)
  {
    if IsDigit(c) then DigitValue(c)
    else if 'a' <= c <= 'f' then c as int - 'a' as int + 10
    else c as int - 'A' as int + 10
  }

  /** Length of the run of hexadecimal digits at the start of `s`. */
  function HexRun(s: string): (n: nat)
    ensures n <= |s|
    ensures forall k :: 0 <= k < n ==> IsHexDigit(s[k])
    ensures n == |s| || !IsHexDigit(s[n])
  {
    if |s| > 0 && IsHexDigit(s[0]) then 1 + HexRun(s[1..]) else 0
  }

  /** The value of a string of hexadecimal digits. */
  function HexDigitsValue(d: string): nat
    requires forall k :: 0 <= k < |d| ==> IsHexDigit(d[k])
  {
    if |d| == 0 then 0 else HexDigitsValue(d[..|d| - 1]) * 16 + HexValue(d[|d| - 1])
  }

  /** The text after the sign starts with "0x" or "0X". */
  predicate HexPrefix(body: string) {
    |body| >= 2 && body[0] == '0' && (body[1] == 'x' || body[1] == 'X')
  }

  /** parseInt(s) without a radix: base 10, except that "0x" or "0X" after the
      sign selects base 16, which then needs at least one hexadecimal digit. */
  function ParseIntAuto(s: string): (r: Option<int>)
    ensures !HexPrefix(Unsigned(s).1) ==> r == ParseInt(s)
    ensures HexPrefix(Unsigned(s).1) ==> (r.None? <==> HexRun(Unsigned(s).1[2..]) == 0)
  {
    var (neg, body) := Unsigned(s);
    if HexPrefix(body) then
      var hex := body[2..];
      var n := HexRun(hex);
      if n == 0 then None
      else if neg then Some(-(HexDigitsValue(hex[..n]) as int))
      else Some(HexDigitsValue(hex[..n]))
    else ParseInt(s)
  }

  /** "0x" followed by hexadecimal digits reads as their base-16 value. */
  lemma ParseIntAutoHex(d: string)
    requires |d| > 0 && forall k :: 0 <= k < |d| ==> IsHexDigit(d[k])
    ensures ParseIntAuto("0x" + d) == Some(HexDigitsValue(d))
  {
    var s := "0x" + d;
    assert !IsSpace(s[0]);
    assert Unsigned(s) == (false, s);
    assert s[2..] == d;
    HexRunAll(d);
    assert d[..|d|] == d;
  }

  lemma {:induction false} HexRunAll(d: string)
    requires forall k :: 0 <= k < |d| ==> IsHexDigit(d[k])
    ensures HexRun(d) == |d|
  {
    if |d| > 0 {
      HexRunAll(d[1..]);
    }
  }

  /** A radix-less parseInt reads back what String(n) writes, as the base-10 one does. */
  lemma ParseIntAutoOfIntText(n: int)
    ensures ParseIntAuto(IntText(n)) == Some(n)
  {
    var m: nat := if n < 0 then -n else n;
    var d := NatText(m);
    NatTextValue(m);
    DigitRunAll(d);
    if n < 0 {
      UnsignedNegative(d);
    } else {
      UnsignedDigits(d);
    }
    assert |d| >= 2 ==> IsDigit(d[1]);
    ParseIntOfIntText(n);
  }

  /** parseInt(s, 10) reads any "0x…" text as 0: it stops at the 'x'. */
  lemma DecimalStopsAtX(rest: string)
    ensures ParseInt("0x" + rest) == Some(0)
  {
    var s := "0x" + rest;
    assert !IsSpace(s[0]);
    assert Unsigned(s) == (false, s);
    assert s[1..][0] == 'x';
    assert DigitRun(s) == 1;
    assert s[..1] == "0" && "0"[..0] == "";
  }

  /** "0x" not followed by a hexadecimal digit is NaN. */
  lemma HexWithoutDigits(rest: string)
    requires rest == "" || !IsHexDigit(rest[0])
    ensures ParseIntAuto("0x" + rest).None?
  {
    var s := "0x" + rest;
    assert !IsSpace(s[0]);
    assert Unsigned(s) == (false, s);
    assert s[2..] == rest;
  }

  lemma {:induction false} NatTextValue(n: nat)
    ensures forall k :: 0 <= k < |NatText(n)| ==> IsDigit(NatText(n)[k])
    ensures DigitsValue(NatText(n)) == n
  {
    var t := NatText(n);
    if n >= 10 {
      NatTextValue(n / 10);
      assert t[..|t| - 1] == NatText(n / 10);
    }
  }

  /** parseInt reads back what String(n) writes. */
  lemma ParseIntOfIntText(n: int)
    ensures ParseInt(IntText(n)) == Some(n)
  {
    var m: nat := if n < 0 then -n else n;
    var d := NatText(m);
    NatTextValue(m);
    DigitRunAll(d);
    assert d[..|d|] == d;
    if n < 0 {
      UnsignedNegative(d);
    } else {
      UnsignedDigits(d);
    }
  }

  lemma UnsignedDigits(d: string)
    requires |d| > 0 && IsDigit(d[0])
    ensures Unsigned(d) == (false, d)
  {
    assert !IsSpace(d[0]);
  }

  lemma UnsignedNegative(d: string)
    ensures Unsigned("-" + d) == (true, d)
  {
    var t := "-" + d;
    assert !IsSpace(t[0]);
    assert t[1..] == d;
  }

  lemma {:induction false} DigitRunAll(d: string)
    requires forall k :: 0 <= k < |d| ==> IsDigit(d[k])
    ensures DigitRun(d) == |d|
  {
    if |d| > 0 {
      DigitRunAll(d[1..]);
    }
  }

  /** parseFloat reads a string of digits as its decimal value. */
  lemma ParseFloatDigits(w: string)
    requires |w| > 0 && forall k :: 0 <= k < |w| ==> IsDigit(w[k])
    ensures ParseFloat(w) == Some(DigitsValue(w) as real)
  {
    UnsignedDigits(w);
    DigitRunAll(w);
    assert w[..|w|] == w && w[|w|..] == "";
    assert ExponentOf("") == 0;
  }

  /** parseFloat reads `www.fff` as the decimal www + fff / 10^|fff|. */
  lemma ParseFloatDecimal(w: string, f: string)
    requires |w| > 0 && forall k :: 0 <= k < |w| ==> IsDigit(w[k])
    requires |f| > 0 && forall k :: 0 <= k < |f| ==> IsDigit(f[k])
    ensures ParseFloat(w + "." + f) == Some(DigitsValue(w) as real + DigitsValue(f) as real / Pow10(|f|) as real)
  {
    var s := w + "." + f;
    DecimalRun(w, f);
    assert s[0] == w[0];
    UnsignedDigits(s);
    LiteralDecimal(w, f);
    ParseFloatLiteral(s, DigitsValue(w) as real + DigitsValue(f) as real / Pow10(|f|) as real);
  }

  /** Without leading blanks or sign, parseFloat reads the literal at the start. */
  lemma ParseFloatLiteral(s: string, v: real)
    requires Unsigned(s) == (false, s) && DigitRun(s) > 0 && LiteralValue(s) == v
    ensures ParseFloat(s) == Some(v)
  {
  }

  lemma DecimalRun(w: string, f: string)
    requires forall k :: 0 <= k < |w| ==> IsDigit(w[k])
    ensures DigitRun(w + "." + f) == |w|
  {
    assert w + "." + f == w + ("." + f);
    DigitRunPrefix(w, "." + f);
  }

  /** The literal value of `www.fff`. */
  lemma LiteralDecimal(w: string, f: string)
    requires forall k :: 0 <= k < |w| ==> IsDigit(w[k])
    requires |f| > 0 && forall k :: 0 <= k < |f| ==> IsDigit(f[k])
    ensures LiteralValue(w + "." + f) == DigitsValue(w) as real + DigitsValue(f) as real / Pow10(|f|) as real
  {
    var s := w + "." + f;
    DigitRunPrefix(w, "." + f);
    assert s == w + ("." + f);
    var i := DigitRun(s);
    assert i == |w|;
    var after := s[i..];
    assert after == "." + f;
    DigitRunAll(f);
    assert after[1..] == f;
    var n := FractionRun(after);
    assert n == |f|;
    assert after[1..1 + n] == f;
    assert after[1 + n..] == "";
    assert s[..i] == w;
    assert ExponentOf("") == 0;
  }

  /** The digit run of digits followed by a non-digit ends where the digits end. */
  lemma {:induction false} DigitRunPrefix(w: string, rest: string)
    requires forall k :: 0 <= k < |w| ==> IsDigit(w[k])
    requires rest == "" || !IsDigit(rest[0])
    ensures DigitRun(w + rest) == |w|
  {
    if |w| == 0 {
      assert w + rest == rest;
    } else {
      assert (w + rest)[0] == w[0];
      assert (w + rest)[1..] == w[1..] + rest;
      DigitRunPrefix(w[1..], rest);
    }
  }

  /** Math.floor. */
  function Floor(x: real): (r: int)
    ensures r as real <= x < r as real + 1.0
  {
    x.Floor
  }

  /** Math.round: the nearest integer, halves rounded up. */
  function Round(x: real): (r: int)
    ensures x - 0.5 < r as real <= x + 0.5
  {
    (x + 0.5).Floor
  }

  /** Math.ceil. */
  function Ceil(x: real): (r: int)
    ensures x <= r as real < x + 1.0
  {
    -((-x).Floor)
  }

  /** Truncation toward zero (ToIntegerOrInfinity). */
  function Trunc(x: real): (r: int)
    ensures x >= 0.0 ==> r == Floor(x)
    ensures x < 0.0 ==> r == Ceil(x)
  {
    if x >= 0.0 then x.Floor else -((-x).Floor)
  }

  /** Up to `n` decimal digits of a fraction in [0, 1). */
  function FractionDigits(fr: real, n: nat): string
    requires 0.0 <= fr < 1.0
    decreases n
  {
    if n == 0 || fr == 0.0 then ""
    else
      var d := (fr * 10.0).Floor;
      [('0' as int + d) as char] + FractionDigits(fr * 10.0 - d as real, n - 1)
  }

  /** String(x): integers exactly; other values with at most six fractional digits. */
  function NumText(x: real): string {
    if x == x.Floor as real then IntText(x.Floor)
    else
      var a := if x < 0.0 then -x else x;
      var whole := a.Floor;
      (if x < 0.0 then "-" else "") + NatText(whole) + "." + FractionDigits(a - whole as real, 6)
  }
}
