/**
 * JavaScript numbers and the two text-to-number conversions the search API
 * uses, `parseInt` (radix left out) and `parseFloat`. Numbers are exact reals
 * extended with the IEEE 754 special values; rounding to 64-bit doubles is not
 * modelled.
 */
module Numbers {
  import opened Values

  datatype Double = Finite(r: real) | PosInf | NegInf | NaN

  predicate IsZero(d: Double) { d.Finite? && d.r == 0.0 }

  predicate IsPositive(d: Double) { d.PosInf? || (d.Finite? && d.r > 0.0) }

  function Negate(a: Double): Double {
    match a
    case Finite(x) => Finite(-x)
    case PosInf => NegInf
    case NegInf => PosInf
    case NaN => NaN
  }

  /** IEEE addition: NaN absorbs, opposite infinities give NaN. */
  function Add(a: Double, b: Double): (c: Double)
    ensures a.Finite? && b.Finite? ==> c == Finite(a.r + b.r)
    ensures (a.NaN? || b.NaN?) ==> c.NaN?
  {
    match (a, b)
    case (NaN, _) => NaN
    case (_, NaN) => NaN
    case (PosInf, NegInf) => NaN
    case (NegInf, PosInf) => NaN
    case (PosInf, _) => PosInf
    case (_, PosInf) => PosInf
    case (NegInf, _) => NegInf
    case (_, NegInf) => NegInf
    case (Finite(x), Finite(y)) => Finite(x + y)
  }

  function Sub(a: Double, b: Double): Double {
    Add(a, Negate(b))
  }

  /** IEEE multiplication: an infinity times zero is NaN. */
  function Mul(a: Double, b: Double): (c: Double)
    ensures a.Finite? && b.Finite? ==> c == Finite(a.r * b.r)
    ensures (a.NaN? || b.NaN?) ==> c.NaN?
  {
    if a.NaN? || b.NaN? then NaN
    else if a.Finite? && b.Finite? then Finite(a.r * b.r)
    else if IsZero(a) || IsZero(b) then NaN
    else if IsPositive(a) == IsPositive(b) then PosInf
    else NegInf
  }

  /** IEEE division of two finite numbers (signed zero is not modelled). */
  function Div(x: real, y: real): (c: Double)
    ensures y != 0.0 ==> c == Finite(x / y)
    ensures y == 0.0 ==> (c.NaN? <==> x == 0.0)
    ensures y == 0.0 && x > 0.0 ==> c == PosInf
  {
    if y != 0.0 then Finite(x / y)
    else if x > 0.0 then PosInf
    else if x < 0.0 then NegInf
    else NaN
  }

  /** The `>=` comparison: false whenever either side is NaN. */
  predicate Ge(a: Double, b: Double) {
    match (a, b)
    case (NaN, _) => false
    case (_, NaN) => false
    case (PosInf, _) => true
    case (_, PosInf) => false
    case (_, NegInf) => true
    case (NegInf, _) => false
    case (Finite(x), Finite(y)) => x >= y
  }

  /** Rounds toward zero. */
  function Trunc(r: real): (n: int)
    ensures 0.0 <= r ==> 0 <= n && n as real <= r < n as real + 1.0
    ensures r < 0.0 ==> n <= 0 && n as real - 1.0 < r <= n as real
  {
    if r >= 0.0 then r.Floor else -((-r).Floor)
  }

  predicate IsInteger(d: Double) {
    d.Finite? && d.r == d.r.Floor as real
  }

  // ---------------------------------------------------------------------
  // Text: whitespace, digits

  /** The white-space and line-terminator characters `parseInt` and `parseFloat` skip. */
  predicate IsSpace(c: char) {
    // line terminators
    c == '\n' || c == '\r' || c == '\U{2028}' || c == '\U{2029}'
    // tab, vertical tab, form feed, byte-order mark
    || c == '\t' || c == '\U{000B}' || c == '\U{000C}' || c == '\U{FEFF}'
    // the Unicode space separators
    || c == ' ' || c == '\U{00A0}' || c == '\U{1680}' || ('\U{2000}' <= c <= '\U{200A}')
    || c == '\U{202F}' || c == '\U{205F}' || c == '\U{3000}'
  }

  function TrimStart(s: string): (t: string)
    ensures |t| <= |s| && t == s[|s| - |t|..]
    ensures t == [] || !IsSpace(t[0])
    ensures s != [] && !IsSpace(s[0]) ==> t == s
  {
    if s != [] && IsSpace(s[0]) then TrimStart(s[1..]) else s
  }

  /** The value of `c` as a digit in base `radix` (10 or 16), or -1. */
  function DigitValue(c: char, radix: nat): (d: int)
    ensures -1 <= d < radix
    ensures d < 10 || radix == 16
  {
    if '0' <= c <= '9' then (if (c as int - '0' as int) < radix then c as int - '0' as int else -1)
    else if radix == 16 && 'a' <= c <= 'f' then c as int - 'a' as int + 10
    else if radix == 16 && 'A' <= c <= 'F' then c as int - 'A' as int + 10
    else -1
  }

  predicate IsDigit(c: char, radix: nat) { DigitValue(c, radix) >= 0 }

  predicate AllDigits(s: string, radix: nat) {
    forall i :: 0 <= i < |s| ==> IsDigit(s[i], radix)
  }

  /** The longest prefix of `s` made of digits in base `radix`. */
  function DigitPrefix(s: string, radix: nat): (p: string)
    ensures p <= s && AllDigits(p, radix)
    ensures |p| < |s| ==> !IsDigit(s[|p|], radix)
  {
    if s != [] && IsDigit(s[0], radix) then [s[0]] + DigitPrefix(s[1..], radix) else []
  }

  /** The number that a string of digits denotes in base `radix`. */
  function DigitsValue(ds: string, radix: nat): nat
    requires AllDigits(ds, radix)
  {
    if ds == [] then 0
    else DigitsValue(ds[..|ds| - 1], radix) * radix + DigitValue(ds[|ds| - 1], radix)
  }

  function Pow10(n: nat): (p: nat)
    ensures p >= 1
  {
    if n == 0 then 1 else 10 * Pow10(n - 1)
  }

  /** Ten to an integer power, as a real. */
  function Scale10(e: int): (p: real)
    ensures p > 0.0
  {
    if e >= 0 then Pow10(e) as real else 1.0 / Pow10(-e) as real
  }

  // ---------------------------------------------------------------------
  // Integers as text

  function DigitChar(d: nat): char
    requires d < 10
  {
    ('0' as int + d) as char
  }

  /** The decimal numeral of a natural number, without leading zeros. */
  function ShowNat(n: nat): (s: string)
    ensures s != [] && AllDigits(s, 10)
    decreases n
  {
    if n < 10 then [DigitChar(n)] else ShowNat(n / 10) + [DigitChar(n % 10)]
  }

  /** The text JavaScript prints for an integer-valued number. */
  function ShowInt(n: int): (s: string)
    ensures s != []
  {
    if n < 0 then "-" + ShowNat(-n) else ShowNat(n)
  }

  // ---------------------------------------------------------------------
  // parseInt

  /** The sign of a trimmed numeral and the text after it. */
  function SplitSign(t: string): (r: (bool, string))
    ensures r.1 == t || (t != [] && r.1 == t[1..] && (t[0] == '-' || t[0] == '+'))
    ensures r.0 <==> t != [] && t[0] == '-'
  {
    if t != [] && t[0] == '-' then (true, t[1..])
    else if t != [] && t[0] == '+' then (false, t[1..])
    else (false, t)
  }

  /** The magnitude an unsigned numeral at the head of `u` denotes: `0x`/`0X` selects base 16. */
  function UnsignedIntPrefix(u: string): Option<nat>
  {
    var hex := |u| >= 2 && u[0] == '0' && (u[1] == 'x' || u[1] == 'X');
    var radix := if hex then 16 else 10;
    var ds := DigitPrefix(if hex then u[2..] else u, radix);
    if ds == [] then None else Some(DigitsValue(ds, radix))
  }

  /** `parseInt(s)` with no radix argument. */
  function ParseIntText(s: string): (d: Double)
    ensures d.NaN? || IsInteger(d)
  {
    var (neg, u) := SplitSign(TrimStart(s));
    match UnsignedIntPrefix(u)
    case None => NaN
    case Some(m) =>
      var k: int := m;
      Finite((if neg then -k else k) as real)
  }

  /** `parseInt` of a number: it is printed and read back, which truncates. */
  function ParseIntNumber(d: Double): (p: Double)
    ensures p.NaN? || IsInteger(p)
    ensures IsInteger(d) ==> p == d
  {
    match d
    case Finite(r) =>
      var n := Trunc(r);
      assert (n as real).Floor == n;
      assert IsInteger(d) ==> n == r.Floor;
      Finite(n as real)
    case _ => NaN
  }

  /** `parseInt` of a JSON value. */
  function ParseInt(v: Value): (d: Double)
    ensures d.NaN? || IsInteger(d)
  {
    match v
    case Num(n) => ParseIntNumber(Finite(n))
    case Str(s) => ParseIntText(s)
    case _ => NaN
  }

  // ---------------------------------------------------------------------
  // parseFloat

  /** The exponent an exponent part `e[+-]digits` at the head of `a` denotes, 0 when there is none. */
  function ExponentOf(a: string): int
  {
    if a != [] && (a[0] == 'e' || a[0] == 'E') then
      var (neg, u) := SplitSign(a[1..]);
      var ds := DigitPrefix(u, 10);
      if ds == [] then 0
      else
        var m: int := DigitsValue(ds, 10);
        if neg then -m else m
    else 0
  }

  /** The magnitude an unsigned decimal literal at the head of `u` denotes (no `Infinity`). */
  function UnsignedDecimalPrefix(u: string): Option<real>
  {
    var ip := DigitPrefix(u, 10);
    var rest := u[|ip|..];
    var dot := rest != [] && rest[0] == '.';
    var fp := if dot then DigitPrefix(rest[1..], 10) else [];
    if ip == [] && fp == [] then None
    else
      var tail := if dot then rest[1 + |fp|..] else rest;
      Some((DigitsValue(ip, 10) as real + DigitsValue(fp, 10) as real / Pow10(|fp|) as real)
           * Scale10(ExponentOf(tail)))
  }

  /** `parseFloat(s)`: the longest prefix that is a decimal literal, or NaN. */
  function ParseFloatText(s: string): Double
  {
    var t := SplitSign(TrimStart(s));
    SignedDecimal(t.0, t.1)
  }

  /** The number a sign and an unsigned `Infinity` or decimal literal at the head of `u` denote. */
  function SignedDecimal(neg: bool, u: string): Double
  {
    if "Infinity" <= u then (if neg then NegInf else PosInf)
    else
      match UnsignedDecimalPrefix(u)
      case None => NaN
      case Some(mag) => Finite(if neg then -mag else mag)
  }

  /** `parseFloat` of a JSON value. */
  function ParseFloat(v: Value): (d: Double)
    ensures v.Num? ==> d == Finite(v.n)
  {
    match v
    case Num(n) => Finite(n)
    case Str(s) => ParseFloatText(s)
    case _ => NaN
  }

  // ---------------------------------------------------------------------
  // Lemmas: reading back what JavaScript prints

  lemma DigitCharValue(d: nat)
    requires d < 10
    ensures DigitValue(DigitChar(d), 10) == d
  {
  }

  lemma {:induction false} ShowNatValue(n: nat)
    ensures DigitsValue(ShowNat(n), 10) == n
    decreases n
  {
    var s := ShowNat(n);
    if n < 10 {
      DigitCharValue(n);
      assert s[..|s| - 1] == [];
    } else {
      ShowNatValue(n / 10);
      DigitCharValue(n % 10);
      assert s[..|s| - 1] == ShowNat(n / 10);
    }
  }

  lemma {:induction false} ShowNatHead(n: nat)
    ensures ShowNat(n)[0] == '0' <==> n == 0
    decreases n
  {
    if n >= 10 {
      ShowNatHead(n / 10);
    }
  }

  /** The digit prefix of a numeral followed by a non-digit is the numeral itself. */
  lemma {:induction false} DigitPrefixOfNumeral(ds: string, rest: string, radix: nat)
    requires AllDigits(ds, radix)
    requires rest == [] || !IsDigit(rest[0], radix)
    ensures DigitPrefix(ds + rest, radix) == ds
    decreases |ds|
  {
    if ds != [] {
      assert (ds + rest)[1..] == ds[1..] + rest;
      DigitPrefixOfNumeral(ds[1..], rest, radix);
    }
  }

  /** A printed integer has no leading white space; its sign is its first character. */
  lemma SignOfShowInt(n: int, rest: string)
    ensures SplitSign(TrimStart(ShowInt(n) + rest)) == (n < 0, ShowNat(if n < 0 then -n else n) + rest)
  {
    if n < 0 {
      assert ShowInt(n) + rest == ['-'] + (ShowNat(-n) + rest);
      SplitLeadingMinus(ShowNat(-n) + rest);
    } else {
      assert ShowInt(n) + rest == ShowNat(n) + rest;
      assert (ShowNat(n) + rest)[0] == ShowNat(n)[0];
      SplitLeadingDigit(ShowNat(n) + rest);
    }
  }

  lemma SplitLeadingMinus(u: string)
    ensures SplitSign(TrimStart(['-'] + u)) == (true, u)
  {
    var s := ['-'] + u;
    assert !IsSpace(s[0]);
    assert s[1..] == u;
  }

  lemma SplitLeadingDigit(u: string)
    requires u != [] && IsDigit(u[0], 10)
    ensures SplitSign(TrimStart(u)) == (false, u)
  {
    assert !IsSpace(u[0]) && u[0] != '-' && u[0] != '+';
  }

  lemma UnsignedShowNat(m: nat, rest: string)
    requires rest == [] || !IsDigit(rest[0], 10)
    requires m == 0 && rest != [] ==> rest[0] != 'x' && rest[0] != 'X'
    ensures UnsignedIntPrefix(ShowNat(m) + rest) == Some(m)
  {
    var u := ShowNat(m) + rest;
    ShowNatHead(m);
    assert |u| >= 2 && u[0] == '0' ==> u[1] == rest[0] by {
      if u[0] == '0' { assert ShowNat(m) == "0"; }
    }
    DigitPrefixOfNumeral(ShowNat(m), rest, 10);
    ShowNatValue(m);
  }

  /**
   * `parseInt` reads back the numeral of any integer, and stops at the first
   * character after it that is not a decimal digit (so `parseInt("3.7")` is 3).
   */
  lemma ParseIntShowInt(n: int, rest: string)
    requires rest == [] || !IsDigit(rest[0], 10)
    requires n == 0 && rest != [] ==> rest[0] != 'x' && rest[0] != 'X'
    ensures ParseIntText(ShowInt(n) + rest) == Finite(n as real)
  {
    SignOfShowInt(n, rest);
    UnsignedShowNat(if n < 0 then -n else n, rest);
  }

  lemma UnsignedDecimalShowNat(m: nat)
    ensures UnsignedDecimalPrefix(ShowNat(m)) == Some(m as real)
  {
    var u := ShowNat(m);
    DigitPrefixOfNumeral(u, [], 10);
    assert u + [] == u;
    assert u[|u|..] == [];
    ShowNatValue(m);
  }

  /** `parseFloat` reads back the numeral of any integer. */
  lemma ParseFloatShowInt(n: int)
    ensures ParseFloatText(ShowInt(n)) == Finite(n as real)
  {
    var m: nat := if n < 0 then -n else n;
    var u := ShowNat(m);
    SignOfShowInt(n, []);
    assert ShowInt(n) + [] == ShowInt(n) && u + [] == u;
    NotInfinity(u);
    UnsignedDecimalShowNat(m);
    assert SignedDecimal(n < 0, u) == Finite(n as real);
  }

  /** Leading white space, any of it, does not change what `parseInt` or `parseFloat` reads. */
  lemma LeadingSpaceSkipped(c: char, s: string)
    requires IsSpace(c)
    ensures ParseIntText([c] + s) == ParseIntText(s)
    ensures ParseFloatText([c] + s) == ParseFloatText(s)
  {
    assert ([c] + s)[1..] == s;
  }

  /** Text that starts with a digit is not `Infinity`. */
  lemma NotInfinity(u: string)
    requires u != [] && IsDigit(u[0], 10)
    ensures !("Infinity" <= u)
  {
    assert !IsDigit('I', 10);
  }
}
