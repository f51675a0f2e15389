/** The canonical spelling of JSON numbers (canonicalJSONNumber in
    internal/planner/config_overlay.go) decides equality of decimal values. */
module JsonNumber {
  import opened Orders
  import opened Decimal

  // ---- JSON numbers, as section 6 of RFC 8259 spells them ----

  datatype Sign = NoSign | Plus | Minus

  datatype Exponent = NoExponent | Exponent(upper: bool, sign: Sign, digits: string)

  datatype Fraction = NoFraction | Fraction(digits: string)

  datatype Number = Number(negative: bool, whole: string, fraction: Fraction, exponent: Exponent)

  predicate Valid(n: Number) {
    && AllDigits(n.whole) && n.whole != "" && (n.whole[0] == '0' ==> n.whole == "0")
    && (n.fraction.Fraction? ==> AllDigits(n.fraction.digits) && n.fraction.digits != "")
    && (n.exponent.Exponent? ==> AllDigits(n.exponent.digits) && n.exponent.digits != "")
  }

  function ShowSign(s: Sign): string {
    match s
    case NoSign => ""
    case Plus => "+"
    case Minus => "-"
  }

  function ShowFraction(f: Fraction): string {
    match f
    case NoFraction => ""
    case Fraction(d) => "." + d
  }

  function ShowExponent(e: Exponent): string {
    match e
    case NoExponent => ""
    case Exponent(upper, sign, d) => (if upper then "E" else "e") + ShowSign(sign) + d
  }

  function ShowMantissa(n: Number): string {
    (if n.negative then "-" else "") + n.whole + ShowFraction(n.fraction)
  }

  function Show(n: Number): string { ShowMantissa(n) + ShowExponent(n.exponent) }

  // ---- the decimal value ----

  function FractionDigits(f: Fraction): string { if f.Fraction? then f.digits else "" }

  function Digits(n: Number): string { n.whole + FractionDigits(n.fraction) }

  function ExponentValue(e: Exponent): int
    requires e.Exponent? ==> AllDigits(e.digits)
  {
    if e.NoExponent? then 0 else if e.sign == Minus then 0 - ToInt(e.digits) else ToInt(e.digits)
  }

  /** A value is significand times ten to the power, an exact decimal of any size. */
  datatype Value = Value(significand: int, power: int)

  function ValueOf(n: Number): Value
    requires Valid(n)
  {
    var m := ToInt(Digits(n));
    Value(if n.negative then 0 - m else m, ExponentValue(n.exponent) - |FractionDigits(n.fraction)|)
  }

  predicate SameValue(a: Value, b: Value) {
    var low := Min(a.power, b.power);
    a.significand * Pow10(a.power - low) == b.significand * Pow10(b.power - low)
  }

  // ---- the code ----

  function LowerChar(c: char): char { if 'A' <= c <= 'Z' then (c as int - 'A' as int + 'a' as int) as char else c }

  function ToLower(s: string): string { seq(|s|, i requires 0 <= i < |s| => LowerChar(s[i])) }

  /** strings.Cut around the first c; without one, everything and nothing. */
  function Cut(s: string, c: char): (string, string) {
    if s == "" then ("", "")
    else if s[0] == c then ("", s[1..])
    else var (before, after) := Cut(s[1..], c); ([s[0]] + before, after)
  }

  /** big.Int.SetString in base ten on a JSON exponent. */
  function ParsePower(s: string): int {
    if s == "" then 0
    else if s[0] == '-' && AllDigits(s[1..]) then 0 - ToInt(s[1..])
    else if s[0] == '+' && AllDigits(s[1..]) then ToInt(s[1..])
    else if AllDigits(s) then ToInt(s)
    else 0
  }

  function Canonical(number: string): string {
    var (mantissa, exponent) := Cut(ToLower(number), 'e');
    CanonicalMantissa(mantissa, ParsePower(exponent))
  }

  function CanonicalMantissa(m: string, power: int): string {
    var negative := m != "" && m[0] == '-';
    var (whole, fraction) := Cut(if negative then m[1..] else m, '.');
    CanonicalDigits(negative, whole + fraction, power - |fraction|)
  }

  function CanonicalDigits(negative: bool, all: string, power: int): string {
    var digits := TrimLeft(all);
    if digits == "" then "0"
    else
      var trimmed := TrimRight(digits);
      Spell(negative, trimmed, power + |digits| - |trimmed|)
  }

  function Spell(negative: bool, digits: string, power: int): string {
    (if negative then "-" else "") + Unsigned(digits, power)
  }

  function Unsigned(digits: string, power: int): string {
    if power != 0 then digits + ['e'] + ShowInt(power) else digits
  }

  // ---- reading the spelling back ----

  predicate Lacks(s: string, c: char) { forall i :: 0 <= i < |s| ==> s[i] != c }

  lemma {:induction false} CutMissing(s: string, c: char)
    requires Lacks(s, c)
    ensures Cut(s, c) == (s, "")
  {
    if s != "" {
      CutMissing(s[1..], c);
      assert s == [s[0]] + s[1..];
    }
  }

  lemma {:induction false} CutFinds(a: string, c: char, b: string)
    requires Lacks(a, c)
    ensures Cut(a + [c] + b, c) == (a, b)
  {
    var s := a + [c] + b;
    if a == "" {
      assert s[1..] == b;
    } else {
      CutFinds(a[1..], c, b);
      assert s[1..] == a[1..] + [c] + b;
      assert a == [a[0]] + a[1..];
    }
  }

  lemma LowerJoin(a: string, b: string)
    ensures ToLower(a + b) == ToLower(a) + ToLower(b)
  {
  }

  /** No upper-case letter occurs in s. */
  predicate Plain(s: string) { forall i :: 0 <= i < |s| ==> !('A' <= s[i] <= 'Z') }

  lemma LowerPlain(s: string)
    requires Plain(s)
    ensures ToLower(s) == s
  {
  }

  lemma MantissaPlain(n: Number)
    requires Valid(n)
    ensures Plain(ShowMantissa(n)) && Lacks(ShowMantissa(n), 'e')
  {
  }

  lemma CutExponent(n: Number)
    requires Valid(n)
    ensures Cut(ToLower(Show(n)), 'e') ==
            (ShowMantissa(n), if n.exponent.NoExponent? then "" else ShowSign(n.exponent.sign) + n.exponent.digits)
  {
    var m, e := ShowMantissa(n), n.exponent;
    MantissaPlain(n);
    LowerPlain(m);
    if e.NoExponent? {
      assert Show(n) == m;
      CutMissing(m, 'e');
    } else {
      var rest := ShowSign(e.sign) + e.digits;
      var mark := if e.upper then "E" else "e";
      LowerJoin(m, mark + rest);
      LowerJoin(mark, rest);
      LowerPlain(rest);
      assert ShowExponent(e) == mark + rest;
      assert ToLower(mark) == "e";
      assert ToLower(Show(n)) == m + ['e'] + rest;
      CutFinds(m, 'e', rest);
    }
  }

  lemma PowerParsed(e: Exponent)
    requires e.Exponent? ==> AllDigits(e.digits) && e.digits != ""
    ensures ParsePower(if e.NoExponent? then "" else ShowSign(e.sign) + e.digits) == ExponentValue(e)
  {
    if e.Exponent? {
      var s := ShowSign(e.sign) + e.digits;
      if e.sign == NoSign {
        assert s == e.digits;
      } else {
        assert s[1..] == e.digits;
      }
    }
  }

  lemma CutFraction(n: Number)
    requires Valid(n)
    ensures Cut(n.whole + ShowFraction(n.fraction), '.') == (n.whole, FractionDigits(n.fraction))
  {
    if n.fraction.NoFraction? {
      assert n.whole + "" == n.whole;
      CutMissing(n.whole, '.');
    } else {
      assert n.whole + ShowFraction(n.fraction) == n.whole + ['.'] + n.fraction.digits;
      CutFinds(n.whole, '.', n.fraction.digits);
    }
  }

  lemma MantissaSign(n: Number)
    requires Valid(n)
    ensures var m := ShowMantissa(n);
            && (m != "" && m[0] == '-' <==> n.negative)
            && (if n.negative then m[1..] else m) == n.whole + ShowFraction(n.fraction)
  {
    if n.negative {
      assert ShowMantissa(n)[1..] == n.whole + ShowFraction(n.fraction);
    } else {
      assert ShowMantissa(n) == n.whole + ShowFraction(n.fraction);
      assert IsDigit(n.whole[0]);
    }
  }

  /** What the code computes, in terms of the number it was given. */
  lemma CanonicalIs(n: Number)
    requires Valid(n)
    ensures Canonical(Show(n)) == CanonicalDigits(n.negative, Digits(n), ValueOf(n).power)
  {
    hide Canonical, CanonicalMantissa, CanonicalDigits, Show;
    ExponentIs(n);
    MantissaIs(n, ExponentValue(n.exponent));
  }

  lemma ExponentIs(n: Number)
    requires Valid(n)
    ensures Canonical(Show(n)) == CanonicalMantissa(ShowMantissa(n), ExponentValue(n.exponent))
  {
    CutExponent(n);
    PowerParsed(n.exponent);
  }

  lemma MantissaIs(n: Number, power: int)
    requires Valid(n)
    ensures CanonicalMantissa(ShowMantissa(n), power) == CanonicalDigits(n.negative, Digits(n), power - |FractionDigits(n.fraction)|)
  {
    hide CanonicalDigits, Cut, ShowMantissa;
    MantissaSign(n);
    CutFraction(n);
  }

  // ---- one spelling for each value ----

  lemma CutUnsigned(s: string, p: int)
    requires AllDigits(s)
    ensures Cut(Unsigned(s, p), 'e') == (s, if p != 0 then ShowInt(p) else "")
  {
    if p != 0 { CutFinds(s, 'e', ShowInt(p)); } else { CutMissing(s, 'e'); }
  }

  lemma ShowIntNonEmpty(p: int)
    ensures ShowInt(p) != ""
  {
  }

  lemma UnsignedInjective(s: string, p: int, t: string, q: int)
    requires AllDigits(s) && AllDigits(t) && Unsigned(s, p) == Unsigned(t, q)
    ensures s == t && p == q
  {
    CutUnsigned(s, p);
    CutUnsigned(t, q);
    ShowIntNonEmpty(p);
    ShowIntNonEmpty(q);
    if p != 0 && q != 0 { ShowIntInjective(p, q); }
  }

  lemma SpellInjective(a: bool, s: string, p: int, b: bool, t: string, q: int)
    requires AllDigits(s) && s != "" && AllDigits(t) && t != ""
    requires Spell(a, s, p) == Spell(b, t, q)
    ensures a == b && s == t && p == q
  {
    SpellStart(a, s, p);
    SpellStart(b, t, q);
    UnsignedInjective(s, p, t, q);
  }

  lemma SpellStart(a: bool, s: string, p: int)
    requires AllDigits(s) && s != ""
    ensures var x := Spell(a, s, p);
            x != "" && (x[0] == '-' <==> a) && Unsigned(s, p) == if x[0] == '-' then x[1..] else x
  {
    assert Unsigned(s, p)[0] == s[0] && IsDigit(s[0]);
    if a {
      assert Spell(a, s, p)[1..] == Unsigned(s, p);
    } else {
      assert Spell(a, s, p) == Unsigned(s, p);
    }
  }

  // ---- arithmetic of values ----

  function Signed(negative: bool, v: nat): int { if negative then 0 - v else v }

  lemma CancelLeft(x: int, y: int, k: nat)
    requires x * Pow10(k) == y * Pow10(k)
    ensures x == y
  {
    Pow10Positive(k);
    if x != y { CancelApart(x, y, Pow10(k)); }
  }

  lemma CancelApart(x: int, y: int, z: int)
    requires x != y && z >= 1
    ensures x * z != y * z
  {
    if x < y { ScaledLess(x, y, z); } else { ScaledLess(y, x, z); }
  }

  lemma {:induction false} ScaledLess(x: int, y: int, z: int)
    requires x < y && z >= 1
    ensures x * z < y * z
    decreases z
  {
    if z > 1 {
      ScaledLess(x, y, z - 1);
      assert x * z == x * (z - 1) + x && y * z == y * (z - 1) + y;
    }
  }

  /** A shift by k tens moves into the power. */
  lemma ShiftValue(m: int, x: int, k: nat, power: int, low: int)
    requires m == x * Pow10(k) && low <= power
    ensures m * Pow10(power - low) == x * Pow10(power + k - low)
  {
    Pow10Sum(k, power - low);
    assert (x * Pow10(k)) * Pow10(power - low) == x * (Pow10(k) * Pow10(power - low));
  }

  lemma NotDivisible(x: int, y: int, k: nat)
    requires k > 0 && y == x * Pow10(k)
    ensures y % 10 == 0
  {
    assert Pow10(k) == 10 * Pow10(k - 1);
    assert x * (10 * Pow10(k - 1)) == 10 * (x * Pow10(k - 1));
  }

  /** Odd significands at different powers never agree. */
  lemma PowersAgree(x: int, p: int, y: int, q: int, low: int)
    requires low <= p && low <= q && x % 10 != 0 && y % 10 != 0
    requires x * Pow10(p - low) == y * Pow10(q - low)
    ensures p == q && x == y
  {
    if p > q { HigherPower(x, p, y, q, low); }
    if q > p { HigherPower(y, q, x, p, low); }
    CancelLeft(x, y, p - low);
  }

  lemma HigherPower(x: int, p: int, y: int, q: int, low: int)
    requires low <= q < p && x * Pow10(p - low) == y * Pow10(q - low)
    ensures y % 10 == 0
  {
    Pow10Sum(p - q, q - low);
    assert x * (Pow10(p - q) * Pow10(q - low)) == (x * Pow10(p - q)) * Pow10(q - low);
    CancelLeft(x * Pow10(p - q), y, q - low);
    NotDivisible(x, y, p - q);
  }

  // ---- the theorems ----

  /** The trimmed significand of a number that is not zero, and its power. */
  function Core(n: Number): string { TrimRight(TrimLeft(Digits(n))) }

  function CorePower(n: Number): int
    requires Valid(n)
  {
    ValueOf(n).power + |TrimLeft(Digits(n))| - |Core(n)|
  }

  predicate IsZero(n: Number) { TrimLeft(Digits(n)) == "" }

  lemma DigitsValid(n: Number)
    requires Valid(n)
    ensures AllDigits(Digits(n)) && AllDigits(Core(n))
  {
  }

  lemma ZeroMeans(n: Number)
    requires Valid(n)
    ensures IsZero(n) <==> ValueOf(n).significand == 0
    ensures !IsZero(n) ==> Core(n) != "" && Core(n)[0] != '0'
  {
    DigitsValid(n);
    TrimmedZero(Digits(n));
  }

  lemma CoreValue(n: Number)
    requires Valid(n) && !IsZero(n)
    ensures AllDigits(Core(n))
    ensures var x, k := Signed(n.negative, ToInt(Core(n))), |TrimLeft(Digits(n))| - |Core(n)|;
            x % 10 != 0 && ValueOf(n).significand == x * Pow10(k)
  {
    DigitsValid(n);
    hide TrimLeft, TrimRight, ToInt, Pow10, Digits, Valid;
    TrimmedValue(Digits(n));
    SignedScale(n.negative, ToInt(Core(n)), |TrimLeft(Digits(n))| - |Core(n)|);
    SignedOdd(n.negative, ToInt(Core(n)));
  }

  lemma SignedOdd(negative: bool, v: nat)
    requires v % 10 != 0
    ensures Signed(negative, v) % 10 != 0
  {
  }

  lemma TrimmedValue(all: string)
    requires AllDigits(all) && TrimLeft(all) != ""
    ensures var d := TrimLeft(all);
            ToInt(all) == ToInt(TrimRight(d)) * Pow10(|d| - |TrimRight(d)|) && ToInt(TrimRight(d)) % 10 != 0
  {
    TrimmedZero(all);
    TrimLeftValue(all);
    TrimRightValue(TrimLeft(all));
    TrimmedIsOdd(TrimRight(TrimLeft(all)));
  }

  lemma SignedScale(negative: bool, v: nat, k: nat)
    ensures Signed(negative, v * Pow10(k)) == Signed(negative, v) * Pow10(k)
  {
  }

  lemma CanonicalSpells(n: Number)
    requires Valid(n)
    ensures Canonical(Show(n)) == if IsZero(n) then "0" else Spell(n.negative, Core(n), CorePower(n))
  {
    CanonicalIs(n);
  }

  lemma SpelledIsNotZero(n: Number)
    requires Valid(n) && !IsZero(n)
    ensures Canonical(Show(n)) != "0"
  {
    CanonicalSpells(n);
    ZeroMeans(n);
    DigitsValid(n);
    SpellStart(n.negative, Core(n), CorePower(n));
    assert Unsigned(Core(n), CorePower(n))[0] == Core(n)[0];
  }

  /** On numbers that are not zero, the value is the trimmed significand and its power. */
  lemma CoresDecide(a: Number, b: Number)
    requires Valid(a) && Valid(b) && !IsZero(a) && !IsZero(b)
    ensures AllDigits(Core(a)) && AllDigits(Core(b))
    ensures SameValue(ValueOf(a), ValueOf(b)) <==>
            Signed(a.negative, ToInt(Core(a))) == Signed(b.negative, ToInt(Core(b))) && CorePower(a) == CorePower(b)
  {
    hide TrimLeft, TrimRight, ToInt, Pow10, ValueOf, Digits;
    CoreValue(a);
    CoreValue(b);
    var v, w := ValueOf(a), ValueOf(b);
    var low := Min(v.power, w.power);
    var x, y := Signed(a.negative, ToInt(Core(a))), Signed(b.negative, ToInt(Core(b)));
    ShiftValue(v.significand, x, |TrimLeft(Digits(a))| - |Core(a)|, v.power, low);
    ShiftValue(w.significand, y, |TrimLeft(Digits(b))| - |Core(b)|, w.power, low);
    if SameValue(v, w) { PowersAgree(x, CorePower(a), y, CorePower(b), low); }
  }

  lemma CoresInjective(a: Number, b: Number)
    requires Valid(a) && Valid(b) && !IsZero(a) && !IsZero(b) && AllDigits(Core(a)) && AllDigits(Core(b))
    requires Signed(a.negative, ToInt(Core(a))) == Signed(b.negative, ToInt(Core(b)))
    ensures a.negative == b.negative && Core(a) == Core(b)
  {
    CoreValue(a);
    CoreValue(b);
    ZeroMeans(a);
    ZeroMeans(b);
    ToIntInjective(Core(a), Core(b));
  }

  lemma ZeroEqualsZero(a: Value, b: Value)
    requires a.significand == 0
    ensures SameValue(a, b) <==> b.significand == 0
    ensures SameValue(b, a) <==> b.significand == 0
  {
    var low := Min(a.power, b.power);
    Pow10Positive(b.power - low);
    if b.significand != 0 { CancelApart(b.significand, 0, Pow10(b.power - low)); }
  }

  /** Two JSON numbers have the same canonical string exactly when they have the
      same decimal value, whatever the size of their exponents. */
  lemma CanonicalDecidesValue(a: Number, b: Number)
    requires Valid(a) && Valid(b)
    ensures Canonical(Show(a)) == Canonical(Show(b)) <==> SameValue(ValueOf(a), ValueOf(b))
  {
    CanonicalSpells(a);
    CanonicalSpells(b);
    ZeroMeans(a);
    ZeroMeans(b);
    if IsZero(a) {
      ZeroEqualsZero(ValueOf(a), ValueOf(b));
      if !IsZero(b) { SpelledIsNotZero(b); }
    } else if IsZero(b) {
      ZeroEqualsZero(ValueOf(b), ValueOf(a));
      SpelledIsNotZero(a);
    } else {
      CoresDecide(a, b);
      if Canonical(Show(a)) == Canonical(Show(b)) {
        SpellInjective(a.negative, Core(a), CorePower(a), b.negative, Core(b), CorePower(b));
      }
      if SameValue(ValueOf(a), ValueOf(b)) { CoresInjective(a, b); }
    }
  }

  /** The number a canonical string spells. */
  function CanonicalNumber(n: Number): Number
    requires Valid(n)
  {
    if IsZero(n) then Number(false, "0", NoFraction, NoExponent)
    else Number(n.negative, Core(n), NoFraction, PowerNumber(CorePower(n)))
  }

  function PowerNumber(p: int): Exponent {
    if p == 0 then NoExponent else Exponent(false, if p < 0 then Minus else NoSign, ShowNat(if p < 0 then -p else p))
  }

  lemma PowerNumberIs(p: int)
    ensures ExponentValue(PowerNumber(p)) == p
    ensures ShowExponent(PowerNumber(p)) == if p != 0 then ['e'] + ShowInt(p) else ""
  {
    ShowNatReads(if p < 0 then -p else p);
  }

  lemma SpelledNumberShows(negative: bool, t: string, p: int)
    ensures Show(Number(negative, t, NoFraction, PowerNumber(p))) == Spell(negative, t, p)
  {
    hide PowerNumber, ShowExponent, ShowInt;
    var sign, c := if negative then "-" else "", Number(negative, t, NoFraction, PowerNumber(p));
    PowerNumberIs(p);
    assert ShowMantissa(c) == sign + t;
    Associative(t, ['e'], ShowInt(p));
    Associative(sign, t, ['e'] + ShowInt(p));
  }

  lemma SpelledNumber(negative: bool, t: string, p: int)
    requires AllDigits(t) && t != "" && t[0] != '0'
    ensures var c := Number(negative, t, NoFraction, PowerNumber(p));
            Valid(c) && Show(c) == Spell(negative, t, p) && ValueOf(c) == Value(Signed(negative, ToInt(t)), p)
  {
    PowerNumberIs(p);
    SpelledNumberShows(negative, t, p);
    assert Digits(Number(negative, t, NoFraction, PowerNumber(p))) == t;
  }

  lemma ZeroNumber()
    ensures var c := Number(false, "0", NoFraction, NoExponent);
            Valid(c) && Show(c) == "0" && ValueOf(c) == Value(0, 0)
  {
    var c := Number(false, "0", NoFraction, NoExponent);
    assert Digits(c) == "0" && "0"[..0] == "";
  }

  lemma CanonicalNumberShows(n: Number)
    requires Valid(n)
    ensures Valid(CanonicalNumber(n)) && Show(CanonicalNumber(n)) == Canonical(Show(n))
  {
    CanonicalSpells(n);
    ZeroMeans(n);
    DigitsValid(n);
    if IsZero(n) { ZeroNumber(); } else { SpelledNumber(n.negative, Core(n), CorePower(n)); }
  }

  lemma CoreScaled(n: Number)
    requires Valid(n) && !IsZero(n)
    ensures AllDigits(Core(n)) && Core(n) != "" && Core(n)[0] != '0'
    ensures SameValue(Value(Signed(n.negative, ToInt(Core(n))), CorePower(n)), ValueOf(n))
  {
    hide ToInt, Pow10, SameValue, Digits;
    ZeroMeans(n);
    CoreValue(n);
    ScaledValue(ValueOf(n), Signed(n.negative, ToInt(Core(n))), CorePower(n) - ValueOf(n).power);
  }

  lemma CanonicalNumberValue(n: Number)
    requires Valid(n)
    ensures Valid(CanonicalNumber(n)) && SameValue(ValueOf(CanonicalNumber(n)), ValueOf(n))
  {
    hide ToInt, Pow10, ShowNat, SameValue, Digits;
    ZeroMeans(n);
    if IsZero(n) {
      ZeroNumber();
      ZeroEqualsZero(Value(0, 0), ValueOf(n));
    } else {
      CoreScaled(n);
      SpelledNumber(n.negative, Core(n), CorePower(n));
    }
  }

  lemma ScaledValue(v: Value, x: int, k: nat)
    requires v.significand == x * Pow10(k)
    ensures SameValue(Value(x, v.power + k), v)
  {
  }

  /** The canonical string is a JSON number of the same value, and its own canonical form. */
  lemma CanonicalIsIdempotent(n: Number)
    requires Valid(n)
    ensures Valid(CanonicalNumber(n)) && Show(CanonicalNumber(n)) == Canonical(Show(n))
    ensures SameValue(ValueOf(CanonicalNumber(n)), ValueOf(n))
    ensures Canonical(Canonical(Show(n))) == Canonical(Show(n))
  {
    CanonicalNumberShows(n);
    CanonicalNumberValue(n);
    CanonicalDecidesValue(CanonicalNumber(n), n);
  }
}
