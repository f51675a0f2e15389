/** Decimal digit strings and the integers they denote. */
module Decimal {
  function Pow10(n: nat): nat { if n == 0 then 1 else 10 * Pow10(n - 1) }

  lemma {:induction false} Pow10Positive(n: nat)
    ensures Pow10(n) >= 1
  {
    if n > 0 { Pow10Positive(n - 1); }
  }

  lemma {:induction false} Pow10Sum(a: nat, b: nat)
    ensures Pow10(a + b) == Pow10(a) * Pow10(b)
  {
    if a > 0 {
      Pow10Sum(a - 1, b);
      assert Pow10(a + b) == 10 * (Pow10(a - 1) * Pow10(b)) == (10 * Pow10(a - 1)) * Pow10(b);
    }
  }

  predicate IsDigit(c: char) { '0' <= c <= '9' }

  function DigitValue(c: char): nat
    requires IsDigit(c)
  {
    c as int - '0' as int
  }

  predicate AllDigits(s: string) { forall i :: 0 <= i < |s| ==> IsDigit(s[i]) }

  function ToInt(s: string): nat
    requires AllDigits(s)
  {
    if s == "" then 0 else 10 * ToInt(s[..|s| - 1]) + DigitValue(s[|s| - 1])
  }

  lemma {:induction false} ToIntJoin(a: string, b: string)
    requires AllDigits(a) && AllDigits(b)
    ensures AllDigits(a + b) && ToInt(a + b) == ToInt(a) * Pow10(|b|) + ToInt(b)
    decreases |b|
  {
    if b == "" {
      assert a + b == a;
    } else {
      var init := b[..|b| - 1];
      ToIntJoin(a, init);
      assert (a + b)[..|a + b| - 1] == a + init;
      assert 10 * (ToInt(a) * Pow10(|init|)) == ToInt(a) * Pow10(|b|);
    }
  }

  lemma {:induction false} ToIntBelow(s: string)
    requires AllDigits(s)
    ensures ToInt(s) < Pow10(|s|)
  {
    if s != "" { ToIntBelow(s[..|s| - 1]); }
  }

  lemma {:induction false} ToIntAbove(s: string)
    requires AllDigits(s) && s != "" && s[0] != '0'
    ensures ToInt(s) >= Pow10(|s| - 1)
  {
    if |s| > 1 { ToIntAbove(s[..|s| - 1]); }
  }

  lemma {:induction false} Pow10Increases(a: nat, b: nat)
    requires a <= b
    ensures Pow10(a) <= Pow10(b)
  {
    if a < b {
      Pow10Increases(a, b - 1);
      Pow10Positive(b - 1);
    }
  }

  lemma {:induction false} SameLengthInjective(a: string, b: string)
    requires AllDigits(a) && AllDigits(b) && |a| == |b| && ToInt(a) == ToInt(b)
    ensures a == b
  {
    if a != "" {
      var x, y := DigitValue(a[|a| - 1]), DigitValue(b[|b| - 1]);
      var u, v := ToInt(a[..|a| - 1]), ToInt(b[..|b| - 1]);
      assert 10 * u + x == 10 * v + y;
      assert x == y && u == v;
      SameLengthInjective(a[..|a| - 1], b[..|b| - 1]);
      assert a == a[..|a| - 1] + [a[|a| - 1]] && b == b[..|b| - 1] + [b[|b| - 1]];
    }
  }

  lemma LongerIsLarger(a: string, b: string)
    requires AllDigits(a) && AllDigits(b) && |a| < |b| && b[0] != '0'
    ensures ToInt(a) < ToInt(b)
  {
    ToIntBelow(a);
    ToIntAbove(b);
    Pow10Increases(|a|, |b| - 1);
  }

  /** Without leading zeros a digit string is determined by its value. */
  lemma ToIntInjective(a: string, b: string)
    requires AllDigits(a) && AllDigits(b) && a != "" && b != "" && a[0] != '0' && b[0] != '0' && ToInt(a) == ToInt(b)
    ensures a == b
  {
    if |a| < |b| { LongerIsLarger(a, b); }
    if |b| < |a| { LongerIsLarger(b, a); }
    SameLengthInjective(a, b);
  }

  // ---- printing ----

  function DigitChar(d: nat): char
    requires d < 10
  {
    ('0' as int + d) as char
  }

  function ShowNat(n: nat): (s: string)
    ensures s != "" && AllDigits(s)
  {
    if n < 10 then [DigitChar(n)] else ShowNat(n / 10) + [DigitChar(n % 10)]
  }

  lemma {:induction false} ShowNatReads(n: nat)
    ensures ToInt(ShowNat(n)) == n && (n > 0 ==> ShowNat(n)[0] != '0')
  {
    if n >= 10 {
      ShowNatReads(n / 10);
      var s := ShowNat(n);
      assert s[..|s| - 1] == ShowNat(n / 10);
    } else {
      assert ShowNat(n)[..0] == "";
    }
  }

  /** big.Int.String. */
  function ShowInt(n: int): string { if n < 0 then "-" + ShowNat(-n) else ShowNat(n) }

  lemma ShowIntInjective(a: int, b: int)
    requires ShowInt(a) == ShowInt(b)
    ensures a == b
  {
    ShowNatReads(if a < 0 then -a else a);
    ShowNatReads(if b < 0 then -b else b);
    if a < 0 { assert ShowInt(a)[0] == '-' && ShowInt(a)[1..] == ShowNat(-a); }
    if b < 0 { assert ShowInt(b)[0] == '-' && ShowInt(b)[1..] == ShowNat(-b); }
    if a >= 0 { assert IsDigit(ShowInt(a)[0]); }
    if b >= 0 { assert IsDigit(ShowInt(b)[0]); }
  }

  // ---- strings.TrimLeft and strings.TrimRight of zeros ----

  function TrimLeft(s: string): (t: string)
    ensures t == "" || t[0] != '0'
    ensures AllDigits(s) ==> AllDigits(t)
  {
    if s != "" && s[0] == '0' then TrimLeft(s[1..]) else s
  }

  function TrimRight(s: string): (t: string)
    ensures |t| <= |s| && (t == "" || t[|t| - 1] != '0') && t <= s
    ensures AllDigits(s) ==> AllDigits(t)
  {
    if s != "" && s[|s| - 1] == '0' then TrimRight(s[..|s| - 1]) else s
  }

  lemma {:induction false} TrimLeftValue(s: string)
    requires AllDigits(s)
    ensures ToInt(TrimLeft(s)) == ToInt(s)
  {
    if s != "" && s[0] == '0' {
      TrimLeftValue(s[1..]);
      ToIntJoin("0", s[1..]);
      assert s == "0" + s[1..];
      assert "0"[..0] == "";
    }
  }

  lemma {:induction false} TrimRightValue(s: string)
    requires AllDigits(s)
    ensures ToInt(s) == ToInt(TrimRight(s)) * Pow10(|s| - |TrimRight(s)|)
  {
    if s != "" && s[|s| - 1] == '0' {
      var init := s[..|s| - 1];
      TrimRightValue(init);
      var k, v := |init| - |TrimRight(init)|, ToInt(TrimRight(init));
      assert 10 * (v * Pow10(k)) == v * Pow10(k + 1);
    }
  }

  /** A trimmed non-empty string is nonzero and not divisible by ten. */
  lemma TrimmedIsOdd(t: string)
    requires AllDigits(t) && t != "" && t[|t| - 1] != '0'
    ensures ToInt(t) % 10 != 0
  {
    LastDigit(ToInt(t[..|t| - 1]), DigitValue(t[|t| - 1]));
  }

  lemma LastDigit(a: nat, d: nat)
    requires d < 10
    ensures (10 * a + d) % 10 == d
  {
  }

  lemma TrimmedZero(s: string)
    requires AllDigits(s)
    ensures TrimLeft(s) == "" <==> ToInt(s) == 0
    ensures TrimLeft(s) != "" ==> TrimRight(TrimLeft(s)) != "" && TrimRight(TrimLeft(s))[0] != '0'
  {
    TrimLeftValue(s);
    var t := TrimLeft(s);
    if t != "" {
      ToIntAbove(t);
      Pow10Positive(|t| - 1);
      TrimRightValue(t);
    }
  }
}
