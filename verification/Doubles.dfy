/** Round-to-nearest-even double arithmetic (section 4.3.1 of IEEE 754-2019) on reals, with an
    unbounded exponent: every value of this program lies far inside the normal range. */
module Doubles {

  function Pow2(e: int): (r: real)
    ensures r > 0.0
    decreases if e < 0 then -e else e
  {
    if e == 0 then 1.0 else if e > 0 then 2.0 * Pow2(e - 1) else Pow2(e + 1) / 2.0
  }

  /** The binary exponent of a positive real. */
  function Exponent(x: real): int
    requires x > 0.0
    decreases x < 1.0, if x < 1.0 then (1.0 / x).Floor else x.Floor
  {
    if x < 1.0 then
      HalvingDescends(1.0 / x);
      Exponent(2.0 * x) - 1
    else if x >= 2.0 then
      HalvingDescends(x);
      Exponent(x / 2.0) + 1
    else 0
  }

  lemma HalvingDescends(y: real)
    requires y > 1.0
    ensures 0 <= (y / 2.0).Floor && (y / 2.0).Floor < y.Floor
  {
  }

  /** Products of two unknowns are kept behind a name, and reasoned about by the lemmas below. */
  function Times(a: real, b: real): real { a * b }

  /** The nearest integer; a tie goes to the even one. */
  function NearestInt(x: real): int {
    var f := x.Floor;
    var d := x - f as real;
    if d < 0.5 then f else if d > 0.5 then f + 1 else if f % 2 == 0 then f else f + 1
  }

  function RoundPositive(x: real): real
    requires x > 0.0
  {
    var quantum := Pow2(Exponent(x) - 52);
    Times(NearestInt(x / quantum) as real, quantum)
  }

  function Round(x: real): real {
    if x > 0.0 then RoundPositive(x) else if x < 0.0 then -RoundPositive(-x) else 0.0
  }

  const TWO53: int := 0x20_0000_0000_0000

  function Scaled(m: int, e: int): real { Times(m as real, Pow2(e)) }

  /** A double: a 53-bit significand and a power of two. */
  ghost predicate IsDouble(y: real) {
    exists m: int, e: int :: -TWO53 <= m <= TWO53 && y == Scaled(m, e)
  }

  function Abs(x: real): real { if x < 0.0 then -x else x }

  function Ceil(x: real): int { -(-x).Floor }

  /* ---- Powers ---- */

  lemma Pow2Step(e: int)
    ensures Pow2(e + 1) == 2.0 * Pow2(e)
  {
  }

  lemma {:induction false} Pow2Grows(a: int, b: int)
    requires a <= b
    ensures Pow2(a) <= Pow2(b)
    decreases b - a
  {
    if a < b { Pow2Grows(a, b - 1); Pow2Step(b - 1); }
  }

  /** A coarser quantum is a whole number of finer ones. */
  lemma {:induction false} Pow2Multiple(a: int, b: int) returns (n: int)
    requires a <= b
    ensures n >= 1 && Pow2(b) == n as real * Pow2(a)
    decreases b - a
  {
    if a == b {
      n := 1;
    } else {
      var h := Pow2Multiple(a, b - 1);
      Pow2Step(b - 1);
      n := 2 * h;
    }
  }

  lemma {:induction false} Pow2Sum(a: int, n: nat)
    ensures Pow2(a + n) == Pow2(n) * Pow2(a)
  {
    if n > 0 {
      Pow2Sum(a, n - 1);
      Pow2Step(a + n - 1);
      Pow2Step(n - 1);
      hide Pow2;
      TwiceTimes(Pow2(n), Pow2(n - 1), Pow2(a));
    }
  }

  lemma TwiceTimes(x: real, y: real, z: real)
    requires x == 2.0 * y
    ensures x * z == 2.0 * (y * z)
  {
  }

  lemma Pow2At52()
    ensures Pow2(52) == 0x10_0000_0000_0000 as real
    ensures Pow2(53) == TWO53 as real
  {
    assert Pow2(13) == 8192.0;
    hide Pow2;
    Pow2Sum(13, 13);
    Pow2Sum(26, 26);
    Pow2Step(52);
  }

  lemma Pow2Plus52(a: int)
    ensures Pow2(a + 52) == Times(0x10_0000_0000_0000 as real, Pow2(a))
    ensures Pow2(a + 53) == Times(TWO53 as real, Pow2(a))
  {
    Pow2At52();
    Pow2Sum(a, 52);
    Pow2Sum(a, 53);
    hide Pow2;
    assert Times(Pow2(52), Pow2(a)) == Pow2(52) * Pow2(a);
    assert Times(Pow2(53), Pow2(a)) == Pow2(53) * Pow2(a);
  }

  lemma {:induction false} ExponentBounds(x: real)
    requires x > 0.0
    ensures Pow2(Exponent(x)) <= x < Pow2(Exponent(x) + 1)
    decreases x < 1.0, if x < 1.0 then (1.0 / x).Floor else x.Floor
  {
    if x < 1.0 {
      HalvingDescends(1.0 / x);
      ExponentBounds(2.0 * x);
      Pow2Step(Exponent(2.0 * x) - 1);
      Pow2Step(Exponent(2.0 * x));
    } else if x >= 2.0 {
      HalvingDescends(x);
      ExponentBounds(x / 2.0);
      Pow2Step(Exponent(x / 2.0));
      Pow2Step(Exponent(x / 2.0) + 1);
    }
  }

  /* ---- Rounding is nearest, exact on doubles, and monotone against them ---- */

  lemma NearestIntClose(x: real, n: int)
    ensures Abs(x - NearestInt(x) as real) <= Abs(x - n as real)
    ensures Abs(x - NearestInt(x) as real) <= 0.5
  {
    var f := x.Floor;
    assert NearestInt(x) == f || NearestInt(x) == f + 1;
    assert f as real <= x < f as real + 1.0;
    if n <= f { assert n as real <= f as real; } else { assert n as real >= f as real + 1.0; }
  }

  lemma TimesLe(a: real, b: real, q: real)
    requires a <= b && q >= 0.0
    ensures Times(a, q) <= Times(b, q)
  {
  }

  lemma TimesAbs(a: real, q: real)
    requires q > 0.0
    ensures Abs(Times(a, q)) == Times(Abs(a), q)
  {
    if a < 0.0 { TimesLe(a, 0.0, q); } else { TimesLe(0.0, a, q); }
  }

  lemma TimesDistance(y: real, n: real, q: real)
    requires q > 0.0
    ensures Abs(Times(y, q) - Times(n, q)) == Times(Abs(y - n), q)
  {
    TimesAbs(y - n, q);
    assert Times(y, q) - Times(n, q) == Times(y - n, q);
  }

  lemma DivTimes(x: real, q: real)
    requires q > 0.0
    ensures Times(x / q, q) == x && Times(0.5, q) == q / 2.0
  {
  }

  lemma TimesMultiple(m: int, n: int, q: real, p: real)
    requires p == n as real * q
    ensures Times(m as real, p) == Times((m * n) as real, q)
  {
    assert (m * n) as real == m as real * n as real;
  }

  /** No multiple of the quantum is closer than the rounded value. */
  lemma RoundPositiveClose(x: real, n: int)
    requires x > 0.0
    ensures var q := Pow2(Exponent(x) - 52);
      && Abs(x - Round(x)) <= Abs(x - Times(n as real, q))
      && Abs(x - Round(x)) <= q / 2.0
  {
    var q := Pow2(Exponent(x) - 52);
    var k := NearestInt(x / q);
    assert Round(x) == Times(k as real, q);
    NearestIntClose(x / q, n);
    DivTimes(x, q);
    TimesDistance(x / q, k as real, q);
    TimesDistance(x / q, n as real, q);
    TimesLe(Abs(x / q - k as real), Abs(x / q - n as real), q);
    TimesLe(Abs(x / q - k as real), 0.5, q);
    hide NearestInt, Abs, Times, Exponent, Pow2, Round;
  }

  /** A double with a finer quantum than `x` lies below the whole binade of `x`. */
  lemma FinerIsBelow(m: int, e: int, top: int)
    requires m <= TWO53 && e <= top - 53
    ensures Scaled(m, e) <= Pow2(top)
  {
    Pow2Grows(e, top - 53);
    Pow2Plus52(top - 53);
    TimesLe(m as real, TWO53 as real, Pow2(e));
    assert Times(TWO53 as real, Pow2(e)) <= Times(TWO53 as real, Pow2(top - 53));
  }

  lemma NearestOfMultiples(x: real, m: int, e: int)
    requires x > 0.0 && e >= Exponent(x) - 52
    ensures Abs(x - Round(x)) <= Abs(x - Scaled(m, e))
  {
    hide Exponent, Pow2, Round, Times, Abs;
    var q := Exponent(x) - 52;
    var n := Pow2Multiple(q, e);
    TimesMultiple(m, n, Pow2(q), Pow2(e));
    RoundPositiveClose(x, m * n);
  }

  /** No double is closer than the rounded value. */
  lemma NoneNearer(x: real, z: real)
    requires x > 0.0 && IsDouble(z)
    ensures Abs(x - Round(x)) <= Abs(x - z)
  {
    var m: int, e: int :| -TWO53 <= m <= TWO53 && z == Scaled(m, e);
    var top := Exponent(x);
    ExponentBounds(x);
    hide Exponent, Pow2, Round, Times;
    if e >= top - 52 {
      NearestOfMultiples(x, m, e);
    } else {
      FinerIsBelow(m, e, top);
      hide Scaled;
      Pow2Plus52(top - 52);
      RoundPositiveClose(x, 0x10_0000_0000_0000);
    }
  }

  /** The relative error is at most 2^-53. */
  lemma RoundError(x: real)
    requires x > 0.0
    ensures Abs(x - Round(x)) * TWO53 as real <= x
  {
    var top := Exponent(x);
    ExponentBounds(x);
    Pow2Plus52(top - 53);
    Pow2Step(top - 53);
    RoundPositiveClose(x, 0);
    hide Exponent, Pow2, Abs, Round;
  }

  lemma IntegersAreDoubles(n: int)
    requires -TWO53 <= n <= TWO53
    ensures IsDouble(n as real)
  {
    assert n as real == Scaled(n, 0);
  }

  lemma RoundDouble(x: real)
    requires x > 0.0 && IsDouble(x)
    ensures Round(x) == x
  {
    hide Round, IsDouble;
    NoneNearer(x, x);
  }

  lemma RoundAgainst(x: real, d: real)
    requires x > 0.0 && IsDouble(d)
    ensures x <= d ==> Round(x) <= d
    ensures d <= x ==> d <= Round(x)
  {
    hide Round, IsDouble;
    NoneNearer(x, d);
  }

  /** What rounding returns is itself a double. */
  lemma RoundIsDouble(x: real)
    requires x > 0.0
    ensures IsDouble(Round(x))
  {
    var top := Exponent(x);
    var q := Pow2(top - 52);
    var k := NearestInt(x / q);
    ExponentBounds(x);
    Pow2Plus52(top - 52);
    assert Pow2(top + 1) == Scaled(TWO53, top - 52);
    RoundAgainst(x, Pow2(top + 1));
    RoundSign(x);
    TimesCancel(k as real, TWO53 as real, q);
    TimesCancel(0.0, k as real, q);
    assert Round(x) == Scaled(k, top - 52);
  }

  /** Rounding returns a double, and no double is closer: the defining property of section 4.3.1. */
  lemma RoundIsNearest(x: real, z: real)
    requires x > 0.0 && IsDouble(z)
    ensures IsDouble(Round(x)) && Abs(x - Round(x)) <= Abs(x - z)
  {
    hide Round, IsDouble, Abs;
    RoundIsDouble(x);
    NoneNearer(x, z);
  }

  /** Integers up to 2^53 in size are exact. */
  lemma RoundInteger(n: int)
    requires -TWO53 <= n <= TWO53
    ensures Round(n as real) == n as real
  {
    hide IsDouble, RoundPositive;
    IntegersAreDoubles(n);
    IntegersAreDoubles(-n);
    if n > 0 { RoundDouble(n as real); }
    if n < 0 {
      RoundDouble((-n) as real);
      assert (-n) as real == -(n as real);
    }
  }

  lemma TimesLt(a: real, b: real, q: real)
    requires a < b && q > 0.0
    ensures Times(a, q) < Times(b, q)
  {
  }

  lemma TimesCancel(a: real, b: real, q: real)
    requires q > 0.0 && Times(a, q) <= Times(b, q)
    ensures a <= b
  {
    if b < a { TimesLt(b, a, q); }
  }

  lemma RoundSign(x: real)
    ensures Round(x) < 0.0 <==> x < 0.0
    ensures x > 0.0 ==> Round(x) > 0.0
  {
    if x > 0.0 { RoundStaysPositive(x); } else if x < 0.0 { RoundStaysPositive(-x); }
  }

  lemma RoundStaysPositive(x: real)
    requires x > 0.0
    ensures RoundPositive(x) > 0.0
  {
    RoundError(x);
    hide RoundPositive;
    assert Round(x) == RoundPositive(x);
  }

  /** `Number(total) + amount > Number(billed)` is right even when the double sum passes 2^53. */
  lemma SumComparisonExact(a: int, b: int, c: int)
    requires 0 <= a && 0 < b && 0 <= c < TWO53
    ensures Round((a + b) as real) > c as real <==> a + b > c
  {
    hide Round, IsDouble;
    IntegersAreDoubles(c);
    IntegersAreDoubles(TWO53);
    RoundAgainst((a + b) as real, c as real);
    RoundAgainst((a + b) as real, TWO53 as real);
    if a + b <= TWO53 {
      IntegersAreDoubles(a + b);
      RoundDouble((a + b) as real);
    }
  }
}
