/** Metered pricing: `Math.ceil(units / unitSize) * creditsPerUnit` on doubles, with its guard. */
module Pricing {
  import opened Options
  import opened Ledger
  import opened Doubles

  const MAX_SAFE_INTEGER: int := TWO53 - 1

  predicate IsSafeInteger(x: real) {
    x.Floor as real == x && -MAX_SAFE_INTEGER as real <= x <= MAX_SAFE_INTEGER as real
  }

  predicate Accepts(amount: real) { IsSafeInteger(amount) && amount <= MAX_CREDITS as real }

  function Quotient(a: int, b: int): real
    requires b != 0
  {
    a as real / b as real
  }

  function Product(a: int, b: int): real { a as real * b as real }

  lemma ProductExact(a: int, b: int)
    ensures Product(a, b) == (a * b) as real
  {
    assert (a * b) as real == a as real * b as real;
  }

  /** The charge the service computes, or nothing when its range guard throws. */
  function Price(units: int, unitSize: int, creditsPerUnit: int): Option<int>
    requires 1 <= units && 1 <= unitSize && 1 <= creditsPerUnit
  {
    var amount := Round(Product(Ceil(Round(Quotient(units, unitSize))), creditsPerUnit));
    if Accepts(amount) then Some(amount.Floor) else None
  }

  function CeilDiv(units: int, unitSize: int): int
    requires 1 <= unitSize
  {
    (units + unitSize - 1) / unitSize
  }

  /** An inexact quotient of two integers is at least one part in the divisor above its floor. */
  lemma QuotientGap(u: int, s: int)
    requires 1 <= u && 1 <= s
    ensures var n := u / s;
      && n as real <= u as real / s as real < (n + 1) as real
      && (u % s == 0 ==> u as real / s as real == n as real)
      && (u % s != 0 ==> u as real / s as real - n as real >= 1.0 / s as real)
  {
    var n, r := u / s, u % s;
    assert u == n * s + r;
    assert u as real == n as real * s as real + r as real;
    assert u as real / s as real == n as real + r as real / s as real;
    RatioLe(1.0, r as real, s as real);
    RatioLt(r as real, s as real);
  }

  lemma RatioLe(a: real, b: real, s: real)
    requires s > 0.0
    ensures a <= b ==> a / s <= b / s
    ensures 0.0 <= b ==> 0.0 <= b / s
  {
  }

  lemma RatioLt(r: real, s: real)
    requires 0.0 <= r < s
    ensures r / s < 1.0
  {
  }

  /** Rounding a quotient never moves it onto or across the integer below it. */
  lemma RoundedQuotientAboveFloor(u: int, s: int)
    requires 1 <= u < TWO53 && 1 <= s < TWO53 && u % s != 0
    ensures (u / s) as real < Round(u as real / s as real)
  {
    var x, n := u as real / s as real, u / s;
    QuotientGap(u, s);
    RoundError(x);
    if Round(x) <= n as real {
      assert Abs(x - Round(x)) >= 1.0 / s as real;
      hide Round, Abs;
      ErrorTooLarge(u as real, s as real, Abs(x - Round(x)));
    }
  }

  lemma ErrorTooLarge(u: real, s: real, d: real)
    requires s > 0.0 && d >= 1.0 / s && d * TWO53 as real <= u / s
    ensures TWO53 as real <= u
  {
    assert 1.0 / s * s == 1.0 && u / s * s == u;
    assert TWO53 as real * (1.0 / s) <= u / s;
    assert TWO53 as real * (1.0 / s) * s <= u / s * s;
  }

  /** `Math.ceil` of the double quotient is exact integer ceiling division. */
  lemma CeilOfQuotientExact(u: int, s: int)
    requires 1 <= u < TWO53 && 1 <= s < TWO53
    ensures Ceil(Round(Quotient(u, s))) == CeilDiv(u, s)
  {
    var x, n := u as real / s as real, u / s;
    QuotientGap(u, s);
    CeilDivCases(u, s);
    IntegersAreDoubles(n);
    IntegersAreDoubles(n + 1);
    if u % s == 0 {
      RoundDouble(x);
    } else {
      RoundAgainst(x, (n + 1) as real);
      RoundedQuotientAboveFloor(u, s);
    }
  }

  lemma CeilDivCases(u: int, s: int)
    requires 1 <= u < TWO53 && 1 <= s
    ensures CeilDiv(u, s) == if u % s == 0 then u / s else u / s + 1
    ensures 0 <= u / s < TWO53 && 1 <= CeilDiv(u, s) <= TWO53
  {
    var n, r := u / s, u % s;
    DivFacts(u, s);
    if r == 0 {
      DivUnique(u + s - 1, s, n, s - 1);
    } else {
      DivUnique(u + s - 1, s, n + 1, r - 1);
    }
  }

  lemma DivFacts(u: int, s: int)
    requires 1 <= u && 1 <= s
    ensures u == (u / s) * s + u % s && 0 <= u / s <= u && (u / s == 0 ==> u % s == u)
  {
    assert u == (u / s) * s + u % s;
    if u / s > u { MulLe(1, s, u / s); }
  }

  lemma DivUnique(a: int, s: int, n: int, r: int)
    requires s >= 1 && a == n * s + r && 0 <= r < s
    ensures a / s == n
  {
    var q, t := a / s, a % s;
    assert a == q * s + t && 0 <= t < s;
    assert (q - n) * s == r - t;
    if q > n { MulLe(1, q - n, s); } else if q < n { MulLe(1, n - q, s); }
  }

  /** The price is the exact product whenever the exact product is within range, and is refused
      exactly when it is not: no rounding of quotient or product is ever visible. */
  lemma PriceExact(units: int, unitSize: int, creditsPerUnit: int)
    requires 1 <= units < TWO53 && 1 <= unitSize < TWO53 && 1 <= creditsPerUnit
    ensures var exact := CeilDiv(units, unitSize) * creditsPerUnit;
      Price(units, unitSize, creditsPerUnit) == if exact <= MAX_CREDITS then Some(exact) else None
  {
    var c := CeilDiv(units, unitSize);
    CeilOfQuotientExact(units, unitSize);
    CeilDivCases(units, unitSize);
    MulLe(1, c, creditsPerUnit);
    ProductExact(c, creditsPerUnit);
    hide CeilDiv, Round, Ceil, Quotient, Product;
    GuardExact(c * creditsPerUnit);
  }

  /** The guard sees through the rounding of the product. */
  lemma GuardExact(exact: int)
    requires exact >= 1
    ensures Accepts(Round(exact as real)) <==> exact <= MAX_CREDITS
    ensures exact <= MAX_CREDITS ==> Round(exact as real) == exact as real
  {
    hide Round, IsDouble;
    IntegersAreDoubles(TWO53);
    if exact <= TWO53 {
      IntegersAreDoubles(exact);
      RoundDouble(exact as real);
    } else {
      RoundAgainst(exact as real, TWO53 as real);
    }
  }

  /** Every price the service can charge is one the ledger takes, under the limits of the rate
      table and the request. */
  lemma PriceIsCredits(units: int, unitSize: int, creditsPerUnit: int)
    requires 1 <= units < TWO53 && 1 <= unitSize < TWO53 && 1 <= creditsPerUnit
    ensures Price(units, unitSize, creditsPerUnit).Some? ==>
      var amount := Price(units, unitSize, creditsPerUnit).value;
      && 1 <= amount <= MAX_CREDITS
      && (amount - creditsPerUnit) * unitSize < units * creditsPerUnit <= amount * unitSize
  {
    PriceExact(units, unitSize, creditsPerUnit);
    var c := CeilDiv(units, unitSize);
    CeilIsBracketed(units, unitSize);
    hide Price, CeilDiv;
    ScaleBracket(units, unitSize, c, creditsPerUnit);
    MulLe(1, c, creditsPerUnit);
  }

  lemma CeilIsBracketed(u: int, s: int)
    requires 1 <= u < TWO53 && 1 <= s
    ensures (CeilDiv(u, s) - 1) * s < u <= CeilDiv(u, s) * s && CeilDiv(u, s) >= 1
  {
    CeilDivCases(u, s);
    hide CeilDiv;
    CeilBracket(u, s, CeilDiv(u, s));
  }

  lemma CeilBracket(u: int, s: int, c: int)
    requires 1 <= u && 1 <= s && c == if u % s == 0 then u / s else u / s + 1
    ensures (c - 1) * s < u <= c * s
  {
    assert u == (u / s) * s + u % s;
  }

  lemma ScaleBracket(u: int, s: int, c: int, p: int)
    requires 1 <= p && (c - 1) * s < u <= c * s
    ensures (c * p - p) * s < u * p <= c * p * s
  {
    assert (c * p - p) * s == (c - 1) * s * p;
    assert c * p * s == c * s * p;
    MulLt((c - 1) * s, u, p);
    MulLe(u, c * s, p);
  }

  lemma MulLt(a: int, b: int, p: int) requires a < b && 1 <= p ensures a * p < b * p {}

  lemma MulLe(a: int, b: int, p: int) requires a <= b && 1 <= p ensures a * p <= b * p {}
}
