/** Decimal amounts on the integer grids the services use: prices in whole paise, quantities
    in thousandths of a unit, and `quantize` as rounding half to even. */
module Money {
  type Paise = nat
  type Price = p: Paise | p > 0 witness 1  // what a quote or a proposal can ask for a unit
  type Milli = nat  // thousandths of a unit

  const ONE_UNIT: Milli := 1000

  function Min(a: nat, b: nat): nat { if a <= b then a else b }
  function Max(a: nat, b: nat): nat { if a <= b then b else a }

  /** r is a nearest integer to n / d, and the even one of two equally near ones. */
  ghost predicate IsNearestEven(n: int, d: int, r: int)
  {
    && -d <= 2 * (n - r * d) <= d
    && (2 * (n - r * d) == d || 2 * (n - r * d) == -d ==> r % 2 == 0)
  }

  /** Decimal's default rounding of n / d to a whole number. */
  function RoundHalfEven(n: nat, d: nat): (r: nat)
    requires d > 0
  {
    var low, rest := n / d, n % d;
    if 2 * rest < d || (2 * rest == d && low % 2 == 0) then low else low + 1
  }

  lemma RoundIsNearestEven(n: nat, d: nat)
    requires d > 0
    ensures IsNearestEven(n, d, RoundHalfEven(n, d))
  {
    var low, rest := n / d, n % d;
    assert n == low * d + rest;
    assert (low + 1) * d == low * d + d;
  }

  lemma NearestEvenIsOrdered(n: int, d: int, r: int, s: int)
    requires d > 0 && IsNearestEven(n, d, r) && IsNearestEven(n, d, s)
    ensures s <= r
  {
    var k := s - r;
    assert s * d == (r + k) * d == r * d + k * d;
    assert k >= 2 ==> k * d >= 2 * d;
    assert k == 1 ==> k * d == d;
  }

  /** IsNearestEven pins the result down: nothing else satisfies it. */
  lemma NearestEvenIsUnique(n: nat, d: nat, r: int)
    requires d > 0 && IsNearestEven(n, d, r)
    ensures r == RoundHalfEven(n, d)
  {
    RoundIsNearestEven(n, d);
    NearestEvenIsOrdered(n, d, r, RoundHalfEven(n, d));
    NearestEvenIsOrdered(n, d, RoundHalfEven(n, d), r);
  }
}
