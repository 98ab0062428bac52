/** Exact amounts: integers of cents, quantities in 1/10000, rates in 1/1000000.
    A decimal typed by a caller is an exact fraction, rounded once by ROUND_HALF_UP. */
module Money {

  datatype Option<+T> = None | Some(value: T)

  datatype Outcome<+T> = Ok(value: T) | Rejected

  const QUANTITY_SCALE := 10000
  const RATE_SCALE := 1000000

  /** `r` is the integer nearest to n/d; a tie is resolved away from zero. */
  ghost predicate NearestHalfUp(n: int, d: int, r: int) {
    && -d <= 2 * (r * d - n) <= d
    && (n >= 0 ==> 2 * (r * d - n) != -d)
    && (n < 0 ==> 2 * (r * d - n) != d)
  }

  function RoundHalfUp(n: int, d: int): int
    requires d > 0
  {
    if n >= 0 then (2 * n + d) / (2 * d) else -((d - 2 * n) / (2 * d))
  }

  lemma {:induction false} RoundNearest(n: int, d: int)
    requires d > 0
    ensures NearestHalfUp(n, d, RoundHalfUp(n, d))
  {
    var r := RoundHalfUp(n, d);
    if n >= 0 {
      assert r * d * 2 == r * (2 * d);
    } else {
      assert -r * d * 2 == -r * (2 * d);
    }
  }

  lemma {:induction false} NextMultiple(j: int, k: int, d: int)
    requires d > 0 && j < k
    ensures j * d + d <= k * d
  {
    var gap := k - j - 1;
    assert gap * d >= 0;
    assert k * d == j * d + gap * d + d;
  }

  /** The two readings of ROUND_HALF_UP, by nearness and by division, are one function. */
  lemma {:induction false} RoundingIsUnique(n: int, d: int, r: int)
    requires d > 0
    ensures r == RoundHalfUp(n, d) <==> NearestHalfUp(n, d, r)
  {
    var q := RoundHalfUp(n, d);
    RoundNearest(n, d);
    if r < q {
      NextMultiple(r, q, d);
    } else if r > q {
      NextMultiple(q, r, d);
    }
  }

  lemma {:induction false} RoundExact(k: int, d: int)
    requires d > 0
    ensures RoundHalfUp(k * d, d) == k
  {
    RoundingIsUnique(k * d, d, k);
  }

  /** An amount that fits under a whole number of units still fits after rounding. */
  lemma {:induction false} RoundAtMost(n: int, d: int, k: int)
    requires d > 0 && n <= k * d
    ensures RoundHalfUp(n, d) <= k
  {
    var r := RoundHalfUp(n, d);
    RoundNearest(n, d);
    if r > k {
      NextMultiple(k, r, d);
      RoundExact(k, d);
    }
  }

  lemma {:induction false} RoundNonNegative(n: int, d: int)
    requires d > 0 && n >= 0
    ensures RoundHalfUp(n, d) >= 0
  {
    var r := RoundHalfUp(n, d);
    RoundNearest(n, d);
    if r < 0 {
      NextMultiple(r, 0, d);
      assert false;
    }
  }

  lemma SplitWithinOne(a: int, b: int, d: int, x: int, y: int, z: int)
    requires d > 0
    requires NearestHalfUp(a, d, x) && NearestHalfUp(b, d, y) && NearestHalfUp(a + b, d, z)
    ensures -1 <= z - x - y <= 1
  {
    var e := z - x - y;
    assert e * d == z * d - x * d - y * d;
    if e > 1 {
      NextMultiple(1, e, d);
    } else if e < -1 {
      NextMultiple(e, -1, d);
    }
  }

  /** Rounding a sum and summing the roundings differ by at most one unit. */
  lemma {:induction false} RoundSplit(a: int, b: int, d: int)
    requires d > 0
    ensures -1 <= RoundHalfUp(a + b, d) - RoundHalfUp(a, d) - RoundHalfUp(b, d) <= 1
  {
    RoundNearest(a, d);
    RoundNearest(b, d);
    RoundNearest(a + b, d);
    SplitWithinOne(a, b, d, RoundHalfUp(a, d), RoundHalfUp(b, d), RoundHalfUp(a + b, d));
  }

  /** A whole number of units passes through the rounding. */
  lemma {:induction false} RoundShift(k: int, n: int, d: int)
    requires d > 0 && k >= 0 && n >= 0
    ensures RoundHalfUp(k * d + n, d) == k + RoundHalfUp(n, d)
  {
    var r := RoundHalfUp(n, d);
    RoundNearest(n, d);
    assert k * d >= 0;
    assert (k + r) * d == k * d + r * d;
    RoundingIsUnique(k * d + n, d, k + r);
  }

  /** A decimal sent by a client: the exact fraction num/den. */
  datatype Decimal = Decimal(num: int, den: int)

  type Exact = x: Decimal | x.den > 0 witness Decimal(0, 1)

  function Cents(x: Exact): int { RoundHalfUp(100 * x.num, x.den) }

  function Quantity(x: Exact): int { RoundHalfUp(QUANTITY_SCALE * x.num, x.den) }

  predicate WholeCents(x: Exact) { Cents(x) * x.den == 100 * x.num }

  /** What a client types is kept to the nearest cent, and a quantity to the nearest 1/10000. */
  lemma CentsNearest(x: Exact)
    ensures NearestHalfUp(100 * x.num, x.den, Cents(x))
    ensures forall c :: NearestHalfUp(100 * x.num, x.den, c) ==> c == Cents(x)
  {
    forall c | NearestHalfUp(100 * x.num, x.den, c) ensures c == Cents(x) {
      RoundingIsUnique(100 * x.num, x.den, c);
    }
    RoundNearest(100 * x.num, x.den);
  }

  lemma QuantityNearest(x: Exact)
    ensures NearestHalfUp(10000 * x.num, x.den, Quantity(x))
    ensures forall q :: NearestHalfUp(10000 * x.num, x.den, q) ==> q == Quantity(x)
  {
    forall q | NearestHalfUp(10000 * x.num, x.den, q) ensures q == Quantity(x) {
      RoundingIsUnique(10000 * x.num, x.den, q);
    }
    RoundNearest(10000 * x.num, x.den);
  }

  /** An amount is whole cents exactly when some number of cents equals it, and that is what it is kept as. */
  lemma WholeCentsExactly(x: Exact, c: int)
    ensures c * x.den == 100 * x.num <==> WholeCents(x) && c == Cents(x)
  {
    if c * x.den == 100 * x.num {
      RoundExact(c, x.den);
    }
  }

  function Sum<T>(xs: seq<T>, f: T -> int): int {
    if xs == [] then 0 else Sum(xs[..|xs| - 1], f) + f(xs[|xs| - 1])
  }
}
