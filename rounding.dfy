/** Integer model of Python 3's built-in round() applied to a quotient. */
module Rounding {

  /** True when the distance from a/b to n is exactly one half (a tie). */
  predicate IsTie(a: int, b: int, n: int)
  {
    2 * (a - n * b) == b || 2 * (a - n * b) == -b
  }

  /** round(a / b) for b > 0: the integer nearest to a/b, ties going to
      the even neighbour (Python 3 rounds half to even). */
  function RoundHalfEven(a: int, b: int): (n: int)
    requires b > 0
    ensures -b <= 2 * (a - n * b) <= b
    ensures IsTie(a, b, n) ==> n % 2 == 0
  {
    var q, r := a / b, a % b;
    assert a - (q + 1) * b == r - b;
    if 2 * r < b then q
    else if 2 * r > b then q + 1
    else if q % 2 == 0 then q else q + 1
  }

  /** The two properties above pin the rounding down: any integer within
      half of a/b that is even on a tie is RoundHalfEven(a, b). */
  lemma RoundHalfEvenUnique(a: int, b: int, n: int)
    requires b > 0
    requires -b <= 2 * (a - n * b) <= b
    requires IsTie(a, b, n) ==> n % 2 == 0
    ensures n == RoundHalfEven(a, b)
  {
    NearestEvenUnique(a, b, n, RoundHalfEven(a, b));
  }

  /** Two integers that are both within half of a/b and both even on a tie
      are equal: if they differed, they would be neighbours a whole b apart,
      so both would be ties and one of them odd. */
  lemma NearestEvenUnique(a: int, b: int, n: int, m: int)
    requires b > 0
    requires -b <= 2 * (a - n * b) <= b && (IsTie(a, b, n) ==> n % 2 == 0)
    requires -b <= 2 * (a - m * b) <= b && (IsTie(a, b, m) ==> m % 2 == 0)
    ensures n == m
  {
    var e, f, p := a - n * b, a - m * b, (n - m) * b;
    assert f - e == p by { Distance(a, b, n, m); }
    SmallFactor(n - m, b);
    NeighboursBothTies(b, e, f, n, m, p);
  }

  /** Moving from m to n shifts the remainder by (n - m) * b. */
  lemma Distance(a: int, b: int, n: int, m: int)
    ensures (a - m * b) - (a - n * b) == (n - m) * b
  {
  }

  /** The linear core: with remainders e and f of n and m in [-b/2, b/2]
      and f - e the product p of their distance and b, neighbours would
      both be ties, and two ties one apart cannot both be even. */
  lemma NeighboursBothTies(b: int, e: int, f: int, n: int, m: int, p: int)
    requires b > 0 && -b <= 2 * e <= b && -b <= 2 * f <= b
    requires (2 * e == b || 2 * e == -b) ==> n % 2 == 0
    requires (2 * f == b || 2 * f == -b) ==> m % 2 == 0
    requires f - e == p && -1 <= n - m <= 1
    requires p == (if n - m == 1 then b else if n - m == -1 then -b else 0)
    ensures n == m
  {
  }

  /** A multiple d*b lying within [-b, b] is -b, 0 or b. */
  lemma SmallFactor(d: int, b: int)
    requires b > 0
    requires -b <= d * b <= b
    ensures d * b == (if d == 1 then b else if d == -1 then -b else 0)
    ensures -1 <= d <= 1
  {
  }
}
