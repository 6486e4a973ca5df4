/**
 * The one random computation the program performs, in two places:
 * `Math.floor(Math.random() * n)`.  `Math.random()` is abstracted as a
 * rational draw `k / d` with `0 <= k < d`, so the chosen index is
 * `floor(k * n / d)`.
 */
module RandomDraw {

  /** A value of `Math.random()`: the fraction `k / d`, which lies in [0, 1). */
  datatype Draw = Draw(k: nat, d: nat)

  ghost predicate ValidDraw(u: Draw) {
    u.k < u.d
  }

  /** `Math.floor(u * n)`: an index into a collection of `n` elements. */
  function ScaledIndex(u: Draw, n: nat): (i: nat)
    requires ValidDraw(u)
    ensures n == 0 ==> i == 0
    ensures n > 0 ==> i < n
  {
    (u.k * n) / u.d
  }

  lemma MulMonotone(a: nat, b: nat, n: nat)
    requires a <= b
    ensures a * n <= b * n
  {
  }

  /**
   * Every index below `n` is chosen by some draw, as long as the draw has at
   * least `n` distinct values: the selection can reach every element.
   */
  lemma EveryIndexReachable(n: nat, d: nat, j: nat)
    requires 0 < n <= d && j < n
    ensures exists k: nat :: k < d && ScaledIndex(Draw(k, d), n) == j
  {
    var k := (j * d + n - 1) / n;
    CeilingBounds(j * d, n, k);
    assert k < d by {
      CeilingBelowDraws(n, d, j, k);
    }
    FloorHits(k * n, d, j);
    assert ScaledIndex(Draw(k, d), n) == j;
  }

  /** `k` is the ceiling of `x / n`: `x <= k * n <= x + n - 1`. */
  lemma CeilingBounds(x: nat, n: nat, k: nat)
    requires n > 0 && k == (x + n - 1) / n
    ensures x <= k * n <= x + n - 1
  {
  }

  lemma CeilingBelowDraws(n: nat, d: nat, j: nat, k: nat)
    requires 0 < n <= d && j < n
    requires k * n <= j * d + n - 1
    ensures k < d
  {
    MulMonotone(j, n - 1, d);
    assert (n - 1) * d == n * d - d;
    if k >= d {
      MulMonotone(d, k, n);
    }
  }

  /** If `j * d <= x < (j + 1) * d` then `x / d == j`. */
  lemma FloorHits(x: nat, d: nat, j: nat)
    requires d > 0 && j * d <= x < (j + 1) * d
    ensures x / d == j
  {
    var q := x / d;
    assert x == d * q + x % d;
    if q < j {
      MulMonotone(q + 1, j, d);
    } else if q > j {
      MulMonotone(j + 1, q, d);
    }
  }
}
