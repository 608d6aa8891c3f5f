/** Shared integer functions, and small facts about multiplication and floor division. */
module Arithmetic {

  function Min(a: int, b: int): int {
    if b < a then b else a
  }

  /** The number of elements of a tensor of this shape. */
  function Numel(shape: seq<nat>): nat {
    if shape == [] then 1 else shape[0] * Numel(shape[1..])
  }

  lemma MulPos(k: int, d: int)
    requires d > 0 && k >= 1
    ensures k * d >= d
  {
    assert k * d == (k - 1) * d + d;
  }

  lemma Times(h: int, k: int, m: int)
    requires k >= 0 && m <= h
    ensures m * k <= h * k
  {
  }

  lemma QuotientOrder(d: int, q: int, r: int, q': int, r': int)
    requires d > 0 && 0 <= r < d && 0 <= r' < d && q < q'
    ensures q * d + r < d * q' + r'
  {
    MulPos(q' - q, d);
    assert (q' - q) * d == d * q' - q * d;
  }

  lemma QuotientUnique(d: int, q: int, r: int, q': int, r': int)
    requires d > 0 && 0 <= r < d && 0 <= r' < d && q * d + r == d * q' + r'
    ensures q == q' && r == r'
  {
    if q < q' {
      QuotientOrder(d, q, r, q', r');
    } else if q' < q {
      QuotientOrder(d, q', r', q, r);
    }
  }

  lemma PositiveFactor(c: int, d: int)
    requires c * d > 0 && d > 0
    ensures c > 0
  {
  }

  lemma DivModIs(n: int, d: int, q: int, r: int)
    requires d > 0 && 0 <= r < d && n == q * d + r
    ensures n / d == q && n % d == r
  {
    assert n == d * (n / d) + n % d && 0 <= n % d < d;
    QuotientUnique(d, q, r, n / d, n % d);
  }

  lemma Whole(a: int, b: int)
    requires b > 0 && a % b == 0
    ensures a == a / b * b
  {
  }

  lemma Cancel(k: int, b: int)
    requires b > 0
    ensures k * b / b == k && k * b % b == 0
  {
    DivModIs(k * b, b, k, 0);
  }

  lemma Reorder(a: int, b: int, c: int)
    ensures a * b * c == c * b * a && a * b * c == a * c * b
  {
  }

  lemma Distribute(s: int, k: int, r: int, q: int)
    ensures s * (k * q) + r * q == (s * k + r) * q
  {
  }

  lemma RoundUp(n: int, d: int)
    requires d >= 1
    ensures n <= (n + d - 1) / d * d < n + d
  {
    var a := n + d - 1;
    assert a == d * (a / d) + a % d;
  }
}
