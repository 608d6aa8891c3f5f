/** Consecutive intervals over a range of integers: what it means that a layout tiles the layers. */
module Tiling {

  /** The sum of the first n entries. */
  function Prefix(sizes: seq<int>, n: nat): int
    requires n <= |sizes|
  {
    if n == 0 then 0 else Prefix(sizes, n - 1) + sizes[n - 1]
  }

  predicate NonNegative(sizes: seq<int>) {
    forall i :: 0 <= i < |sizes| ==> sizes[i] >= 0
  }

  /** Item x lies in the i-th interval. */
  predicate Owns(sizes: seq<int>, i: int, x: int) {
    0 <= i < |sizes| && Prefix(sizes, i) <= x < Prefix(sizes, i) + sizes[i]
  }

  lemma {:induction false} PrefixMonotone(sizes: seq<int>, i: nat, j: nat)
    requires NonNegative(sizes) && i <= j <= |sizes|
    ensures Prefix(sizes, i) <= Prefix(sizes, j)
  {
    if i < j {
      PrefixMonotone(sizes, i, j - 1);
    }
  }

  /** The interval that holds x, searched from the front. */
  function Owner(sizes: seq<int>, n: nat, x: int): (i: nat)
    requires NonNegative(sizes) && n <= |sizes| && 0 <= x < Prefix(sizes, n)
    ensures i < n && Owns(sizes, i, x)
  {
    if x >= Prefix(sizes, n - 1) then n - 1 else Owner(sizes, n - 1, x)
  }

  /** Every item of the range is in exactly one interval, and nothing else is in any. */
  lemma TilesExactly(sizes: seq<int>, x: int)
    requires NonNegative(sizes)
    ensures 0 <= x < Prefix(sizes, |sizes|) <==> exists i :: Owns(sizes, i, x)
    ensures forall i, j :: Owns(sizes, i, x) && Owns(sizes, j, x) ==> i == j
  {
    if 0 <= x < Prefix(sizes, |sizes|) {
      var i := Owner(sizes, |sizes|, x);
      assert Owns(sizes, i, x);
    }
    forall i | Owns(sizes, i, x)
      ensures 0 <= x < Prefix(sizes, |sizes|)
    {
      PrefixMonotone(sizes, 0, i);
      PrefixMonotone(sizes, i + 1, |sizes|);
    }
    forall i, j | Owns(sizes, i, x) && Owns(sizes, j, x)
      ensures i == j
    {
      if i < j {
        PrefixMonotone(sizes, i + 1, j);
      } else if j < i {
        PrefixMonotone(sizes, j + 1, i);
      }
    }
  }

  function Scaled(sizes: seq<int>, k: nat): (r: seq<int>)
    ensures |r| == |sizes| && forall i :: 0 <= i < |sizes| ==> r[i] == sizes[i] * k
  {
    seq(|sizes|, i requires 0 <= i < |sizes| => sizes[i] * k)
  }

  lemma {:induction false} PrefixScaled(sizes: seq<int>, k: nat, n: nat)
    requires n <= |sizes|
    ensures Prefix(Scaled(sizes, k), n) == Prefix(sizes, n) * k
  {
    if n > 0 {
      PrefixScaled(sizes, k, n - 1);
      assert (Prefix(sizes, n - 1) + sizes[n - 1]) * k == Prefix(sizes, n - 1) * k + sizes[n - 1] * k;
    }
  }

  /** Item x is the k-th of the i-th interval. */
  predicate At(sizes: seq<int>, i: int, k: int, x: int) {
    0 <= i < |sizes| && 0 <= k < sizes[i] && x == Prefix(sizes, i) + k
  }

  /** Positions within intervals and items of the range correspond one to one. */
  lemma Corresponds(sizes: seq<int>, x: int)
    requires NonNegative(sizes)
    ensures 0 <= x < Prefix(sizes, |sizes|) <==> exists i, k :: At(sizes, i, k, x)
    ensures forall i, k, i', k' :: At(sizes, i, k, x) && At(sizes, i', k', x) ==> i == i' && k == k'
  {
    TilesExactly(sizes, x);
    if 0 <= x < Prefix(sizes, |sizes|) {
      var i :| Owns(sizes, i, x);
      assert At(sizes, i, x - Prefix(sizes, i), x);
    }
    forall i, k | At(sizes, i, k, x)
      ensures Owns(sizes, i, x)
    {
    }
  }
}
