/** Cutting a list into nearly equal parts, as `np.array_split` does. */
module ArraySplit {

  /** Where the i-th of k nearly equal parts of n items starts: the first parts get one more. */
  function PartStart(n: nat, k: nat, i: nat): nat
    requires k > 0
  {
    i * (n / k) + if i < n % k then i else n % k
  }

  lemma PartsAreNearlyEqual(n: nat, k: nat, i: nat)
    requires k > 0 && i < k
    ensures PartStart(n, k, i + 1) - PartStart(n, k, i) == n / k + if i < n % k then 1 else 0
    ensures PartStart(n, k, 0) == 0 && PartStart(n, k, k) == n
  {
    assert (i + 1) * (n / k) == i * (n / k) + n / k;
    assert k * (n / k) + n % k == n;
  }

  lemma {:induction false} PartsInOrder(n: nat, k: nat, i: nat, j: nat)
    requires k > 0 && i <= j <= k
    ensures PartStart(n, k, i) <= PartStart(n, k, j) <= n
    decreases j - i, k - j
  {
    hide PartStart;
    if i < j {
      PartsInOrder(n, k, i, j - 1);
      PartsAreNearlyEqual(n, k, j - 1);
    }
    if j < k {
      PartEnd(n, k, j);
    } else {
      PartsAreNearlyEqual(n, k, k - 1);
    }
  }

  lemma {:induction false} PartEnd(n: nat, k: nat, j: nat)
    requires k > 0 && j <= k
    ensures PartStart(n, k, j) <= n
    decreases k - j
  {
    hide PartStart;
    if j < k {
      PartsAreNearlyEqual(n, k, j);
      PartEnd(n, k, j + 1);
    } else {
      PartsAreNearlyEqual(n, k, k - 1);
    }
  }
}
