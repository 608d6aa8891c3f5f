/** Python's slicing and indexing of lists. */
module PythonLists {
  import opened Options

  /** Where Python's slice bound i falls in a list of length n. */
  function Bound(i: int, n: nat): (k: nat)
    ensures k <= n
  {
    if i + n < 0 then 0 else if i < 0 then i + n else if i <= n then i else n
  }

  /** Python's `xs[lo:hi]`. */
  function PySlice<T>(xs: seq<T>, lo: int, hi: int): seq<T> {
    var a, b := Bound(lo, |xs|), Bound(hi, |xs|);
    if a <= b then xs[a..b] else []
  }

  lemma SliceInside<T>(xs: seq<T>, lo: nat, hi: nat)
    requires lo <= hi <= |xs|
    ensures PySlice(xs, lo, hi) == xs[lo..hi]
  {
  }

  /** Python's `xs[i]`, None where it raises IndexError. */
  function PyIndex<T>(xs: seq<T>, i: int): Option<T> {
    if 0 <= i < |xs| then Some(xs[i]) else if 0 <= i + |xs| < |xs| then Some(xs[i + |xs|]) else None
  }

  /** `xs[:n]` and `xs[n:]` for a count n. */
  function Take<T>(xs: seq<T>, n: nat): seq<T> {
    if n <= |xs| then xs[..n] else xs
  }

  function Drop<T>(xs: seq<T>, n: nat): seq<T> {
    if n <= |xs| then xs[n..] else []
  }
}
