/** Transfers of a buffer that land piece by piece, in any order. */
module Transfers {

  /** The offsets from lo up to hi. */
  function Range(lo: nat, hi: nat): (r: set<nat>)
    ensures forall i :: i in r <==> lo <= i < hi
    ensures lo <= hi ==> |r| == hi - lo
    decreases hi
  {
    if hi <= lo then {} else Range(lo, hi - 1) + {hi - 1}
  }

  /** A buffer after a range of the source's bytes has landed in it. */
  function Land<T>(dst: seq<T>, src: seq<T>, lo: nat, hi: nat): (r: seq<T>)
    requires lo <= hi <= |dst| && hi <= |src|
    ensures |r| == |dst|
    ensures forall i :: 0 <= i < |dst| ==> r[i] == if lo <= i < hi then src[i] else dst[i]
  {
    dst[..lo] + src[lo..hi] + dst[hi..]
  }

  /** Everywhere but at the missing offsets the buffer has the source's bytes. */
  predicate Arrived<T(==)>(dst: seq<T>, src: seq<T>, missing: set<nat>) {
    forall i :: 0 <= i < |dst| && i !in missing ==> i < |src| && dst[i] == src[i]
  }

  lemma LandArrives<T>(dst: seq<T>, src: seq<T>, missing: set<nat>, lo: nat, hi: nat)
    requires Arrived(dst, src, missing) && lo <= hi <= |dst| && hi <= |src|
    ensures Arrived(Land(dst, src, lo, hi), src, missing - Range(lo, hi))
  {
    hide Land;
  }

  /** Once nothing is missing the buffer is the source. */
  lemma ArrivedAll<T>(dst: seq<T>, src: seq<T>)
    requires Arrived(dst, src, {}) && |dst| == |src|
    ensures dst == src
  {
  }

  lemma FewerMissing(missing: set<nat>, lo: nat, hi: nat)
    requires missing * Range(lo, hi) != {}
    ensures |missing - Range(lo, hi)| < |missing|
  {
    assert missing == (missing - Range(lo, hi)) + (missing * Range(lo, hi));
  }
}
