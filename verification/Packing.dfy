/** Packing a stream of named weights into fixed-size buckets, as the NIXL and NCCL
    engines do on trainer rank 0, and unpacking a bucket on the receiving side. */
module Packing {
  import opened Arithmetic
  import opened Sequences

  newtype Byte = b: int | 0 <= b < 256

  /** A named tensor: its shape, the size of one element, and its bytes. */
  datatype Weight = Weight(name: string, shape: seq<nat>, itemSize: nat, data: seq<Byte>)

  /** What the sender records about a weight; the receiver slices the buffer with it. */
  datatype TensorMeta = TensorMeta(name: string, shape: seq<nat>, itemSize: nat, offset: nat)

  function SizeOf(shape: seq<nat>, itemSize: nat): nat {
    itemSize * Numel(shape)
  }

  /** A tensor has as many bytes as its shape and element type say. */
  predicate WellFormed(ws: seq<Weight>) {
    forall w :: w in ws ==> |w.data| == SizeOf(w.shape, w.itemSize)
  }

  predicate Fits(ws: seq<Weight>, cap: nat) {
    forall w :: w in ws ==> |w.data| <= cap
  }

  predicate DistinctNames(ws: seq<Weight>) {
    forall i, j :: 0 <= i < j < |ws| ==> ws[i].name != ws[j].name
  }

  predicate Uses(ws: seq<Weight>, name: string) {
    exists i :: 0 <= i < |ws| && ws[i].name == name
  }

  lemma UsesAppend(ws: seq<Weight>, w: Weight, name: string)
    ensures Uses(ws + [w], name) <==> Uses(ws, name) || w.name == name
  {
    var all := ws + [w];
    assert all[|ws|] == w;
    if i :| 0 <= i < |ws| && ws[i].name == name {
      assert all[i].name == name;
    }
    if i :| 0 <= i < |all| && all[i].name == name {
      assert i < |ws| ==> ws[i].name == name;
    }
  }

  lemma DistinctAppend(ws: seq<Weight>, w: Weight)
    ensures DistinctNames(ws + [w]) <==> DistinctNames(ws) && !Uses(ws, w.name)
  {
    var all := ws + [w];
    if DistinctNames(all) {
      forall i | 0 <= i < |ws|
        ensures ws[i].name != w.name
      {
        assert all[i].name != all[|ws|].name;
      }
      forall i, j | 0 <= i < j < |ws|
        ensures ws[i].name != ws[j].name
      {
        assert all[i].name != all[j].name;
      }
    }
  }

  /** All bytes of a bucket, back to back. */
  function Concat(ws: seq<Weight>): seq<Byte> {
    if ws == [] then [] else Concat(ws[..|ws| - 1]) + ws[|ws| - 1].data
  }

  function Bytes(ws: seq<Weight>): nat {
    |Concat(ws)|
  }

  lemma ConcatAppend(ws: seq<Weight>, w: Weight)
    ensures Concat(ws + [w]) == Concat(ws) + w.data
  {
    assert (ws + [w])[..|ws|] == ws;
  }

  lemma ConcatOne(w: Weight)
    ensures Concat([w]) == w.data
  {
    ConcatAppend([], w);
    assert [] + [w] == [w];
  }

  lemma {:induction false} ConcatPrefix(ws: seq<Weight>, k: nat)
    requires k <= |ws|
    ensures Bytes(ws[..k]) <= Bytes(ws)
    ensures Concat(ws[..k]) == Concat(ws)[..Bytes(ws[..k])]
  {
    if k < |ws| {
      var front := ws[..|ws| - 1];
      ConcatPrefix(front, k);
      assert ws[..k] == front[..k];
    } else {
      assert ws[..k] == ws;
    }
  }

  /** Any weight's bytes sit at the total size of those before it. */
  lemma ConcatAt(ws: seq<Weight>, k: nat)
    requires k < |ws|
    ensures Bytes(ws[..k]) + |ws[k].data| <= Bytes(ws)
    ensures Concat(ws)[Bytes(ws[..k])..Bytes(ws[..k]) + |ws[k].data|] == ws[k].data
  {
    hide Concat;
    var before, all := Concat(ws[..k]), Concat(ws);
    ConcatAppend(ws[..k], ws[k]);
    assert ws[..k] + [ws[k]] == ws[..k + 1];
    ConcatPrefix(ws, k + 1);
    var hi := |before| + |ws[k].data|;
    assert all[..hi] == before + ws[k].data;
    assert all[|before|..hi] == all[..hi][|before|..];
  }

  // ----- the reference: cut off the longest prefix that fits, repeat -----

  /** The longest prefix that fits, searched upwards from a prefix that does. */
  function LongestFrom(ws: seq<Weight>, k: nat, cap: nat): (r: nat)
    requires k <= |ws| && Bytes(ws[..k]) <= cap
    ensures k <= r <= |ws| && Bytes(ws[..r]) <= cap
    ensures r == |ws| || Bytes(ws[..r + 1]) > cap
    decreases |ws| - k
  {
    if k < |ws| && Bytes(ws[..k + 1]) <= cap then LongestFrom(ws, k + 1, cap) else k
  }

  function Longest(ws: seq<Weight>, cap: nat): (r: nat)
    ensures r <= |ws| && Bytes(ws[..r]) <= cap
    ensures r == |ws| || Bytes(ws[..r + 1]) > cap
  {
    LongestFrom(ws, 0, cap)
  }

  lemma PrefixMonotone(ws: seq<Weight>, i: nat, j: nat)
    requires i <= j <= |ws|
    ensures Bytes(ws[..i]) <= Bytes(ws[..j])
  {
    ConcatPrefix(ws[..j], i);
    assert ws[..j][..i] == ws[..i];
  }

  lemma LongestIs(ws: seq<Weight>, k: nat, cap: nat)
    requires k <= |ws| && Bytes(ws[..k]) <= cap
    ensures k <= Longest(ws, cap)
    ensures k == |ws| || Bytes(ws[..k + 1]) > cap ==> Longest(ws, cap) == k
  {
    var r := Longest(ws, cap);
    if r < k {
      PrefixMonotone(ws, r + 1, k);
    } else if k < r {
      PrefixMonotone(ws, k + 1, r);
    }
  }

  lemma LongestPositive(ws: seq<Weight>, cap: nat)
    requires Fits(ws, cap) && ws != []
    ensures Longest(ws, cap) >= 1
  {
    ConcatAppend([], ws[0]);
    assert ws[..1] == [] + [ws[0]];
    LongestIs(ws, 1, cap);
  }

  /** The buckets of a stream: at least one, possibly empty, as the source always sends a last bucket. */
  function Buckets(ws: seq<Weight>, cap: nat): (bs: seq<seq<Weight>>)
    requires Fits(ws, cap)
    ensures |bs| >= 1
    decreases |ws|
  {
    var k := Longest(ws, cap);
    if k == |ws| then [ws]
    else
      LongestPositive(ws, cap);
      [ws[..k]] + Buckets(ws[k..], cap)
  }

  /** What the sender's loop does with the weights still to come, given the bucket being filled. */
  function PackFrom(cur: seq<Weight>, rest: seq<Weight>, cap: nat): (bs: seq<seq<Weight>>)
    ensures |bs| >= 1
    decreases |rest|
  {
    if rest == [] then [cur]
    else if Bytes(cur) + |rest[0].data| > cap then [cur] + PackFrom([rest[0]], rest[1..], cap)
    else PackFrom(cur + [rest[0]], rest[1..], cap)
  }

  lemma FirstBucket(cur: seq<Weight>, w: Weight, rest: seq<Weight>, cap: nat)
    requires Fits(cur + ([w] + rest), cap) && Bytes(cur) <= cap < Bytes(cur) + |w.data|
    ensures Buckets(cur + ([w] + rest), cap) == [cur] + Buckets([w] + rest, cap)
  {
    var all := cur + ([w] + rest);
    ConcatAppend(cur, w);
    assert all[..|cur|] == cur && all[..|cur| + 1] == cur + [w] && all[|cur|..] == [w] + rest;
    LongestIs(all, |cur|, cap);
  }

  lemma PackFromStep(cur: seq<Weight>, w: Weight, rest: seq<Weight>, cap: nat)
    ensures PackFrom(cur, [w] + rest, cap) ==
            if Bytes(cur) + |w.data| > cap then [cur] + PackFrom([w], rest, cap) else PackFrom(cur + [w], rest, cap)
  {
    assert ([w] + rest)[1..] == rest;
  }

  /** When the next weight does not fit, the bucket just closed is the next one of the plan. */
  lemma CloseBucket(cur: seq<Weight>, rest: seq<Weight>, cap: nat)
    requires rest != [] && |rest[0].data| <= cap < Bytes(cur) + |rest[0].data|
    ensures PackFrom(cur, rest, cap) == [cur] + PackFrom([], rest, cap)
  {
    var w, tail := rest[0], rest[1..];
    assert rest == [w] + tail;
    PackFromStep(cur, w, tail, cap);
    PackFromStep([], w, tail, cap);
    assert [] + [w] == [w];
  }

  /** The streaming loop computes the reference buckets. */
  lemma {:induction false} PackFromIsBuckets(cur: seq<Weight>, rest: seq<Weight>, cap: nat)
    requires Fits(cur + rest, cap) && Bytes(cur) <= cap
    ensures PackFrom(cur, rest, cap) == Buckets(cur + rest, cap)
    decreases |rest|
  {
    hide Longest, Concat;
    if rest == [] {
      assert cur + rest == cur && cur[..|cur|] == cur;
      LongestIs(cur, |cur|, cap);
    } else {
      var w, tail := rest[0], rest[1..];
      assert rest == [w] + tail;
      PackFromStep(cur, w, tail, cap);
      ConcatAppend(cur, w);
      assert w in cur + rest;
      if Bytes(cur) + |w.data| > cap {
        FirstBucket(cur, w, tail, cap);
        assert forall x :: x in [w] + tail ==> x in cur + rest;
        ConcatOne(w);
        PackFromIsBuckets([w], tail, cap);
      } else {
        assert cur + rest == (cur + [w]) + tail;
        PackFromIsBuckets(cur + [w], tail, cap);
      }
    }
  }

  // ----- what the buckets are good for -----

  /** A cut of the stream into consecutive segments that each fit, empty segments allowed. */
  predicate Partition(ws: seq<Weight>, cap: nat, parts: seq<seq<Weight>>) {
    Flatten(parts) == ws && forall i :: 0 <= i < |parts| ==> Bytes(parts[i]) <= cap
  }

  /** Every bucket but the last is full: not even the first weight of the next one would have fitted. */
  predicate Tight(bs: seq<seq<Weight>>, cap: nat) {
    forall i {:trigger bs[i]} :: 0 < i < |bs| ==> bs[i - 1] != [] && bs[i] != [] && Bytes(bs[i - 1] + bs[i][..1]) > cap
  }

  lemma TightCons(b: seq<Weight>, bs: seq<seq<Weight>>, cap: nat)
    requires bs != [] && b != [] && bs[0] != [] && Bytes(b + bs[0][..1]) > cap && Tight(bs, cap)
    ensures Tight([b] + bs, cap)
  {
    var all := [b] + bs;
    forall i {:trigger all[i]} | 0 < i < |all|
      ensures all[i - 1] != [] && all[i] != [] && Bytes(all[i - 1] + all[i][..1]) > cap
    {
      if i > 1 {
        assert all[i] == bs[i - 1] && all[i - 1] == bs[i - 2];
      }
    }
  }

  lemma {:induction false} BucketsTight(ws: seq<Weight>, cap: nat)
    requires Fits(ws, cap)
    ensures Tight(Buckets(ws, cap), cap)
    ensures ws != [] ==> Buckets(ws, cap)[0] != [] && Buckets(ws, cap)[0][0] == ws[0]
    decreases |ws|
  {
    var k := Longest(ws, cap);
    if k < |ws| {
      LongestPositive(ws, cap);
      var rest := ws[k..];
      BucketsTight(rest, cap);
      var bs := Buckets(rest, cap);
      assert bs[0][..1] == [ws[k]];
      assert ws[..k] + bs[0][..1] == ws[..k + 1];
      TightCons(ws[..k], bs, cap);
    }
  }

  lemma PartitionCons(b: seq<Weight>, ws: seq<Weight>, cap: nat, parts: seq<seq<Weight>>)
    requires Partition(ws, cap, parts) && Bytes(b) <= cap
    ensures Partition(b + ws, cap, [b] + parts)
  {
    FlattenConcat([b], parts);
    FlattenOne(b);
  }

  lemma {:induction false} BucketsPartition(ws: seq<Weight>, cap: nat)
    requires Fits(ws, cap)
    ensures Partition(ws, cap, Buckets(ws, cap))
    decreases |ws|
  {
    var k := Longest(ws, cap);
    var b, rest := ws[..k], ws[k..];
    assert ws == b + rest;
    if k == |ws| {
      assert b == ws;
      FlattenOne(b);
    } else {
      LongestPositive(ws, cap);
      var bs := Buckets(rest, cap);
      BucketsPartition(rest, cap);
      PartitionCons(b, rest, cap, bs);
      assert Buckets(ws, cap) == [b] + bs;
    }
  }

  /** A suffix of a segment is no larger than the segment. */
  lemma {:induction false} SuffixBytes(p: seq<Weight>, d: nat)
    requires d <= |p|
    ensures Bytes(p[d..]) <= Bytes(p)
    decreases |p|
  {
    if d < |p| {
      var front, last := p[..|p| - 1], p[|p| - 1];
      SuffixBytes(front, d);
      ConcatAppend(front[d..], last);
      assert p[d..] == front[d..] + [last];
    } else {
      assert p[d..] == [];
    }
  }

  /** The greedy cut after d covers the rest of any segment that starts no later. */
  lemma GreedyCovers(p: seq<Weight>, ws: seq<Weight>, d: nat, cap: nat)
    requires Bytes(p) <= cap && d <= |p + ws|
    ensures d + Longest((p + ws)[d..], cap) >= |p|
  {
    if d <= |p| {
      SuffixBytes(p, d);
      var ys := (p + ws)[d..];
      assert ys[..|p| - d] == p[d..];
      LongestIs(ys, |p| - d, cap);
    }
  }

  lemma BucketsStep(ws: seq<Weight>, cap: nat)
    requires Fits(ws, cap)
    ensures |Buckets(ws, cap)| == if Longest(ws, cap) < |ws| then 1 + |Buckets(ws[Longest(ws, cap)..], cap)| else 1
  {
    if ws != [] {
      LongestPositive(ws, cap);
    }
  }

  /** Greedy stays ahead: from any later starting point it needs no more buckets than any partition. */
  lemma {:induction false} GreedyStaysAhead(ws: seq<Weight>, d: nat, cap: nat, parts: seq<seq<Weight>>)
    requires Fits(ws, cap) && d <= |ws| && Partition(ws, cap, parts)
    ensures |Buckets(ws[d..], cap)| <= (if parts == [] then 1 else |parts|)
    decreases |parts|
  {
    hide Longest, Buckets, Concat;
    var k := Longest(ws[d..], cap);
    BucketsStep(ws[d..], cap);
    if parts != [] && k < |ws[d..]| {
      var p, ws' := parts[0], Flatten(parts[1..]);
      FlattenHead(parts);
      GreedyCovers(p, ws', d, cap);
      GreedyStaysAhead(ws', d + k - |p|, cap, parts[1..]);
      assert ws[d..][k..] == ws'[d + k - |p|..];
    }
  }

  /** No order-preserving partition into buckets of this capacity uses fewer buckets. */
  lemma BucketsOptimal(ws: seq<Weight>, cap: nat, parts: seq<seq<Weight>>)
    requires Fits(ws, cap) && Partition(ws, cap, parts) && parts != []
    ensures |Buckets(ws, cap)| <= |parts|
  {
    GreedyStaysAhead(ws, 0, cap, parts);
    assert ws[0..] == ws;
  }
}
