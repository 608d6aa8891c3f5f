/** Bucket metadata, decoding a bucket, and what a receiver can recover from it. */
module BucketCodec {
  import opened Packing
  import opened PythonLists
  import opened Sequences
  import opened Shapes

  /** `bucket_meta[name] = entry` on an insertion-ordered dictionary: a repeated name keeps
      its first position and takes the last entry. */
  function Put(metas: seq<TensorMeta>, m: TensorMeta): seq<TensorMeta> {
    if metas == [] then [m]
    else if metas[0].name == m.name then [m] + metas[1..]
    else [metas[0]] + Put(metas[1..], m)
  }

  function MetaFor(w: Weight, offset: nat): TensorMeta {
    TensorMeta(w.name, w.shape, w.itemSize, offset)
  }

  /** The dictionary the sender has built once it has placed these weights from offset zero. */
  function DictMeta(ws: seq<Weight>): seq<TensorMeta> {
    if ws == [] then []
    else
      var front := ws[..|ws| - 1];
      Put(DictMeta(front), MetaFor(ws[|ws| - 1], Bytes(front)))
  }

  function DecodeOne(m: TensorMeta, buf: seq<Byte>): Weight {
    Weight(m.name, m.shape, m.itemSize, PySlice(buf, m.offset, m.offset + SizeOf(m.shape, m.itemSize)))
  }

  function Decode(metas: seq<TensorMeta>, buf: seq<Byte>): (ws: seq<Weight>)
    ensures |ws| == |metas|
    ensures forall k :: 0 <= k < |ws| ==> ws[k] == DecodeOne(metas[k], buf)
  {
    if metas == [] then [] else [DecodeOne(metas[0], buf)] + Decode(metas[1..], buf)
  }

  /** A buffer whose leading bytes are the bucket's weights back to back. */
  predicate Holds(buf: seq<Byte>, ws: seq<Weight>) {
    Bytes(ws) <= |buf| && buf[..Bytes(ws)] == Concat(ws)
  }

  /** What decoding a bucket yields. */
  function Delivered(ws: seq<Weight>): seq<Weight> {
    Decode(DictMeta(ws), Concat(ws))
  }

  predicate InRange(metas: seq<TensorMeta>, n: nat) {
    forall m :: m in metas ==> m.offset + SizeOf(m.shape, m.itemSize) <= n
  }

  predicate HasName(metas: seq<TensorMeta>, name: string) {
    exists m :: m in metas && m.name == name
  }

  lemma {:induction false} PutFacts(metas: seq<TensorMeta>, m: TensorMeta)
    ensures forall x :: x in Put(metas, m) ==> x in metas || x == m
    ensures |metas| <= |Put(metas, m)| <= |metas| + 1
    ensures |Put(metas, m)| == |metas| <==> HasName(metas, m.name)
    ensures !HasName(metas, m.name) ==> Put(metas, m) == metas + [m]
  {
    if metas != [] && metas[0].name != m.name {
      PutFacts(metas[1..], m);
      assert metas == [metas[0]] + metas[1..];
      assert HasName(metas, m.name) <==> HasName(metas[1..], m.name);
    }
  }

  lemma {:induction false} PutNames(metas: seq<TensorMeta>, m: TensorMeta, name: string)
    ensures HasName(Put(metas, m), name) <==> HasName(metas, name) || m.name == name
  {
    if metas == [] {
      assert m in Put(metas, m);
    } else {
      var head, tail := metas[0], metas[1..];
      HasNameCons(head, tail, name);
      assert metas == [head] + tail;
      if head.name == m.name {
        HasNameCons(m, tail, name);
      } else {
        PutNames(tail, m, name);
        HasNameCons(head, Put(tail, m), name);
      }
    }
  }

  lemma HasNameCons(m: TensorMeta, metas: seq<TensorMeta>, name: string)
    ensures HasName([m] + metas, name) <==> m.name == name || HasName(metas, name)
  {
    assert ([m] + metas)[0] == m;
    assert forall x :: x in metas ==> x in [m] + metas;
  }

  lemma DictMetaAppend(ws: seq<Weight>, w: Weight)
    ensures DictMeta(ws + [w]) == Put(DictMeta(ws), MetaFor(w, Bytes(ws)))
  {
    assert (ws + [w])[..|ws|] == ws;
  }

  lemma {:induction false} DictMetaInRange(ws: seq<Weight>)
    requires WellFormed(ws)
    ensures InRange(DictMeta(ws), Bytes(ws))
  {
    if ws != [] {
      var front, w := ws[..|ws| - 1], ws[|ws| - 1];
      DictMetaInRange(front);
      assert ws == front + [w];
      ConcatAppend(front, w);
      PutFacts(DictMeta(front), MetaFor(w, Bytes(front)));
    }
  }

  lemma SliceOfPrefix(buf: seq<Byte>, n: nat, lo: nat, hi: nat)
    requires lo <= hi <= n <= |buf|
    ensures buf[..n][lo..hi] == buf[lo..hi]
  {
  }

  /** Bytes beyond the bucket's own do not matter to the decoder. */
  lemma DecodeHolds(ws: seq<Weight>, buf: seq<Byte>, k: nat)
    requires WellFormed(ws) && Holds(buf, ws) && k < |DictMeta(ws)|
    ensures DecodeOne(DictMeta(ws)[k], buf) == Delivered(ws)[k]
  {
    hide PySlice, DictMeta, Concat;
    DictMetaInRange(ws);
    var m := DictMeta(ws)[k];
    assert m in DictMeta(ws);
    var lo, hi := m.offset, m.offset + SizeOf(m.shape, m.itemSize);
    SliceOfPrefix(buf, Bytes(ws), lo, hi);
    SliceInside(buf, lo, hi);
    SliceInside(Concat(ws), lo, hi);
  }

  /** The dictionary has one entry per name used. */
  lemma {:induction false} DictMetaNames(ws: seq<Weight>)
    ensures forall name :: HasName(DictMeta(ws), name) <==> Uses(ws, name)
    ensures |DictMeta(ws)| <= |ws|
    ensures |DictMeta(ws)| == |ws| ==> DistinctNames(ws)
  {
    if ws != [] {
      var front, last := ws[..|ws| - 1], ws[|ws| - 1];
      assert ws == front + [last];
      DictMetaNames(front);
      var m := MetaFor(last, Bytes(front));
      PutFacts(DictMeta(front), m);
      DistinctAppend(front, last);
      forall name
        ensures HasName(DictMeta(ws), name) <==> Uses(ws, name)
      {
        PutNames(DictMeta(front), m, name);
        UsesAppend(front, last, name);
      }
    }
  }

  /** With distinct names the dictionary lists the weights in order at their running offsets. */
  lemma {:induction false} DictMetaDistinct(ws: seq<Weight>)
    requires DistinctNames(ws)
    ensures |DictMeta(ws)| == |ws|
    ensures forall k :: 0 <= k < |ws| ==> DictMeta(ws)[k] == MetaFor(ws[k], Bytes(ws[..k]))
  {
    if ws != [] {
      var front, w := ws[..|ws| - 1], ws[|ws| - 1];
      DictMetaDistinct(front);
      PutFacts(DictMeta(front), MetaFor(w, Bytes(front)));
      DictMetaNames(front);
      forall k | 0 <= k < |ws|
        ensures DictMeta(ws)[k] == MetaFor(ws[k], Bytes(ws[..k]))
      {
        if k < |front| {
          assert front[..k] == ws[..k];
        }
      }
    }
  }

  lemma DecodeInPlace(buf: seq<Byte>, w: Weight, off: nat)
    requires |w.data| == SizeOf(w.shape, w.itemSize)
    requires off + |w.data| <= |buf| && buf[off..off + |w.data|] == w.data
    ensures DecodeOne(MetaFor(w, off), buf) == w
  {
    hide PySlice;
    SliceInside(buf, off, off + |w.data|);
  }

  /** A tensor's bytes are those of its elements, one for each index of its shape, end to end. */
  predicate MadeOf(w: Weight, elements: seq<seq<Byte>>) {
    && |elements| == |Indices(w.shape)|
    && (forall e :: e in elements ==> |e| == w.itemSize)
    && w.data == Flatten(elements)
  }

  /** A weight made of elements is well-formed, and the receiver cuts exactly its bytes out of a buffer. */
  lemma ElementsDecode(w: Weight, elements: seq<seq<Byte>>, before: seq<Byte>, after: seq<Byte>)
    requires MadeOf(w, elements)
    ensures WellFormed([w])
    ensures DecodeOne(MetaFor(w, |before|), before + w.data + after) == w
  {
    hide Flatten, Indices;
    IndicesExact(w.shape);
    FlattenSize(elements, w.itemSize);
    assert (before + w.data + after)[|before|..|before| + |w.data|] == w.data;
    DecodeInPlace(before + w.data + after, w, |before|);
  }

  lemma DeliveredAt(ws: seq<Weight>, k: nat)
    requires WellFormed(ws) && DistinctNames(ws) && k < |ws|
    ensures |Delivered(ws)| == |ws| && Delivered(ws)[k] == ws[k]
  {
    hide Concat, DictMeta;
    DictMetaDistinct(ws);
    var w, off := ws[k], Bytes(ws[..k]);
    DecodeInPlace(Concat(ws), w, off) by {
      assert w in ws;
      ConcatAt(ws, k);
    }
    assert DictMeta(ws)[k] == MetaFor(w, off);
  }

  /** A bucket survives packing and unpacking exactly when no name occurs twice in it. */
  lemma DeliveredExact(ws: seq<Weight>)
    requires WellFormed(ws)
    ensures |Delivered(ws)| <= |ws|
    ensures |Delivered(ws)| == |ws| <==> DistinctNames(ws)
    ensures Delivered(ws) == ws <==> DistinctNames(ws)
  {
    DictMetaNames(ws);
    if DistinctNames(ws) {
      DictMetaDistinct(ws);
      forall k | 0 <= k < |ws|
        ensures Delivered(ws)[k] == ws[k]
      {
        DeliveredAt(ws, k);
      }
    }
  }

  // ----- filling a buffer -----

  /** A buffer after a slice assignment. */
  function WriteAt(buf: seq<Byte>, offset: nat, data: seq<Byte>): (r: seq<Byte>)
    ensures |r| == |buf|
  {
    if offset + |data| <= |buf| then buf[..offset] + data + buf[offset + |data|..] else buf
  }

  lemma HoldsAfterWrite(buf: seq<Byte>, cur: seq<Weight>, w: Weight)
    requires Holds(buf, cur) && Bytes(cur) + |w.data| <= |buf|
    ensures Holds(WriteAt(buf, Bytes(cur), w.data), cur + [w])
  {
    ConcatAppend(cur, w);
  }

  // ----- the whole stream -----

  function DeliverAll(bs: seq<seq<Weight>>): (ds: seq<seq<Weight>>)
    ensures |ds| == |bs|
    ensures forall i :: 0 <= i < |bs| ==> ds[i] == Delivered(bs[i])
  {
    seq(|bs|, i requires 0 <= i < |bs| => Delivered(bs[i]))
  }

  predicate NamesDistinctPerBucket(bs: seq<seq<Weight>>) {
    forall b :: b in bs ==> DistinctNames(b)
  }

  lemma DeliverAllAppend(bs: seq<seq<Weight>>, b: seq<Weight>)
    ensures Flatten(DeliverAll(bs + [b])) == Flatten(DeliverAll(bs)) + Delivered(b)
  {
    assert DeliverAll(bs + [b]) == DeliverAll(bs) + [Delivered(b)];
    FlattenAppend(DeliverAll(bs), Delivered(b));
  }

  lemma {:induction false} DeliverAllLength(bs: seq<seq<Weight>>)
    requires forall b :: b in bs ==> WellFormed(b)
    ensures |Flatten(DeliverAll(bs))| <= |Flatten(bs)|
    ensures |Flatten(DeliverAll(bs))| == |Flatten(bs)| ==> NamesDistinctPerBucket(bs)
  {
    if bs != [] {
      var front, last := bs[..|bs| - 1], bs[|bs| - 1];
      assert bs == front + [last];
      assert forall b :: b in bs <==> b in front || b == last;
      DeliverAllLength(front);
      DeliverAllAppend(front, last);
      FlattenAppend(front, last);
      DeliveredExact(last);
    }
  }

  /** A stream of buckets arrives unchanged exactly when no bucket repeats a name. */
  lemma DeliverAllExact(bs: seq<seq<Weight>>)
    requires forall b :: b in bs ==> WellFormed(b)
    ensures Flatten(DeliverAll(bs)) == Flatten(bs) <==> NamesDistinctPerBucket(bs)
  {
    DeliverAllLength(bs);
    if NamesDistinctPerBucket(bs) {
      forall i | 0 <= i < |bs|
        ensures DeliverAll(bs)[i] == bs[i]
      {
        assert bs[i] in bs;
        DeliveredExact(bs[i]);
      }
      assert DeliverAll(bs) == bs;
    }
  }

  lemma {:induction false} FlattenMember(bs: seq<seq<Weight>>)
    ensures forall b, w :: b in bs && w in b ==> w in Flatten(bs)
  {
    if bs != [] {
      var front, last := bs[..|bs| - 1], bs[|bs| - 1];
      FlattenMember(front);
      forall b, w | b in bs && w in b
        ensures w in Flatten(bs)
      {
        if b !in front {
          assert b == last;
        }
      }
    }
  }

  /** The buckets of a well-formed stream are well-formed. */
  lemma BucketsWellFormed(ws: seq<Weight>, cap: nat)
    requires WellFormed(ws) && Fits(ws, cap)
    ensures forall b :: b in Buckets(ws, cap) ==> WellFormed(b)
  {
    BucketsPartition(ws, cap);
    FlattenMember(Buckets(ws, cap));
  }

  lemma {:induction false} DistinctParts(bs: seq<seq<Weight>>)
    requires DistinctNames(Flatten(bs))
    ensures NamesDistinctPerBucket(bs)
  {
    if bs != [] {
      var front, last := bs[..|bs| - 1], bs[|bs| - 1];
      var all := Flatten(bs);
      assert Flatten(front) == all[..|Flatten(front)|];
      assert forall i :: 0 <= i < |last| ==> last[i] == all[|Flatten(front)| + i];
      DistinctParts(front);
      forall b | b in bs
        ensures DistinctNames(b)
      {
        if b !in front {
          assert b == last;
        }
      }
    }
  }

  /** Distinct names across the stream are enough. */
  lemma DistinctStream(ws: seq<Weight>, cap: nat)
    requires Fits(ws, cap) && DistinctNames(ws)
    ensures NamesDistinctPerBucket(Buckets(ws, cap))
  {
    BucketsPartition(ws, cap);
    DistinctParts(Buckets(ws, cap));
  }
}
