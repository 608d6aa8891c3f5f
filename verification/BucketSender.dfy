/** The send loop of the NIXL and NCCL engines over two real byte buffers. */
module BucketSender {
  import opened Options
  import opened Packing
  import opened BucketCodec

  /** A bucket handed to the transport: its metadata, and the buffer as it was at that moment. */
  datatype Published = Published(metas: seq<TensorMeta>, isLast: bool, buffer: nat, image: seq<Byte>)

  /** The publications of a packed stream: bucket i sits in buffer i mod 2 and only the last is marked. */
  predicate Publishes(ps: seq<Published>, bs: seq<seq<Weight>>, closed: bool) {
    && |ps| == |bs|
    && forall i :: 0 <= i < |ps| ==>
         && ps[i].metas == DictMeta(bs[i]) && Holds(ps[i].image, bs[i])
         && ps[i].buffer == i % 2
         && (ps[i].isLast <==> closed && i == |ps| - 1)
  }

  lemma PublishOne(ps: seq<Published>, bs: seq<seq<Weight>>, b: seq<Weight>, image: seq<Byte>, last: bool)
    requires Publishes(ps, bs, false) && Holds(image, b)
    ensures Publishes(ps + [Published(DictMeta(b), last, |ps| % 2, image)], bs + [b], last)
  {
  }

  class SendBuffers {
    const capacity: nat
    const sendBuf: array<Byte>
    const recvBuf: array<Byte>

    ghost predicate Valid() {
      sendBuf.Length == capacity && recvBuf.Length == capacity && sendBuf != recvBuf
    }

    constructor (bucketSize: nat)
      ensures Valid() && fresh(sendBuf) && fresh(recvBuf) && capacity == bucketSize
    {
      capacity := bucketSize;
      sendBuf := new Byte[bucketSize];
      recvBuf := new Byte[bucketSize];
    }

    method Fill(buf: array<Byte>, offset: nat, data: seq<Byte>)
      requires offset + |data| <= buf.Length
      modifies buf
      ensures buf[..] == WriteAt(old(buf[..]), offset, data)
    {
      forall i | 0 <= i < |data| {
        buf[offset + i] := data[i];
      }
    }

    /** Packs and publishes the whole stream, or stops at the first weight no bucket can hold. */
    method SendWeights(weights: seq<Weight>) returns (r: Result<seq<Published>, string>)
      requires Valid()
      modifies sendBuf, recvBuf
      ensures r.Success? <==> Fits(weights, capacity)
      ensures r.Success? ==> Publishes(r.value, Buckets(weights, capacity), true)
      ensures r.Failure? ==> exists i :: 0 <= i < |weights| && r.error == weights[i].name
                               && |weights[i].data| > capacity && Fits(weights[..i], capacity)
    {
      hide Buckets, DictMeta, Put, Concat, Holds, WriteAt, Publishes, PackFrom;
      var send, recv := sendBuf, recvBuf;
      var log: seq<Published> := [];
      var metas: seq<TensorMeta> := [];
      var offset := 0;
      ghost var closed: seq<seq<Weight>> := [];
      ghost var cur: seq<Weight> := [];
      assert Publishes(log, closed, false) && StartsBucket(metas, offset, send[..]) by {
        EmptyLog();
        EmptyBucket(send[..]);
      }
      assert closed + PackFrom(cur, weights[0..], capacity) == PackFrom([], weights, capacity) by {
        assert weights[0..] == weights && closed == [];
      }
      for idx := 0 to |weights|
        invariant {send, recv} == {sendBuf, recvBuf}
        invariant Publishes(log, closed, false)
        invariant metas == DictMeta(cur) && offset == Bytes(cur) <= capacity && Holds(send[..], cur)
        invariant Fits(weights[..idx], capacity)
        invariant PackFrom([], weights, capacity) == closed + PackFrom(cur, weights[idx..], capacity)
      {
        var w := weights[idx];
        assert weights[..idx + 1] == weights[..idx] + [w];
        if offset + |w.data| > capacity {
          PublishOne(log, closed, cur, send[..], false);
          if |w.data| <= capacity {
            CloseBucket(cur, weights[idx..], capacity);
          }
          log := log + [Published(metas, false, |log| % 2, send[..])];
          closed := closed + [cur];
          send, recv := recv, send;
          metas, offset, cur := [], 0, [];
          EmptyBucket(send[..]);
        }
        if offset + |w.data| > capacity {
          return Failure(w.name);
        }
        PackFromStep(cur, w, weights[idx + 1..], capacity);
        assert weights[idx..] == [w] + weights[idx + 1..];
        HoldsAfterWrite(send[..], cur, w);
        ConcatAppend(cur, w);
        DictMetaAppend(cur, w);
        metas := Put(metas, MetaFor(w, offset));
        Fill(send, offset, w.data);
        offset := offset + |w.data|;
        cur := cur + [w];
      }
      PublishOne(log, closed, cur, send[..], true);
      PackFromEnd(cur, weights[|weights|..], capacity);
      log := log + [Published(metas, true, |log| % 2, send[..])];
      closed := closed + [cur];
      assert weights[..|weights|] == weights && [] + weights == weights;
      PackFromIsBuckets([], weights, capacity);
      return Success(log);
    }
  }

  predicate StartsBucket(metas: seq<TensorMeta>, offset: nat, buf: seq<Byte>) {
    metas == DictMeta([]) && offset == Bytes([]) && Holds(buf, [])
  }

  lemma EmptyBucket(buf: seq<Byte>)
    ensures StartsBucket([], 0, buf)
  {
  }

  lemma EmptyLog()
    ensures Publishes([], [], false)
  {
  }

  lemma PackFromEnd(cur: seq<Weight>, rest: seq<Weight>, cap: nat)
    requires rest == []
    ensures PackFrom(cur, rest, cap) == [cur]
  {
  }

  /** Receivers that decode the publications in order recover what each bucket can deliver. */
  lemma PublishedDecodes(ps: seq<Published>, bs: seq<seq<Weight>>, i: nat)
    requires Publishes(ps, bs, true) && i < |ps| && WellFormed(bs[i])
    ensures Decode(ps[i].metas, ps[i].image) == Delivered(bs[i])
    ensures Decode(ps[i].metas, ps[i].image) == bs[i] <==> DistinctNames(bs[i])
  {
    forall k | 0 <= k < |DictMeta(bs[i])|
      ensures DecodeOne(ps[i].metas[k], ps[i].image) == Delivered(bs[i])[k]
    {
      DecodeHolds(bs[i], ps[i].image, k);
    }
    DeliveredExact(bs[i]);
  }
}
