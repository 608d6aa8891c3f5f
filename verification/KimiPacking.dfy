/** The Kimi engine's sender side: every trainer rank packs its stride of the weight stream. */
module KimiPacking {
  import opened Options
  import opened Packing
  import opened Sequences

  /** The weights rank `rank` of `world` takes from a stream whose first index is `from`. */
  function Stride(ws: seq<Weight>, world: nat, rank: nat, from: nat): seq<Weight>
    requires world > 0
  {
    if ws == [] then []
    else (if from % world == rank then [ws[0]] else []) + Stride(ws[1..], world, rank, from + 1)
  }

  /** The generator's loop, given the bucket being filled. */
  function Fill(cur: seq<Weight>, rest: seq<Weight>, cap: nat): seq<seq<Weight>>
    decreases |rest|
  {
    if rest == [] then (if cur == [] then [] else [cur])
    else if Bytes(cur) + |rest[0].data| > cap && cur != [] then [cur] + Fill([rest[0]], rest[1..], cap)
    else Fill(cur + [rest[0]], rest[1..], cap)
  }

  /** Within the byte limit, or a single weight larger than it. */
  predicate Sized(b: seq<Weight>, cap: nat) {
    b != [] && (Bytes(b) <= cap || |b| == 1)
  }

  lemma FillStep(cur: seq<Weight>, w: Weight, rest: seq<Weight>, cap: nat)
    ensures Fill(cur, [w] + rest, cap) ==
            if Bytes(cur) + |w.data| > cap && cur != [] then [cur] + Fill([w], rest, cap)
            else Fill(cur + [w], rest, cap)
  {
    assert ([w] + rest)[1..] == rest;
  }

  /** The buckets are the weights in order, each within the limit or a singleton, and a bucket is
      closed only when the next weight does not fit. */
  lemma {:induction false} FillFacts(cur: seq<Weight>, rest: seq<Weight>, cap: nat)
    requires cur == [] || Sized(cur, cap)
    ensures var bs := Fill(cur, rest, cap);
            && Flatten(bs) == cur + rest
            && (forall b :: b in bs ==> Sized(b, cap))
            && Tight(bs, cap)
            && (cur != [] ==> bs != [] && cur <= bs[0])
    decreases |rest|
  {
    hide Tight, Concat;
    if rest == [] {
      if cur != [] {
        FlattenOne(cur);
      }
      ShortIsTight(Fill(cur, rest, cap), cap);
    } else {
      var w, tail := rest[0], rest[1..];
      assert rest == [w] + tail;
      FillStep(cur, w, tail, cap);
      ConcatAppend(cur, w);
      if Bytes(cur) + |w.data| > cap && cur != [] {
        FillFacts([w], tail, cap);
        var bs := Fill([w], tail, cap);
        FlattenConcat([cur], bs);
        FlattenOne(cur);
        assert bs[0][..1] == [w];
        TightCons(cur, bs, cap);
      } else {
        if cur == [] {
          assert cur + [w] == [w];
        }
        FillFacts(cur + [w], tail, cap);
      }
    }
  }

  lemma ShortIsTight(bs: seq<seq<Weight>>, cap: nat)
    requires |bs| <= 1
    ensures Tight(bs, cap)
  {
  }

  // ----- a bucket is a dictionary -----

  /** `current_bucket[name] = tensor`: a name already there keeps its place and gets the new tensor. */
  function Put(ws: seq<Weight>, w: Weight): seq<Weight> {
    if ws == [] then [w]
    else if ws[0].name == w.name then [w] + ws[1..]
    else [ws[0]] + Put(ws[1..], w)
  }

  function Dict(b: seq<Weight>): seq<Weight> {
    if b == [] then [] else Put(Dict(b[..|b| - 1]), b[|b| - 1])
  }

  function Dicts(bs: seq<seq<Weight>>): (ds: seq<seq<Weight>>)
    ensures |ds| == |bs|
  {
    if bs == [] then [] else Dicts(bs[..|bs| - 1]) + [Dict(bs[|bs| - 1])]
  }

  lemma UsesHead(w: Weight, ws: seq<Weight>, name: string)
    ensures Uses([w] + ws, name) <==> w.name == name || Uses(ws, name)
  {
    if Uses(ws, name) {
      var i :| 0 <= i < |ws| && ws[i].name == name;
      assert ([w] + ws)[i + 1].name == name;
    }
    if Uses([w] + ws, name) && w.name != name {
      var i :| 0 <= i < |[w] + ws| && ([w] + ws)[i].name == name;
      assert ws[i - 1].name == name;
    }
    if w.name == name {
      assert ([w] + ws)[0].name == name;
    }
  }

  lemma {:induction false} PutFacts(ws: seq<Weight>, w: Weight, name: string)
    ensures |Put(ws, w)| == |ws| + if Uses(ws, w.name) then 0 else 1
    ensures !Uses(ws, w.name) ==> Put(ws, w) == ws + [w]
    ensures Uses(Put(ws, w), name) <==> Uses(ws, name) || w.name == name
  {
    hide Uses;
    if ws == [] {
      assert !Uses(ws, name) && !Uses(ws, w.name) by {
        NothingUsed(name);
        NothingUsed(w.name);
      }
      UsesHead(w, [], name);
      assert [w] + [] == [w] && [] + [w] == [w];
    } else {
      var head, tail := ws[0], ws[1..];
      assert ws == [head] + tail;
      UsesHead(head, tail, name);
      UsesHead(head, tail, w.name);
      if head.name == w.name {
        UsesHead(w, tail, name);
      } else {
        PutFacts(tail, w, name);
        UsesHead(head, Put(tail, w), name);
      }
    }
  }

  lemma NothingUsed(name: string)
    ensures !Uses([], name)
  {
  }

  lemma {:induction false} DictNames(b: seq<Weight>, name: string)
    ensures Uses(Dict(b), name) <==> Uses(b, name)
    ensures |Dict(b)| <= |b|
  {
    hide Put;
    if b != [] {
      var front, last := b[..|b| - 1], b[|b| - 1];
      DictNames(front, name);
      PutFacts(Dict(front), last, name);
      assert b == front + [last];
      UsesAppend(front, last, name);
    }
  }

  /** The dictionary is the bucket exactly when no name repeats; otherwise it is shorter. */
  lemma {:induction false} DictExact(b: seq<Weight>)
    ensures Dict(b) == b <==> DistinctNames(b)
    ensures |Dict(b)| == |b| <==> DistinctNames(b)
  {
    hide Put;
    if b != [] {
      var front, last := b[..|b| - 1], b[|b| - 1];
      DictExact(front);
      DictNames(front, last.name);
      PutFacts(Dict(front), last, last.name);
      assert b == front + [last];
      DistinctAppend(front, last);
    }
  }

  /** What the generator hands out is what it packed exactly when no bucket repeats a name. */
  lemma {:induction false} DictsExact(bs: seq<seq<Weight>>)
    ensures Dicts(bs) == bs <==> forall i :: 0 <= i < |bs| ==> DistinctNames(bs[i])
  {
    if bs != [] {
      var front, last := bs[..|bs| - 1], bs[|bs| - 1];
      DictsExact(front);
      DictExact(last);
      assert forall i :: 0 <= i < |front| ==> front[i] == bs[i];
      assert bs == front + [last];
    }
  }

  lemma DictsAppend(bs: seq<seq<Weight>>, b: seq<Weight>)
    ensures Dicts(bs + [b]) == Dicts(bs) + [Dict(b)]
  {
    assert (bs + [b])[..|bs|] == bs;
  }

  lemma DictAppend(b: seq<Weight>, w: Weight)
    ensures Dict(b + [w]) == Put(Dict(b), w)
  {
    assert (b + [w])[..|b|] == b;
  }

  lemma DictEmpty(b: seq<Weight>)
    ensures Dict(b) == [] <==> b == []
  {
    if b != [] {
      PutFacts(Dict(b[..|b| - 1]), b[|b| - 1], "");
    }
  }

  /** `ckpt_get_named_tensor_buckets` over the whole stream, Failure where it raises ValueError. The
      generator closes buckets by size and hands each out as a dictionary. */
  method TensorBuckets(stream: seq<Weight>, bucketBytes: int, world: nat, rank: nat)
    returns (r: Result<seq<seq<Weight>>, string>)
    requires world > 0
    ensures r.Failure? <==> bucketBytes <= 0
    ensures r.Success? ==>
              var bs := Fill([], Stride(stream, world, rank, 0), bucketBytes);
              && r.value == Dicts(bs)
              && Flatten(bs) == Stride(stream, world, rank, 0)
              && (forall b :: b in bs ==> Sized(b, bucketBytes))
              && Tight(bs, bucketBytes)
  {
    hide Fill, Stride, Concat, Tight, Sized, Dict, Dicts, Put;
    if bucketBytes <= 0 {
      return Failure("bucket_bytes must be greater than 0");
    }
    var yielded: seq<seq<Weight>> := [];
    var current: seq<Weight> := [];
    var size := 0;
    ghost var closed: seq<seq<Weight>> := [];
    ghost var cur: seq<Weight> := [];
    assert stream[0..] == stream;
    NothingPacked();
    assert closed + Fill(cur, Stride(stream[0..], world, rank, 0), bucketBytes) ==
           Fill([], Stride(stream, world, rank, 0), bucketBytes);
    for idx := 0 to |stream|
      invariant size == Bytes(cur) && current == Dict(cur) && yielded == Dicts(closed)
      invariant Fill([], Stride(stream, world, rank, 0), bucketBytes) ==
                closed + Fill(cur, Stride(stream[idx..], world, rank, idx), bucketBytes)
    {
      var w := stream[idx];
      StrideStep(stream, world, rank, idx);
      if idx % world == rank {
        FillStep(cur, w, Stride(stream[idx + 1..], world, rank, idx + 1), bucketBytes);
        DictEmpty(cur);
        if size + |w.data| > bucketBytes {
          if current != [] {
            DictsAppend(closed, cur);
            yielded, closed := yielded + [current], closed + [cur];
            current, cur, size := [], [], 0;
            NothingPacked();
          }
        }
        ConcatAppend(cur, w);
        DictAppend(cur, w);
        assert [] + [w] == [w];
        current, cur := Put(current, w), cur + [w];
        size := size + |w.data|;
      }
    }
    FillEnd(cur, stream[|stream|..], world, rank, bucketBytes);
    DictEmpty(cur);
    DictsAppend(closed, cur);
    ghost var all := closed + if cur == [] then [] else [cur];
    if current != [] {
      yielded := yielded + [current];
    }
    assert all == if cur == [] then closed else closed + [cur];
    assert yielded == Dicts(all);
    FillFacts([], Stride(stream, world, rank, 0), bucketBytes);
    assert [] + Stride(stream, world, rank, 0) == Stride(stream, world, rank, 0);
    return Success(yielded);
  }

  lemma NothingPacked()
    ensures Bytes([]) == 0 && Dict([]) == [] && Dicts([]) == []
  {
  }

  lemma StrideStep(stream: seq<Weight>, world: nat, rank: nat, idx: nat)
    requires world > 0 && idx < |stream|
    ensures Stride(stream[idx..], world, rank, idx) ==
            (if idx % world == rank then [stream[idx]] else []) + Stride(stream[idx + 1..], world, rank, idx + 1)
    ensures idx % world != rank ==>
              Stride(stream[idx..], world, rank, idx) == Stride(stream[idx + 1..], world, rank, idx + 1)
  {
    assert stream[idx..][1..] == stream[idx + 1..];
  }

  lemma FillEnd(cur: seq<Weight>, rest: seq<Weight>, world: nat, rank: nat, cap: nat)
    requires world > 0 && rest == []
    ensures Fill(cur, Stride(rest, world, rank, |rest|), cap) == if cur == [] then [] else [cur]
    ensures forall from: nat :: Fill(cur, Stride(rest, world, rank, from), cap) == if cur == [] then [] else [cur]
  {
  }

  // ----- the ranks together -----

  /** How many indices below n belong to rank `rank`. */
  function Share(n: nat, world: nat, rank: nat): nat
    requires world > 0
  {
    if n == 0 then 0 else Share(n - 1, world, rank) + if (n - 1) % world == rank then 1 else 0
  }

  lemma {:induction false} StrideAppend(ws: seq<Weight>, w: Weight, world: nat, rank: nat, from: nat)
    requires world > 0
    ensures Stride(ws + [w], world, rank, from) ==
            Stride(ws, world, rank, from) + if (from + |ws|) % world == rank then [w] else []
    decreases |ws|
  {
    if ws != [] {
      assert (ws + [w])[1..] == ws[1..] + [w];
      StrideAppend(ws[1..], w, world, rank, from + 1);
    } else {
      assert ws + [w] == [w];
    }
  }

  /** Position i of the stream is in exactly one stride, that of rank i mod world, after exactly
      the earlier indices of that rank. */
  lemma {:induction false} StridesPartition(ws: seq<Weight>, world: nat, rank: nat)
    requires world > 0
    ensures |Stride(ws, world, rank, 0)| == Share(|ws|, world, rank)
    ensures forall i :: 0 <= i < |ws| && i % world == rank ==>
              Share(i, world, rank) < |Stride(ws, world, rank, 0)|
                && Stride(ws, world, rank, 0)[Share(i, world, rank)] == ws[i]
    decreases |ws|
  {
    if ws != [] {
      var front, last := ws[..|ws| - 1], ws[|ws| - 1];
      assert ws == front + [last];
      StridesPartition(front, world, rank);
      StrideAppend(front, last, world, rank, 0);
      forall i | 0 <= i < |ws| && i % world == rank
        ensures Share(i, world, rank) < |Stride(ws, world, rank, 0)|
                  && Stride(ws, world, rank, 0)[Share(i, world, rank)] == ws[i]
      {
        if i < |front| {
          assert front[i] == ws[i];
        }
      }
    }
  }

  function SumShares(n: nat, world: nat, ranks: nat): nat
    requires world > 0
  {
    if ranks == 0 then 0 else SumShares(n, world, ranks - 1) + Share(n, world, ranks - 1)
  }

  /** Together the ranks' strides have as many weights as the stream: none is packed twice. */
  lemma {:induction false} SharesAddUp(n: nat, world: nat)
    requires world > 0
    ensures SumShares(n, world, world) == n
  {
    if n == 0 {
      NoShares(world, world);
    } else {
      SharesAddUp(n - 1, world);
      OneMore(n - 1, world, world);
    }
  }

  lemma {:induction false} NoShares(world: nat, ranks: nat)
    requires world > 0
    ensures SumShares(0, world, ranks) == 0
  {
    if ranks > 0 {
      NoShares(world, ranks - 1);
    }
  }

  lemma {:induction false} OneMore(n: nat, world: nat, ranks: nat)
    requires world > 0
    ensures SumShares(n + 1, world, ranks) == SumShares(n, world, ranks) + if n % world < ranks then 1 else 0
  {
    if ranks > 0 {
      OneMore(n, world, ranks - 1);
    }
  }
}
