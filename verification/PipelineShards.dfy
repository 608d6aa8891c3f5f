/** How many layers each pipeline rank gets when a checkpoint is merged. */
module PipelineShards {
  import opened Options
  import opened Tiling
  import opened Arithmetic

  datatype ShardError = ValueError | IndexError

  /** The split the search considers for m layers on every middle rank: the rest is halved between
      the first and the last rank. */
  function First(layers: int, ranks: int, m: int): int {
    (layers - m * (ranks - 2)) / 2
  }

  function Last(layers: int, ranks: int, m: int): int {
    layers - m * (ranks - 2) - First(layers, ranks, m)
  }

  predicate Candidate(layers: int, ranks: int, m: int) {
    0 <= m < layers && 0 < First(layers, ranks, m) <= m && 0 < Last(layers, ranks, m) <= m
  }

  function Shards(layers: int, ranks: int, m: int): (s: seq<int>)
    requires ranks >= 3
    ensures |s| == ranks
  {
    [First(layers, ranks, m)] + seq(ranks - 2, _ => m) + [Last(layers, ranks, m)]
  }

  function Diff(layers: int, ranks: int, m: int): nat {
    var d := First(layers, ranks, m) - m;
    if d < 0 then -d else d
  }

  /** The best middle count: no candidate is more uniform, and no smaller one as uniform. */
  ghost predicate Best(layers: int, ranks: int, m: int) {
    && Candidate(layers, ranks, m)
    && (forall k :: Candidate(layers, ranks, k) ==> Diff(layers, ranks, m) <= Diff(layers, ranks, k))
    && (forall k :: Candidate(layers, ranks, k) && k < m ==> Diff(layers, ranks, m) < Diff(layers, ranks, k))
  }

  lemma Tried(layers: int, ranks: int, m: int)
    requires ranks >= 3 && 0 <= m < layers
    ensures var fl := layers - m * (ranks - 2);
            var f, l := fl / 2, fl - fl / 2;
            && (Candidate(layers, ranks, m) <==> 0 < f <= m && 0 < l <= m)
            && Shards(layers, ranks, m) == [f] + seq(ranks - 2, _ => m) + [l]
            && Diff(layers, ranks, m) == if f - m < 0 then m - f else f - m
  {
  }

  /** What the search promises: one rank gets everything, two share evenly, more get the best split. */
  ghost predicate Searched(shards: seq<int>, layers: int) {
    && 1 <= |shards| <= layers
    && (|shards| == 1 ==> shards == [layers])
    && (|shards| == 2 ==> shards == [layers / 2, (layers + 1) / 2])
    && (|shards| >= 3 ==> exists m :: Best(layers, |shards|, m) && shards == Shards(layers, |shards|, m))
  }

  /** The loop: all candidates in increasing order of the middle count, each with its difference. */
  method Strategies(layerNum: int, ppSize: int) returns (splits: seq<seq<int>>, diffs: seq<int>, ghost ms: seq<int>)
    requires 3 <= ppSize
    ensures Listed(layerNum, ppSize, layerNum, splits, diffs, ms)
  {
    hide Candidate, Shards, Diff;
    splits, diffs, ms := [], [], [];
    for m := 0 to if layerNum < 0 then 0 else layerNum
      invariant Listed(layerNum, ppSize, m, splits, diffs, ms)
    {
      Tried(layerNum, ppSize, m);
      var firstLast := layerNum - m * (ppSize - 2);
      var first := firstLast / 2;
      var last := firstLast - firstLast / 2;
      if 0 < first <= m && 0 < last <= m {
        var diff := if first - m < 0 then m - first else first - m;
        splits := splits + [[first] + seq(ppSize - 2, _ => m) + [last]];
        diffs := diffs + [diff];
        ms := ms + [m];
      }
    }
  }

  ghost predicate Listed(layers: int, ranks: int, upTo: int, splits: seq<seq<int>>, diffs: seq<int>, ms: seq<int>)
    requires ranks >= 3
  {
    && |ms| == |splits| == |diffs|
    && (forall i :: 0 <= i < |ms| ==> Candidate(layers, ranks, ms[i]) && 0 <= ms[i] < upTo)
    && (forall i :: 0 <= i < |ms| ==>
      splits[i] == Shards(layers, ranks, ms[i]) && diffs[i] == Diff(layers, ranks, ms[i]))
    && (forall i, j :: 0 <= i < j < |ms| ==> ms[i] < ms[j])
    && (forall k :: 0 <= k < upTo && Candidate(layers, ranks, k) ==> k in ms)
  }

  /** `get_dynamic_pipeline_shards`. The head of a stable sort by difference is the first entry
      with the least difference; an empty list has no head. */
  method GetDynamicPipelineShards(layerNum: int, ppSize: int) returns (r: Result<seq<int>, ShardError>)
    ensures r == Failure(ValueError) <==> layerNum < ppSize || ppSize < 1
    ensures r == Failure(IndexError) <==>
              3 <= ppSize <= layerNum && (layerNum + ppSize - 1) / ppSize * (ppSize - 2) + 2 > layerNum
    ensures r.Success? ==> |r.value| == ppSize && Searched(r.value, layerNum)
  {
    hide Candidate, Shards, Diff, Best;
    if layerNum < ppSize || ppSize < 1 {
      return Failure(ValueError);
    }
    if ppSize == 1 {
      return Success([layerNum]);
    }
    if ppSize == 2 {
      return Success([layerNum / 2, layerNum - layerNum / 2]);
    }
    SomeCandidateIff(layerNum, ppSize);
    var splits, diffs, ms := Strategies(layerNum, ppSize);
    if splits == [] {
      forall m | Candidate(layerNum, ppSize, m)
        ensures false
      {
        CandidateInRange(layerNum, ppSize, m);
      }
      return Failure(IndexError);
    }
    var head := HeadOfStableSort(diffs);
    HeadIsBest(layerNum, ppSize, ms, splits, diffs, head);
    return Success(splits[head]);
  }

  lemma CandidateInRange(layers: int, ranks: int, m: int)
    requires Candidate(layers, ranks, m)
    ensures 0 <= m < layers
  {
  }

  lemma HeadIsBest(layers: int, ranks: int, ms: seq<int>, splits: seq<seq<int>>, diffs: seq<int>, head: nat)
    requires ranks >= 3 && Listed(layers, ranks, layers, splits, diffs, ms) && head < |ms|
    requires forall j :: 0 <= j < |ms| ==> diffs[head] <= diffs[j]
    requires forall j :: 0 <= j < head ==> diffs[head] < diffs[j]
    ensures Best(layers, ranks, ms[head])
  {
    hide Diff, First, Last;
    forall k | Candidate(layers, ranks, k)
      ensures Diff(layers, ranks, ms[head]) <= Diff(layers, ranks, k)
      ensures k < ms[head] ==> Diff(layers, ranks, ms[head]) < Diff(layers, ranks, k)
    {
      var i :| 0 <= i < |ms| && ms[i] == k;
      assert diffs[i] == Diff(layers, ranks, k);
    }
  }

  /** A layout of exactly the layers, with no idle rank. */
  predicate Layout(shards: seq<int>, layers: int) {
    Prefix(shards, |shards|) == layers && forall i :: 0 <= i < |shards| ==> shards[i] > 0
  }

  lemma SearchedLayout(shards: seq<int>, layers: int)
    requires Searched(shards, layers)
    ensures Layout(shards, layers)
  {
    if |shards| >= 3 {
      var m :| Best(layers, |shards|, m) && shards == Shards(layers, |shards|, m);
      ShardsSum(layers, |shards|, m);
    } else {
      assert Prefix(shards, 0) == 0 && Prefix(shards, 1) == shards[0];
    }
  }

  /** Where the head of a list sorted stably by these keys comes from. */
  method HeadOfStableSort(keys: seq<int>) returns (best: nat)
    requires keys != []
    ensures best < |keys|
    ensures forall j :: 0 <= j < |keys| ==> keys[best] <= keys[j]
    ensures forall j :: 0 <= j < best ==> keys[best] < keys[j]
  {
    best := 0;
    for i := 1 to |keys|
      invariant best < i
      invariant forall j :: 0 <= j < i ==> keys[best] <= keys[j]
      invariant forall j :: 0 <= j < best ==> keys[best] < keys[j]
    {
      if keys[i] < keys[best] {
        best := i;
      }
    }
  }

  /** The search's test, solved for the number of layers. */
  lemma CandidateIff(layers: int, ranks: int, m: int)
    requires 3 <= ranks <= layers
    ensures Candidate(layers, ranks, m) <==> m * (ranks - 2) + 2 <= layers <= m * ranks
  {
    assert m * ranks == m * (ranks - 2) + 2 * m;
    if m * (ranks - 2) + 2 <= layers <= m * ranks {
      PositiveFactor(m, ranks);
      assert m * (ranks - 2) >= m;
    }
  }

  /** The search finds something exactly when the smallest middle count that leaves no rank over
      it, layers divided by ranks and rounded up, leaves a layer for each end. */
  lemma SomeCandidateIff(layers: int, ranks: int)
    requires 3 <= ranks <= layers
    ensures (exists m :: Candidate(layers, ranks, m)) <==> (layers + ranks - 1) / ranks * (ranks - 2) + 2 <= layers
  {
    hide Candidate;
    var m0 := (layers + ranks - 1) / ranks;
    RoundUp(layers, ranks);
    CandidateIff(layers, ranks, m0);
    forall m | Candidate(layers, ranks, m)
      ensures m0 * (ranks - 2) + 2 <= layers
    {
      CandidateIff(layers, ranks, m);
      if m < m0 {
        Times(m0 - 1, ranks, m);
      }
      Times(m, ranks - 2, m0);
    }
  }

  /** The best middle count is the average rounded up: the least that leaves no rank over
      it, and the only one the search can settle on. */
  lemma BestIs(layers: int, ranks: int, m: int)
    requires 3 <= ranks <= layers
    ensures Best(layers, ranks, m) <==> Candidate(layers, ranks, m) && m == (layers + ranks - 1) / ranks
  {
    hide Candidate, Diff;
    var m0 := (layers + ranks - 1) / ranks;
    RoundUp(layers, ranks);
    forall k | Candidate(layers, ranks, k)
      ensures Candidate(layers, ranks, m0) && m0 <= k
      ensures Diff(layers, ranks, m0) <= Diff(layers, ranks, k)
      ensures m0 < k ==> Diff(layers, ranks, m0) < Diff(layers, ranks, k)
    {
      CandidateIff(layers, ranks, k);
      CandidateIff(layers, ranks, m0);
      if k < m0 {
        Times(m0 - 1, ranks, k);
      }
      Times(k, ranks - 2, m0);
      DiffGrows(layers, ranks, m0, k);
    }
  }

  /** A larger middle count leaves less for the ends, and so a larger difference. */
  lemma DiffGrows(layers: int, ranks: int, m: int, k: int)
    requires ranks >= 3 && Candidate(layers, ranks, m) && Candidate(layers, ranks, k) && m <= k
    ensures Diff(layers, ranks, m) <= Diff(layers, ranks, k)
    ensures m < k ==> Diff(layers, ranks, m) < Diff(layers, ranks, k)
  {
    Times(k, ranks - 2, m);
  }

  /** Enough layers for a candidate to exist. */
  lemma EnoughLayers(layers: int, ranks: int)
    requires ranks >= 3 && layers >= ranks / 2 * (ranks - 2) + 2
    ensures layers >= ranks
    ensures Candidate(layers, ranks, (layers + ranks - 1) / ranks)
  {
    var h, m := ranks / 2, (layers + ranks - 1) / ranks;
    RoundUp(layers, ranks);
    Times(h, ranks - 2, 1);
    assert m * ranks == m * (ranks - 2) + 2 * m;
    if m <= h {
      Times(h, ranks - 2, m);
    }
    CandidateIff(layers, ranks, m);
  }

  /** Five layers on four ranks: none of the middle counts works, although there are more layers
      than ranks. */
  lemma FiveLayersOnFourRanks(m: int)
    ensures !Candidate(5, 4, m)
  {
    CandidateIff(5, 4, m);
  }

  lemma {:induction false} MiddlePrefix(layers: int, ranks: int, m: int, n: nat)
    requires ranks >= 3 && 1 <= n < ranks
    ensures Prefix(Shards(layers, ranks, m), n) == First(layers, ranks, m) + (n - 1) * m
  {
    var s := Shards(layers, ranks, m);
    if n == 1 {
      assert Prefix(s, 0) == 0;
    } else {
      MiddlePrefix(layers, ranks, m, n - 1);
      assert s[n - 1] == m;
      assert (n - 2) * m + m == (n - 1) * m;
    }
  }

  /** A candidate uses every layer exactly, no rank has more than the middle ones, none is idle,
      and the last rank has at most one layer more than the first. */
  lemma ShardsSum(layers: int, ranks: int, m: int)
    requires ranks >= 3 && Candidate(layers, ranks, m)
    ensures var s := Shards(layers, ranks, m);
            && Prefix(s, ranks) == layers
            && (forall i :: 0 <= i < ranks ==> 0 < s[i] <= m)
            && 0 <= s[ranks - 1] - s[0] <= 1
  {
    MiddlePrefix(layers, ranks, m, ranks - 1);
  }
}
