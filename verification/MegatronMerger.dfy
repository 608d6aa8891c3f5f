/** Merging a pipeline-parallel checkpoint: every rank renumbers its layers and writes its share of
    the files. */
module MegatronMerger {
  import opened Options
  import opened Tiling
  import opened Arithmetic
  import opened ArraySplit
  import opened PipelineShards
  import opened LayerOffset

  // ----- the layout the merger loads -----

  /** How the merger configures the model from the list of shards. */
  function MergerConfig(shards: seq<int>, layers: int): Config {
    Config(layers, |shards|,
           if |shards| > 1 then Some(shards[0]) else None,
           if |shards| > 2 then Some(shards[|shards| - 1]) else None,
           None, false, false)
  }

  lemma MergerSizes(shards: seq<int>, layers: int)
    requires Searched(shards, layers)
    ensures var c := MergerConfig(shards, layers); Regular(c) && Sizes(c) == shards
  {
    var c := MergerConfig(shards, layers);
    if |shards| >= 3 {
      var m :| Best(layers, |shards|, m) && shards == Shards(layers, |shards|, m);
      ManyRanks(layers, |shards|, m);
    } else {
      forall n | 0 <= n < |shards|
        ensures Size(c, n) == shards[n]
      {
        Small(n, |shards|);
      }
      assert Sizes(c) == shards;
    }
  }

  lemma ManyRanks(layers: int, ranks: int, m: int)
    requires ranks >= 3 && Best(layers, ranks, m)
    ensures var c := MergerConfig(Shards(layers, ranks, m), layers); Regular(c) && Sizes(c) == Shards(layers, ranks, m)
  {
    var shards := Shards(layers, ranks, m);
    var c := MergerConfig(shards, layers);
    assert MiddleLayers(c) == m * (ranks - 2);
    Cancel(m, ranks - 2);
    assert Quota(c) == m;
    forall n | 0 <= n < |shards|
      ensures Size(c, n) == shards[n]
    {
      Small(n, ranks);
    }
    assert Sizes(c) == shards;
  }

  /** The offset the model is loaded with is the prefix sum the merger renumbers with. */
  lemma OffsetIsPrefixSum(shards: seq<int>, layers: int, caller: nat, rank: nat)
    requires Searched(shards, layers) && rank < |shards|
    ensures Offset(MergerConfig(shards, layers), caller, rank, None) == Success(Prefix(shards, rank))
  {
    hide Offset, Sizes;
    MergerSizes(shards, layers);
    OffsetForAnotherRank(MergerConfig(shards, layers), caller, rank);
    Small(rank, |shards|);
  }

  /** Local layer numbers of all ranks and global layer numbers correspond one to one. */
  lemma LayersCorrespond(shards: seq<int>, layers: int, layer: int)
    requires Searched(shards, layers)
    ensures 0 <= layer < layers <==> exists rank, local :: At(shards, rank, local, layer)
    ensures forall rank, local, rank', local' ::
              At(shards, rank, local, layer) && At(shards, rank', local', layer) ==> rank == rank' && local == local'
  {
    hide At, Searched;
    SearchedLayout(shards, layers);
    Corresponds(shards, layer);
  }

  // ----- renumbering a state dict -----

  /** A parameter's name, with its layer number, if it has one, taken out. */
  datatype Key = Key(layer: Option<nat>, name: string)

  function Renumber(k: Key, shift: nat): Key {
    if k.layer.Some? then Key(Some(k.layer.value + shift), k.name) else k
  }

  /** The largest local layer number among the first n keys, or 0. */
  function Highest<T>(model: seq<(Key, T)>, n: nat): nat
    requires n <= |model|
  {
    if n == 0 then 0
    else
      var high, key := Highest(model, n - 1), model[n - 1].0;
      if key.layer.Some? && key.layer.value > high then key.layer.value else high
  }

  /** Where the c-th model chunk of a rank starts. */
  function ChunkStart<T>(models: seq<seq<(Key, T)>>, start: nat, c: nat): nat
    requires c <= |models|
  {
    if c == 0 then start else ChunkStart(models, start, c - 1) + Highest(models[c - 1], |models[c - 1]|) + 1
  }

  predicate Distinct<T>(model: seq<(Key, T)>) {
    forall i, j :: 0 <= i < j < |model| ==> model[i].0 != model[j].0
  }

  lemma {:induction false} HighestBounds<T>(model: seq<(Key, T)>, n: nat)
    requires n <= |model|
    ensures forall k :: 0 <= k < n && model[k].0.layer.Some? ==> model[k].0.layer.value <= Highest(model, n)
  {
    if n > 0 {
      HighestBounds(model, n - 1);
    }
  }

  /** Chunks never share a layer: each starts past the last layer of the one before. */
  lemma {:induction false} ChunksApart<T>(models: seq<seq<(Key, T)>>, start: nat, c: nat, k: nat, d: nat)
    requires c < d <= |models| && k < |models[c]| && models[c][k].0.layer.Some?
    ensures ChunkStart(models, start, c) + models[c][k].0.layer.value < ChunkStart(models, start, d)
  {
    if c + 1 < d {
      ChunksApart(models, start, c, k, d - 1);
    } else {
      HighestBounds(models[c], |models[c]|);
    }
  }

  /** The keys of the first c chunks and k keys of the next one are in, renumbered, each with its
      tensor where it has a layer; nothing else is in. */
  ghost predicate Merged<T>(models: seq<seq<(Key, T)>>, start: nat, c: nat, k: nat, state: map<Key, T>)
    requires c <= |models|
  {
    && (forall d, j :: Before(models, d, j, c, k) ==>
          var g := Renumber(models[d][j].0, ChunkStart(models, start, d));
          g in state && (g.layer.Some? ==> state[g] == models[d][j].1))
    && (forall g :: g in state ==>
          exists d, j :: Before(models, d, j, c, k) && g == Renumber(models[d][j].0, ChunkStart(models, start, d))
            && state[g] == models[d][j].1)
  }

  predicate Before<T>(models: seq<seq<(Key, T)>>, d: int, j: int, c: nat, k: nat)
    requires c <= |models|
  {
    0 <= d < |models| && 0 <= j < |models[d]| && (d < c || (d == c && j < k))
  }

  lemma MergeStep<T>(models: seq<seq<(Key, T)>>, start: nat, c: nat, k: nat, state: map<Key, T>)
    requires c < |models| && k < |models[c]| && Distinct(models[c]) && Merged(models, start, c, k, state)
    ensures var g := Renumber(models[c][k].0, ChunkStart(models, start, c));
            Merged(models, start, c, k + 1, state[g := models[c][k].1])
  {
    hide ChunkStart, Highest;
    var g := Renumber(models[c][k].0, ChunkStart(models, start, c));
    var state' := state[g := models[c][k].1];
    forall d, j | Before(models, d, j, c, k + 1)
      ensures var h := Renumber(models[d][j].0, ChunkStart(models, start, d));
              h in state' && (h.layer.Some? ==> state'[h] == models[d][j].1)
    {
      if d < c && models[d][j].0.layer.Some? {
        ChunksApart(models, start, d, j, c);
      }
      assert (d == c && j == k) || Before(models, d, j, c, k);
    }
    forall h | h in state'
      ensures exists d, j :: Before(models, d, j, c, k + 1) &&
                h == Renumber(models[d][j].0, ChunkStart(models, start, d)) && state'[h] == models[d][j].1
    {
      if h == g {
        assert Before(models, c, k, c, k + 1);
      } else {
        var d, j :| Before(models, d, j, c, k) && h == Renumber(models[d][j].0, ChunkStart(models, start, d))
          && state[h] == models[d][j].1;
        assert Before(models, d, j, c, k + 1);
      }
    }
  }

  lemma NextModel<T>(models: seq<seq<(Key, T)>>, start: nat, c: nat, state: map<Key, T>)
    requires c < |models| && Merged(models, start, c, |models[c]|, state)
    ensures Merged(models, start, c + 1, 0, state)
  {
    hide ChunkStart, Renumber;
    assert forall d, j :: Before(models, d, j, c, |models[c]|) <==> Before(models, d, j, c + 1, 0);
  }

  /** `_merge_state_dicts` on one rank, its models' parameters in order. */
  method MergeStateDicts<T>(models: seq<seq<(Key, T)>>, start: nat) returns (state: map<Key, T>)
    requires forall m :: m in models ==> Distinct(m)
    ensures Merged(models, start, |models|, 0, state)
  {
    hide Merged, Renumber;
    state := map[];
    var layersCum := start;
    NothingMerged(models, start);
    for c := 0 to |models|
      invariant layersCum == ChunkStart(models, start, c)
      invariant Merged(models, start, c, 0, state)
    {
      var model := models[c];
      assert model in models;
      var layersHandled := 0;
      for k := 0 to |model|
        invariant layersHandled == Highest(model, k)
        invariant Merged(models, start, c, k, state)
      {
        var (key, tensor) := model[k];
        if key.layer.Some? {
          layersHandled := if key.layer.value > layersHandled then key.layer.value else layersHandled;
        }
        MergeStep(models, start, c, k, state);
        state := state[Renumber(key, layersCum) := tensor];
      }
      NextModel(models, start, c, state);
      layersCum := layersCum + layersHandled + 1;
    }
  }

  lemma NothingMerged<T>(models: seq<seq<(Key, T)>>, start: nat)
    ensures Merged(models, start, 0, 0, map[])
  {
  }

  /** A chunk with all local layers from 0 to n - 1, for some n at least 1. */
  predicate Holds<T>(model: seq<(Key, T)>, n: int) {
    && n >= 1
    && (forall k :: 0 <= k < |model| && model[k].0.layer.Some? ==> model[k].0.layer.value < n)
    && (exists k :: 0 <= k < |model| && model[k].0.layer == Some((n - 1) as nat))
  }

  lemma {:induction false} HighestIs<T>(model: seq<(Key, T)>, n: nat)
    requires n <= |model|
    ensures Highest(model, n) == 0 || exists k :: 0 <= k < n && model[k].0.layer == Some(Highest(model, n))
  {
    if n > 0 {
      HighestIs(model, n - 1);
    }
  }

  /** With full chunks, each starts at the total size of those before it. */
  lemma {:induction false} ChunkStartIs<T>(models: seq<seq<(Key, T)>>, start: nat, sizes: seq<int>, c: nat)
    requires |sizes| == |models| && c <= |models| && forall d :: 0 <= d < |models| ==> Holds(models[d], sizes[d])
    ensures ChunkStart(models, start, c) == start + Prefix(sizes, c)
  {
    if c > 0 {
      ChunkStartIs(models, start, sizes, c - 1);
      var m := models[c - 1];
      assert Holds(m, sizes[c - 1]);
      HighestBounds(m, |m|);
      HighestIs(m, |m|);
    }
  }

  /** Every parameter of a layer is in the merged dictionary under its number plus where its chunk starts, with
      its own tensor; every other parameter is in under its own name; and nothing else is in. */
  lemma MergedKeys<T>(models: seq<seq<(Key, T)>>, start: nat, state: map<Key, T>)
    requires Merged(models, start, |models|, 0, state)
    ensures forall d, j :: 0 <= d < |models| && 0 <= j < |models[d]| && models[d][j].0.layer.Some? ==>
              var g := Key(Some(models[d][j].0.layer.value + ChunkStart(models, start, d)), models[d][j].0.name);
              g in state && state[g] == models[d][j].1
    ensures forall d, j :: 0 <= d < |models| && 0 <= j < |models[d]| && models[d][j].0.layer.None? ==>
              models[d][j].0 in state
    ensures forall name :: Key(None, name) in state ==>
              exists d, j :: 0 <= d < |models| && 0 <= j < |models[d]| && models[d][j].0 == Key(None, name)
                && state[Key(None, name)] == models[d][j].1
    ensures forall n: nat, name :: Key(Some(n), name) in state ==>
              exists d, j :: 0 <= d < |models| && 0 <= j < |models[d]| && models[d][j].0.layer.Some?
                && models[d][j].0.name == name && n == models[d][j].0.layer.value + ChunkStart(models, start, d)
  {
    hide ChunkStart;
    forall d, j | 0 <= d < |models| && 0 <= j < |models[d]|
      ensures Before(models, d, j, |models|, 0)
      ensures var g := Renumber(models[d][j].0, ChunkStart(models, start, d));
              g in state && (g.layer.Some? ==> state[g] == models[d][j].1)
    {
      assert Before(models, d, j, |models|, 0);
    }
    forall g | g in state
      ensures exists d, j :: Before(models, d, j, |models|, 0)
                && g == Renumber(models[d][j].0, ChunkStart(models, start, d)) && state[g] == models[d][j].1
    {
    }
  }

  lemma MergedLayersOwned<T>(shards: seq<int>, rank: nat, model: seq<(Key, T)>, state: map<Key, T>, g: Key)
    requires rank < |shards| && Prefix(shards, rank) >= 0 && Holds(model, shards[rank])
    requires Merged([model], Prefix(shards, rank), 1, 0, state) && g in state && g.layer.Some?
    ensures Owns(shards, rank, g.layer.value)
  {
    hide Prefix;
    var start := Prefix(shards, rank);
    var d, j :| Before([model], d, j, 1, 0) && g == Renumber([model][d][j].0, ChunkStart([model], start, d))
      && state[g] == [model][d][j].1;
    assert ChunkStart([model], start, 0) == start;
  }

  /** Two ranks never write the same layer: their merged dictionaries share no layer key. */
  lemma RanksDisjoint<T>(shards: seq<int>, layers: int, rank: nat, model: seq<(Key, T)>, state: map<Key, T>,
                         rank': nat, model': seq<(Key, T)>, state': map<Key, T>, g: Key)
    requires Searched(shards, layers) && rank < |shards| && rank' < |shards|
    requires Holds(model, shards[rank]) && Holds(model', shards[rank'])
    requires Prefix(shards, rank) >= 0 && Merged([model], Prefix(shards, rank), 1, 0, state)
    requires Prefix(shards, rank') >= 0 && Merged([model'], Prefix(shards, rank'), 1, 0, state')
    requires g.layer.Some? && g in state && g in state'
    ensures rank == rank' && 0 <= g.layer.value < layers
  {
    hide Merged, Holds, Searched;
    MergedLayersOwned(shards, rank, model, state, g);
    MergedLayersOwned(shards, rank', model', state', g);
    SearchedLayout(shards, layers);
    TilesExactly(shards, g.layer.value);
  }

  // ----- allocating the files -----

  function SavesPerLayer(layers: int): nat {
    if layers < 30 then 1 else 2
  }

  /** The i-th of k nearly equal parts, as `np.array_split` cuts them. */
  function Part(keys: seq<string>, k: nat, i: nat): seq<string>
    requires i < k
  {
    PartsInOrder(|keys|, k, i, i + 1);
    keys[PartStart(|keys|, k, i)..PartStart(|keys|, k, i + 1)]
  }

  /** Files number `base` onwards, the i-th with the i-th part of the keys; the index names a key's file. */
  ghost predicate Saved(keys: seq<string>, base: nat, count: nat, files: seq<(nat, seq<string>)>,
                        index: map<string, nat>)
  {
    && |files| == count > 0
    && (forall i :: 0 <= i < count ==> files[i] == (base + i, Part(keys, count, i)))
    && (forall k :: k in index <==> k in keys)
    && (forall k :: k in index ==> exists i :: 0 <= i < count && k in Part(keys, count, i) && index[k] == base + i)
  }

  predicate NoRepeats(keys: seq<string>) {
    forall i, j :: 0 <= i < j < |keys| ==> keys[i] != keys[j]
  }

  lemma PartsApart(keys: seq<string>, count: nat, i: nat, j: nat, k: string)
    requires NoRepeats(keys) && i < j < count && k in Part(keys, count, i)
    ensures k !in Part(keys, count, j)
  {
    hide PartStart;
    PartsInOrder(|keys|, count, i, i + 1);
    PartsInOrder(|keys|, count, i + 1, j);
    PartsInOrder(|keys|, count, j, j + 1);
    var x :| 0 <= x < |Part(keys, count, i)| && Part(keys, count, i)[x] == k;
    assert keys[PartStart(|keys|, count, i) + x] == k;
    forall y | 0 <= y < |Part(keys, count, j)|
      ensures Part(keys, count, j)[y] != k
    {
      assert Part(keys, count, j)[y] == keys[PartStart(|keys|, count, j) + y];
    }
  }

  /** Every key is in exactly one file, the one the index names. */
  lemma EachKeyInOneFile(keys: seq<string>, base: nat, count: nat, files: seq<(nat, seq<string>)>,
                         index: map<string, nat>, k: string)
    requires Saved(keys, base, count, files, index) && NoRepeats(keys) && k in keys
    ensures k in index && base <= index[k] < base + count && k in files[index[k] - base].1
    ensures forall i :: 0 <= i < count && k in files[i].1 ==> files[i].0 == index[k]
  {
    hide Part;
    var i :| 0 <= i < count && k in Part(keys, count, i) && index[k] == base + i;
    forall j | 0 <= j < count && k in files[j].1
      ensures i == j
    {
      if i < j {
        PartsApart(keys, count, i, j, k);
      } else if j < i {
        PartsApart(keys, count, j, i, k);
      }
    }
  }

  /** The gathered index, `{k: v for i in all_save_indexes for k, v in i.items()}`: the last rank to
      have a key decides. */
  function Gathered(indexes: seq<map<string, nat>>): map<string, nat> {
    if indexes == [] then map[] else Gathered(indexes[..|indexes| - 1]) + indexes[|indexes| - 1]
  }

  lemma {:induction false} GatheredFrom(indexes: seq<map<string, nat>>, r: nat, k: string)
    requires r < |indexes| && k in indexes[r] && forall q :: r < q < |indexes| ==> k !in indexes[q]
    ensures k in Gathered(indexes) && Gathered(indexes)[k] == indexes[r][k]
  {
    if r < |indexes| - 1 {
      GatheredFrom(indexes[..|indexes| - 1], r, k);
    }
  }

  /** All ranks have saved their keys. */
  ghost predicate SavedByAll(shards: seq<int>, per: nat, keys: seq<seq<string>>, files: seq<seq<(nat, seq<string>)>>,
                             indexes: seq<map<string, nat>>) {
    && |shards| == |keys| == |files| == |indexes|
    && forall r :: 0 <= r < |shards| ==> SavedByRank(shards, per, r, keys[r], files[r], indexes[r])
  }

  ghost predicate SavedByRank(shards: seq<int>, per: nat, r: nat, keys: seq<string>, files: seq<(nat, seq<string>)>,
                              index: map<string, nat>)
    requires r < |shards|
  {
    && NoRepeats(keys) && Prefix(shards, r) >= 0 && shards[r] > 0
    && Saved(keys, Prefix(shards, r) * per, shards[r] * per, files, index)
  }

  /** No key is saved by two ranks. */
  predicate ApartOverRanks(keys: seq<seq<string>>) {
    forall q, r, k :: 0 <= q < |keys| && 0 <= r < |keys| && k in keys[q] && k in keys[r] ==> q == r
  }

  lemma FileKeys(keys: seq<string>, base: nat, count: nat, files: seq<(nat, seq<string>)>, index: map<string, nat>,
                 i: nat, k: string)
    requires Saved(keys, base, count, files, index) && i < |files| && k in files[i].1
    ensures k in keys
  {
    hide PartStart;
    PartsInOrder(|keys|, count, i, i + 1);
    var part := Part(keys, count, i);
    var x :| 0 <= x < |part| && part[x] == k;
    assert keys[PartStart(|keys|, count, i) + x] == k;
  }

  /** Over all ranks every key is in exactly one file, the one the gathered index names. */
  lemma GatheredIndexExact(shards: seq<int>, per: nat, keys: seq<seq<string>>, files: seq<seq<(nat, seq<string>)>>,
                           indexes: seq<map<string, nat>>, r: nat, k: string)
    requires SavedByAll(shards, per, keys, files, indexes) && ApartOverRanks(keys) && r < |keys| && k in keys[r]
    ensures k in Gathered(indexes)
    ensures exists i :: 0 <= i < |files[r]| && k in files[r][i].1 && files[r][i].0 == Gathered(indexes)[k]
    ensures forall q, i :: 0 <= q < |files| && 0 <= i < |files[q]| && k in files[q][i].1 ==>
              q == r && files[q][i].0 == Gathered(indexes)[k]
  {
    hide Saved, Gathered;
    var base, count := Prefix(shards, r) * per, shards[r] * per;
    assert SavedByRank(shards, per, r, keys[r], files[r], indexes[r]);
    EachKeyInOneFile(keys[r], base, count, files[r], indexes[r], k);
    FileNumbers(keys[r], base, count, files[r], indexes[r]);
    forall q | 0 <= q < |keys|
      ensures k in indexes[q] ==> q == r
      ensures forall i :: 0 <= i < |files[q]| && k in files[q][i].1 ==> q == r
    {
      assert SavedByRank(shards, per, q, keys[q], files[q], indexes[q]);
      FileNumbers(keys[q], Prefix(shards, q) * per, shards[q] * per, files[q], indexes[q]);
      forall i | 0 <= i < |files[q]| && k in files[q][i].1
        ensures q == r
      {
        FileKeys(keys[q], Prefix(shards, q) * per, shards[q] * per, files[q], indexes[q], i, k);
      }
    }
    GatheredFrom(indexes, r, k);
    var at := indexes[r][k] - base;
    assert files[r][at].0 == Gathered(indexes)[k];
  }

  lemma FileNumbers(keys: seq<string>, base: nat, count: nat, files: seq<(nat, seq<string>)>, index: map<string, nat>)
    requires Saved(keys, base, count, files, index)
    ensures |files| == count && (forall i :: 0 <= i < count ==> files[i].0 == base + i)
    ensures forall k :: k in index <==> k in keys
  {
  }

  /** The saving loop of `save_hf_model_and_tokenizer` on one rank. */
  method SaveFiles(keys: seq<string>, shards: seq<int>, rank: nat, layers: nat)
    returns (files: seq<(nat, seq<string>)>, index: map<string, nat>)
    requires NoRepeats(keys) && rank < |shards| && Layout(shards, layers)
    ensures var per := SavesPerLayer(layers);
            Prefix(shards, rank) >= 0 && Saved(keys, Prefix(shards, rank) * per, shards[rank] * per, files, index)
  {
    hide Part, Prefix, Saving, Saved, Layout;
    LayoutStart(shards, layers, rank);
    var perLayer := SavesPerLayer(layers);
    var count: nat := shards[rank] * perLayer;
    var base: nat := Prefix(shards, rank) * perLayer;
    files, index := [], map[];
    NothingSaved(keys, base, count);
    for i := 0 to count
      invariant Saving(keys, base, count, i, files, index)
    {
      var chunk := Part(keys, count, i);
      ghost var before := index;
      for j := 0 to |chunk|
        invariant Indexed(chunk[..j], base + i, before, index)
      {
        assert chunk[..j + 1] == chunk[..j] + [chunk[j]];
        index := index[chunk[j] := base + i];
      }
      assert chunk[..|chunk|] == chunk;
      SaveStep(keys, base, count, i, files, before, index);
      files := files + [(base + i, chunk)];
    }
    AllSaved(keys, base, count, files, index);
  }

  /** The index has the chunk's keys under this number and the others as before. */
  ghost predicate Indexed(chunk: seq<string>, number: nat, before: map<string, nat>, index: map<string, nat>) {
    && (forall k :: k in index <==> k in before || k in chunk)
    && (forall k :: k in index ==> index[k] == if k in chunk then number else before[k])
  }

  /** The saving loop after the first files. */
  ghost predicate Saving(keys: seq<string>, base: nat, count: nat, done: nat, files: seq<(nat, seq<string>)>,
                         index: map<string, nat>)
  {
    && |files| == done <= count && count > 0
    && (forall i :: 0 <= i < done ==> files[i] == (base + i, Part(keys, count, i)))
    && (forall k :: k in index <==> k in Parts(keys, count, done))
    && (forall k :: k in index ==> exists i :: 0 <= i < done && k in Part(keys, count, i) && index[k] == base + i)
  }

  /** The keys of the first parts. */
  function Parts(keys: seq<string>, count: nat, done: nat): seq<string>
    requires done <= count && count > 0
  {
    PartsInOrder(|keys|, count, done, done);
    keys[..PartStart(|keys|, count, done)]
  }

  lemma NextPart(keys: seq<string>, count: nat, i: nat)
    requires i < count
    ensures Parts(keys, count, i + 1) == Parts(keys, count, i) + Part(keys, count, i)
  {
    hide PartStart;
    PartsInOrder(|keys|, count, i, i + 1);
  }

  lemma NothingSaved(keys: seq<string>, base: nat, count: nat)
    requires count > 0
    ensures Saving(keys, base, count, 0, [], map[])
  {
    PartsAreNearlyEqual(|keys|, count, 0);
  }

  lemma AllSaved(keys: seq<string>, base: nat, count: nat, files: seq<(nat, seq<string>)>, index: map<string, nat>)
    requires count > 0 && Saving(keys, base, count, count, files, index)
    ensures Saved(keys, base, count, files, index)
  {
    hide Part, PartStart;
    PartsAreNearlyEqual(|keys|, count, 0);
    assert keys[..|keys|] == keys;
  }

  lemma LayoutStart(shards: seq<int>, layers: int, rank: nat)
    requires Layout(shards, layers) && rank < |shards|
    ensures 0 <= Prefix(shards, rank) && shards[rank] > 0
  {
    PrefixMonotone(shards, 0, rank);
  }

  lemma SaveStep(keys: seq<string>, base: nat, count: nat, i: nat, files: seq<(nat, seq<string>)>,
                 before: map<string, nat>, index: map<string, nat>)
    requires i < count && Saving(keys, base, count, i, files, before)
    requires Indexed(Part(keys, count, i), base + i, before, index)
    ensures Saving(keys, base, count, i + 1, files + [(base + i, Part(keys, count, i))], index)
  {
    hide Part, Parts;
    NextPart(keys, count, i);
    var chunk := Part(keys, count, i);
    forall k | k in index
      ensures exists j :: 0 <= j < i + 1 && k in Part(keys, count, j) && index[k] == base + j
    {
      if k !in chunk {
        var j :| 0 <= j < i && k in Part(keys, count, j) && before[k] == base + j;
      }
    }
  }

  /** File f is the i-th one of a rank. */
  predicate FileOf(shards: seq<int>, per: nat, rank: int, i: int, f: int) {
    0 <= rank < |shards| && 0 <= i < shards[rank] * per && f == Prefix(shards, rank) * per + i
  }

  lemma FileOfScaled(shards: seq<int>, per: nat, rank: int, i: int, f: int)
    ensures FileOf(shards, per, rank, i, f) <==> At(Scaled(shards, per), rank, i, f)
  {
    if 0 <= rank < |shards| {
      PrefixScaled(shards, per, rank);
    }
  }

  /** Over all ranks, the file numbers are 0 up to the total, one or two a layer, each used once. */
  lemma FileNumbersAreExact(shards: seq<int>, layers: nat, f: int)
    requires Searched(shards, layers)
    ensures 0 <= f < (if layers < 30 then layers else 2 * layers) <==>
              exists rank, i :: FileOf(shards, SavesPerLayer(layers), rank, i, f)
    ensures forall rank, i, rank', i' ::
              FileOf(shards, SavesPerLayer(layers), rank, i, f)
                && FileOf(shards, SavesPerLayer(layers), rank', i', f) ==>
              rank == rank' && i == i'
  {
    var per := SavesPerLayer(layers);
    assert layers * per == if layers < 30 then layers else 2 * layers;
    hide Prefix, At, FileOf, SavesPerLayer, Searched;
    SearchedLayout(shards, layers);
    var scaled := Scaled(shards, per);
    PrefixScaled(shards, per, |shards|);
    Corresponds(scaled, f);
    forall rank, i
      ensures FileOf(shards, per, rank, i, f) <==> At(scaled, rank, i, f)
    {
      FileOfScaled(shards, per, rank, i, f);
    }
  }
}
