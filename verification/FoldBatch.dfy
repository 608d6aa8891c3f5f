/** Folding a batch dimension in two and unfolding it again. Folding rewrites the non-tensor
    dictionary it is given, which the folded container then shares with the original. */
module FoldBatch {
  import opened Options
  import opened Sequences
  import opened Arithmetic
  import opened PythonLists

  datatype Fault = AssertionError | ZeroDivisionError

  /** Values with one batch dimension, or with two. */
  datatype Values<X> = Flat(items: seq<X>) | Folded(groups: seq<seq<X>>)

  class ColumnDict<V> {
    var items: map<string, Values<V>>

    constructor (items: map<string, Values<V>>)
      ensures this.items == items
    {
      this.items := items;
    }
  }

  class Container<T, V> {
    var batch: Values<T>
    var columns: ColumnDict<V>

    constructor (batch: Values<T>, columns: ColumnDict<V>)
      ensures this.batch == batch && this.columns == columns
    {
      this.batch := batch;
      this.columns := columns;
    }

    /** Tensor and columns are flat, n rows each. */
    ghost predicate FlatSized(n: nat)
      reads this, columns
    {
      && batch.Flat? && |batch.items| == n
      && forall k :: k in columns.items ==> columns.items[k].Flat? && |columns.items[k].items| == n
    }
  }

  /** Row-major reshape to m groups, and back to one dimension. */
  function Fold<X>(v: Values<X>, m: nat): Values<X>
    requires m > 0 && v.Flat?
  {
    Folded(Cut(v.items, m, |v.items| / m))
  }

  function Unfold<X>(v: Values<X>): Values<X> {
    if v.Folded? then Flat(Flatten(v.groups)) else v
  }

  lemma {:induction false} FlattenCut<X>(xs: seq<X>, m: nat, c: nat)
    requires |xs| == m * c
    ensures Flatten(Cut(xs, m, c)) == xs
    decreases m
  {
    hide Flatten, Cut;
    var pieces := Cut(xs, m, c);
    if m == 0 {
      assert xs == [] && pieces == [];
      FlattenNone<X>();
    } else {
      CutStep(xs, m, c);
      Halves(xs, c);
      var head, tail := pieces[0], pieces[1..];
      FlattenCut(Drop(xs, c), m - 1, c);
      FlattenConcat([head], tail);
      FlattenOne(head);
      assert pieces == [head] + tail;
    }
  }

  /** Unfolding undoes folding. */
  lemma UnfoldFold<X>(v: Values<X>, m: nat)
    requires m > 0 && v.Flat? && |v.items| % m == 0
    ensures Unfold(Fold(v, m)) == v
  {
    Whole(|v.items|, m);
    assert m * (|v.items| / m) == |v.items|;
    FlattenCut(v.items, m, |v.items| / m);
  }

  /** Folding undoes unfolding of groups of one size. */
  lemma FoldUnfold<X>(groups: seq<seq<X>>, c: nat)
    requires groups != [] && forall i :: 0 <= i < |groups| ==> |groups[i]| == c
    ensures |Flatten(groups)| == |groups| * c
    ensures Fold(Unfold(Folded(groups)), |groups|) == Folded(groups)
  {
    CutFlatten(groups, c);
    assert |groups| * c == c * |groups|;
    Cancel(c, |groups|);
  }

  lemma {:induction false} CutFlatten<X>(groups: seq<seq<X>>, c: nat)
    requires forall i :: 0 <= i < |groups| ==> |groups[i]| == c
    ensures |Flatten(groups)| == |groups| * c && Cut(Flatten(groups), |groups|, c) == groups
    decreases |groups|
  {
    hide Flatten, Cut, Take, Drop;
    var n := |groups|;
    if n == 0 {
      FlattenNone<X>();
    } else {
      var head, tail := groups[0], groups[1..];
      CutFlatten(tail, c);
      FlattenConcat([head], tail);
      FlattenOne(head);
      assert groups == [head] + tail;
      assert n * c == c + (n - 1) * c;
      CutStep(Flatten(groups), n, c);
      TakeDrop(head, Flatten(tail));
    }
  }

  /** `fold_batch_dim`. The original keeps its tensor, but its columns are folded with the result's:
      both containers hold the same dictionary. */
  method FoldBatchDim<T, V>(data: Container<T, V>, newBatchSize: nat, ghost n: nat)
    returns (r: Result<Container<T, V>, Fault>)
    requires data.FlatSized(n)
    modifies data.columns
    ensures r.Failure? <==> newBatchSize == 0 || n % newBatchSize != 0
    ensures r.Failure? ==> r.error == if newBatchSize == 0 then ZeroDivisionError else AssertionError
    ensures r.Failure? ==> data.columns.items == old(data.columns.items)
    ensures r.Success? ==>
              && fresh(r.value) && r.value.columns == data.columns
              && r.value.batch == Fold(data.batch, newBatchSize)
              && data.columns.items == old(map k | k in data.columns.items :: Fold(data.columns.items[k], newBatchSize))
  {
    if newBatchSize == 0 {
      return Failure(ZeroDivisionError);
    }
    var batchSize := |data.batch.items|;
    if batchSize % newBatchSize != 0 {
      return Failure(AssertionError);
    }
    var tensor := Fold(data.batch, newBatchSize);
    var nonTensor := data.columns;
    ghost var before := nonTensor.items;
    var todo := nonTensor.items.Keys;
    while todo != {}
      invariant todo <= before.Keys && nonTensor.items.Keys == before.Keys
      invariant forall k :: k in before ==>
                  nonTensor.items[k] == if k in todo then before[k] else Fold(before[k], newBatchSize)
      decreases |todo|
    {
      var key :| key in todo;
      nonTensor.items := nonTensor.items[key := Fold(nonTensor.items[key], newBatchSize)];
      todo := todo - {key};
    }
    var folded := new Container(tensor, nonTensor);
    return Success(folded);
  }

  /** `unfold_batch_dim` over two dimensions: the argument's dictionary is left alone. */
  method UnfoldBatchDim<T, V>(data: Container<T, V>) returns (r: Container<T, V>)
    ensures fresh(r) && fresh(r.columns)
    ensures r.batch == Unfold(data.batch)
    ensures r.columns.items == map k | k in data.columns.items :: Unfold(data.columns.items[k])
  {
    var nonTensorNew: map<string, Values<V>> := map[];
    var todo := data.columns.items.Keys;
    while todo != {}
      invariant todo <= data.columns.items.Keys && nonTensorNew.Keys == data.columns.items.Keys - todo
      invariant forall k :: k in nonTensorNew ==> nonTensorNew[k] == Unfold(data.columns.items[k])
      decreases |todo|
    {
      var key :| key in todo;
      nonTensorNew := nonTensorNew[key := Unfold(data.columns.items[key])];
      todo := todo - {key};
    }
    var dict := new ColumnDict(nonTensorNew);
    r := new Container(Unfold(data.batch), dict);
  }

  /** Folding and unfolding give the contents back, in a new container; the original's columns stay
      folded, out of step with its tensor. */
  method FoldThenUnfold<T, V>(data: Container<T, V>, m: nat, ghost n: nat) returns (r: Container<T, V>)
    requires data.FlatSized(n) && m > 0 && n % m == 0
    modifies data.columns
    ensures r.batch == old(data.batch) && r.columns.items == old(data.columns.items)
    ensures data.batch == old(data.batch) && forall k :: k in data.columns.items ==> data.columns.items[k].Folded?
  {
    ghost var before := data.columns.items;
    var folded := FoldBatchDim(data, m, n);
    r := UnfoldBatchDim(folded.value);
    UnfoldFold(data.batch, m);
    forall k | k in before
      ensures Unfold(Fold(before[k], m)) == before[k]
    {
      UnfoldFold(before[k], m);
    }
    assert r.columns.items == before;
  }
}
