/** The index set of a tensor shape, which its number of elements counts. */
module Shapes {
  import opened Arithmetic
  import opened Sequences

  /** One coordinate below each dimension. */
  predicate IsIndex(index: seq<nat>, shape: seq<nat>) {
    |index| == |shape| && forall d :: 0 <= d < |shape| ==> index[d] < shape[d]
  }

  /** The indices with first coordinate i. */
  function Under(i: nat, tails: seq<seq<nat>>): (r: seq<seq<nat>>)
    ensures |r| == |tails| && forall k :: 0 <= k < |tails| ==> r[k] == [i] + tails[k]
  {
    seq(|tails|, k requires 0 <= k < |tails| => [i] + tails[k])
  }

  /** The indices with first coordinate below n, in row-major order. */
  function Rows(n: nat, tails: seq<seq<nat>>): seq<seq<nat>> {
    if n == 0 then [] else Rows(n - 1, tails) + Under(n - 1, tails)
  }

  function Indices(shape: seq<nat>): seq<seq<nat>> {
    if shape == [] then [[]] else Rows(shape[0], Indices(shape[1..]))
  }

  lemma {:induction false} RowsAt(n: nat, tails: seq<seq<nat>>, i: nat, k: nat)
    requires i < n && k < |tails|
    ensures |Rows(n, tails)| == n * |tails|
    ensures i * |tails| + k < n * |tails| && Rows(n, tails)[i * |tails| + k] == [i] + tails[k]
  {
    RowsSize(n, tails);
    RowsSize(n - 1, tails);
    assert (n - 1) * |tails| + |tails| == n * |tails|;
    if i < n - 1 {
      RowsAt(n - 1, tails, i, k);
    }
  }

  lemma {:induction false} RowsSize(n: nat, tails: seq<seq<nat>>)
    ensures |Rows(n, tails)| == n * |tails|
  {
    if n > 0 {
      RowsSize(n - 1, tails);
      assert (n - 1) * |tails| + |tails| == n * |tails|;
    }
  }

  /** An entry of the rows, split into its first coordinate and its place among the tails. */
  lemma RowsSplit(n: nat, tails: seq<seq<nat>>, j: nat)
    requires j < |Rows(n, tails)|
    ensures |tails| > 0 && j / |tails| < n && Rows(n, tails)[j] == [j / |tails|] + tails[j % |tails|]
  {
    hide Rows;
    RowsSize(n, tails);
    var i, k := j / |tails|, j % |tails|;
    assert j == i * |tails| + k;
    if i >= n {
      Times(i, |tails|, n);
    }
    RowsAt(n, tails, i, k);
  }

  /** Every index of the shape is listed exactly once, and there are as many as the shape has elements. */
  lemma {:induction false} IndicesExact(shape: seq<nat>)
    ensures |Indices(shape)| == Numel(shape)
    ensures forall index :: index in Indices(shape) <==> IsIndex(index, shape)
    ensures forall i, j :: 0 <= i < j < |Indices(shape)| ==> Indices(shape)[i] != Indices(shape)[j]
  {
    if shape != [] {
      var n, tails := shape[0], Indices(shape[1..]);
      IndicesExact(shape[1..]);
      RowsSize(n, tails);
      forall index
        ensures index in Indices(shape) <==> IsIndex(index, shape)
      {
        if index in Rows(n, tails) {
          ListedIsIndex(shape, index);
        }
        if IsIndex(index, shape) {
          IndexIsListed(shape, index);
        }
      }
      forall i, j | 0 <= i < j < |Rows(n, tails)|
        ensures Rows(n, tails)[i] != Rows(n, tails)[j]
      {
        ListedOnce(n, tails, i, j);
      }
    }
  }

  lemma ListedIsIndex(shape: seq<nat>, index: seq<nat>)
    requires shape != [] && index in Rows(shape[0], Indices(shape[1..]))
    requires forall tail :: tail in Indices(shape[1..]) <==> IsIndex(tail, shape[1..])
    ensures IsIndex(index, shape)
  {
    hide Rows, Indices;
    var n, tails := shape[0], Indices(shape[1..]);
    var j :| 0 <= j < |Rows(n, tails)| && Rows(n, tails)[j] == index;
    RowsSplit(n, tails, j);
    var tail := tails[j % |tails|];
    assert tail in tails;
    forall d | 0 <= d < |shape|
      ensures index[d] < shape[d]
    {
      if d > 0 {
        assert index[d] == tail[d - 1] && shape[d] == shape[1..][d - 1];
      }
    }
  }

  lemma IndexIsListed(shape: seq<nat>, index: seq<nat>)
    requires shape != [] && IsIndex(index, shape)
    requires forall tail :: tail in Indices(shape[1..]) <==> IsIndex(tail, shape[1..])
    ensures index in Rows(shape[0], Indices(shape[1..]))
  {
    hide Rows, Indices;
    var n, tails := shape[0], Indices(shape[1..]);
    assert IsIndex(index[1..], shape[1..]);
    var k :| 0 <= k < |tails| && tails[k] == index[1..];
    RowsAt(n, tails, index[0], k);
    assert [index[0]] + index[1..] == index;
  }

  lemma ListedOnce(n: nat, tails: seq<seq<nat>>, i: nat, j: nat)
    requires forall a, b :: 0 <= a < b < |tails| ==> tails[a] != tails[b]
    requires i < j < |Rows(n, tails)|
    ensures Rows(n, tails)[i] != Rows(n, tails)[j]
  {
    hide Rows;
    RowsSplit(n, tails, i);
    RowsSplit(n, tails, j);
    var a, b := Rows(n, tails)[i], Rows(n, tails)[j];
    var x, y := i % |tails|, j % |tails|;
    assert i == i / |tails| * |tails| + x && j == j / |tails| * |tails| + y;
    if x == y {
      assert a[0] == i / |tails| && b[0] == j / |tails|;
    } else {
      assert a[1..] == tails[x] && b[1..] == tails[y];
      assert tails[x] != tails[y] by {
        if x < y {
          assert tails[x] != tails[y];
        }
      }
    }
  }

  lemma OneMore(size: int, n: int)
    ensures size * (n - 1) + size == size * n
  {
  }

  /** Elements of one size laid end to end. */
  lemma {:induction false} FlattenSize<T>(elements: seq<seq<T>>, size: nat)
    requires forall e :: e in elements ==> |e| == size
    ensures |Flatten(elements)| == size * |elements|
  {
    if elements != [] {
      var front, last := elements[..|elements| - 1], elements[|elements| - 1];
      FlattenSize(front, size);
      FlattenAppend(front, last);
      assert front + [last] == elements && last in elements;
      OneMore(size, |elements|);
    }
  }
}
