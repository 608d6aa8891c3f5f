/** The batch container passed between workers: padding to a divisor, chunking and concatenation
    keep the tensor rows and the non-tensor columns in step. */
module DataProto {
  import opened Options
  import opened PythonLists
  import opened Arithmetic
  import opened Sequences
  import opened ArraySplit

  datatype Fault = AssertionError

  /** Tensor rows, where there is a tensor batch, and named columns of other values. */
  datatype Proto<T, V> = Proto(batch: Option<seq<T>>, columns: map<string, seq<V>>)

  /** Everything has n rows; with nothing in it at all, the length is 0. */
  predicate Sized<T, V>(p: Proto<T, V>, n: nat) {
    && (p.batch.Some? ==> |p.batch.value| == n)
    && (forall k :: k in p.columns ==> |p.columns[k]| == n)
    && (p.batch.None? && p.columns == map[] ==> n == 0)
  }

  predicate Alike<T, V>(p: Proto<T, V>, q: Proto<T, V>) {
    p.batch.Some? == q.batch.Some? && p.columns.Keys == q.columns.Keys
  }

  function Slice<T, V>(p: Proto<T, V>, lo: int, hi: int): Proto<T, V> {
    Proto(if p.batch.Some? then Some(PySlice(p.batch.value, lo, hi)) else None,
          map k | k in p.columns :: PySlice(p.columns[k], lo, hi))
  }

  function Joined<T, V>(p: Proto<T, V>, q: Proto<T, V>): Proto<T, V>
    requires Alike(p, q)
  {
    Proto(if p.batch.Some? then Some(p.batch.value + q.batch.value) else None,
          map k | k in p.columns :: p.columns[k] + q.columns[k])
  }

  // ----- concatenation -----

  predicate AllAlike<T, V>(ps: seq<Proto<T, V>>) {
    forall i :: 0 <= i < |ps| ==> Alike(ps[0], ps[i])
  }

  function Batches<T, V>(ps: seq<Proto<T, V>>): seq<seq<T>>
    requires forall i :: 0 <= i < |ps| ==> ps[i].batch.Some?
  {
    if ps == [] then [] else Batches(ps[..|ps| - 1]) + [ps[|ps| - 1].batch.value]
  }

  function Column<T, V>(ps: seq<Proto<T, V>>, k: string): seq<seq<V>>
    requires forall i :: 0 <= i < |ps| ==> k in ps[i].columns
  {
    if ps == [] then [] else Column(ps[..|ps| - 1], k) + [ps[|ps| - 1].columns[k]]
  }

  /** All batches one behind the other, and so for every column. */
  function ConcatAll<T, V>(ps: seq<Proto<T, V>>): Proto<T, V>
    requires ps != [] && AllAlike(ps)
  {
    Proto(if ps[0].batch.Some? then Some(Flatten(Batches(ps))) else None,
          map k | k in ps[0].columns :: Flatten(Column(ps, k)))
  }

  method BatchList<T, V>(ps: seq<Proto<T, V>>) returns (list: seq<seq<T>>)
    requires forall i :: 0 <= i < |ps| ==> ps[i].batch.Some?
    ensures list == Batches(ps)
  {
    list := [];
    for i := 0 to |ps|
      invariant list == Batches(ps[..i])
    {
      assert ps[..i + 1][..i] == ps[..i];
      list := list + [ps[i].batch.value];
    }
    assert ps[..|ps|] == ps;
  }

  method ColumnList<T, V>(ps: seq<Proto<T, V>>, k: string) returns (list: seq<seq<V>>)
    requires forall i :: 0 <= i < |ps| ==> k in ps[i].columns
    ensures list == Column(ps, k)
  {
    list := [];
    for i := 0 to |ps|
      invariant list == Column(ps[..i], k)
    {
      assert ps[..i + 1][..i] == ps[..i];
      list := list + [ps[i].columns[k]];
    }
    assert ps[..|ps|] == ps;
  }

  /** `DataProto.concat` on containers with the same columns. */
  method Concat<T, V>(ps: seq<Proto<T, V>>) returns (r: Proto<T, V>)
    requires ps != [] && AllAlike(ps)
    ensures r == ConcatAll(ps)
  {
    hide Flatten, Batches, Column;
    var batch: Option<seq<T>> := None;
    if ps[0].batch.Some? {
      var list := BatchList(ps);
      batch := Some(Flatten(list));
    }
    var columns: map<string, seq<V>> := map[];
    var todo := ps[0].columns.Keys;
    while todo != {}
      invariant todo <= ps[0].columns.Keys && columns.Keys == ps[0].columns.Keys - todo
      invariant forall k :: k in columns ==> columns[k] == Flatten(Column(ps, k))
      decreases |todo|
    {
      var k :| k in todo;
      var list := ColumnList(ps, k);
      columns := columns[k := Flatten(list)];
      todo := todo - {k};
    }
    return Proto(batch, columns);
  }

  lemma AlikeAppend<T, V>(ps: seq<Proto<T, V>>, q: Proto<T, V>)
    requires ps != [] && AllAlike(ps) && Alike(ps[0], q)
    ensures AllAlike(ps + [q])
  {
  }

  lemma ConcatAppend<T, V>(ps: seq<Proto<T, V>>, q: Proto<T, V>)
    requires ps != [] && AllAlike(ps) && Alike(ps[0], q)
    ensures AllAlike(ps + [q]) && Alike(ConcatAll(ps), q)
    ensures ConcatAll(ps + [q]) == Joined(ConcatAll(ps), q)
  {
    hide Flatten;
    AlikeAppend(ps, q);
    var all := ps + [q];
    assert all[..|ps|] == ps;
    if q.batch.Some? {
      FlattenAppend(Batches(ps), q.batch.value);
    }
    forall k | k in q.columns
      ensures Flatten(Column(all, k)) == Flatten(Column(ps, k)) + q.columns[k]
    {
      FlattenAppend(Column(ps, k), q.columns[k]);
    }
  }

  lemma ConcatOne<T, V>(p: Proto<T, V>)
    ensures ConcatAll([p]) == p
  {
    hide Flatten;
    assert [p][..0] == [];
    if p.batch.Some? {
      assert Batches([p]) == [p.batch.value];
      FlattenOne(p.batch.value);
    }
    forall k | k in p.columns
      ensures Flatten(Column([p], k)) == p.columns[k]
    {
      assert Column([p], k) == [p.columns[k]];
      FlattenOne(p.columns[k]);
    }
    assert ConcatAll([p]).columns == p.columns;
  }

  // ----- padding -----

  /** Row i of the result is row i mod n. */
  function Tiled<X>(xs: seq<X>, m: nat): (r: seq<X>)
    requires xs != []
    ensures |r| == m && forall i :: 0 <= i < m ==> r[i] == xs[i % |xs|]
  {
    seq(m, i requires 0 <= i => xs[i % |xs|])
  }

  function TiledProto<T, V>(p: Proto<T, V>, n: nat, m: nat): Proto<T, V>
    requires Sized(p, n) && n > 0
  {
    Proto(if p.batch.Some? then Some(Tiled(p.batch.value, m)) else None,
          map k | k in p.columns :: Tiled(p.columns[k], m))
  }

  lemma TiledSelf<X>(xs: seq<X>)
    requires xs != []
    ensures Tiled(xs, |xs|) == xs
  {
    forall i | 0 <= i < |xs|
      ensures i % |xs| == i
    {
      DivModIs(i, |xs|, 0, i);
    }
  }

  /** Behind whole copies, a prefix continues the tiling. */
  lemma TiledStep<X>(xs: seq<X>, m: nat, t: nat)
    requires xs != [] && m % |xs| == 0 && t <= |xs|
    ensures Tiled(xs, m + t) == Tiled(xs, m) + PySlice(xs, 0, t)
  {
    hide Tiled;
    var n := |xs|;
    forall i | 0 <= i < t
      ensures Tiled(xs, m + t)[m + i] == xs[i]
    {
      if i < n {
        DivModIs(m + i, n, m / n, i);
      }
    }
    assert Tiled(xs, m + t)[..m] == Tiled(xs, m);
    assert PySlice(xs, 0, t) == xs[..t];
  }

  lemma TiledProtoStep<T, V>(p: Proto<T, V>, n: nat, m: nat, t: nat)
    requires Sized(p, n) && n > 0 && m % n == 0 && t <= n
    ensures Alike(TiledProto(p, n, m), Slice(p, 0, t))
    ensures Joined(TiledProto(p, n, m), Slice(p, 0, t)) == TiledProto(p, n, m + t)
  {
    hide Tiled, PySlice;
    if p.batch.Some? {
      TiledStep(p.batch.value, m, t);
    }
    forall k | k in p.columns
      ensures Tiled(p.columns[k], m + t) == Tiled(p.columns[k], m) + PySlice(p.columns[k], 0, t)
    {
      TiledStep(p.columns[k], m, t);
    }
  }

  lemma TiledProtoSelf<T, V>(p: Proto<T, V>, n: nat)
    requires Sized(p, n) && n > 0
    ensures TiledProto(p, n, n) == p
  {
    hide Tiled;
    if p.batch.Some? {
      TiledSelf(p.batch.value);
    }
    forall k | k in p.columns
      ensures Tiled(p.columns[k], n) == p.columns[k]
    {
      TiledSelf(p.columns[k]);
    }
  }

  /** The least multiple of d that is at least n. */
  predicate LeastMultiple(m: nat, n: nat, d: nat)
    requires d > 0
  {
    m >= n && m % d == 0 && forall j :: n <= j < m ==> j % d != 0
  }

  lemma PadSizeIsLeast(n: nat, d: nat)
    requires d > 0 && n % d != 0
    ensures LeastMultiple(n + (d - n % d), n, d)
  {
    var q, r := n / d, n % d;
    assert n == d * q + r && (q + 1) * d == q * d + d;
    DivModIs(n + (d - r), d, q + 1, 0);
    forall j | n <= j < n + (d - r)
      ensures j % d != 0
    {
      DivModIs(j, d, q, j - q * d);
    }
  }

  /** `len`: any part tells. */
  method Length<T, V>(p: Proto<T, V>, ghost n: nat) returns (l: nat)
    requires Sized(p, n)
    ensures l == n
  {
    if p.batch.Some? {
      return |p.batch.value|;
    }
    if p.columns.Keys != {} {
      var k :| k in p.columns.Keys;
      return |p.columns[k]|;
    }
    assert p.columns == map[];
    return 0;
  }

  /** `pad_dataproto_to_divisor`; n is the number of rows. */
  method PadToDivisor<T, V>(p: Proto<T, V>, divisor: nat, ghost n: nat) returns (padded: Proto<T, V>, padSize: nat)
    requires divisor > 0 && Sized(p, n)
    ensures LeastMultiple(n + padSize, n, divisor)
    ensures if n == 0 then padded == p && padSize == 0 else padded == TiledProto(p, n, n + padSize)
  {
    hide Sized, Tiled, TiledProto, ConcatAll, Slice, Alike, AllAlike, LeastMultiple;
    var len := Length(p, n);
    if len % divisor == 0 {
      NothingToPad(p, n, divisor);
      return p, 0;
    }
    padSize := divisor - len % divisor;
    PadSizeIsLeast(n, divisor);
    NotEmpty(n, divisor);
    var paddings: seq<Proto<T, V>> := [];
    var remaining := padSize;
    StartPadding(p, n);
    while remaining > 0
      invariant 0 <= remaining <= padSize
      invariant Padding(p, n, paddings, padSize - remaining)
      invariant remaining > 0 ==> (padSize - remaining) % n == 0
    {
      var takeSize := if remaining < len then remaining else len;
      MorePadding(p, n, paddings, padSize - remaining, takeSize);
      paddings := paddings + [Slice(p, 0, takeSize)];
      remaining := remaining - takeSize;
    }
    PaddingDone(p, n, paddings, padSize);
    padded := Concat([p] + paddings);
  }

  /** The padding so far, behind the container, continues it row by row. */
  ghost predicate Padding<T, V>(p: Proto<T, V>, n: nat, paddings: seq<Proto<T, V>>, total: int) {
    && n > 0 && total >= 0 && Sized(p, n)
    && AllAlike([p] + paddings) && ConcatAll([p] + paddings) == TiledProto(p, n, n + total)
  }

  lemma StartPadding<T, V>(p: Proto<T, V>, n: nat)
    requires Sized(p, n) && n > 0
    ensures Padding(p, n, [], 0)
    ensures 0 % n == 0
  {
    assert [p] + [] == [p];
    ConcatOne(p);
    TiledProtoSelf(p, n);
  }

  lemma MorePadding<T, V>(p: Proto<T, V>, n: nat, paddings: seq<Proto<T, V>>, total: nat, t: nat)
    requires Padding(p, n, paddings, total) && total % n == 0 && t <= n
    ensures Padding(p, n, paddings + [Slice(p, 0, t)], total + t)
    ensures t == n ==> (total + t) % n == 0
  {
    hide TiledProto, ConcatAll, AllAlike, Slice, Joined, Sized, Alike;
    var q := Slice(p, 0, t);
    SliceAlike(p, 0, t);
    assert [p] + (paddings + [q]) == ([p] + paddings) + [q];
    NextMultiple(total, n);
    ConcatAppend([p] + paddings, q);
    TiledProtoStep(p, n, n + total, t);
  }

  lemma SliceAlike<T, V>(p: Proto<T, V>, lo: int, hi: int)
    ensures Alike(p, Slice(p, lo, hi))
  {
  }

  lemma NextMultiple(m: nat, n: nat)
    requires n > 0 && m % n == 0
    ensures (m + n) % n == 0 && (n + m) % n == 0
  {
    assert m == n * (m / n);
    assert (m / n + 1) * n == n * (m / n) + n;
    DivModIs(m + n, n, m / n + 1, 0);
  }

  lemma PaddingDone<T, V>(p: Proto<T, V>, n: nat, paddings: seq<Proto<T, V>>, total: nat)
    requires Padding(p, n, paddings, total)
    ensures AllAlike([p] + paddings) && ConcatAll([p] + paddings) == TiledProto(p, n, n + total)
  {
  }

  lemma NothingToPad<T, V>(p: Proto<T, V>, n: nat, d: nat)
    requires Sized(p, n) && d > 0 && n % d == 0
    ensures LeastMultiple(n, n, d)
    ensures n > 0 ==> p == TiledProto(p, n, n)
  {
    if n > 0 {
      TiledProtoSelf(p, n);
    }
  }

  lemma NotEmpty(n: nat, d: nat)
    requires d > 0 && n % d != 0
    ensures n > 0
  {
  }

  /** `unpad_dataproto`. */
  function Unpad<T, V>(p: Proto<T, V>, padSize: nat): Proto<T, V> {
    if padSize != 0 then Slice(p, 0, -(padSize as int)) else p
  }

  /** Unpadding restores what was padded. */
  lemma UnpadRestores<T, V>(p: Proto<T, V>, n: nat, padSize: nat)
    requires Sized(p, n) && n > 0
    ensures Unpad(TiledProto(p, n, n + padSize), padSize) == p
  {
    hide Tiled;
    TiledProtoSelf(p, n);
    if padSize != 0 {
      if p.batch.Some? {
        TiledPrefix(p.batch.value, padSize);
      }
      forall k | k in p.columns
        ensures PySlice(Tiled(p.columns[k], n + padSize), 0, -(padSize as int)) == p.columns[k]
      {
        TiledPrefix(p.columns[k], padSize);
      }
    }
  }

  lemma TiledPrefix<X>(xs: seq<X>, padSize: nat)
    requires xs != [] && padSize > 0
    ensures PySlice(Tiled(xs, |xs| + padSize), 0, -(padSize as int)) == xs
  {
    var r := Tiled(xs, |xs| + padSize);
    TiledSelf(xs);
    assert PySlice(r, 0, -(padSize as int)) == r[..|xs|];
    assert forall i :: 0 <= i < |xs| ==> r[i] == Tiled(xs, |xs|)[i];
  }

  // ----- chunking -----

  /** The i-th run of c items. */
  function Run<X>(xs: seq<X>, i: nat, c: nat): seq<X> {
    PySlice(xs, i * c, (i + 1) * c)
  }

  lemma RunIs<X>(xs: seq<X>, i: nat, c: nat, k: nat)
    requires i < k && |xs| == k * c
    ensures 0 <= i * c <= (i + 1) * c <= |xs| && Run(xs, i, c) == xs[i * c..(i + 1) * c]
  {
    Times(k, c, i + 1);
    Times(i, c, 0);
    assert (i + 1) * c == i * c + c;
  }

  lemma ShiftedBounds(i: nat, c: nat, k: nat)
    requires 0 < i < k
    ensures k * c >= c && (k - 1) * c == k * c - c
    ensures i * c == (i - 1) * c + c && (i + 1) * c == i * c + c
  {
    Times(k, c, 1);
  }

  lemma DropSlice<X>(xs: seq<X>, c: nat, lo: nat, hi: nat)
    requires c <= |xs| && lo <= hi <= |xs| - c
    ensures |Drop(xs, c)| == |xs| - c && Drop(xs, c)[lo..hi] == xs[lo + c..hi + c]
  {
  }

  lemma RunShift<X>(xs: seq<X>, i: nat, c: nat, k: nat)
    requires 0 < i < k && |xs| == k * c
    ensures |Drop(xs, c)| == (k - 1) * c && Run(Drop(xs, c), i - 1, c) == Run(xs, i, c)
  {
    hide Run, Drop;
    ShiftedBounds(i, c, k);
    RunIs(xs, i, c, k);
    DropSlice(xs, c, 0, 0);
    RunIs(Drop(xs, c), i - 1, c, k - 1);
    DropSlice(xs, c, (i - 1) * c, i * c);
  }

  lemma {:induction false} CutRuns<X>(xs: seq<X>, k: nat, c: nat, i: nat)
    requires i < k && |xs| == k * c
    ensures Cut(xs, k, c)[i] == Run(xs, i, c)
    decreases k
  {
    hide Run, Take, Drop, Cut;
    CutStep(xs, k, c);
    if i == 0 {
      FirstRun(xs, c, k);
    } else {
      RunShift(xs, i, c, k);
      CutRuns(Drop(xs, c), k - 1, c, i - 1);
    }
  }

  lemma FirstRun<X>(xs: seq<X>, c: nat, k: nat)
    requires 0 < k && |xs| == k * c
    ensures Run(xs, 0, c) == Take(xs, c)
  {
    RunIs(xs, 0, c, k);
    assert 0 * c == 0 && (0 + 1) * c == c;
  }

  predicate EachHas<X>(pieces: seq<seq<X>>, c: nat) {
    forall i :: 0 <= i < |pieces| ==> |pieces[i]| == c
  }

  predicate Multiples(indices: seq<nat>, c: nat) {
    forall i :: 0 <= i < |indices| ==> indices[i] == (i + 1) * c
  }

  /** Where the pieces of the tensor end, the last one left out. */
  method CutIndices<X>(pieces: seq<seq<X>>) returns (indices: seq<nat>)
    requires pieces != []
    ensures |indices| == |pieces| - 1
    ensures forall c: nat :: EachHas(pieces, c) ==> Multiples(indices, c)
  {
    indices := [];
    var total: nat := 0;
    for j := 0 to |pieces| - 1
      invariant |indices| == j
      invariant forall c: nat :: EachHas(pieces, c) ==> total == j * c && Multiples(indices, c)
    {
      ghost var before := total;
      total := total + |pieces[j]|;
      forall c: nat | EachHas(pieces, c)
        ensures total == (j + 1) * c
      {
        assert before == j * c && (j + 1) * c == j * c + c;
      }
      indices := indices + [total];
    }
  }

  /** `np.array_split` at given indices. */
  function SplitAt<X>(xs: seq<X>, indices: seq<nat>): (r: seq<seq<X>>)
    ensures |r| == |indices| + 1
  {
    seq(|indices| + 1, i requires 0 <= i <= |indices| =>
      PySlice(xs, if i == 0 then 0 else indices[i - 1], if i < |indices| then indices[i] else |xs|))
  }

  /** `np.array_split` into a number of parts. */
  function SplitInto<X>(xs: seq<X>, k: nat): (r: seq<seq<X>>)
    requires k > 0
    ensures |r| == k
  {
    seq(k, i requires 0 <= i < k => PySlice(xs, PartStart(|xs|, k, i), PartStart(|xs|, k, i + 1)))
  }

  lemma SplitAtRuns<X>(xs: seq<X>, indices: seq<nat>, c: nat, i: nat)
    requires i <= |indices| && |xs| == (|indices| + 1) * c && Multiples(indices, c)
    ensures SplitAt(xs, indices)[i] == Run(xs, i, c)
  {
    assert 0 * c == 0;
  }

  lemma SplitIntoRuns<X>(xs: seq<X>, k: nat, c: nat, i: nat)
    requires i < k && |xs| == k * c
    ensures SplitInto(xs, k)[i] == Run(xs, i, c)
  {
    hide PartStart;
    PartStartExact(|xs|, k, c, i);
    PartStartExact(|xs|, k, c, i + 1);
  }

  lemma PartStartExact(n: nat, k: nat, c: nat, i: nat)
    requires k > 0 && n == k * c
    ensures PartStart(n, k, i) == i * c
  {
    assert k * c == c * k;
    Cancel(c, k);
  }

  /** The pieces of one column, cut where the tensor was cut if there is one. */
  method ColumnPieces<X>(xs: seq<X>, chunks: nat, hasBatch: bool, indices: seq<nat>, ghost c: nat)
    returns (pieces: seq<seq<X>>)
    requires chunks > 0 && |xs| == chunks * c
    requires hasBatch ==> |indices| == chunks - 1 && Multiples(indices, c)
    ensures |pieces| == chunks && forall i :: 0 <= i < chunks ==> pieces[i] == Run(xs, i, c)
  {
    hide Run, SplitAt, SplitInto;
    pieces := if hasBatch then SplitAt(xs, indices) else SplitInto(xs, chunks);
    forall i | 0 <= i < chunks
      ensures pieces[i] == Run(xs, i, c)
    {
      if hasBatch {
        SplitAtRuns(xs, indices, c, i);
      } else {
        SplitIntoRuns(xs, chunks, c, i);
      }
    }
  }

  /** The pieces of the tensor, and where they end. */
  method BatchPieces<X>(xs: seq<X>, chunks: nat, ghost c: nat) returns (pieces: seq<seq<X>>, indices: seq<nat>)
    requires chunks > 0 && |xs| == chunks * c
    ensures |pieces| == chunks && forall i :: 0 <= i < chunks ==> pieces[i] == Run(xs, i, c)
    ensures |indices| == chunks - 1 && Multiples(indices, c)
  {
    hide Run, Cut, Sequences.Chunk;
    Sequences.ChunkExact(xs, chunks, c);
    pieces := Sequences.Chunk(xs, chunks);
    forall i | 0 <= i < chunks
      ensures pieces[i] == Run(xs, i, c) && |pieces[i]| == c
    {
      CutRuns(xs, chunks, c, i);
      RunSize(xs, i, c, chunks);
    }
    assert EachHas(pieces, c);
    indices := CutIndices(pieces);
  }

  lemma RunSize<X>(xs: seq<X>, i: nat, c: nat, k: nat)
    requires i < k && |xs| == k * c
    ensures |Run(xs, i, c)| == c
  {
    RunIs(xs, i, c, k);
    assert (i + 1) * c == i * c + c;
  }

  /** The i-th run of every part of a container. */
  function RunProto<T, V>(p: Proto<T, V>, i: nat, c: nat): Proto<T, V> {
    Slice(p, i * c, (i + 1) * c)
  }

  lemma RunProtoParts<T, V>(p: Proto<T, V>, i: nat, c: nat)
    ensures var r := RunProto(p, i, c);
            && Alike(p, r)
            && (p.batch.Some? ==> r.batch.value == Run(p.batch.value, i, c))
            && forall k :: k in p.columns ==> r.columns[k] == Run(p.columns[k], i, c)
  {
  }

  /** `DataProto.chunk` without automatic padding: an error unless the chunks are equal. The tensor
      and every column are cut at the same rows. */
  method Chunk<T, V>(p: Proto<T, V>, chunks: nat, ghost n: nat) returns (r: Result<seq<Proto<T, V>>, Fault>)
    requires chunks > 0 && Sized(p, n)
    ensures r.Failure? <==> n % chunks != 0
    ensures r.Success? ==> |r.value| == chunks && forall i :: 0 <= i < chunks ==>
              r.value[i] == RunProto(p, i, n / chunks)
  {
    hide Run, RunProto, Alike, Multiples;
    var len := Length(p, n);
    if len % chunks != 0 {
      return Failure(AssertionError);
    }
    ghost var c := len / chunks;
    Whole(len, chunks);
    assert len == chunks * c;
    var batches: seq<seq<T>>, indices: seq<nat> := [], [];
    if p.batch.Some? {
      batches, indices := BatchPieces(p.batch.value, chunks, c);
    }
    var lists := ColumnChunks(p.columns, chunks, p.batch.Some?, indices, c);
    var output: seq<Proto<T, V>> := [];
    for i := 0 to chunks
      invariant |output| == i && forall j :: 0 <= j < i ==> output[j] == RunProto(p, j, c)
    {
      RunProtoParts(p, i, c);
      var next := Proto(if p.batch.Some? then Some(batches[i]) else None, lists[i]);
      SamePieces(p, next, RunProto(p, i, c), i, c);
      output := output + [next];
    }
    return Success(output);
  }

  lemma SamePieces<T, V>(p: Proto<T, V>, a: Proto<T, V>, b: Proto<T, V>, i: nat, c: nat)
    requires Alike(p, a) && Alike(p, b)
    requires p.batch.Some? ==> a.batch.value == b.batch.value == Run(p.batch.value, i, c)
    requires forall k :: k in p.columns ==> a.columns[k] == b.columns[k] == Run(p.columns[k], i, c)
    ensures a == b
  {
    assert a.columns == b.columns;
  }

  /** The loop over the columns. */
  method ColumnChunks<V>(columns: map<string, seq<V>>, chunks: nat, hasBatch: bool, indices: seq<nat>, ghost c: nat)
    returns (lists: seq<map<string, seq<V>>>)
    requires chunks > 0 && forall k :: k in columns ==> |columns[k]| == chunks * c
    requires hasBatch ==> |indices| == chunks - 1 && Multiples(indices, c)
    ensures |lists| == chunks
    ensures forall i :: 0 <= i < chunks ==> lists[i].Keys == columns.Keys && forall k :: k in columns ==>
              lists[i][k] == Run(columns[k], i, c)
  {
    hide Run, Multiples;
    lists := seq(chunks, _ => map[]);
    var todo := columns.Keys;
    while todo != {}
      invariant |lists| == chunks && todo <= columns.Keys
      invariant forall i :: 0 <= i < chunks ==>
                  lists[i].Keys == columns.Keys - todo && forall k :: k in lists[i] ==>
                    lists[i][k] == Run(columns[k], i, c)
      decreases |todo|
    {
      var key :| key in todo;
      var pieces := ColumnPieces(columns[key], chunks, hasBatch, indices, c);
      ghost var before := lists;
      for i := 0 to chunks
        invariant |lists| == chunks
        invariant forall j :: 0 <= j < i ==> lists[j] == before[j][key := pieces[j]]
        invariant forall j :: i <= j < chunks ==> lists[j] == before[j]
      {
        lists := lists[i := lists[i][key := pieces[i]]];
      }
      todo := todo - {key};
    }
  }

  // ----- putting slices together -----

  lemma SliceJoin<X>(xs: seq<X>, a: nat, b: nat)
    requires a <= b
    ensures PySlice(xs, 0, a) + PySlice(xs, a, b) == PySlice(xs, 0, b)
  {
  }

  lemma SlicesJoin<T, V>(p: Proto<T, V>, a: nat, b: nat)
    requires a <= b
    ensures Alike(Slice(p, 0, a), Slice(p, a, b))
    ensures Joined(Slice(p, 0, a), Slice(p, a, b)) == Slice(p, 0, b)
  {
    hide PySlice;
    if p.batch.Some? {
      SliceJoin(p.batch.value, a, b);
    }
    forall k | k in p.columns
      ensures PySlice(p.columns[k], 0, a) + PySlice(p.columns[k], a, b) == PySlice(p.columns[k], 0, b)
    {
      SliceJoin(p.columns[k], a, b);
    }
    assert Joined(Slice(p, 0, a), Slice(p, a, b)).columns == Slice(p, 0, b).columns;
  }

  lemma WholeSlice<T, V>(p: Proto<T, V>, n: nat, b: nat)
    requires Sized(p, n) && b >= n
    ensures Slice(p, 0, b) == p
  {
    if p.batch.Some? {
      assert PySlice(p.batch.value, 0, b) == p.batch.value;
    }
    assert forall k :: k in p.columns ==> PySlice(p.columns[k], 0, b) == p.columns[k];
    assert Slice(p, 0, b).columns == p.columns;
  }

  lemma RowsBefore(i: nat, c: nat)
    requires i > 0
    ensures 0 <= (i - 1) * c <= i * c && (i - 1 + 1) * c == i * c
    ensures 0 * c == 0 && (0 + 1) * c == 1 * c == c
  {
    assert i * c == (i - 1) * c + c;
  }

  /** The first i chunks together are the rows before the i-th. */
  lemma {:induction false} ChunksJoin<T, V>(p: Proto<T, V>, out: seq<Proto<T, V>>, c: nat, i: nat)
    requires 0 < i <= |out| && forall j :: 0 <= j < |out| ==> out[j] == RunProto(p, j, c)
    ensures AllAlike(out[..i]) && ConcatAll(out[..i]) == Slice(p, 0, i * c) && Alike(p, out[0])
  {
    hide ConcatAll, Slice, Joined, RunProto, Alike, AllAlike;
    RunProtoParts(p, 0, c);
    RowsBefore(i, c);
    RunProtoIs(p, i - 1, c);
    if i == 1 {
      assert out[..1] == [out[0]];
      ConcatOne(out[0]);
      OneAlike(out[0]);
    } else {
      ChunksJoin(p, out, c, i - 1);
      RunProtoParts(p, i - 1, c);
      var front, last := out[..i - 1], out[i - 1];
      assert out[..i] == front + [last];
      BothAlike(p, front[0], last);
      ConcatAppend(front, last);
      SlicesJoin(p, (i - 1) * c, i * c);
    }
  }

  lemma OneAlike<T, V>(p: Proto<T, V>)
    ensures AllAlike([p])
  {
  }

  lemma BothAlike<T, V>(p: Proto<T, V>, a: Proto<T, V>, b: Proto<T, V>)
    requires Alike(p, a) && Alike(p, b)
    ensures Alike(a, b)
  {
  }

  /** Concatenating equal chunks gives the container back. */
  lemma ChunkConcat<T, V>(p: Proto<T, V>, n: nat, out: seq<Proto<T, V>>)
    requires Sized(p, n) && out != [] && n % |out| == 0
    requires forall i :: 0 <= i < |out| ==> out[i] == RunProto(p, i, n / |out|)
    ensures AllAlike(out) && ConcatAll(out) == p
  {
    hide ConcatAll, RunProto, AllAlike;
    var c := n / |out|;
    Whole(n, |out|);
    assert |out| * c == n;
    ChunksJoin(p, out, c, |out|);
    assert out[..|out|] == out;
    WholeSlice(p, n, n);
  }

  /** `DataProto.split`: pieces of a given size, the last one what is left. */
  method Split<T, V>(p: Proto<T, V>, size: nat, ghost n: nat) returns (output: seq<Proto<T, V>>)
    requires size > 0 && Sized(p, n)
    ensures forall j :: 0 <= j < |output| ==> output[j] == RunProto(p, j, size)
    ensures n == 0 <==> output == []
    ensures n > 0 ==> AllAlike(output) && ConcatAll(output) == p
  {
    hide ConcatAll, RunProto, AllAlike, Sized, Slice;
    var len := Length(p, n);
    output := [];
    var i: nat := 0;
    while i < len
      invariant i == |output| * size && (output == [] <==> i == 0) && (len == 0 ==> i == 0)
      invariant forall j :: 0 <= j < |output| ==> output[j] == RunProto(p, j, size)
      decreases len - i
    {
      ghost var m := |output|;
      assert (m + 1) * size == m * size + size;
      RunProtoIs(p, m, size);
      output := output + [Slice(p, i, i + size)];
      i := i + size;
    }
    if n > 0 {
      ChunksJoin(p, output, size, |output|);
      assert output[..|output|] == output;
      WholeSlice(p, n, i);
    }
  }

  lemma RunProtoIs<T, V>(p: Proto<T, V>, i: nat, c: nat)
    ensures RunProto(p, i, c) == Slice(p, i * c, (i + 1) * c)
  {
  }
}
