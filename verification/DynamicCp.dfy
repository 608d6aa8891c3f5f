/** Dynamic context parallelism: a batch of sequences is spread over the data-parallel ranks and
    their outputs are put together again. */
module DynamicCp {
  import opened Options
  import opened Arithmetic
  import opened PythonLists
  import opened Sequences

  /** `TensorError` is what the tensor library raises when no row is selected: it builds no nested
      tensor from an empty list. */
  datatype Fault = AssertionError | ValueError | TensorError

  // ----- the number of ranks that share a sequence -----

  /** Python's `bit_length`, which ignores the sign. */
  function BitLength(n: int): nat
    decreases if n < 0 then 1 - n else n
  {
    if n < 0 then BitLength(-n) else if n == 0 then 0 else 1 + BitLength(n / 2)
  }

  function Pow2(k: nat): (p: nat)
    ensures p >= 1
  {
    if k == 0 then 1 else 2 * Pow2(k - 1)
  }

  function CeilDiv(a: nat, b: nat): nat
    requires b > 0
  {
    (a + b - 1) / b
  }

  function LocalCpSize(maxSeqLen: nat, cap: nat): (p: nat)
    requires cap > 0
    ensures p >= 1
  {
    Pow2(BitLength(CeilDiv(maxSeqLen, cap) - 1))
  }

  /** The least power of two ranks whose caps together cover the longest sequence. */
  ghost predicate LeastPower(p: nat, maxSeqLen: nat, cap: nat) {
    && (exists k :: p == Pow2(k))
    && maxSeqLen <= p * cap
    && forall k :: maxSeqLen <= Pow2(k) * cap ==> p <= Pow2(k)
  }

  lemma {:induction false} BitLengthBounds(n: nat)
    ensures n < Pow2(BitLength(n))
    ensures n > 0 ==> BitLength(n) > 0 && Pow2(BitLength(n) - 1) <= n
  {
    if n > 0 {
      var h := n / 2;
      BitLengthBounds(h);
      assert 2 * h <= n <= 2 * h + 1 && BitLength(n) == 1 + BitLength(h);
      assert Pow2(BitLength(n)) == 2 * Pow2(BitLength(h));
      if h > 0 {
        assert Pow2(BitLength(h)) == 2 * Pow2(BitLength(h) - 1);
      }
    }
  }

  lemma {:induction false} Pow2Monotone(i: nat, j: nat)
    requires i <= j
    ensures Pow2(i) <= Pow2(j)
  {
    if i < j {
      Pow2Monotone(i, j - 1);
    }
  }

  /** Covering by whole caps: the quotient rounded up decides. */
  lemma CeilCovers(a: nat, b: nat, p: nat)
    requires b > 0
    ensures a <= p * b <==> CeilDiv(a, b) <= p
  {
    RoundUp(a, b);
    var c := CeilDiv(a, b);
    if c <= p {
      Times(p, b, c);
    } else {
      Times(c - 1, b, p);
      assert (c - 1) * b == c * b - b;
    }
  }

  /** No smaller power of two than the bit length gives is at least n + 1. */
  lemma NoSmallerPower(n: nat, k: nat)
    requires n < Pow2(k)
    ensures Pow2(BitLength(n)) <= Pow2(k)
  {
    BitLengthBounds(n);
    if BitLength(n) > k {
      Pow2Monotone(k, BitLength(n) - 1);
    } else {
      Pow2Monotone(BitLength(n), k);
    }
  }

  /** The size is the least power of two that covers the longest sequence exactly when that sequence
      is not empty; for an empty one it is 2, where 1 would do. */
  lemma LocalCpSizeIsLeast(maxSeqLen: nat, cap: nat)
    requires cap > 0
    ensures LeastPower(LocalCpSize(maxSeqLen, cap), maxSeqLen, cap) <==> maxSeqLen >= 1
    ensures maxSeqLen == 0 ==> LocalCpSize(maxSeqLen, cap) == 2
  {
    var c := CeilDiv(maxSeqLen, cap);
    var p := LocalCpSize(maxSeqLen, cap);
    if maxSeqLen == 0 {
      CeilCovers(0, cap, 0);
      assert BitLength(-1) == BitLength(1) == 1 && Pow2(1) == 2;
      assert Pow2(0) == 1;
    } else {
      CeilCovers(maxSeqLen, cap, 0);
      BitLengthBounds(c - 1);
      CeilCovers(maxSeqLen, cap, p);
      forall k | maxSeqLen <= Pow2(k) * cap
        ensures p <= Pow2(k)
      {
        CeilCovers(maxSeqLen, cap, Pow2(k));
        NoSmallerPower(c - 1, k);
      }
    }
  }

  // ----- splitting -----

  /** The rows of one rank when `size` ranks share every sequence; the last groups may get none. */
  function RankRows<T>(rows: seq<T>, dpSize: nat, dpRank: nat, size: nat): seq<T>
    requires 0 < size <= dpSize
  {
    GroupRows(rows, CeilDiv(|rows|, Groups(dpSize, size)), dpRank / size)
  }

  function Groups(dpSize: nat, size: nat): (n: nat)
    requires 0 < size <= dpSize
    ensures n > 0
  {
    DivPositive(dpSize, size);
    dpSize / size
  }

  lemma DivPositive(a: nat, b: nat)
    requires 0 < b <= a
    ensures a / b > 0
  {
    assert a == a / b * b + a % b;
    PositiveQuotient(a / b, b, a % b);
  }

  lemma PositiveQuotient(q: int, b: nat, r: int)
    requires b > 0 && r < b && q * b + r >= b
    ensures q > 0
  {
  }

  /** The g-th run of `per` rows. */
  function GroupRows<T>(rows: seq<T>, per: nat, g: nat): seq<T> {
    CutsInOrder(|rows|, per, g);
    rows[Cut(|rows|, per, g)..Cut(|rows|, per, g + 1)]
  }

  function Cut(n: nat, per: nat, g: nat): (k: int)
    ensures k <= n
  {
    Min(g * per, n)
  }

  lemma CutsInOrder(n: nat, per: nat, g: nat)
    ensures 0 <= Cut(n, per, g) <= Cut(n, per, g + 1) <= n
  {
    Times(g + 1, per, g);
    Times(g, per, 0);
  }

  /** What a rank gets: the rows it keeps and, where the batch is marked with it, the number of ranks
      sharing a sequence. A row is as long as its sequence. */
  function Split<T>(batch: seq<seq<T>>, cap: nat, dpSize: nat, dpRank: nat)
    : Result<(seq<seq<T>>, Option<nat>), Fault>
    requires cap > 0 && dpRank < dpSize
  {
    if batch == [] then Failure(ValueError)
    else if |batch| < dpSize then Success((batch, None))
    else
      var size := LocalCpSize(LongestRow(batch), cap);
      if size > dpSize then Failure(AssertionError)
      else if size == dpSize then Success((batch, Some(size)))
      else if RankRows(batch, dpSize, dpRank, size) == [] then Failure(TensorError)
      else Success((RankRows(batch, dpSize, dpRank, size), Some(size)))
  }

  /** `dynamic_cp_split_batch` on one rank. */
  method SplitBatch<T>(batch: seq<seq<T>>, cap: nat, dpSize: nat, dpRank: nat)
    returns (r: Result<(seq<seq<T>>, Option<nat>), Fault>)
    requires cap > 0 && dpRank < dpSize
    ensures r == Split(batch, cap, dpSize, dpRank)
    ensures r == Failure(ValueError) <==> batch == []
    ensures r == Failure(AssertionError) <==> |batch| >= dpSize && LocalCpSize(LongestRow(batch), cap) > dpSize
    ensures r.Success? && |batch| < dpSize ==> r.value == (batch, None)
    ensures batch != [] && |batch| >= dpSize && LocalCpSize(LongestRow(batch), cap) < dpSize ==>
              var size := LocalCpSize(LongestRow(batch), cap);
              var per := CeilDiv(|batch|, Groups(dpSize, size));
              if dpRank / size * per < |batch| then r == Success((GroupRows(batch, per, dpRank / size), Some(size)))
              else r == Failure(TensorError)
  {
    hide BitLength, Pow2, LocalCpSize, CeilDiv, GroupRows, PySlice, LongestRow;
    if batch == [] {
      return Failure(ValueError);
    }
    var maxSeqLen := MaxLength(batch);
    if |batch| < dpSize {
      return Success((batch, None));
    }
    var size := LocalCpSize(maxSeqLen, cap);
    if size > dpSize {
      return Failure(AssertionError);
    }
    if size < dpSize {
      var localDpRank := dpRank / size;
      var localDpSize := Groups(dpSize, size);
      var perGroup := CeilDiv(|batch|, localDpSize);
      var start := localDpRank * perGroup;
      var end := Min(start + perGroup, |batch|);
      SliceIsGroup(batch, perGroup, localDpRank);
      RankRowsEmpty(batch, dpSize, dpRank, size);
      var selected := PySlice(batch, start, end);
      if selected == [] {
        return Failure(TensorError);
      }
      return Success((selected, Some(size)));
    }
    return Success((batch, Some(size)));
  }

  method MaxLength<T>(batch: seq<seq<T>>) returns (m: nat)
    requires batch != []
    ensures m == LongestRow(batch)
  {
    m := |batch[0]|;
    assert batch[..1] == [batch[0]];
    for i := 1 to |batch|
      invariant m == LongestRow(batch[..i])
    {
      assert batch[..i + 1][..i] == batch[..i];
      m := if |batch[i]| > m then |batch[i]| else m;
    }
    assert batch[..|batch|] == batch;
  }

  lemma SliceIsGroup<T>(rows: seq<T>, per: nat, g: nat)
    ensures PySlice(rows, g * per, Min(g * per + per, |rows|)) == GroupRows(rows, per, g)
  {
    assert (g + 1) * per == g * per + per && g * per >= 0;
  }

  function LongestRow<T>(batch: seq<seq<T>>): (m: nat)
    ensures forall r :: 0 <= r < |batch| ==> |batch[r]| <= m
    ensures batch != [] ==> exists r :: 0 <= r < |batch| && |batch[r]| == m
  {
    if batch == [] then 0
    else
      var front := batch[..|batch| - 1];
      var m, l := LongestRow(front), |batch[|batch| - 1]|;
      assert forall r :: 0 <= r < |front| ==> front[r] == batch[r];
      if l > m then l else m
  }

  /** A split of at least as many sequences as ranks always carries its mark: the least number of sharing ranks
      that covers the longest sequence, or 2 for empty ones. Where all ranks share, each keeps the batch. */
  lemma SplitMarks<T>(batch: seq<seq<T>>, cap: nat, dpSize: nat, dpRank: nat)
    requires cap > 0 && dpRank < dpSize && Split(batch, cap, dpSize, dpRank).Success?
    ensures var (rows, mark) := Split(batch, cap, dpSize, dpRank).value;
            && (mark.Some? <==> |batch| >= dpSize)
            && (mark.Some? ==> mark.value <= dpSize)
            && (mark.Some? && LongestRow(batch) >= 1 ==> LeastPower(mark.value, LongestRow(batch), cap))
            && (mark.Some? && LongestRow(batch) == 0 ==> mark.value == 2)
            && (mark.None? || mark.value == dpSize ==> rows == batch)
  {
    LocalCpSizeIsLeast(LongestRow(batch), cap);
    hide LocalCpSize, LeastPower, RankRows, LongestRow;
  }

  // ----- which ranks get rows -----

  /** The group of the last rank begins before the batch ends. */
  predicate LastGroupHasRows(n: nat, dpSize: nat, size: nat)
    requires 0 < size <= dpSize
  {
    (dpSize - 1) / size * CeilDiv(n, Groups(dpSize, size)) < n
  }

  /** A rank is left without rows exactly when its group would begin behind the batch. */
  lemma RankRowsEmpty<T>(rows: seq<T>, dpSize: nat, dpRank: nat, size: nat)
    requires 0 < size <= dpSize && rows != []
    ensures RankRows(rows, dpSize, dpRank, size) == [] <==>
            dpRank / size * CeilDiv(|rows|, Groups(dpSize, size)) >= |rows|
  {
    var g, per := dpRank / size, CeilDiv(|rows|, Groups(dpSize, size));
    CeilCovers(|rows|, Groups(dpSize, size), 0);
    hide CeilDiv, Groups;
    assert (g + 1) * per == g * per + per;
    CutsInOrder(|rows|, per, g);
  }

  lemma QuotientMonotone(a: nat, b: nat, d: nat)
    requires a <= b && d > 0
    ensures a / d <= b / d
  {
    if b / d < a / d {
      QuotientOrder(d, b / d, b % d, a / d, a % d);
    }
  }

  lemma AllRanksHaveRows<T>(rows: seq<T>, dpSize: nat, size: nat)
    requires 0 < size <= dpSize && rows != []
    ensures (forall r: nat :: r < dpSize ==> RankRows(rows, dpSize, r, size) != []) <==>
            LastGroupHasRows(|rows|, dpSize, size)
  {
    hide RankRows;
    var per := CeilDiv(|rows|, Groups(dpSize, size));
    CeilCovers(|rows|, Groups(dpSize, size), 0);
    RankRowsEmpty(rows, dpSize, dpSize - 1, size);
    if LastGroupHasRows(|rows|, dpSize, size) {
      forall r: nat | r < dpSize
        ensures RankRows(rows, dpSize, r, size) != []
      {
        RankRowsEmpty(rows, dpSize, r, size);
        QuotientMonotone(r, dpSize - 1, size);
        Times((dpSize - 1) / size, per, r / size);
      }
    }
  }

  /** Where the size does not divide the number of ranks, the last rank is one too many. */
  lemma LastGroupEmpty(n: nat, dpSize: nat, size: nat)
    requires 0 < size <= dpSize && dpSize % size != 0
    ensures !LastGroupHasRows(n, dpSize, size)
  {
    var groups := Groups(dpSize, size);
    DivModIs(dpSize - 1, size, groups, dpSize % size - 1);
    CeilCovers(n, groups, CeilDiv(n, groups));
    assert groups * CeilDiv(n, groups) == CeilDiv(n, groups) * groups;
  }

  /** A batch that is to be spread out is split on every rank exactly when the group of the last rank
      has rows, which it never has where the size does not divide the number of ranks. */
  lemma EveryRankSplits<T>(batch: seq<seq<T>>, cap: nat, dpSize: nat)
    requires cap > 0 && |batch| >= dpSize > 0
    ensures var size := LocalCpSize(LongestRow(batch), cap);
            && ((forall r: nat :: r < dpSize ==> Split(batch, cap, dpSize, r).Success?) <==>
                size == dpSize || (size < dpSize && LastGroupHasRows(|batch|, dpSize, size)))
            && (size < dpSize && dpSize % size != 0 ==>
                  Split(batch, cap, dpSize, dpSize - 1) == Failure(TensorError))
  {
    hide LocalCpSize, LongestRow, RankRows, LastGroupHasRows;
    var size := LocalCpSize(LongestRow(batch), cap);
    if size < dpSize {
      AllRanksHaveRows(batch, dpSize, size);
      assert forall r: nat :: r < dpSize ==>
                                (Split(batch, cap, dpSize, r).Success? <==> RankRows(batch, dpSize, r, size) != []);
      if dpSize % size != 0 {
        LastGroupEmpty(|batch|, dpSize, size);
        LastRankEmpty(batch, dpSize, size);
      }
    } else {
      assert Split(batch, cap, dpSize, 0).Success? <==> size == dpSize;
    }
  }

  lemma LastRankEmpty<T>(rows: seq<T>, dpSize: nat, size: nat)
    requires 0 < size <= dpSize && rows != [] && !LastGroupHasRows(|rows|, dpSize, size)
    ensures RankRows(rows, dpSize, dpSize - 1, size) == []
  {
    RankRowsEmpty(rows, dpSize, dpSize - 1, size);
  }

  /** Nine sequences on eight ranks, two ranks a sequence: three groups take three rows each, and the
      two ranks of the fourth raise, although the size divides the number of ranks. */
  lemma NineOnEight<T>(batch: seq<seq<T>>, cap: nat)
    requires cap > 0 && |batch| == 9 && LocalCpSize(LongestRow(batch), cap) == 2
    ensures forall r: nat :: r < 6 ==> Split(batch, cap, 8, r) == Success((batch[r / 2 * 3..r / 2 * 3 + 3], Some(2)))
    ensures Split(batch, cap, 8, 6) == Split(batch, cap, 8, 7) == Failure(TensorError)
  {
    hide LocalCpSize, LongestRow;
    assert CeilDiv(9, Groups(8, 2)) == 3;
  }

  // ----- merging -----

  /** Python's `xs[from::step]`. */
  function Every<T>(xs: seq<T>, from: nat, step: nat): seq<T>
    requires step > 0
    decreases |xs| - from
  {
    if from >= |xs| then [] else [xs[from]] + Every(xs, from + step, step)
  }

  /** What `dynamic_cp_merge_output` puts together for one key from what all ranks hold. */
  function Merged<T>(gathered: seq<seq<T>>, dpRank: nat, size: nat): seq<T>
    requires size > 0
  {
    Flatten(Every(gathered, dpRank % size, size))
  }

  /** The merged rows are those of the ranks with the same place in their groups, group by group, and the
      rank's own are among them. */
  lemma MergedIs<T>(gathered: seq<seq<T>>, dpRank: nat, size: nat) returns (picked: seq<nat>)
    requires 0 < size && dpRank < |gathered|
    ensures forall j: nat :: j in picked <==> j < |gathered| && j % size == dpRank % size
    ensures forall i, j :: 0 <= i < j < |picked| ==> picked[i] < picked[j]
    ensures dpRank in picked
    ensures Merged(gathered, dpRank, size) == Flatten(seq(|picked|, i requires 0 <= i < |picked| =>
              if picked[i] < |gathered| then gathered[picked[i]] else []))
  {
    hide Flatten;
    picked := EveryPicks(gathered, dpRank % size, size);
    var rows := seq(|picked|, i requires 0 <= i < |picked| =>
      if picked[i] < |gathered| then gathered[picked[i]] else []);
    assert rows == Every(gathered, dpRank % size, size);
    assert dpRank % size % size == dpRank % size by {
      DivModIs(dpRank % size, size, 0, dpRank % size);
    }
    forall j: nat
      ensures j in picked <==> j < |gathered| && j % size == dpRank % size
    {
      RemainderWithin(j, size);
    }
  }

  lemma RemainderWithin(n: nat, d: nat)
    requires d > 0
    ensures n % d <= n
  {
    assert n == n / d * d + n % d;
    if n / d > 0 {
      MulPos(n / d, d);
    }
  }

  lemma {:induction false} EveryPicks<T>(xs: seq<T>, from: nat, step: nat) returns (picked: seq<nat>)
    requires step > 0
    ensures |picked| == |Every(xs, from, step)|
    ensures forall j :: j in picked <==> from <= j < |xs| && j % step == from % step
    ensures forall i, j :: 0 <= i < j < |picked| ==> picked[i] < picked[j]
    ensures forall i :: 0 <= i < |picked| ==> picked[i] < |xs| && Every(xs, from, step)[i] == xs[picked[i]]
    decreases |xs| - from
  {
    if from >= |xs| {
      picked := [];
    } else {
      var rest := EveryPicks(xs, from + step, step);
      picked := [from] + rest;
      assert forall i :: 0 <= i < |rest| ==> rest[i] in rest;
      SameRemainder(from, 1, step);
      forall j: nat | from <= j < |xs| && j % step == from % step
        ensures j in picked
      {
        NextPick(j, from, step);
      }
    }
  }

  lemma SameRemainder(n: nat, k: nat, step: nat)
    requires step > 0
    ensures (n + k * step) % step == n % step
  {
    assert n == n / step * step + n % step;
    assert (n / step + k) * step == n / step * step + k * step;
    DivModIs(n + k * step, step, n / step + k, n % step);
  }

  /** Between a picked position and the next none has the same remainder. */
  lemma NextPick(j: nat, from: nat, step: nat)
    requires step > 0 && j >= from && j % step == from % step
    ensures j == from || j >= from + step
  {
    if j > from {
      var a, b := j / step, from / step;
      assert j == a * step + j % step && from == b * step + from % step;
      if a <= b {
        Times(b, step, a);
      } else {
        Times(a, step, b + 1);
        assert (b + 1) * step == b * step + step;
      }
    }
  }

  /** Whatever ranks hold for every key, the merged output has those keys. */
  method MergeOutput<T>(gathered: seq<map<string, seq<T>>>, dpRank: nat, size: nat)
    returns (merged: map<string, seq<T>>)
    requires dpRank < |gathered| && 0 < size <= |gathered|
    requires forall r :: 0 <= r < |gathered| ==> gathered[r].Keys == gathered[dpRank].Keys
    ensures size == |gathered| ==> merged == gathered[dpRank]
    ensures size < |gathered| ==>
              merged.Keys == gathered[dpRank].Keys && forall k :: k in merged ==>
                merged[k] == Merged(Column(gathered, k), dpRank, size)
  {
    if size == |gathered| {
      return gathered[dpRank];
    }
    merged := map[];
    var todo := gathered[dpRank].Keys;
    while todo != {}
      invariant todo <= gathered[dpRank].Keys && merged.Keys == gathered[dpRank].Keys - todo
      invariant forall k :: k in merged ==> merged[k] == Merged(Column(gathered, k), dpRank, size)
      decreases |todo|
    {
      var k :| k in todo;
      var objects := Column(gathered, k);
      var toMerge := Every(objects, dpRank % size, size);
      var rows: seq<T> := [];
      for i := 0 to |toMerge|
        invariant rows == Flatten(toMerge[..i])
      {
        assert toMerge[..i + 1] == toMerge[..i] + [toMerge[i]];
        FlattenAppend(toMerge[..i], toMerge[i]);
        rows := rows + toMerge[i];
      }
      assert toMerge[..|toMerge|] == toMerge;
      merged := merged[k := rows];
      todo := todo - {k};
    }
  }

  function Column<T>(gathered: seq<map<string, seq<T>>>, k: string): (c: seq<seq<T>>)
    requires forall r :: 0 <= r < |gathered| ==> k in gathered[r]
    ensures |c| == |gathered| && forall r :: 0 <= r < |c| ==> c[r] == gathered[r][k]
  {
    seq(|gathered|, r requires 0 <= r < |gathered| => gathered[r][k])
  }

  // ----- the identity -----

  /** The rows from the j-th group's first one on. */
  function RowsFrom<T>(rows: seq<T>, per: nat, j: nat): seq<T> {
    CutsInOrder(|rows|, per, j);
    rows[Cut(|rows|, per, j)..]
  }

  lemma RowsFromStep<T>(rows: seq<T>, per: nat, j: nat)
    ensures RowsFrom(rows, per, j) == GroupRows(rows, per, j) + RowsFrom(rows, per, j + 1)
  {
    hide Cut;
    CutsInOrder(|rows|, per, j);
    CutsInOrder(|rows|, per, j + 1);
  }

  /** The groups from the j-th on hold the rows from its first one on. */
  lemma {:induction false} MergeFrom<T>(rows: seq<T>, held: seq<seq<T>>, size: nat, per: nat, c: nat, j: nat)
    requires c < size && |held| / size * per >= |rows|
    requires forall r :: 0 <= r < |held| ==> held[r] == GroupRows(rows, per, r / size)
    ensures Flatten(Every(held, j * size + c, size)) == RowsFrom(rows, per, j)
    decreases |held| - (j * size + c)
  {
    hide GroupRows, RowsFrom, Every, Flatten;
    var from := j * size + c;
    if from >= |held| {
      AllGroupsTaken(|held|, size, c, j);
      PastTheEnd(rows, per, |held| / size, j);
      EveryNone(held, from, size);
    } else {
      assert (j + 1) * size + c == from + size;
      DivModIs(from, size, j, c);
      MergeFrom(rows, held, size, per, c, j + 1);
      EveryStep(held, from, size);
      RowsFromStep(rows, per, j);
    }
  }

  lemma EveryNone<T>(xs: seq<seq<T>>, from: nat, step: nat)
    requires step > 0 && from >= |xs|
    ensures Flatten(Every(xs, from, step)) == []
  {
  }

  lemma EveryStep<T>(xs: seq<seq<T>>, from: nat, step: nat)
    requires step > 0 && from < |xs|
    ensures Flatten(Every(xs, from, step)) == xs[from] + Flatten(Every(xs, from + step, step))
  {
    assert Every(xs, from, step)[1..] == Every(xs, from + step, step);
    FlattenHead(Every(xs, from, step));
  }

  lemma AllGroupsTaken(n: nat, size: nat, c: nat, j: nat)
    requires 0 < size && c < size && j * size + c >= n
    ensures j >= n / size
  {
    assert n == size * (n / size) + n % size;
    if j < n / size {
      QuotientOrder(size, j, c, n / size, n % size);
    }
  }

  lemma PastTheEnd<T>(rows: seq<T>, per: nat, groups: nat, j: nat)
    requires j >= groups && groups * per >= |rows|
    ensures RowsFrom(rows, per, j) == []
  {
    Times(j, per, groups);
  }

  lemma MergeRankRows<T>(rows: seq<T>, held: seq<seq<T>>, dpSize: nat, dpRank: nat, size: nat)
    requires dpRank < dpSize && 0 < size <= dpSize && |held| == dpSize
    requires forall r :: 0 <= r < dpSize ==> held[r] == RankRows(rows, dpSize, r, size)
    ensures Merged(held, dpRank, size) == rows
  {
    hide GroupRows, CeilDiv, Every, Flatten;
    var groups := Groups(dpSize, size);
    var per := CeilDiv(|rows|, groups);
    CeilCovers(|rows|, groups, per);
    assert groups * per == per * groups;
    MergeFrom(rows, held, size, per, dpRank % size, 0);
    assert RowsFrom(rows, per, 0) == rows by {
      assert Cut(|rows|, per, 0) == 0;
    }
  }

  /** Merging what the ranks split puts the batch back in order, on every rank, whenever every rank's
      split succeeds. All are marked with the same number of sharing ranks. */
  lemma MergeRebuilds<T>(batch: seq<seq<T>>, cap: nat, held: seq<seq<seq<T>>>, dpRank: nat) returns (size: nat)
    requires cap > 0 && dpRank < |held| <= |batch|
    requires forall r :: 0 <= r < |held| ==>
               Split(batch, cap, |held|, r).Success? && held[r] == Split(batch, cap, |held|, r).value.0
    ensures 0 < size <= |held| && (LongestRow(batch) >= 1 ==> LeastPower(size, LongestRow(batch), cap))
    ensures forall r :: 0 <= r < |held| ==> Split(batch, cap, |held|, r).value.1 == Some(size)
    ensures (if size == |held| then held[dpRank] else Merged(held, dpRank, size)) == batch
  {
    size := LocalCpSize(LongestRow(batch), cap);
    LocalCpSizeIsLeast(LongestRow(batch), cap);
    hide LocalCpSize, LongestRow, RankRows, Merged, LeastPower;
    assert Split(batch, cap, |held|, dpRank).Success?;
    if size < |held| {
      MergeRankRows(batch, held, |held|, dpRank, size);
    }
  }
}
