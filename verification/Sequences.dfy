/** Joining lists and cutting them into pieces, as the tensor library does along the first dimension. */
module Sequences {
  import opened PythonLists
  import opened Arithmetic

  // ----- joining -----

  function Flatten<T>(bs: seq<seq<T>>): seq<T> {
    if bs == [] then [] else Flatten(bs[..|bs| - 1]) + bs[|bs| - 1]
  }

  lemma FlattenNone<T>()
    ensures Flatten<T>([]) == []
  {
  }

  lemma FlattenAppend<T>(bs: seq<seq<T>>, b: seq<T>)
    ensures Flatten(bs + [b]) == Flatten(bs) + b
  {
    assert (bs + [b])[..|bs|] == bs;
  }

  lemma {:induction false} FlattenConcat<T>(a: seq<seq<T>>, b: seq<seq<T>>)
    ensures Flatten(a + b) == Flatten(a) + Flatten(b)
    decreases |b|
  {
    if b == [] {
      assert a + b == a;
    } else {
      var front, last := b[..|b| - 1], b[|b| - 1];
      FlattenConcat(a, front);
      assert a + b == (a + front) + [last];
      FlattenAppend(a + front, last);
      assert Flatten(a) + (Flatten(front) + last) == (Flatten(a) + Flatten(front)) + last;
    }
  }

  lemma FlattenOne<T>(b: seq<T>)
    ensures Flatten([b]) == b
  {
    FlattenAppend([], b);
    assert [] + [b] == [b];
  }

  lemma {:induction false} FlattenHead<T>(parts: seq<seq<T>>)
    requires parts != []
    ensures Flatten(parts) == parts[0] + Flatten(parts[1..])
  {
    assert parts == [parts[0]] + parts[1..];
    FlattenConcat([parts[0]], parts[1..]);
    FlattenOne(parts[0]);
  }

  /** Taking the same element out of two lists with the same elements. */
  lemma TakenOut<T>(front: seq<T>, x: T, lo: seq<T>, hi: seq<T>)
    requires multiset(front + [x]) == multiset(lo + [x] + hi)
    ensures multiset(front) == multiset(lo + hi)
  {
    assert multiset(front + [x]) == multiset(front) + multiset{x};
    assert multiset(lo + [x] + hi) == multiset(lo + hi) + multiset{x};
    assert multiset(front) == multiset(front + [x]) - multiset{x};
  }

  // ----- cutting -----

  /** n consecutive pieces of s rows. */
  function Cut<T>(t: seq<T>, n: nat, s: nat): (r: seq<seq<T>>)
    ensures |r| == n
    decreases n
  {
    if n == 0 then [] else [Take(t, s)] + Cut(Drop(t, s), n - 1, s)
  }

  /** `torch.chunk`: pieces of the rounded-up size until the rows run out, which may give fewer
      pieces than asked for. */
  function Chunk<T>(t: seq<T>, n: nat): seq<seq<T>>
    requires n > 0
  {
    var s := (|t| + n - 1) / n;
    if s == 0 then Cut(t, n, 0) else Cut(t, (|t| + s - 1) / s, s)
  }

  lemma ChunkExact<T>(t: seq<T>, n: nat, s: nat)
    requires n > 0 && |t| == n * s
    ensures Chunk(t, n) == Cut(t, n, s)
  {
    hide Cut;
    ChunkSize(|t|, n, s);
  }

  /** The size of the pieces, and how many there are. */
  lemma ChunkSize(rows: nat, n: nat, s: nat)
    requires n > 0 && rows == n * s
    ensures (rows + n - 1) / n == s
    ensures s > 0 ==> (rows + s - 1) / s == n
  {
    assert s * n == n * s;
    DivModIs(rows + n - 1, n, s, n - 1);
    if s > 0 {
      DivModIs(rows + s - 1, s, n, s - 1);
    }
  }

  lemma TakeDrop<T>(a: seq<T>, b: seq<T>)
    ensures Take(a + b, |a|) == a && Drop(a + b, |a|) == b
  {
  }

  lemma Halves<T>(t: seq<T>, n: nat)
    requires n <= |t|
    ensures t == Take(t, n) + Drop(t, n) && |Take(t, n)| == n && |Drop(t, n)| == |t| - n
  {
  }

  lemma CutStep<T>(t: seq<T>, n: nat, s: nat)
    requires n > 0
    ensures Cut(t, n, s)[0] == Take(t, s) && Cut(t, n, s)[1..] == Cut(Drop(t, s), n - 1, s)
    ensures |t| == n * s ==> s <= |t| && |Drop(t, s)| == (n - 1) * s
  {
    if |t| == n * s {
      assert (n - 1) * s + s == n * s && (n - 1) * s >= 0;
    }
  }

  lemma {:induction false} CutConcat<T>(a: seq<T>, b: seq<T>, m: nat, n: nat, s: nat)
    requires |a| == m * s
    ensures Cut(a + b, m + n, s) == Cut(a, m, s) + Cut(b, n, s)
    decreases m
  {
    hide Cut, Take, Drop;
    if m == 0 {
      assert a + b == b && Cut(a, m, s) == [];
    } else {
      CutStep(a, m, s);
      CutStep(a + b, m + n, s);
      Halves(a, s);
      TakeDrop(Take(a, s), Drop(a, s) + b);
      assert Take(a, s) + (Drop(a, s) + b) == a + b;
      CutConcat(Drop(a, s), b, m - 1, n, s);
      assert Cut(a + b, m + n, s) == [Take(a, s)] + Cut(Drop(a, s) + b, m - 1 + n, s);
      assert Cut(a, m, s) == [Take(a, s)] + Cut(Drop(a, s), m - 1, s);
    }
  }

  lemma {:induction false} CutSizes<T>(t: seq<T>, n: nat, s: nat)
    requires |t| == n * s
    ensures forall g :: g in Cut(t, n, s) ==> |g| == s
    decreases n
  {
    if n > 0 {
      hide Cut;
      CutStep(t, n, s);
      CutSizes(Drop(t, s), n - 1, s);
      assert Cut(t, n, s) == [Take(t, s)] + Cut(t, n, s)[1..];
    }
  }
}
