/** Taking the fused query-key-value weight apart. The fused rows come in one group per key-value
    head, each with its queries, then its key, then its value; the source takes them apart in three
    places. */
module Qkv {
  import opened Options
  import opened PythonLists
  import opened Arithmetic
  import opened Sequences

  datatype Fault = AssertionError | ZeroDivisionError | RuntimeError | ValueError

  datatype Split<T> = Split(q: seq<T>, k: seq<T>, v: seq<T>)

  // ----- the reference -----

  /** The rows [lo, lo + n) of every group, in order. */
  function Collect<T>(gs: seq<seq<T>>, lo: nat, n: nat): seq<T> {
    if gs == [] then [] else Take(Drop(gs[0], lo), n) + Collect(gs[1..], lo, n)
  }

  lemma {:induction false} CollectConcat<T>(a: seq<seq<T>>, b: seq<seq<T>>, lo: nat, n: nat)
    ensures Collect(a + b, lo, n) == Collect(a, lo, n) + Collect(b, lo, n)
  {
    hide Take, Drop;
    if a == [] {
      assert a + b == b;
    } else {
      assert (a + b)[1..] == a[1..] + b;
      CollectConcat(a[1..], b, lo, n);
      assert Collect(a + b, lo, n) == Take(Drop(a[0], lo), n) + (Collect(a[1..], lo, n) + Collect(b, lo, n));
    }
  }

  lemma CollectOne<T>(g: seq<T>, lo: nat, n: nat)
    ensures Collect([g], lo, n) == Take(Drop(g, lo), n)
  {
    assert [g][1..] == [];
  }

  /** Queries, keys and values of n groups of qs query rows and ks rows each of key and value. */
  function Deinterleave<T>(t: seq<T>, n: nat, qs: nat, ks: nat): Split<T> {
    var gs := Cut(t, n, qs + ks + ks);
    Split(Collect(gs, 0, qs), Collect(gs, qs, ks), Collect(gs, qs + ks, ks))
  }

  /** The inverse: group by group, queries, key, value. */
  function Interleave<T>(s: Split<T>, n: nat, qs: nat, ks: nat): seq<T>
    decreases n
  {
    if n == 0 then []
    else
      var rest := Split(Drop(s.q, qs), Drop(s.k, ks), Drop(s.v, ks));
      Take(s.q, qs) + Take(s.k, ks) + Take(s.v, ks) + Interleave(rest, n - 1, qs, ks)
  }

  /** A group and its three parts. */
  lemma GroupParts<T>(g: seq<T>, qs: nat, ks: nat)
    requires |g| == qs + ks + ks
    ensures var q, k, v := Take(Drop(g, 0), qs), Take(Drop(g, qs), ks), Take(Drop(g, qs + ks), ks);
            |q| == qs && |k| == |v| == ks && g == q + k + v && v == Drop(g, qs + ks) && q == Take(g, qs)
  {
  }

  lemma DeinterleaveStep<T>(t: seq<T>, n: nat, qs: nat, ks: nat)
    requires n > 0 && |t| == n * (qs + ks + ks)
    ensures var g := qs + ks + ks;
            var head, rest := Take(t, g), Drop(t, g);
            var s, s' := Deinterleave(t, n, qs, ks), Deinterleave(rest, n - 1, qs, ks);
            && |head| == g && t == head + rest && |rest| == (n - 1) * g
            && s.q == Take(Drop(head, 0), qs) + s'.q
            && s.k == Take(Drop(head, qs), ks) + s'.k
            && s.v == Take(Drop(head, qs + ks), ks) + s'.v
  {
    hide Take, Drop;
    CutStep(t, n, qs + ks + ks);
    Halves(t, qs + ks + ks);
  }

  /** Re-interleaving what was taken apart gives the fused tensor back. */
  lemma {:induction false} InterleaveInverts<T>(t: seq<T>, n: nat, qs: nat, ks: nat)
    requires |t| == n * (qs + ks + ks)
    ensures Interleave(Deinterleave(t, n, qs, ks), n, qs, ks) == t
    decreases n
  {
    hide Take, Drop, Deinterleave;
    if n > 0 {
      var g := qs + ks + ks;
      var head, rest := Take(t, g), Drop(t, g);
      var s' := Deinterleave(rest, n - 1, qs, ks);
      DeinterleaveStep(t, n, qs, ks);
      GroupParts(head, qs, ks);
      InterleaveInverts(rest, n - 1, qs, ks);
      TakeDrop(Take(Drop(head, 0), qs), s'.q);
      TakeDrop(Take(Drop(head, qs), ks), s'.k);
      TakeDrop(Take(Drop(head, qs + ks), ks), s'.v);
      assert Split(s'.q, s'.k, s'.v) == s';
    }
  }

  lemma Spread(n: nat, s: nat)
    requires n > 0
    ensures n * s == (n - 1) * s + s && (n - 1) * s >= 0
  {
  }

  lemma InterleaveStep<T>(s: Split<T>, n: nat, qs: nat, ks: nat)
    requires n > 0 && |s.q| == n * qs && |s.k| == |s.v| == n * ks
    ensures |Take(s.q, qs)| == qs && |Take(s.k, ks)| == |Take(s.v, ks)| == ks
    ensures |Drop(s.q, qs)| == (n - 1) * qs && |Drop(s.k, ks)| == |Drop(s.v, ks)| == (n - 1) * ks
    ensures s.q == Take(s.q, qs) + Drop(s.q, qs) && s.k == Take(s.k, ks) + Drop(s.k, ks)
              && s.v == Take(s.v, ks) + Drop(s.v, ks)
  {
    Spread(n, qs);
    Spread(n, ks);
  }

  /** Taking apart what was interleaved gives the parts back. */
  lemma {:induction false} DeinterleaveInverts<T>(s: Split<T>, n: nat, qs: nat, ks: nat)
    requires |s.q| == n * qs && |s.k| == |s.v| == n * ks
    ensures |Interleave(s, n, qs, ks)| == n * (qs + ks + ks)
    ensures Deinterleave(Interleave(s, n, qs, ks), n, qs, ks) == s
    decreases n
  {
    hide Take, Drop, Deinterleave;
    if n == 0 {
      assert Deinterleave<T>([], 0, qs, ks) == Split([], [], []) by {
        NoGroups<T>(qs, ks);
      }
    } else {
      var g := qs + ks + ks;
      var t, s' := Interleave(s, n, qs, ks), Split(Drop(s.q, qs), Drop(s.k, ks), Drop(s.v, ks));
      var q, k, v := Take(s.q, qs), Take(s.k, ks), Take(s.v, ks);
      InterleaveStep(s, n, qs, ks);
      DeinterleaveInverts(s', n - 1, qs, ks);
      Spread(n, g);
      TakeDrop(q + k + v, Interleave(s', n - 1, qs, ks));
      DeinterleaveStep(t, n, qs, ks);
      Parts(q, k, v);
    }
  }

  lemma Parts<T>(q: seq<T>, k: seq<T>, v: seq<T>)
    requires |k| == |v|
    ensures var g, qs, ks := q + k + v, |q|, |k|;
            Take(Drop(g, 0), qs) == q && Take(Drop(g, qs), ks) == k && Take(Drop(g, qs + ks), ks) == v
  {
  }

  lemma NoGroups<T>(qs: nat, ks: nat)
    ensures Deinterleave<T>([], 0, qs, ks) == Split([], [], [])
  {
  }

  /** Taking the groups apart loses, repeats and changes no row. */
  lemma {:induction false} DeinterleavePermutes<T>(t: seq<T>, n: nat, qs: nat, ks: nat)
    requires |t| == n * (qs + ks + ks)
    ensures var s := Deinterleave(t, n, qs, ks); multiset(s.q) + multiset(s.k) + multiset(s.v) == multiset(t)
    decreases n
  {
    hide Take, Drop, Deinterleave;
    if n == 0 {
      NoGroups<T>(qs, ks);
      assert t == [];
    } else {
      var g := qs + ks + ks;
      var head, rest := Take(t, g), Drop(t, g);
      DeinterleaveStep(t, n, qs, ks);
      DeinterleavePermutes(rest, n - 1, qs, ks);
      GroupParts(head, qs, ks);
      var s' := Deinterleave(rest, n - 1, qs, ks);
      Shuffle(Take(Drop(head, 0), qs), Take(Drop(head, qs), ks), Take(Drop(head, qs + ks), ks), s', rest);
    }
  }

  lemma Shuffle<T>(q: seq<T>, k: seq<T>, v: seq<T>, s: Split<T>, rest: seq<T>)
    requires multiset(s.q) + multiset(s.k) + multiset(s.v) == multiset(rest)
    ensures multiset(q + s.q) + multiset(k + s.k) + multiset(v + s.v) == multiset((q + k + v) + rest)
  {
    assert multiset(q + s.q) == multiset(q) + multiset(s.q);
    assert multiset(k + s.k) == multiset(k) + multiset(s.k);
    assert multiset(v + s.v) == multiset(v) + multiset(s.v);
    assert multiset((q + k + v) + rest) == multiset(q) + multiset(k) + multiset(v) + multiset(rest);
  }

  // ----- the three implementations -----

  /** The configurations the three are meant for: the tensor ranks divide the key-value heads, and
      the fused tensor has whole groups. */
  predicate Regular(rows: nat, headDim: nat, heads: nat, kvHeads: nat, tp: nat) {
    && tp > 0 && kvHeads > 0 && kvHeads % tp == 0 && heads % kvHeads == 0
    && rows == kvHeads * (PerKv(heads, kvHeads) * headDim + headDim + headDim)
  }

  /** Query heads for each key-value head; key-value heads of a tensor rank; rows of a tensor rank. */
  function PerKv(heads: nat, kvHeads: nat): nat
    requires kvHeads > 0
  {
    heads / kvHeads
  }

  function PerRank(kvHeads: nat, tp: nat): nat
    requires tp > 0
  {
    kvHeads / tp
  }

  function RowsPerRank(headDim: nat, heads: nat, tp: nat): nat
    requires tp > 0
  {
    headDim * heads / tp
  }

  /** Query rows of a group, rows of a group, rows of all groups of a rank. */
  function QueryRows(headDim: nat, heads: nat, kvHeads: nat): nat
    requires kvHeads > 0
  {
    PerKv(heads, kvHeads) * headDim
  }

  function GroupRows(headDim: nat, heads: nat, kvHeads: nat): nat
    requires kvHeads > 0
  {
    QueryRows(headDim, heads, kvHeads) + headDim + headDim
  }

  function RankRows(headDim: nat, heads: nat, kvHeads: nat, tp: nat): nat
    requires kvHeads > 0 && tp > 0
  {
    PerRank(kvHeads, tp) * GroupRows(headDim, heads, kvHeads)
  }

  function Reference<T>(full: seq<T>, headDim: nat, heads: nat, kvHeads: nat): Split<T>
    requires kvHeads > 0
  {
    Deinterleave(full, kvHeads, QueryRows(headDim, heads, kvHeads), headDim)
  }

  /** The sizes `convert_qkv_shard` computes, in the terms of the reference. */
  lemma RegularSizes(rows: nat, headDim: nat, heads: nat, kvHeads: nat, tp: nat)
    requires Regular(rows, headDim, heads, kvHeads, tp)
    ensures var c := PerRank(kvHeads, tp);
            var qSize, kvSize := RowsPerRank(headDim, heads, tp), RowsPerRank(headDim, kvHeads, tp);
            && c > 0 && tp * c == kvHeads
            && qSize / c == QueryRows(headDim, heads, kvHeads) && kvSize / c == headDim
            && qSize + 2 * kvSize == RankRows(headDim, heads, kvHeads, tp)
            && tp * RankRows(headDim, heads, kvHeads, tp) == rows
  {
    var n, c := PerKv(heads, kvHeads), PerRank(kvHeads, tp);
    var qs := n * headDim;
    Whole(heads, kvHeads);
    Whole(kvHeads, tp);
    PositiveFactor(c, tp);
    HeadsProduct(headDim, n, c, tp);
    Cancel(c * qs, tp);
    Cancel(c * headDim, tp);
    assert c * qs == qs * c && c * headDim == headDim * c;
    Cancel(qs, c);
    Cancel(headDim, c);
    GroupsProduct(c, qs, headDim, tp);
  }

  lemma HeadsProduct(d: nat, n: nat, c: nat, tp: nat)
    ensures d * (n * (c * tp)) == c * (n * d) * tp
    ensures d * (c * tp) == c * d * tp
  {
  }

  lemma GroupsProduct(c: nat, qs: nat, d: nat, tp: nat)
    ensures c * qs + 2 * (c * d) == c * (qs + d + d)
    ensures tp * (c * (qs + d + d)) == c * tp * (qs + d + d)
  {
  }

  /** The next rank's rows are the next groups. */
  lemma NextPart<T>(full: seq<T>, part: seq<T>, i: nat, c: nat, g: nat)
    requires |full| == i * (c * g) && |part| == c * g
    ensures Cut(full + part, (i + 1) * c, g) == Cut(full, i * c, g) + Cut(part, c, g)
    ensures |full + part| == (i + 1) * (c * g)
  {
    assert i * c * g == i * (c * g) && (i + 1) * c == i * c + c && (i + 1) * (c * g) == i * (c * g) + c * g;
    CutConcat(full, part, i * c, c, g);
  }

  /** The parts taken from the first i ranks' groups. */
  ghost predicate Taken<T>(rows: seq<T>, i: nat, c: nat, qs: nat, ks: nat, s: Split<T>) {
    |rows| == i * (c * (qs + ks + ks)) && s == Deinterleave(rows, i * c, qs, ks)
  }

  lemma NothingTaken<T>(c: nat, qs: nat, ks: nat)
    ensures Taken<T>([], 0, c, qs, ks, Split([], [], []))
  {
    NoGroups<T>(qs, ks);
    assert 0 * (c * (qs + ks + ks)) == 0 && 0 * c == 0;
  }

  lemma TakenStep<T>(rows: seq<T>, part: seq<T>, i: nat, c: nat, qs: nat, ks: nat, s: Split<T>, s': Split<T>)
    requires Taken(rows, i, c, qs, ks, s) && |part| == c * (qs + ks + ks)
    requires s' == Extended(s, Cut(part, c, qs + ks + ks), qs, ks)
    ensures Taken(rows + part, i + 1, c, qs, ks, s')
  {
    hide Cut, Collect;
    var g := qs + ks + ks;
    NextPart(rows, part, i, c, g);
    var a, b := Cut(rows, i * c, g), Cut(part, c, g);
    CollectConcat(a, b, 0, qs);
    CollectConcat(a, b, qs, ks);
    CollectConcat(a, b, qs + ks, ks);
  }

  ghost predicate AllSized<T>(pieces: seq<seq<T>>, n: nat) {
    forall g :: g in pieces ==> |g| == n
  }

  /** The parts s with those of these pieces behind them. */
  function Extended<T>(s: Split<T>, pieces: seq<seq<T>>, qs: nat, ks: nat): Split<T> {
    Split(s.q + Collect(pieces, 0, qs), s.k + Collect(pieces, qs, ks), s.v + Collect(pieces, qs + ks, ks))
  }

  lemma ExtendedNext<T>(s: Split<T>, pieces: seq<seq<T>>, j: nat, qs: nat, ks: nat)
    requires j < |pieces| && |pieces[j]| == qs + ks + ks
    ensures var s', piece := Extended(s, pieces[..j], qs, ks), pieces[j];
            Extended(s, pieces[..j + 1], qs, ks) ==
              Split(s'.q + Take(piece, qs), s'.k + Take(Drop(piece, qs), ks), s'.v + Drop(piece, qs + ks))
  {
    hide Collect, Take, Drop;
    CollectNext(pieces, j, 0, qs);
    CollectNext(pieces, j, qs, ks);
    CollectNext(pieces, j, qs + ks, ks);
    GroupParts(pieces[j], qs, ks);
  }

  lemma ExtendedNone<T>(s: Split<T>, qs: nat, ks: nat)
    ensures Extended(s, [], qs, ks) == s
  {
  }

  /** The inner loop of `convert_qkv_shard`: slices of every piece, the value being what is left. */
  method SlicePieces<T>(pieces: seq<seq<T>>, qs: nat, ks: nat, s: Split<T>) returns (s': Split<T>)
    ensures AllSized(pieces, qs + ks + ks) ==> s' == Extended(s, pieces, qs, ks)
  {
    hide Extended, Take, Drop;
    s' := s;
    ExtendedNone(s, qs, ks);
    for j := 0 to |pieces|
      invariant AllSized(pieces, qs + ks + ks) ==> s' == Extended(s, pieces[..j], qs, ks)
    {
      var piece := pieces[j];
      s' := Split(s'.q + Take(piece, qs), s'.k + Take(Drop(piece, qs), ks), s'.v + Drop(piece, qs + ks));
      if AllSized(pieces, qs + ks + ks) {
        assert piece in pieces;
        ExtendedNext(s, pieces, j, qs, ks);
      }
    }
    assert pieces[..|pieces|] == pieces;
  }

  lemma CollectNext<T>(pieces: seq<seq<T>>, j: nat, lo: nat, n: nat)
    requires j < |pieces|
    ensures Collect(pieces[..j + 1], lo, n) == Collect(pieces[..j], lo, n) + Take(Drop(pieces[j], lo), n)
  {
    hide Collect, Take, Drop;
    CollectConcat(pieces[..j], [pieces[j]], lo, n);
    CollectOne(pieces[j], lo, n);
    assert pieces[..j + 1] == pieces[..j] + [pieces[j]];
  }

  // ----- fewer key-value heads than tensor ranks -----

  /** The pieces of the ranks among the first i whose keys and values are kept. */
  function Kept<T>(full: seq<T>, kvHeads: nat, tp: nat, c: nat, g: nat, i: nat): seq<seq<T>>
    requires tp > 0
  {
    if i == 0 then []
    else
      Kept(full, kvHeads, tp, c, g, i - 1) +
      if (i - 1) * kvHeads % tp == 0 then Cut(RankPart(full, i - 1, c * g), c, g) else []
  }

  /** Where the heads divide the ranks, one rank is kept of every run that shares a head. */
  lemma KeptRanks(kvHeads: nat, tp: nat, i: nat)
    requires kvHeads > 0 && tp > 0 && tp % kvHeads == 0
    ensures tp / kvHeads > 0 && (i * kvHeads % tp == 0 <==> i % (tp / kvHeads) == 0)
  {
    var run := tp / kvHeads;
    Whole(tp, kvHeads);
    PositiveFactor(run, kvHeads);
    var q, r := i / run, i % run;
    assert i == q * run + r;
    InRun(q, run, r, kvHeads);
    DivModIs(i * kvHeads, tp, q, r * kvHeads);
    if r > 0 {
      MulPos(kvHeads, r);
    }
  }

  lemma InRun(q: int, run: int, r: int, kv: int)
    requires 0 <= r < run && kv > 0
    ensures (q * run + r) * kv == q * (run * kv) + r * kv
    ensures 0 <= r * kv < run * kv && r * kv == kv * r
  {
    assert (run - r) * kv >= kv by {
      MulPos(run - r, kv);
    }
  }

  /** The sizes divide up: c pieces of qs query rows and ks rows each of key and value on every rank. */
  predicate Replicated(rows: nat, headDim: nat, heads: nat, tp: nat, groups: nat, qs: nat, ks: nat)
    requires tp > 0
  {
    var c := PerRank(groups, tp);
    && c > 0 && RowsPerRank(headDim, heads, tp) == c * qs && headDim == c * ks
    && rows == tp * (c * (qs + ks + ks))
  }

  /** All queries, and the keys and values of the kept ranks. */
  function KeptReference<T>(full: seq<T>, kvHeads: nat, tp: nat, c: nat, qs: nat, ks: nat): Split<T>
    requires tp > 0
  {
    var g := qs + ks + ks;
    var kept := Kept(full, kvHeads, tp, c, g, tp);
    Split(Collect(Cut(full, tp * c, g), 0, qs), Collect(kept, qs, ks), Collect(kept, qs + ks, ks))
  }

  ghost predicate KeptProgress<T>(full: seq<T>, kvHeads: nat, tp: nat, c: nat, qs: nat, ks: nat, i: nat, s: Split<T>)
    requires tp > 0
  {
    var g := qs + ks + ks;
    var kept := Kept(full, kvHeads, tp, c, g, i);
    && |Before(full, i, c * g)| == i * (c * g)
    && s == Split(Collect(Cut(Before(full, i, c * g), i * c, g), 0, qs), Collect(kept, qs, ks),
      Collect(kept, qs + ks, ks))
  }

  lemma NothingKept<T>(full: seq<T>, kvHeads: nat, tp: nat, c: nat, qs: nat, ks: nat)
    requires tp > 0 && |full| == tp * (c * (qs + ks + ks))
    ensures KeptProgress(full, kvHeads, tp, c, qs, ks, 0, Split([], [], []))
  {
    RankEnds(full, tp, c * (qs + ks + ks));
    assert 0 * (c * (qs + ks + ks)) == 0 && 0 * c == 0;
  }

  /** What one rank's pieces add. */
  function KeptExtended<T>(s: Split<T>, pieces: seq<seq<T>>, qs: nat, ks: nat, keep: bool): Split<T> {
    var more := Extended(s, pieces, qs, ks);
    if keep then more else Split(more.q, s.k, s.v)
  }

  lemma KeptStep<T>(full: seq<T>, kvHeads: nat, tp: nat, c: nat, qs: nat, ks: nat, i: nat, s: Split<T>)
    requires tp > 0 && c > 0 && i < tp && |full| == tp * (c * (qs + ks + ks))
               && KeptProgress(full, kvHeads, tp, c, qs, ks, i, s)
    ensures var g := qs + ks + ks;
            var pieces := Chunk(RankPart(full, i, c * g), c);
            && AllSized(pieces, g)
            && KeptProgress(full, kvHeads, tp, c, qs, ks, i + 1, KeptExtended(s, pieces, qs, ks, i * kvHeads % tp == 0))
  {
    hide Cut, Chunk, Collect, RankPart, Before;
    var g := qs + ks + ks;
    RankSlice(full, i, tp, c * g);
    var before, part := Before(full, i, c * g), RankPart(full, i, c * g);
    ChunkExact(part, c, g);
    CutSizes(part, c, g);
    NextPart(before, part, i, c, g);
    var pieces, kept := Cut(part, c, g), Kept(full, kvHeads, tp, c, g, i);
    CollectConcat(Cut(before, i * c, g), pieces, 0, qs);
    if i * kvHeads % tp == 0 {
      CollectConcat(kept, pieces, qs, ks);
      CollectConcat(kept, pieces, qs + ks, ks);
    } else {
      assert kept + [] == kept;
    }
  }

  lemma KeptAll<T>(full: seq<T>, kvHeads: nat, tp: nat, c: nat, qs: nat, ks: nat, s: Split<T>)
    requires tp > 0 && |full| == tp * (c * (qs + ks + ks)) && KeptProgress(full, kvHeads, tp, c, qs, ks, tp, s)
    ensures s == KeptReference(full, kvHeads, tp, c, qs, ks)
  {
    hide Cut, Collect, Before, Kept;
    RankEnds(full, tp, c * (qs + ks + ks));
  }

  lemma ReplicatedSizes(rows: nat, headDim: nat, heads: nat, tp: nat, groups: nat, qs: nat, ks: nat)
    requires tp > 0 && Replicated(rows, headDim, heads, tp, groups, qs, ks)
    ensures var c := PerRank(groups, tp);
            && c > 0 && RowsPerRank(headDim, heads, tp) / c == qs && headDim / c == ks
            && RowsPerRank(headDim, heads, tp) + 2 * headDim == c * (qs + ks + ks)
            && rows == tp * (c * (qs + ks + ks))
  {
    hide PerRank, RowsPerRank;
    var c := PerRank(groups, tp);
    assert c * qs == qs * c && c * ks == ks * c;
    Cancel(qs, c);
    Cancel(ks, c);
    assert c * qs + 2 * (c * ks) == c * (qs + ks + ks);
  }

  /** The branch of `convert_qkv_shard` for fewer key-value heads than tensor ranks; qs and ks are the
      rows of a piece. */
  method ConvertReplicated<T>(full: seq<T>, headDim: nat, heads: nat, kvHeads: nat, tp: nat, groups: nat,
                              ghost qs: nat, ghost ks: nat)
    returns (r: Result<Split<T>, Fault>)
    requires tp > 0
    ensures r.Failure? <==> groups < tp
    ensures r.Failure? ==> r.error == ZeroDivisionError
    ensures Replicated(|full|, headDim, heads, tp, groups, qs, ks) ==>
              r == Success(KeptReference(full, kvHeads, tp, PerRank(groups, tp), qs, ks))
  {
    hide Chunk, Cut, KeptProgress, Extended, RankPart, PerRank, RowsPerRank, AllSized, Replicated, KeptReference;
    var qSizeTp := RowsPerRank(headDim, heads, tp);
    var totalSize := qSizeTp + 2 * headDim;
    ghost var regular, c := Replicated(|full|, headDim, heads, tp, groups, qs, ks), PerRank(groups, tp);
    GroupsPerRank(groups, tp);
    var s := Split([], [], []);
    if regular {
      ReplicatedSizes(|full|, headDim, heads, tp, groups, qs, ks);
      NothingKept(full, kvHeads, tp, c, qs, ks);
    }
    for i := 0 to tp
      invariant i > 0 ==> groups >= tp
      invariant regular ==> KeptProgress(full, kvHeads, tp, c, qs, ks, i, s)
    {
      var groupsPerPartition := PerRank(groups, tp);
      var part := RankPart(full, i, totalSize);
      if groupsPerPartition == 0 {
        return Failure(ZeroDivisionError);
      }
      if regular {
        KeptStep(full, kvHeads, tp, c, qs, ks, i, s);
      }
      var pieces := Chunk(part, groupsPerPartition);
      var more := SlicePieces(pieces, qSizeTp / groupsPerPartition, headDim / groupsPerPartition, s);
      s := if i * kvHeads % tp == 0 then more else Split(more.q, s.k, s.v);
    }
    if regular {
      KeptAll(full, kvHeads, tp, c, qs, ks, s);
    }
    return Success(s);
  }

  /** `convert_qkv_shard`. */
  method ConvertQkvShard<T>(full: seq<T>, headDim: nat, heads: nat, kvHeads: nat, tp: nat, groups: nat,
                            ghost qs: nat, ghost ks: nat)
    returns (r: Result<Split<T>, Fault>)
    requires tp > 0
    ensures r.Failure? <==> groups < tp
    ensures r.Failure? ==> r.error == ZeroDivisionError
    ensures Regular(|full|, headDim, heads, kvHeads, tp) && groups == kvHeads ==>
              r == Success(Reference(full, headDim, heads, kvHeads))
    ensures kvHeads < tp && Replicated(|full|, headDim, heads, tp, groups, qs, ks) ==>
              r == Success(KeptReference(full, kvHeads, tp, PerRank(groups, tp), qs, ks))
  {
    hide Regular, Reference, Replicated, KeptReference, PerRank;
    if Regular(|full|, headDim, heads, kvHeads, tp) {
      TpWithinHeads(|full|, headDim, heads, kvHeads, tp);
    }
    if kvHeads >= tp {
      r := ConvertOwnHeads(full, headDim, heads, kvHeads, tp, groups);
    } else {
      r := ConvertReplicated(full, headDim, heads, kvHeads, tp, groups, qs, ks);
    }
  }

  /** The branch of `convert_qkv_shard` where every tensor rank has key-value heads of its own. */
  method ConvertOwnHeads<T>(full: seq<T>, headDim: nat, heads: nat, kvHeads: nat, tp: nat, groups: nat)
    returns (r: Result<Split<T>, Fault>)
    requires kvHeads >= tp > 0
    ensures r.Failure? <==> groups < tp
    ensures r.Failure? ==> r.error == ZeroDivisionError
    ensures Regular(|full|, headDim, heads, kvHeads, tp) && groups == kvHeads ==>
              r == Success(Reference(full, headDim, heads, kvHeads))
  {
    hide Chunk, Regular, Reference, Progress, Extended, RankPart, RankRows, QueryRows, PerRank, RowsPerRank, AllSized,
         Cut;
    var qSizeTp := RowsPerRank(headDim, heads, tp);
    var kvSizeTp := RowsPerRank(headDim, kvHeads, tp);
    var totalSize := qSizeTp + 2 * kvSizeTp;
    ghost var regular := Regular(|full|, headDim, heads, kvHeads, tp) && groups == kvHeads;
    GroupsPerRank(groups, tp);
    var s := Split([], [], []);
    if regular {
      RegularSizes(|full|, headDim, heads, kvHeads, tp);
      NoProgress(full, headDim, heads, kvHeads, tp);
    }
    for i := 0 to tp
      invariant i > 0 ==> groups >= tp
      invariant regular ==> Progress(full, headDim, heads, kvHeads, tp, i, s)
    {
      var groupsPerPartition := PerRank(groups, tp);
      var part := RankPart(full, i, totalSize);
      if groupsPerPartition == 0 {
        return Failure(ZeroDivisionError);
      }
      var qSizeChunk := qSizeTp / groupsPerPartition;
      var kvSizeChunk := kvSizeTp / groupsPerPartition;
      var pieces := Chunk(part, groupsPerPartition);
      ghost var before := s;
      s := SlicePieces(pieces, qSizeChunk, kvSizeChunk, s);
      if regular {
        RankPieces(full, headDim, heads, kvHeads, tp, i);
        MoreProgress(full, headDim, heads, kvHeads, tp, i, before, s);
      }
    }
    if regular {
      FullProgress(full, headDim, heads, kvHeads, tp, s);
    }
    return Success(s);
  }

  /** The rows of the first i ranks, and those of the i-th. */
  function Before<T>(full: seq<T>, i: nat, total: nat): seq<T> {
    Take(full, i * total)
  }

  function RankPart<T>(full: seq<T>, i: nat, total: nat): seq<T> {
    PySlice(full, i * total, (i + 1) * total)
  }

  lemma RankSlice<T>(full: seq<T>, i: nat, tp: nat, total: nat)
    requires i < tp && tp * total == |full|
    ensures Before(full, i, total) + RankPart(full, i, total) == Before(full, i + 1, total)
    ensures |RankPart(full, i, total)| == total
  {
    Times(tp, total, i + 1);
    Times(i, total, 0);
    assert (i + 1) * total == i * total + total;
  }

  lemma RankEnds<T>(full: seq<T>, tp: nat, total: nat)
    requires tp * total == |full|
    ensures Before(full, 0, total) == [] && Before(full, tp, total) == full
  {
    assert 0 * total == 0;
  }

  /** The parts of the first i ranks have been taken. */
  ghost predicate Progress<T>(full: seq<T>, headDim: nat, heads: nat, kvHeads: nat, tp: nat, i: nat, s: Split<T>)
    requires kvHeads > 0 && tp > 0
  {
    Taken(Before(full, i, RankRows(headDim, heads, kvHeads, tp)), i, PerRank(kvHeads, tp),
      QueryRows(headDim, heads, kvHeads), headDim, s)
  }

  lemma NoProgress<T>(full: seq<T>, headDim: nat, heads: nat, kvHeads: nat, tp: nat)
    requires Regular(|full|, headDim, heads, kvHeads, tp)
    ensures Progress(full, headDim, heads, kvHeads, tp, 0, Split([], [], []))
  {
    hide Taken, Regular, RankRows, QueryRows, Before;
    RegularKv(|full|, headDim, heads, kvHeads, tp);
    RegularSizes(|full|, headDim, heads, kvHeads, tp);
    NothingTaken<T>(PerRank(kvHeads, tp), QueryRows(headDim, heads, kvHeads), headDim);
    RankEnds(full, tp, RankRows(headDim, heads, kvHeads, tp));
  }

  /** What the i-th rank's rows are chunked into. */
  lemma RankPieces<T>(full: seq<T>, headDim: nat, heads: nat, kvHeads: nat, tp: nat, i: nat)
    requires Regular(|full|, headDim, heads, kvHeads, tp) && i < tp && PerRank(kvHeads, tp) > 0
    ensures var c, g := PerRank(kvHeads, tp), GroupRows(headDim, heads, kvHeads);
            var part := RankPart(full, i, RankRows(headDim, heads, kvHeads, tp));
            && |part| == c * g && Chunk(part, c) == Cut(part, c, g) && AllSized(Chunk(part, c), g)
  {
    hide Chunk, Cut, RankPart, Regular, GroupRows, Before;
    RegularSizes(|full|, headDim, heads, kvHeads, tp);
    var c, g := PerRank(kvHeads, tp), GroupRows(headDim, heads, kvHeads);
    RankSlice(full, i, tp, RankRows(headDim, heads, kvHeads, tp));
    var part := RankPart(full, i, RankRows(headDim, heads, kvHeads, tp));
    ChunkExact(part, c, g);
    CutSizes(part, c, g);
  }

  lemma MoreProgress<T>(full: seq<T>, headDim: nat, heads: nat, kvHeads: nat, tp: nat, i: nat, s: Split<T>,
                        s': Split<T>)
    requires Regular(|full|, headDim, heads, kvHeads, tp) && i < tp && Progress(full, headDim, heads, kvHeads, tp, i, s)
    requires var part := RankPart(full, i, RankRows(headDim, heads, kvHeads, tp));
             s' == Extended(s, Cut(part, PerRank(kvHeads, tp), GroupRows(headDim, heads, kvHeads)),
               QueryRows(headDim, heads, kvHeads), headDim)
    ensures Progress(full, headDim, heads, kvHeads, tp, i + 1, s')
  {
    hide Cut, RankPart, Before, Taken, Extended, Regular, QueryRows;
    RegularSizes(|full|, headDim, heads, kvHeads, tp);
    var total := RankRows(headDim, heads, kvHeads, tp);
    RankSlice(full, i, tp, total);
    TakenStep(Before(full, i, total), RankPart(full, i, total), i, PerRank(kvHeads, tp),
      QueryRows(headDim, heads, kvHeads), headDim, s, s');
  }

  lemma FullProgress<T>(full: seq<T>, headDim: nat, heads: nat, kvHeads: nat, tp: nat, s: Split<T>)
    requires Regular(|full|, headDim, heads, kvHeads, tp) && Progress(full, headDim, heads, kvHeads, tp, tp, s)
    ensures s == Reference(full, headDim, heads, kvHeads)
  {
    hide Deinterleave, Before, Regular, RankRows, QueryRows;
    RegularKv(|full|, headDim, heads, kvHeads, tp);
    RegularSizes(|full|, headDim, heads, kvHeads, tp);
    RankEnds(full, tp, RankRows(headDim, heads, kvHeads, tp));
  }

  lemma GroupsPerRank(groups: nat, tp: nat)
    requires tp > 0
    ensures PerRank(groups, tp) == 0 <==> groups < tp
  {
    if groups < tp {
      DivModIs(groups, tp, 0, groups);
    }
  }

  lemma NoneSized<T>(n: nat)
    ensures AllSized<T>([], n)
  {
  }

  lemma SizedNext<T>(pieces: seq<seq<T>>, j: nat, n: nat)
    requires j < |pieces|
    ensures AllSized(pieces[..j + 1], n) <==> AllSized(pieces[..j], n) && |pieces[j]| == n
    ensures |pieces[j]| != n ==> !AllSized(pieces, n)
  {
    assert pieces[..j + 1] == pieces[..j] + [pieces[j]];
    assert pieces[j] in pieces;
  }

  /** `chunk.split([qs, ks, ks])` of every piece: an error where the sizes do not add up. */
  method SplitPieces<T>(pieces: seq<seq<T>>, qs: nat, ks: nat, s: Split<T>) returns (r: Result<Split<T>, Fault>)
    ensures r == if AllSized(pieces, qs + ks + ks) then Success(Extended(s, pieces, qs, ks)) else Failure(RuntimeError)
  {
    hide Extended, AllSized;
    var s' := s;
    NoneSized<T>(qs + ks + ks);
    ExtendedNone(s, qs, ks);
    for j := 0 to |pieces|
      invariant AllSized(pieces[..j], qs + ks + ks) && s' == Extended(s, pieces[..j], qs, ks)
    {
      var piece := pieces[j];
      SizedNext(pieces, j, qs + ks + ks);
      if |piece| != qs + ks + ks {
        return Failure(RuntimeError);
      }
      ExtendedNext(s, pieces, j, qs, ks);
      s' := Split(s'.q + piece[..qs], s'.k + piece[qs..qs + ks], s'.v + piece[qs + ks..]);
    }
    assert pieces[..|pieces|] == pieces;
    return Success(s');
  }

  /** `_split_tensors` on the whole tensor. */
  method SplitTensors<T>(full: seq<T>, headDim: nat, heads: nat, kvHeads: nat) returns (r: Result<Split<T>, Fault>)
    ensures kvHeads == 0 <==> r == Failure(ZeroDivisionError)
    ensures r == Failure(AssertionError) <==>
              kvHeads > 0 && (heads % kvHeads != 0 || |full| % (PerKv(heads, kvHeads) + 2) != 0)
    ensures Regular(|full|, headDim, heads, kvHeads, 1) ==> r == Success(Reference(full, headDim, heads, kvHeads))
  {
    hide Chunk, Reference, Extended, Regular, QueryRows, GroupRows, PerKv, AllSized, PieceQueries, PieceKeys;
    if Regular(|full|, headDim, heads, kvHeads, 1) {
      RegularKv(|full|, headDim, heads, kvHeads, 1);
      WholeTensor(full, headDim, heads, kvHeads);
      KvSize(|full|, kvHeads, headDim, heads, kvHeads);
    }
    if kvHeads == 0 {
      return Failure(ZeroDivisionError);
    }
    if heads % kvHeads != 0 {
      return Failure(AssertionError);
    }
    var perKv := PerKv(heads, kvHeads);
    if |full| % (perKv + 2) != 0 {
      return Failure(AssertionError);
    }
    var kvSize := |full| / (perKv + 2);
    var pieces := Chunk(full, kvHeads);
    r := SplitPieces(pieces, PieceQueries(kvSize, perKv, kvHeads), PieceKeys(kvSize, kvHeads), Split([], [], []));
  }

  lemma RegularKv(rows: nat, headDim: nat, heads: nat, kvHeads: nat, tp: nat)
    requires Regular(rows, headDim, heads, kvHeads, tp)
    ensures tp > 0 && kvHeads > 0 && heads % kvHeads == 0
  {
  }

  /** Query rows and key rows of a piece, when a tensor's keys have kvSize rows in n pieces. */
  function PieceQueries(kvSize: nat, perKv: nat, n: nat): nat
    requires n > 0
  {
    kvSize * perKv / n
  }

  function PieceKeys(kvSize: nat, n: nat): nat
    requires n > 0
  {
    kvSize / n
  }

  /** The key size both later implementations work out, for a tensor of c groups. */
  lemma KvSize(rows: nat, c: nat, headDim: nat, heads: nat, kvHeads: nat)
    requires c > 0 && kvHeads > 0 && rows == c * GroupRows(headDim, heads, kvHeads)
    ensures var perKv := PerKv(heads, kvHeads);
            var kvSize := rows / (perKv + 2);
            && rows % (perKv + 2) == 0
            && PieceQueries(kvSize, perKv, c) == QueryRows(headDim, heads, kvHeads) && PieceKeys(kvSize, c) == headDim
  {
    var perKv := PerKv(heads, kvHeads);
    KvProduct(c, perKv, headDim);
    DivModIs(rows, perKv + 2, c * headDim, 0);
    assert c * headDim * perKv == perKv * headDim * c && c * headDim == headDim * c by {
      Reorder(c, headDim, perKv);
      assert perKv * headDim == headDim * perKv;
    }
    Cancel(perKv * headDim, c);
    Cancel(headDim, c);
  }

  lemma KvProduct(c: nat, n: nat, d: nat)
    ensures c * (n * d + d + d) == c * d * (n + 2)
  {
  }

  lemma WholeTensor<T>(full: seq<T>, headDim: nat, heads: nat, kvHeads: nat)
    requires Regular(|full|, headDim, heads, kvHeads, 1)
    ensures |full| == kvHeads * GroupRows(headDim, heads, kvHeads)
    ensures AllSized(Chunk(full, kvHeads), QueryRows(headDim, heads, kvHeads) + headDim + headDim)
    ensures Extended(Split([], [], []), Chunk(full, kvHeads), QueryRows(headDim, heads, kvHeads), headDim) ==
              Reference(full, headDim, heads, kvHeads)
  {
    hide Chunk, Cut, Collect, QueryRows;
    var g := GroupRows(headDim, heads, kvHeads);
    assert |full| == kvHeads * g by {
      RowsOfGroups(|full|, headDim, heads, kvHeads, 1);
    }
    ChunkExact(full, kvHeads, g);
    CutSizes(full, kvHeads, g);
  }

  lemma RowsOfGroups(rows: nat, headDim: nat, heads: nat, kvHeads: nat, tp: nat)
    requires Regular(rows, headDim, heads, kvHeads, tp)
    ensures rows == kvHeads * GroupRows(headDim, heads, kvHeads)
  {
  }

  /** One shard for each tensor rank, all of this many rows. */
  predicate Sharded<T>(shards: seq<seq<T>>, tp: nat, rows: nat) {
    |shards| == tp && forall i :: 0 <= i < tp ==> |shards[i]| == rows
  }

  /** The query-key-value branch of `default_tp_concat_fn` on the gathered shards; `headDim` is the
      head size of the model they come from. */
  method DefaultTpConcat<T>(shards: seq<seq<T>>, heads: nat, kvHeads: nat, trainTp: nat, ghost headDim: nat)
    returns (r: Result<Split<T>, Fault>)
    requires shards != [] && trainTp > 0
    ensures kvHeads == 0 <==> r == Failure(ZeroDivisionError)
    ensures r == Failure(AssertionError) <==>
              kvHeads > 0 && (heads % kvHeads != 0 || |shards[0]| % (PerKv(heads, kvHeads) + 2) != 0)
    ensures Regular(|Flatten(shards)|, headDim, heads, kvHeads, trainTp)
              && Sharded(shards, trainTp, RankRows(headDim, heads, kvHeads, trainTp)) ==>
              r == Success(Reference(Flatten(shards), headDim, heads, kvHeads))
  {
    hide Chunk, Reference, Extended, Regular, QueryRows, PerKv, PerRank, AllSized, PieceQueries, PieceKeys,
         ShardProgress, Meant, Flatten;
    ghost var meant := Meant(shards, headDim, heads, kvHeads, trainTp);
    MeantIs(shards, headDim, heads, kvHeads, trainTp);
    if kvHeads == 0 {
      return Failure(ZeroDivisionError);
    }
    if heads % kvHeads != 0 {
      return Failure(AssertionError);
    }
    var perKv := PerKv(heads, kvHeads);
    if |shards[0]| % (perKv + 2) != 0 {
      return Failure(AssertionError);
    }
    var kvSizePerTp := |shards[0]| / (perKv + 2);
    var s := Split([], [], []);
    for i := 0 to |shards|
      invariant meant ==> ShardProgress(shards, headDim, heads, kvHeads, trainTp, i, s)
    {
      var groups := PerRank(kvHeads, trainTp);
      if groups == 0 {
        return Failure(RuntimeError);
      }
      if meant {
        ShardStep(shards, headDim, heads, kvHeads, trainTp, i, s);
      }
      var pieces := Chunk(shards[i], groups);
      var one := SplitPieces(pieces, PieceQueries(kvSizePerTp, perKv, groups), PieceKeys(kvSizePerTp, groups), s);
      if one.Failure? {
        return Failure(RuntimeError);
      }
      s := one.value;
    }
    if meant {
      ShardsDone(shards, headDim, heads, kvHeads, trainTp, s);
    }
    return Success(s);
  }

  /** The shards are those of a regular model. */
  predicate Meant<T>(shards: seq<seq<T>>, headDim: nat, heads: nat, kvHeads: nat, tp: nat) {
    tp > 0 && Regular(|Flatten(shards)|, headDim, heads, kvHeads, tp)
      && Sharded(shards, tp, RankRows(headDim, heads, kvHeads, tp))
  }

  ghost predicate ShardProgress<T>(shards: seq<seq<T>>, headDim: nat, heads: nat, kvHeads: nat, tp: nat, i: nat,
                                   s: Split<T>)
  {
    && i <= |shards| && kvHeads > 0 && tp > 0
    && Taken(Flatten(shards[..i]), i, PerRank(kvHeads, tp), QueryRows(headDim, heads, kvHeads), headDim, s)
  }

  /** What the checks before the loop see of a regular model's shards. */
  lemma MeantIs<T>(shards: seq<seq<T>>, headDim: nat, heads: nat, kvHeads: nat, tp: nat)
    requires shards != [] && tp > 0
    ensures Meant(shards, headDim, heads, kvHeads, tp) <==>
              && Regular(|Flatten(shards)|, headDim, heads, kvHeads, tp)
              && Sharded(shards, tp, RankRows(headDim, heads, kvHeads, tp))
    ensures Meant(shards, headDim, heads, kvHeads, tp) ==>
              && kvHeads > 0 && heads % kvHeads == 0 && PerRank(kvHeads, tp) > 0
              && |shards[0]| % (PerKv(heads, kvHeads) + 2) == 0
              && PieceQueries(|shards[0]| / (PerKv(heads, kvHeads) + 2), PerKv(heads, kvHeads),
                PerRank(kvHeads, tp)) == QueryRows(headDim, heads, kvHeads)
              && PieceKeys(|shards[0]| / (PerKv(heads, kvHeads) + 2), PerRank(kvHeads, tp)) == headDim
              && ShardProgress(shards, headDim, heads, kvHeads, tp, 0, Split([], [], []))
  {
    hide Regular, QueryRows, PerKv, PerRank, PieceQueries, PieceKeys, GroupRows, Taken, RowsPerRank, Flatten;
    if Meant(shards, headDim, heads, kvHeads, tp) {
      var rows := |Flatten(shards)|;
      RegularKv(rows, headDim, heads, kvHeads, tp);
      RegularSizes(rows, headDim, heads, kvHeads, tp);
      KvSize(|shards[0]|, PerRank(kvHeads, tp), headDim, heads, kvHeads);
      NothingTaken<T>(PerRank(kvHeads, tp), QueryRows(headDim, heads, kvHeads), headDim);
      assert shards[..0] == [];
      FlattenNone<T>();
    }
  }

  lemma ShardStep<T>(shards: seq<seq<T>>, headDim: nat, heads: nat, kvHeads: nat, tp: nat, i: nat, s: Split<T>)
    requires Meant(shards, headDim, heads, kvHeads, tp) && i < |shards| && kvHeads > 0 && PerRank(kvHeads, tp) > 0
    requires ShardProgress(shards, headDim, heads, kvHeads, tp, i, s)
    ensures var pieces, qs := Chunk(shards[i], PerRank(kvHeads, tp)), QueryRows(headDim, heads, kvHeads);
            && AllSized(pieces, qs + headDim + headDim)
            && ShardProgress(shards, headDim, heads, kvHeads, tp, i + 1, Extended(s, pieces, qs, headDim))
  {
    hide Chunk, Cut, Extended, Regular, QueryRows, PerRank, Taken, Flatten;
    var c, qs := PerRank(kvHeads, tp), QueryRows(headDim, heads, kvHeads);
    var g := GroupRows(headDim, heads, kvHeads);
    var part := shards[i];
    ChunkExact(part, c, g);
    CutSizes(part, c, g);
    FlattenAppend(shards[..i], part);
    assert shards[..i] + [part] == shards[..i + 1];
    TakenStep(Flatten(shards[..i]), part, i, c, qs, headDim, s, Extended(s, Cut(part, c, g), qs, headDim));
  }

  lemma ShardsDone<T>(shards: seq<seq<T>>, headDim: nat, heads: nat, kvHeads: nat, tp: nat, s: Split<T>)
    requires Meant(shards, headDim, heads, kvHeads, tp) && kvHeads > 0
    requires ShardProgress(shards, headDim, heads, kvHeads, tp, |shards|, s)
    ensures s == Reference(Flatten(shards), headDim, heads, kvHeads)
  {
    hide Deinterleave, Regular, RankRows, QueryRows, Flatten;
    RegularSizes(|Flatten(shards)|, headDim, heads, kvHeads, tp);
    assert shards[..|shards|] == shards;
  }

  /** The three implementations agree: the trainer's shards, their concatenation at conversion, and
      the merger on the whole tensor give the same queries, keys and values. */
  method AllThreeAgree<T>(shards: seq<seq<T>>, headDim: nat, heads: nat, kvHeads: nat, tp: nat)
    returns (concat: Result<Split<T>, Fault>, convert: Result<Split<T>, Fault>, split: Result<Split<T>, Fault>)
    requires tp > 0 && shards != [] && Regular(|Flatten(shards)|, headDim, heads, kvHeads, tp)
    requires Sharded(shards, tp, RankRows(headDim, heads, kvHeads, tp))
    ensures concat == convert == split == Success(Reference(Flatten(shards), headDim, heads, kvHeads))
  {
    hide Reference, RankRows, PerKv, Flatten, Sharded;
    var full := Flatten(shards);
    TpWithinHeads(|full|, headDim, heads, kvHeads, tp);
    concat := DefaultTpConcat(shards, heads, kvHeads, tp, headDim);
    convert := ConvertQkvShard(full, headDim, heads, kvHeads, tp, kvHeads, 0, 0);
    split := SplitTensors(full, headDim, heads, kvHeads);
  }

  lemma TpWithinHeads(rows: nat, headDim: nat, heads: nat, kvHeads: nat, tp: nat)
    requires Regular(rows, headDim, heads, kvHeads, tp)
    ensures kvHeads >= tp && Regular(rows, headDim, heads, kvHeads, 1)
  {
    RegularSizes(rows, headDim, heads, kvHeads, tp);
    var c := PerRank(kvHeads, tp);
    MulPos(c, tp);
    assert c * tp == tp * c;
    assert kvHeads >= tp;
    DivModIs(kvHeads, 1, kvHeads, 0);
    assert kvHeads % 1 == 0;
    assert heads % kvHeads == 0;
    assert rows == kvHeads * (PerKv(heads, kvHeads) * headDim + headDim + headDim);
  }

  // ----- gate and up -----

  /** Gate rows and up rows of n ranks of `size` rows each. */
  function GateUp<T>(full: seq<T>, n: nat, size: nat): (seq<T>, seq<T>) {
    var gs := Cut(full, n, size + size);
    (Collect(gs, 0, size), Collect(gs, size, size))
  }

  /** The first i ranks' gate and up rows have been taken. */
  ghost predicate GatesTaken<T>(rows: seq<T>, i: nat, size: nat, gate: seq<T>, up: seq<T>) {
    |rows| == i * (size + size) && (gate, up) == GateUp(rows, i, size)
  }

  lemma CutOne<T>(part: seq<T>, size: nat)
    requires |part| == size + size
    ensures Cut(part, 1, size + size) == [part]
    ensures Take(Drop(part, 0), size) == Take(part, size) && Take(Drop(part, size), size) == Drop(part, size)
  {
    assert Take(part, size + size) == part;
    assert Cut(part, 1, size + size) == [part] + Cut(Drop(part, size + size), 0, size + size);
  }

  lemma GateStep<T>(rows: seq<T>, part: seq<T>, i: nat, size: nat, gate: seq<T>, up: seq<T>)
    requires GatesTaken(rows, i, size, gate, up) && |part| == size + size
    ensures GatesTaken(rows + part, i + 1, size, gate + Take(part, size), up + Drop(part, size))
  {
    hide Cut, Collect, Take, Drop;
    var g := size + size;
    assert (i + 1) * g == i * g + g;
    CutConcat(rows, part, i, 1, g);
    CutOne(part, size);
    var a := Cut(rows, i, g);
    CollectConcat(a, [part], 0, size);
    CollectConcat(a, [part], size, size);
    CollectOne(part, 0, size);
    CollectOne(part, size, size);
  }

  lemma NoGates<T>(size: nat)
    ensures GatesTaken<T>([], 0, size, [], [])
  {
    assert 0 * (size + size) == 0;
  }

  /** `convert_gate_up_shard`. */
  method ConvertGateUpShard<T>(full: seq<T>, intermediate: nat, tp: nat) returns (gate: seq<T>, up: seq<T>)
    requires tp > 0
    ensures |full| == tp * (PerRank(intermediate, tp) + PerRank(intermediate, tp)) ==>
              (gate, up) == GateUp(full, tp, PerRank(intermediate, tp))
  {
    hide GatesTaken, GateUp, PerRank, RankPart, Before;
    var size := PerRank(intermediate, tp);
    ghost var regular := |full| == tp * (size + size);
    gate, up := [], [];
    NoGates<T>(size);
    if regular {
      RankEnds(full, tp, size + size);
    }
    for i := 0 to tp
      invariant regular ==> GatesTaken(Before(full, i, size + size), i, size, gate, up)
    {
      var part := RankPart(full, i, size + size);
      if regular {
        RankSlice(full, i, tp, size + size);
        GateStep(Before(full, i, size + size), part, i, size, gate, up);
      }
      gate := gate + Take(part, size);
      up := up + Drop(part, size);
    }
    if regular {
      GatesDone(full, tp, size, gate, up);
    }
  }

  lemma GatesDone<T>(rows: seq<T>, n: nat, size: nat, gate: seq<T>, up: seq<T>)
    requires GatesTaken(rows, n, size, gate, up)
    ensures (gate, up) == GateUp(rows, n, size)
  {
  }

  /** Every shard has as many gate rows as up rows. */
  predicate Paired<T>(shards: seq<seq<T>>, size: nat) {
    forall i :: 0 <= i < |shards| ==> |shards[i]| == size + size
  }

  /** The gate-and-up branch of `default_tp_concat_fn`: each shard must chunk into two. */
  method ConcatGateUp<T>(shards: seq<seq<T>>) returns (r: Result<(seq<T>, seq<T>), Fault>)
    requires shards != []
    ensures r.Failure? <==> exists i :: 0 <= i < |shards| && |shards[i]| == 1
    ensures forall size: nat :: Paired(shards, size) ==> r == Success(GateUp(Flatten(shards), |shards|, size))
  {
    hide GatesTaken, GateUp, Flatten, Chunk;
    var gate: seq<T>, up: seq<T> := [], [];
    var even := |shards[0]| % 2 == 0 && forall i :: 0 <= i < |shards| ==> |shards[i]| == |shards[0]|;
    ghost var size: nat := |shards[0]| / 2;
    NoGates<T>(size);
    FlattenNone<T>();
    for i := 0 to |shards|
      invariant forall j :: 0 <= j < i ==> |shards[j]| != 1
      invariant even ==> GatesTaken(Flatten(shards[..i]), i, size, gate, up)
    {
      TwoChunks(shards[i]);
      var pieces := Chunk(shards[i], 2);
      if |pieces| != 2 {
        return Failure(ValueError);
      }
      FlattenAppend(shards[..i], shards[i]);
      assert shards[..i] + [shards[i]] == shards[..i + 1];
      if even {
        GateStep(Flatten(shards[..i]), shards[i], i, size, gate, up);
      }
      gate := gate + pieces[0];
      up := up + pieces[1];
    }
    assert shards[..|shards|] == shards;
    if even {
      GatesDone(Flatten(shards), |shards|, size, gate, up);
    }
    forall h: nat | Paired(shards, h)
      ensures even && h == size
    {
    }
    return Success((gate, up));
  }

  /** The two implementations give the same gate and up rows. */
  method GateUpAgree<T>(shards: seq<seq<T>>, intermediate: nat, tp: nat)
    returns (concat: Result<(seq<T>, seq<T>), Fault>, gate: seq<T>, up: seq<T>)
    requires shards != [] && |shards| == tp && Paired(shards, PerRank(intermediate, tp))
    ensures concat == Success((gate, up))
  {
    hide GateUp, Flatten, Paired, PerRank;
    var full := Flatten(shards);
    PairedRows(shards, PerRank(intermediate, tp));
    concat := ConcatGateUp(shards);
    gate, up := ConvertGateUpShard(full, intermediate, tp);
  }

  lemma {:induction false} PairedRows<T>(shards: seq<seq<T>>, size: nat)
    requires Paired(shards, size)
    ensures |Flatten(shards)| == |shards| * (size + size)
  {
    if shards != [] {
      var front, n := shards[..|shards| - 1], |shards|;
      PairedRows(front, size);
      assert n * (size + size) == (n - 1) * (size + size) + (size + size);
    }
  }

  lemma TwoChunks<T>(t: seq<T>)
    ensures |Chunk(t, 2)| == 2 <==> |t| != 1
    ensures |t| % 2 == 0 ==> Chunk(t, 2) == [Take(t, |t| / 2), Drop(t, |t| / 2)]
  {
    if |t| % 2 == 0 {
      var h := |t| / 2;
      ChunkExact(t, 2, h);
      assert Cut(t, 2, h) == [Take(t, h), Take(Drop(t, h), h)];
      assert Take(Drop(t, h), h) == Drop(t, h);
    } else {
      var s := (|t| + 1) / 2;
      assert |t| == 2 * s - 1 && (|t| + 2 - 1) / 2 == s > 0;
      assert |Chunk(t, 2)| == (|t| + s - 1) / s;
      if |t| > 1 {
        DivModIs(|t| + s - 1, s, 2, s - 2);
      } else {
        assert |Chunk(t, 2)| == 1;
      }
    }
  }
}
