/** Where each pipeline chunk's layers start: `get_transformer_layer_offset`. */
module LayerOffset {
  import opened Options
  import opened Tiling
  import opened Arithmetic

  /** The fields of the transformer configuration the offset depends on. A virtual pipeline size
      cuts every rank's layers into that many chunks, interleaved over the ranks. */
  datatype Config = Config(
    layers: int, ranks: nat, first: Option<int>, last: Option<int>, vp: Option<nat>, embedding: bool, loss: bool)

  datatype Fault = AssertionError | ZeroDivisionError

  function One(b: bool): int {
    if b then 1 else 0
  }

  function OrZero(n: Option<int>): int {
    if n.Some? then n.value else 0
  }

  predicate Uneven(c: Config) {
    c.first.Some? || c.last.Some?
  }

  function MiddleRanks(c: Config): int {
    c.ranks - One(c.first.Some?) - One(c.last.Some?)
  }

  function MiddleLayers(c: Config): int {
    c.layers - OrZero(c.first) - OrZero(c.last)
  }

  /** The layers to place, the embedding and the loss counted as layers where configured. */
  function Counted(c: Config): int {
    c.layers + One(c.embedding) + One(c.loss)
  }

  /** `is_pipeline_first_stage` as the calling process answers it: for its own rank, whatever rank the
      offset is asked for. */
  predicate FirstStage(c: Config, caller: nat, stage: Option<nat>) {
    caller == 0 && (c.vp.Some? ==> stage == Some(0))
  }

  /** `get_transformer_layer_offset`, called on rank `caller` for rank `rank`. */
  function Offset(c: Config, caller: nat, rank: nat, stage: Option<nat>): Result<int, Fault> {
    if c.ranks <= 1 then Success(0)
    else if c.vp.Some? && stage.None? then Failure(AssertionError)
    else if c.vp == Some(0) then Failure(ZeroDivisionError)
    else if Uneven(c) then
      if c.vp.Some? then
        var vp, mid := c.vp.value, MiddleRanks(c);
        var first, middle, last := OrZero(c.first) / vp, MiddleLayers(c) / vp, OrZero(c.last) / vp;
        var total := first + middle + last;
        if rank == 0 then Success(stage.value * total)
        else if mid == 0 then Failure(ZeroDivisionError)
        else Success(stage.value * total + first + (rank - 1) * (middle / mid))
      else
        var mid := MiddleRanks(c);
        var perRank := if mid > 0 then MiddleLayers(c) / mid else 0;
        var middleRank := if c.first.None? then rank else rank - 1;
        Success(if rank == 0 then 0 else middleRank * perRank + OrZero(c.first))
    else
      var perRank := Counted(c) / c.ranks;
      if c.vp.Some? then
        var vp := c.vp.value;
        Success(stage.value * (Counted(c) / vp) +
          rank * (perRank / vp) - One(c.embedding && !FirstStage(c, caller, stage)))
      else
        Success(rank * perRank - One(c.embedding && !FirstStage(c, caller, stage)))
  }

  /** A rank's question about itself. */
  function OwnOffset(c: Config, rank: nat, stage: Option<nat>): Result<int, Fault> {
    Offset(c, rank, rank, stage)
  }

  // ----- the layout the offsets are for -----

  function Vp(c: Config): nat {
    if c.vp.Some? then c.vp.value else 1
  }

  /** Chunks are numbered stage by stage, and rank by rank within a stage. */
  function Stage(c: Config, n: nat): Option<nat>
    requires c.ranks > 0
  {
    if c.vp.Some? then Some(n / c.ranks) else None
  }

  /** The layers of a middle chunk. */
  function Quota(c: Config): int
    requires c.ranks > 0 && Vp(c) > 0
  {
    if !Uneven(c) then Counted(c) / c.ranks / Vp(c)
    else if MiddleRanks(c) > 0 then MiddleLayers(c) / Vp(c) / MiddleRanks(c)
    else 0
  }

  function Size(c: Config, n: nat): int
    requires c.ranks > 0 && Vp(c) > 0
  {
    if c.ranks == 1 then c.layers
    else if Uneven(c) then
      if n % c.ranks == 0 && c.first.Some? then c.first.value / Vp(c)
      else if n % c.ranks == c.ranks - 1 && c.last.Some? then c.last.value / Vp(c)
      else Quota(c)
    else Quota(c) - One(c.embedding && n == 0) - One(c.loss && n == c.ranks * Vp(c) - 1)
  }

  function Sizes(c: Config): (s: seq<int>)
    requires c.ranks > 0 && Vp(c) > 0
    ensures |s| == c.ranks * Vp(c) && forall n :: 0 <= n < |s| ==> s[n] == Size(c, n)
  {
    seq(c.ranks * Vp(c), n requires 0 <= n => Size(c, n))
  }

  /** The layers divide up: no remainder is left over anywhere. */
  predicate Divisible(c: Config) {
    && c.layers >= 0 && c.ranks >= 1 && Vp(c) >= 1
    && (c.ranks == 1 ==> c.vp.None?)
    && (c.ranks > 1 && Uneven(c) ==>
          && OrZero(c.first) >= 0 && OrZero(c.last) >= 0 && MiddleLayers(c) >= 0
          && OrZero(c.first) % Vp(c) == 0 && OrZero(c.last) % Vp(c) == 0 && MiddleLayers(c) % Vp(c) == 0
          && (if MiddleRanks(c) > 0 then MiddleLayers(c) / Vp(c) % MiddleRanks(c) == 0 else MiddleLayers(c) == 0))
    && (c.ranks > 1 && !Uneven(c) ==> Counted(c) % c.ranks == 0 && Counted(c) / c.ranks % Vp(c) == 0)
  }

  /** An interleaved uneven layout moreover has middle ranks, and gives the count of its first rank
      unless those hold no layer. */
  predicate Regular(c: Config) {
    Divisible(c) &&
    (c.ranks > 1 && Uneven(c) && c.vp.Some? ==> MiddleRanks(c) > 0 && (c.first.Some? || Quota(c) == 0))
  }

  lemma NextChunk(n: nat, ranks: nat)
    requires ranks > 0
    ensures n == n / ranks * ranks + n % ranks
    ensures n % ranks + 1 < ranks ==> (n + 1) / ranks == n / ranks && (n + 1) % ranks == n % ranks + 1
    ensures n % ranks + 1 == ranks ==> (n + 1) / ranks == n / ranks + 1 && (n + 1) % ranks == 0
  {
    var s, r := n / ranks, n % ranks;
    if r + 1 < ranks {
      DivModIs(n + 1, ranks, s, r + 1);
    } else {
      assert (s + 1) * ranks == s * ranks + ranks;
      DivModIs(n + 1, ranks, s + 1, 0);
    }
  }

  // ----- even layouts -----

  lemma EvenOffset(c: Config, n: nat)
    requires Regular(c) && c.ranks > 1 && !Uneven(c) && n < c.ranks * Vp(c)
    ensures OwnOffset(c, n % c.ranks, Stage(c, n)) == Success(n * Quota(c) - One(c.embedding && n > 0))
    ensures c.ranks * Vp(c) * Quota(c) == Counted(c)
  {
    var q, vp, all := Quota(c), Vp(c), Counted(c);
    Whole(all, c.ranks);
    Whole(all / c.ranks, vp);
    assert all == c.ranks * vp * q by {
      assert all == q * vp * c.ranks;
      Reorder(q, vp, c.ranks);
    }
    assert all / vp == c.ranks * q by {
      assert c.ranks * vp * q == c.ranks * q * vp by { Reorder(c.ranks, vp, q); }
      Cancel(c.ranks * q, vp);
    }
    NextChunk(n, c.ranks);
    var s, r := n / c.ranks, n % c.ranks;
    assert s * (c.ranks * q) + r * q == n * q by {
      Distribute(s, c.ranks, r, q);
    }
    if c.vp.None? {
      Small(n, c.ranks);
    }
  }

  lemma Small(n: nat, d: nat)
    requires n < d
    ensures n / d == 0 && n % d == n
  {
    DivModIs(n, d, 0, n);
  }

  lemma OneMore(n: int, q: int)
    ensures (n - 1) * q + q == n * q
  {
  }

  lemma {:induction false} EvenPrefix(c: Config, n: nat)
    requires Vp(c) > 0 && c.ranks > 1 && !Uneven(c) && n <= c.ranks * Vp(c)
    ensures Prefix(Sizes(c), n) == n * Quota(c) - One(c.embedding && n > 0) - One(c.loss && n == c.ranks * Vp(c))
  {
    hide Quota;
    if n > 0 {
      EvenPrefix(c, n - 1);
      assert Sizes(c)[n - 1] == Size(c, n - 1);
      OneMore(n, Quota(c));
    }
  }

  lemma EvenTiles(c: Config)
    requires Regular(c) && c.ranks > 1 && !Uneven(c)
    ensures NonNegative(Sizes(c)) && Prefix(Sizes(c), |Sizes(c)|) == c.layers
    ensures forall n :: 0 <= n < |Sizes(c)| ==> OwnOffset(c, n % c.ranks, Stage(c, n)) == Success(Prefix(Sizes(c), n))
  {
    hide OwnOffset, Quota, Prefix;
    var total := c.ranks * Vp(c);
    assert total >= 2;
    EvenPrefix(c, total);
    EvenOffset(c, 0);
    if Counted(c) > 0 {
      assert Quota(c) * total == total * Quota(c);
      PositiveFactor(Quota(c), total);
    }
    forall n | 0 <= n < total
      ensures OwnOffset(c, n % c.ranks, Stage(c, n)) == Success(Prefix(Sizes(c), n))
    {
      EvenOffset(c, n);
      EvenPrefix(c, n);
    }
    if Counted(c) == 0 {
      assert total * Quota(c) == 0;
    }
  }

  // ----- uneven layouts -----

  /** The closed form of an uneven layout's boundaries: stage s, rank r. */
  function Boundary(c: Config, s: nat, r: nat): int
    requires c.ranks > 0 && Vp(c) > 0
  {
    var first, last := OrZero(c.first) / Vp(c), OrZero(c.last) / Vp(c);
    s * (first + Quota(c) * MiddleRanks(c) + last) +
    if r == 0 then 0
    else if c.first.None? then r * Quota(c)
    else first + (r - 1) * Quota(c)
  }

  /** One stage's chunks together, times the stages, are all the layers. */
  lemma UnevenTotal(c: Config)
    requires Regular(c) && c.ranks > 1 && Uneven(c)
    ensures var first, last := OrZero(c.first) / Vp(c), OrZero(c.last) / Vp(c);
            && Quota(c) * MiddleRanks(c) == MiddleLayers(c) / Vp(c)
            && Vp(c) * (first + Quota(c) * MiddleRanks(c) + last) == c.layers
  {
    var vp, mid := Vp(c), MiddleRanks(c);
    Whole(OrZero(c.first), vp);
    Whole(OrZero(c.last), vp);
    Whole(MiddleLayers(c), vp);
    if mid > 0 {
      Whole(MiddleLayers(c) / vp, mid);
    }
  }

  lemma UnevenOffset(c: Config, n: nat)
    requires Regular(c) && c.ranks > 1 && Uneven(c) && n < c.ranks * Vp(c)
    ensures OwnOffset(c, n % c.ranks, Stage(c, n)) == Success(Boundary(c, n / c.ranks, n % c.ranks))
  {
    UnevenTotal(c);
    NextChunk(n, c.ranks);
    if c.vp.None? {
      Small(n, c.ranks);
    }
  }

  /** The next boundary is this one plus the chunk: within a stage, and from a stage to the next. */
  lemma UnevenStep(c: Config, n: nat)
    requires Vp(c) > 0 && c.ranks > 1 && Uneven(c)
    ensures Boundary(c, (n + 1) / c.ranks, (n + 1) % c.ranks) == Boundary(c, n / c.ranks, n % c.ranks) + Size(c, n)
  {
    hide Quota;
    NextChunk(n, c.ranks);
    if n % c.ranks + 1 < c.ranks {
      StepInStage(c, n / c.ranks, n % c.ranks, n);
    } else {
      StepToNextStage(c, n / c.ranks, n);
    }
  }

  lemma StepInStage(c: Config, s: nat, r: nat, n: nat)
    requires Vp(c) > 0 && c.ranks > 1 && Uneven(c) && r == n % c.ranks && r + 1 < c.ranks
    ensures Boundary(c, s, r + 1) == Boundary(c, s, r) + Size(c, n)
  {
    hide Quota, MiddleRanks;
    var q := Quota(c);
    assert (r - 1) * q + q == r * q && r * q + q == (r + 1) * q;
  }

  lemma StepToNextStage(c: Config, s: nat, n: nat)
    requires Vp(c) > 0 && c.ranks > 1 && Uneven(c) && n % c.ranks == c.ranks - 1
    ensures Boundary(c, s + 1, 0) == Boundary(c, s, c.ranks - 1) + Size(c, n)
  {
    hide Quota;
    var q, mid, k := Quota(c), MiddleRanks(c), c.ranks;
    var first, last := OrZero(c.first) / Vp(c), OrZero(c.last) / Vp(c);
    var total := first + q * mid + last;
    assert (s + 1) * total == s * total + total;
    assert (k - 2) * q + q == (k - 1) * q && (k - 1) * q == q * (k - 1) && (k - 2) * q == q * (k - 2);
  }

  lemma {:induction false} UnevenPrefix(c: Config, n: nat)
    requires Vp(c) > 0 && c.ranks > 1 && Uneven(c) && n <= c.ranks * Vp(c)
    ensures Prefix(Sizes(c), n) == Boundary(c, n / c.ranks, n % c.ranks)
  {
    hide Boundary, Size;
    if n == 0 {
      BoundaryZero(c);
    } else {
      UnevenPrefix(c, n - 1);
      UnevenStep(c, n - 1);
    }
  }

  lemma BoundaryZero(c: Config)
    requires c.ranks > 0 && Vp(c) > 0
    ensures Boundary(c, 0 / c.ranks, 0 % c.ranks) == 0
  {
    Small(0, c.ranks);
  }

  lemma UnevenEnds(c: Config)
    requires Regular(c) && c.ranks > 1 && Uneven(c)
    ensures Boundary(c, Vp(c), 0) == c.layers
    ensures NonNegative(Sizes(c))
  {
    UnevenTotal(c);
  }

  lemma UnevenTiles(c: Config)
    requires Regular(c) && c.ranks > 1 && Uneven(c)
    ensures NonNegative(Sizes(c)) && Prefix(Sizes(c), |Sizes(c)|) == c.layers
    ensures forall n :: 0 <= n < |Sizes(c)| ==> OwnOffset(c, n % c.ranks, Stage(c, n)) == Success(Prefix(Sizes(c), n))
  {
    hide OwnOffset, Prefix, Boundary, Size, Quota, MiddleLayers, MiddleRanks;
    var total := c.ranks * Vp(c);
    UnevenPrefix(c, total);
    UnevenEnds(c);
    assert total / c.ranks == Vp(c) && total % c.ranks == 0 by {
      DivModIs(total, c.ranks, Vp(c), 0);
    }
    forall n | 0 <= n < total
      ensures OwnOffset(c, n % c.ranks, Stage(c, n)) == Success(Prefix(Sizes(c), n))
    {
      UnevenOffset(c, n);
      UnevenPrefix(c, n);
    }
  }

  // ----- all layouts -----

  /** Starting at the offsets the ranks work out for themselves, the chunks are consecutive, ordered by stage and
      then rank, and end at the last layer. */
  lemma OffsetsTile(c: Config)
    requires Regular(c)
    ensures NonNegative(Sizes(c)) && Prefix(Sizes(c), |Sizes(c)|) == c.layers
    ensures forall n :: 0 <= n < |Sizes(c)| ==> OwnOffset(c, n % c.ranks, Stage(c, n)) == Success(Prefix(Sizes(c), n))
  {
    hide OwnOffset;
    if c.ranks == 1 {
      OneRank(c);
    } else if Uneven(c) {
      UnevenTiles(c);
    } else {
      EvenTiles(c);
    }
  }

  lemma OneRank(c: Config)
    requires Regular(c) && c.ranks == 1
    ensures NonNegative(Sizes(c)) && Prefix(Sizes(c), |Sizes(c)|) == c.layers
    ensures forall n :: 0 <= n < |Sizes(c)| ==> OwnOffset(c, n % c.ranks, Stage(c, n)) == Success(Prefix(Sizes(c), n))
  {
    assert |Sizes(c)| == 1;
    assert Prefix(Sizes(c), 0) == 0;
  }

  /** Every layer is in exactly one chunk, the interval from its offset on. */
  lemma EveryLayerHasOneChunk(c: Config, layer: int)
    requires Regular(c)
    ensures 0 <= layer < c.layers <==> exists n :: Owns(Sizes(c), n, layer)
    ensures forall m, n :: Owns(Sizes(c), m, layer) && Owns(Sizes(c), n, layer) ==> m == n
    ensures forall n :: Owns(Sizes(c), n, layer) ==>
              OwnOffset(c, n % c.ranks, Stage(c, n)).Success?
              && var start := OwnOffset(c, n % c.ranks, Stage(c, n)).value; start <= layer < start + Size(c, n)
  {
    hide OwnOffset, Size;
    OffsetsTile(c);
    TilesExactly(Sizes(c), layer);
  }

  /** The embedding is accounted for by the rank that asks: the question concerns the first stage of
      an even layout, and only one of the two ranks is rank 0. */
  predicate AskedAcross(c: Config, caller: nat, rank: nat, stage: Option<nat>) {
    && c.ranks > 1 && !Uneven(c) && c.embedding && (c.vp.Some? ==> stage == Some(0))
    && !(caller == 0 <==> rank == 0)
  }

  /** What a rank works out for another is that rank's start exactly when the embedding does not get
      in the way. */
  lemma OffsetForAnotherRank(c: Config, caller: nat, n: nat)
    requires Regular(c) && n < |Sizes(c)|
    ensures Offset(c, caller, n % c.ranks, Stage(c, n)) == Success(Prefix(Sizes(c), n)) <==>
            !AskedAcross(c, caller, n % c.ranks, Stage(c, n))
  {
    OffsetsTile(c);
    CallerMatters(c, caller, n % c.ranks, Stage(c, n));
  }

  lemma CallerMatters(c: Config, caller: nat, rank: nat, stage: Option<nat>)
    requires OwnOffset(c, rank, stage).Success?
    ensures Offset(c, caller, rank, stage) == OwnOffset(c, rank, stage) <==> !AskedAcross(c, caller, rank, stage)
  {
  }

  /** Three layers on two ranks with the embedding counted, one layer on rank 0 and two on rank 1:
      rank 0 places rank 1 a layer late, and rank 1 places rank 0 before the first layer. */
  lemma EmbeddingMisplaced()
    ensures var c := Config(3, 2, None, None, None, true, false);
            && Regular(c) && OwnOffset(c, 0, None) == Success(0) && OwnOffset(c, 1, None) == Success(1)
            && Offset(c, 0, 1, None) == Success(2) && Offset(c, 1, 0, None) == Success(-1)
  {
  }

  /** Every chunk starts where the chunks before it end. */
  ghost predicate OffsetsMatch(c: Config)
    requires c.ranks > 0 && Vp(c) > 0
  {
    forall n :: 0 <= n < |Sizes(c)| ==> OwnOffset(c, n % c.ranks, Stage(c, n)) == Success(Prefix(Sizes(c), n))
  }

  /** A layout that divides up has matching offsets exactly when it is regular. An interleaved uneven one is
      not where there are no middle ranks, as rank 1 then divides by zero, or where there is no first count and
      the middle ranks hold layers, as ranks 0 and 1 then start at the same one. */
  lemma OffsetsMatchExact(c: Config)
    requires Divisible(c)
    ensures OffsetsMatch(c) <==>
            (c.ranks > 1 && Uneven(c) && c.vp.Some? ==> MiddleRanks(c) > 0 && (c.first.Some? || Quota(c) == 0))
  {
    hide Quota;
    if Regular(c) {
      OffsetsTile(c);
    } else {
      var vp := c.vp.value;
      assert c.ranks * vp >= 2 by {
        MulPos(vp, c.ranks);
        assert vp * c.ranks == c.ranks * vp;
      }
      Small(1, c.ranks);
      Small(0, c.ranks);
      var sizes := Sizes(c);
      assert Prefix(sizes, 0) == 0 && Prefix(sizes, 1) == sizes[0];
      FirstChunks(c);
      assert OwnOffset(c, 1 % c.ranks, Stage(c, 1)) != Success(Prefix(sizes, 1));
    }
  }

  lemma FirstChunks(c: Config)
    requires c.ranks > 1 && Uneven(c) && c.vp.Some? && c.vp.value > 0
    ensures c.first.None? ==> Size(c, 0) == Quota(c) && OwnOffset(c, 1, Some(0)) == Success(0)
    ensures MiddleRanks(c) == 0 ==> OwnOffset(c, 1, Some(0)) == Failure(ZeroDivisionError)
  {
    hide Quota;
    Small(0, c.ranks);
  }
}
