/** `build_topology` and the rank checks of the NIXL engine: when the workers form a chain. */
module NixlTopology {
  import opened Options
  import opened PythonLists

  function Repeat<T>(x: T, n: int): (r: seq<T>)
    ensures |r| == if n < 0 then 0 else n
    ensures forall y :: y in r ==> y == x
  {
    if n <= 0 then [] else [x] + Repeat(x, n - 1)
  }

  function Somes<T>(xs: seq<T>): (r: seq<Option<T>>)
    ensures |r| == |xs| && forall i :: 0 <= i < |xs| ==> r[i] == Some(xs[i])
  {
    if xs == [] then [] else [Some(xs[0])] + Somes(xs[1..])
  }

  /** The arguments of `init_process_group`, one list entry per worker. */
  datatype Kwargs<M> = Kwargs(ranks: seq<int>, worldSizes: seq<int>, prev: seq<Option<M>>, next: seq<Option<M>>)

  function TrainerKwargs<M>(trainers: int, rollouts: int, metadata: seq<M>): Option<Kwargs<M>> {
    match PyIndex(metadata, -rollouts)
    case None => None
    case Some(first) =>
      Some(Kwargs([0] + Repeat(-1, trainers - 1), Repeat(rollouts + 1, trainers), Repeat(None, trainers),
                  [Some(first)] + Repeat(None, trainers - 1)))
  }

  function RolloutKwargs<M>(rollouts: int, metadata: seq<M>): Option<Kwargs<M>>
    requires rollouts >= 0
  {
    match PyIndex(metadata, 0)
    case None => None
    case Some(master) =>
      Some(Kwargs(seq(rollouts, i => i + 1), Repeat(rollouts + 1, rollouts),
                  [Some(master)] + Somes(PySlice(metadata, -rollouts, -1)),
                  Somes(PySlice(metadata, -rollouts + 1, |metadata|)) + [None]))
  }

  /** The assertions at the head of `init_process_group`. */
  predicate RankAccepted<M>(rank: int, worldSize: int, prev: Option<M>, next: Option<M>) {
    if rank < 0 then prev.None? && next.None?
    else if rank == 0 then prev.None? && next.Some?
    else if rank < worldSize - 1 then prev.Some? && next.Some?
    else if rank == worldSize - 1 then prev.Some? && next.None?
    else true
  }

  /** The length assertions of the manager, then every worker's own. */
  predicate Accepted<M>(k: Option<Kwargs<M>>, workers: nat) {
    && k.Some?
    && |k.value.ranks| == |k.value.worldSizes| == |k.value.prev| == |k.value.next| == workers
    && forall i :: 0 <= i < workers ==>
         RankAccepted(k.value.ranks[i], k.value.worldSizes[i], k.value.prev[i], k.value.next[i])
  }

  /** The assertions admit exactly this wiring: a worker has a predecessor if its rank is positive, and a
      successor if it is rank 0 or neither the last rank nor outside the chain; ranks beyond the world size
      are not looked at. */
  lemma AcceptedExact<M>(k: Kwargs<M>, workers: nat)
    requires |k.ranks| == |k.worldSizes| == |k.prev| == |k.next| == workers
    ensures Accepted(Some(k), workers) <==>
            forall i :: 0 <= i < workers && (k.ranks[i] <= 0 || k.ranks[i] < k.worldSizes[i]) ==>
              && (k.prev[i].Some? <==> k.ranks[i] > 0)
              && (k.next[i].Some? <==> k.ranks[i] == 0 || 0 < k.ranks[i] < k.worldSizes[i] - 1)
  {
    forall i | 0 <= i < workers
      ensures RankAccepted(k.ranks[i], k.worldSizes[i], k.prev[i], k.next[i]) <==>
              (k.ranks[i] <= 0 || k.ranks[i] < k.worldSizes[i] ==>
                && (k.prev[i].Some? <==> k.ranks[i] > 0)
                && (k.next[i].Some? <==> k.ranks[i] == 0 || 0 < k.ranks[i] < k.worldSizes[i] - 1))
    {
    }
  }

  /** With at least one trainer, the topology is accepted exactly when there are two rollout
      workers or more: for one, `metadata[-1 + 1 :]` is the whole list. */
  lemma TopologyAccepted<M>(trainers: nat, rollouts: nat, metadata: seq<M>)
    requires trainers >= 1 && |metadata| == trainers + rollouts
    ensures Accepted(TrainerKwargs(trainers, rollouts, metadata), trainers)
            && Accepted(RolloutKwargs(rollouts, metadata), rollouts)
       <==> rollouts >= 2
  {
    var k := RolloutKwargs(rollouts, metadata).value;
    if rollouts == 0 {
      assert PySlice(metadata, 0, -1) == metadata[..trainers - 1];
      assert |k.prev| == trainers;
    } else if rollouts == 1 {
      assert |k.next| == trainers + 2;
    } else {
      Chain(trainers, rollouts, metadata);
      TrainersAccepted(trainers, rollouts, metadata);
      forall i | 0 <= i < rollouts
        ensures RankAccepted(k.ranks[i], k.worldSizes[i], k.prev[i], k.next[i])
      {
      }
    }
  }

  lemma TrainersGiven<M>(trainers: int, rollouts: int, metadata: seq<M>)
    requires trainers >= 1 && rollouts >= 1 && |metadata| == trainers + rollouts
    ensures TrainerKwargs(trainers, rollouts, metadata).Some?
    ensures var t := TrainerKwargs(trainers, rollouts, metadata).value;
            && |t.ranks| == |t.prev| == |t.next| == |t.worldSizes| == trainers
            && forall i :: 0 <= i < trainers ==>
                 && t.ranks[i] == (if i == 0 then 0 else -1) && t.worldSizes[i] == rollouts + 1
                 && t.prev[i] == None && t.next[i] == if i == 0 then Some(metadata[trainers]) else None
  {
    var t := TrainerKwargs(trainers, rollouts, metadata).value;
    forall i | 0 <= i < trainers
      ensures t.ranks[i] == (if i == 0 then 0 else -1) && t.worldSizes[i] == rollouts + 1
      ensures t.prev[i] == None && t.next[i] == if i == 0 then Some(metadata[trainers]) else None
    {
      assert t.prev[i] in t.prev && t.worldSizes[i] in t.worldSizes;
      if i > 0 {
        assert t.ranks[i] == Repeat(-1, trainers - 1)[i - 1] && t.ranks[i] in Repeat(-1, trainers - 1);
        assert t.next[i] == Repeat(None, trainers - 1)[i - 1] && t.next[i] in Repeat(None, trainers - 1);
      }
    }
  }

  lemma TrainersAccepted<M>(trainers: int, rollouts: int, metadata: seq<M>)
    requires trainers >= 1 && rollouts >= 1 && |metadata| == trainers + rollouts
    ensures Accepted(TrainerKwargs(trainers, rollouts, metadata), trainers)
  {
    hide TrainerKwargs;
    TrainersGiven(trainers, rollouts, metadata);
  }

  /** Rank 0 is the first trainer and rank r the r-th rollout worker; each is given its neighbours. */
  lemma Chain<M>(trainers: int, rollouts: int, metadata: seq<M>)
    requires trainers >= 1 && rollouts >= 2 && |metadata| == trainers + rollouts
    ensures TrainerKwargs(trainers, rollouts, metadata).Some? && RolloutKwargs(rollouts, metadata).Some?
    ensures var t := TrainerKwargs(trainers, rollouts, metadata).value;
            && |t.ranks| == |t.prev| == |t.next| == |t.worldSizes| == trainers
            && forall i :: 0 <= i < trainers ==>
                 && t.ranks[i] == (if i == 0 then 0 else -1) && t.worldSizes[i] == rollouts + 1
                 && t.prev[i] == None && t.next[i] == if i == 0 then Some(metadata[trainers]) else None
    ensures var k := RolloutKwargs(rollouts, metadata).value;
            && |k.ranks| == |k.prev| == |k.next| == |k.worldSizes| == rollouts
            && forall i :: 0 <= i < rollouts ==>
                 && k.ranks[i] == i + 1 && k.worldSizes[i] == rollouts + 1
                 && k.prev[i] == Some(if i == 0 then metadata[0] else metadata[trainers + i - 1])
                 && k.next[i] == if i == rollouts - 1 then None else Some(metadata[trainers + i + 1])
  {
    TrainersGiven(trainers, rollouts, metadata);
    var n := |metadata|;
    assert PySlice(metadata, -rollouts, -1) == metadata[trainers..n - 1];
    assert PySlice(metadata, -rollouts + 1, n) == metadata[trainers + 1..];
    var k := RolloutKwargs(rollouts, metadata).value;
    forall i | 0 <= i < rollouts
      ensures k.worldSizes[i] == rollouts + 1
    {
      assert k.worldSizes[i] in k.worldSizes;
    }
  }
}
