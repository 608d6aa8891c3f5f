/** The main results about the forwarding chain: exact delivery, buffer safety, progress. */
module NixlDelivery {
  import opened Options
  import opened Packing
  import opened Sequences
  import opened BucketCodec
  import opened NixlChain
  import opened NixlInvariant
  import opened Transfers

  // ----- runs -----

  /** An interleaving of the ranks and transfer engines from an initial state. */
  ghost predicate Run(cfg: Config, states: seq<State>, steps: seq<Step>) {
    && cfg.Valid()
    && |states| == |steps| + 1
    && Init(cfg, states[0])
    && forall i :: 0 <= i < |steps| ==> Shaped(cfg, states[i]) && Next(cfg, states[i], steps[i]) == Some(states[i + 1])
  }

  lemma {:induction false} RunInv(cfg: Config, states: seq<State>, steps: seq<Step>, i: nat)
    requires Run(cfg, states, steps) && i < |states|
    ensures Inv(cfg, states[i])
    decreases i
  {
    if i == 0 {
      InitInv(cfg, states[0]);
    } else {
      RunInv(cfg, states, steps, i - 1);
      assert Next(cfg, states[i - 1], steps[i - 1]) == Some(states[i]);
      NextKeepsInv(cfg, states[i - 1], steps[i - 1]);
    }
  }

  // ----- delivery -----

  lemma {:induction false} YieldedGrows(plan: seq<seq<Weight>>, m: nat, n: nat)
    requires m <= n <= |plan|
    ensures Yielded(plan, m) <= Yielded(plan, n)
    decreases n
  {
    hide Yielded, Delivered;
    if m < n {
      YieldedGrows(plan, m, n - 1);
      YieldedNext(plan, n - 1);
    }
  }

  lemma YieldedAll(plan: seq<seq<Weight>>)
    ensures Yielded(plan, |plan|) == Flatten(DeliverAll(plan))
  {
    assert plan[..|plan|] == plan;
  }

  /** What is yielded of a bucket under way is a prefix of what is yielded once it is done. */
  lemma PartIsPrefix(plan: seq<seq<Weight>>, n: nat, k: nat)
    requires n < |plan| && k <= |Delivered(plan[n])|
    ensures Yielded(plan, n) + Delivered(plan[n])[..k] <= Yielded(plan, n + 1)
  {
    hide Yielded, Delivered;
    YieldedNext(plan, n);
  }

  predicate Between(plan: seq<seq<Weight>>, n: nat, out: seq<Weight>)
    requires n <= |plan|
  {
    out == Yielded(plan, n) || (n > 0 && Yielded(plan, n - 1) <= out <= Yielded(plan, n))
  }

  lemma BetweenIsPrefix(plan: seq<seq<Weight>>, n: nat, out: seq<Weight>)
    requires n <= |plan| && Between(plan, n, out)
    ensures out <= Flatten(DeliverAll(plan))
  {
    hide Yielded;
    YieldedGrows(plan, n, |plan|);
    YieldedAll(plan);
  }

  lemma DeliveredCount(b: seq<Weight>)
    ensures |Delivered(b)| == |DictMeta(b)|
  {
  }

  lemma OutIsBetween(plan: seq<seq<Weight>>, cap: nat, hasNext: bool, q: Receiver)
    requires ReceiverInv(plan, cap, hasNext, q)
    ensures !q.pc.ReceiverFailed? && q.held <= |plan| && Between(plan, q.held, q.out)
  {
    hide Holds, PortInv, DictMeta, Yielded, Delivered, ForwardInv, IncomingInv;
    NothingYielded(plan);
    if q.held >= 1 {
      DeliveredCount(plan[q.held - 1]);
    }
    if q.pc.Yielding? {
      PartIsPrefix(plan, q.held - 1, q.yielded);
    } else if q.held >= 1 {
      YieldedGrows(plan, q.held - 1, q.held);
    }
  }

  lemma DoneYielded(plan: seq<seq<Weight>>, cap: nat, hasNext: bool, q: Receiver)
    requires ReceiverInv(plan, cap, hasNext, q) && q.pc.ReceiverDone?
    ensures q.out == Yielded(plan, |plan|)
  {
    hide Holds, PortInv, DictMeta, Yielded, Delivered, ForwardInv, IncomingInv;
  }

  /** Whatever a receiver has yielded so far is a prefix of the packed stream. */
  lemma OutIsPrefix(plan: seq<seq<Weight>>, cap: nat, hasNext: bool, q: Receiver)
    requires ReceiverInv(plan, cap, hasNext, q)
    ensures !q.pc.ReceiverFailed? && q.held <= |plan|
    ensures q.out <= Flatten(DeliverAll(plan))
    ensures q.pc.ReceiverDone? ==> q.out == Flatten(DeliverAll(plan))
  {
    hide ReceiverInv, Between, Yielded;
    OutIsBetween(plan, cap, hasNext, q);
    BetweenIsPrefix(plan, q.held, q.out);
    YieldedAll(plan);
    if q.pc.ReceiverDone? {
      DoneYielded(plan, cap, hasNext, q);
    }
  }

  /** The stream a plan delivers is the trainer's stream exactly when no bucket repeats a name. */
  lemma PlanDelivers(cfg: Config)
    requires cfg.Valid()
    ensures Flatten(DeliverAll(cfg.Plan())) == cfg.weights <==> NamesDistinctPerBucket(cfg.Plan())
    ensures DistinctNames(cfg.weights) ==> NamesDistinctPerBucket(cfg.Plan())
  {
    BucketsPartition(cfg.weights, cfg.cap);
    BucketsWellFormed(cfg.weights, cfg.cap);
    DeliverAllExact(cfg.Plan());
    if DistinctNames(cfg.weights) {
      DistinctStream(cfg.weights, cfg.cap);
    }
  }

  // ----- buffer safety -----

  /** A buffer that must not change: published and not yet acknowledged, or being yielded from. */
  predicate InUse(s: State, rank: nat, side: bool)
    requires rank <= |s.receivers|
  {
    || (PortOf(s, rank).op.Some? && PortOf(s, rank).op.value.side == side)
    || (rank > 0 && s.receivers[rank - 1].pc.Yielding? && PortOf(s, rank).side == side)
  }

  /** The buffer a step writes: the sender's fill, or an inbound READ. */
  function Target(cfg: Config, s: State, step: Step): Option<(nat, bool)>
    requires Shaped(cfg, s) && cfg.receivers >= 1
  {
    match step
    case Send =>
      var e := SenderStep(cfg, s.sender, s.acks[0]);
      if e.Act? && e.next.idx > s.sender.idx then Some((0, s.sender.port.side)) else None
    case Copy(r, _, _) => if r < cfg.receivers then Some((r + 1, !s.receivers[r].port.side)) else None
    case _ => None
  }

  lemma TargetIsFree(cfg: Config, s: State, step: Step)
    requires Inv(cfg, s) && Next(cfg, s, step).Some? && Target(cfg, s, step).Some?
    ensures var t := Target(cfg, s, step).value; t.0 <= cfg.receivers && !InUse(s, t.0, t.1)
  {
    hide Buckets, PackFrom, Holds, Yielded, DictMeta, EdgeInv, IncomingInv, DecodeOne;
    if step.Copy? {
      assert RankInv(cfg.Plan(), cfg.cap, s, step.r);
    }
  }

  lemma StepsKeepBuffers(cfg: Config, s: Sender, hasNext: bool, q: Receiver, msgs: seq<Message>, acks: seq<nat>)
    ensures var e := SenderStep(cfg, s, acks);
            e.Act? ==> e.next.port.bufs.At(!s.port.side) == s.port.bufs.At(!s.port.side)
                       && e.next.idx >= s.idx && (e.next.idx == s.idx ==> e.next.port.bufs == s.port.bufs)
    ensures var e := ReceiverStep(hasNext, q, msgs, acks);
            e.Act? ==> e.next.port.bufs == q.port.bufs
  {
  }

  /** A step leaves every buffer but its target as it was. */
  lemma OnlyTargetChanges(cfg: Config, s: State, step: Step, rank: nat, side: bool)
    requires Shaped(cfg, s) && cfg.receivers >= 1
    requires Next(cfg, s, step).Some? && rank <= cfg.receivers
    requires Target(cfg, s, step) != Some((rank, side))
    ensures PortOf(Next(cfg, s, step).value, rank).bufs.At(side) == PortOf(s, rank).bufs.At(side)
  {
    hide SenderStep, ReceiverStep, Consume, Buckets, NextCopy, Range;
    match step
    case Send => StepsKeepBuffers(cfg, s.sender, false, s.receivers[0], [], s.acks[0]);
    case Receive(r) =>
      var hasNext := r + 1 < cfg.receivers;
      StepsKeepBuffers(cfg, s.sender, hasNext, s.receivers[r], s.msgs[r], if hasNext then s.acks[r + 1] else []);
    case Copy(r, lo, hi) => CopyChanges(cfg, s, r, lo, hi, rank, side);
    case Finish(r) =>
  }

  lemma CopyChanges(cfg: Config, s: State, r: nat, lo: nat, hi: nat, rank: nat, side: bool)
    requires Shaped(cfg, s) && r < cfg.receivers && rank <= cfg.receivers && NextCopy(cfg, s, r, lo, hi).Some?
    requires (rank, side) != (r + 1, !s.receivers[r].port.side)
    ensures PortOf(NextCopy(cfg, s, r, lo, hi).value, rank).bufs.At(side) == PortOf(s, rank).bufs.At(side)
  {
  }

  /** No step writes a buffer in use, so no step changes its bytes; and every rank has at most one
      unacknowledged publication, which is in exactly one place. */
  lemma BufferSafety(cfg: Config, s: State, step: Step)
    requires Inv(cfg, s) && Next(cfg, s, step).Some?
    ensures forall rank, side :: 0 <= rank <= cfg.receivers && InUse(s, rank, side) ==>
              && Target(cfg, s, step) != Some((rank, side))
              && PortOf(Next(cfg, s, step).value, rank).bufs.At(side) == PortOf(s, rank).bufs.At(side)
  {
    if Target(cfg, s, step).Some? {
      TargetIsFree(cfg, s, step);
    }
    forall rank, side | 0 <= rank <= cfg.receivers && InUse(s, rank, side)
      ensures PortOf(Next(cfg, s, step).value, rank).bufs.At(side) == PortOf(s, rank).bufs.At(side)
    {
      OnlyTargetChanges(cfg, s, step, rank, side);
    }
  }

  /** A publication is announced in the queue, being read, or acknowledged in the other queue. A receiver's
      is on its send buffer, beside the one it reads into; rank 0's is on the buffer it does not fill, and on
      the last one filled once the stream has ended. */
  lemma PublicationConserved(cfg: Config, s: State, r: nat)
    requires Inv(cfg, s) && r < cfg.receivers
    ensures |s.msgs[r]| + (if s.receivers[r].reading then 1 else 0) + |s.acks[r]| ==
            if PortOf(s, r).op.Some? then 1 else 0
    ensures PortOf(s, r).op.Some? && (r > 0 || s.sender.pc.Draining?) ==>
              PortOf(s, r).op.value.side == PortOf(s, r).side
    ensures PortOf(s, r).op.Some? && r == 0 && !s.sender.pc.Draining? ==>
              PortOf(s, r).op.value.side != PortOf(s, r).side
  {
    hide Buckets, PackFrom, DictMeta, Holds, Yielded, Delivered, Arrived, Range;
    assert RankInv(cfg.Plan(), cfg.cap, s, r);
    if r > 0 {
      assert RankInv(cfg.Plan(), cfg.cap, s, r - 1);
    }
  }

  // ----- progress -----

  ghost predicate CanStep(cfg: Config, s: State)
    requires Shaped(cfg, s) && cfg.receivers >= 1
  {
    exists step :: Next(cfg, s, step).Some?
  }

  /** A receiver with a transfer under way, work of its own, or the message it waits for. */
  predicate Busy(s: State, r: nat)
    requires Aligned(s) && r < |s.receivers|
  {
    var q := s.receivers[r];
    || q.reading
    || q.pc.Top? || q.pc.Yielding? || q.pc.ReadFirst? || q.pc.AwaitRead?
    || ((q.pc.AwaitFirst? || q.pc.AwaitNext?) && s.msgs[r] != [])
  }

  /** A read under way can land what is missing, or complete. */
  lemma ReadingSteps(cfg: Config, s: State, r: nat)
    requires Inv(cfg, s) && r < cfg.receivers && s.receivers[r].reading
    ensures CanStep(cfg, s)
  {
    hide Buckets, SenderInv, EdgeInv, CurrentInv, ForwardInv, Yielded, DictMeta, Holds, CopyBytes;
    assert RankInv(cfg.Plan(), cfg.cap, s, r);
    UpstreamPort(cfg, s, r);
    var q := s.receivers[r];
    if q.missing != {} {
      assert q.missing * Range(0, cfg.cap) == q.missing;
      assert Next(cfg, s, Copy(r, 0, cfg.cap)).Some?;
    } else {
      assert Next(cfg, s, Finish(r)).Some?;
    }
  }

  lemma BusyReceiverSteps(cfg: Config, s: State, r: nat)
    requires Inv(cfg, s) && r < cfg.receivers && Busy(s, r)
    ensures CanStep(cfg, s)
  {
    hide SenderInv, ChainInv, DecodeOne, Range, Buckets;
    if s.receivers[r].reading {
      ReadingSteps(cfg, s, r);
    } else {
      assert Next(cfg, s, Receive(r)).Some?;
    }
  }

  /** A rank whose publication is neither acknowledged nor done with has a successor at work. */
  lemma SuccessorAtWork(plan: seq<seq<Weight>>, cap: nat, s: State, r: nat)
    requires Aligned(s) && r < |s.receivers| && RankInv(plan, cap, s, r)
    requires PortOf(s, r).op.Some? && s.acks[r] == []
    ensures Busy(s, r) || s.receivers[r].pc.AwaitAck?
  {
  }

  /** A rank that waits for a message that is not there has a predecessor that still owes one. */
  lemma PredecessorOwes(plan: seq<seq<Weight>>, cap: nat, s: State, r: nat)
    requires Aligned(s) && r < |s.receivers| && RankInv(plan, cap, s, r)
    requires (s.receivers[r].pc.AwaitFirst? || s.receivers[r].pc.AwaitNext?) && s.msgs[r] == [] && |plan| > 0
    ensures PortOf(s, r).sent < |plan|
    ensures PortOf(s, r).op.Some? ==> s.acks[r] != []
  {
  }

  /** Waiting for an acknowledgement leads down the chain, whose last rank waits for none. */
  lemma {:induction false} AckWaiterUnblocked(cfg: Config, s: State, r: nat)
    requires Inv(cfg, s) && r < cfg.receivers && s.receivers[r].pc.AwaitAck?
    ensures CanStep(cfg, s)
    decreases cfg.receivers - r
  {
    hide Buckets, Yielded, Holds, SenderInv, EdgeInv;
    assert RankInv(cfg.Plan(), cfg.cap, s, r);
    if s.receivers[r].port.op.None? || s.acks[r + 1] != [] {
      assert Next(cfg, s, Receive(r)).Some?;
    } else {
      assert RankInv(cfg.Plan(), cfg.cap, s, r + 1);
      SuccessorAtWork(cfg.Plan(), cfg.cap, s, r + 1);
      if Busy(s, r + 1) {
        BusyReceiverSteps(cfg, s, r + 1);
      } else {
        AckWaiterUnblocked(cfg, s, r + 1);
      }
    }
  }

  lemma SenderUnblocked(cfg: Config, s: State)
    requires Inv(cfg, s) && s.sender.pc != SenderDone
    requires s.sender.port.op.Some? ==> s.acks[0] != []
    ensures CanStep(cfg, s)
  {
    assert Next(cfg, s, Send).Some?;
  }

  /** A receiver that owes its successor a bucket is not done. */
  lemma OwingReceiver(plan: seq<seq<Weight>>, cap: nat, s: State, r: nat)
    requires Aligned(s) && r + 1 < |s.receivers| && RankInv(plan, cap, s, r) && s.receivers[r].port.sent < |plan|
    ensures Busy(s, r) || s.receivers[r].pc.AwaitAck? || s.receivers[r].pc.AwaitFirst? || s.receivers[r].pc.AwaitNext?
  {
  }

  /** Waiting for a message leads up the chain to a rank that still has one to publish. */
  lemma {:induction false} MessageWaiterUnblocked(cfg: Config, s: State, r: nat)
    requires Inv(cfg, s) && r < cfg.receivers && (s.receivers[r].pc.AwaitFirst? || s.receivers[r].pc.AwaitNext?)
    ensures CanStep(cfg, s)
    decreases r
  {
    hide Buckets, Yielded, Holds, EdgeInv, ReceiverInv, PackFrom;
    if s.msgs[r] != [] {
      BusyReceiverSteps(cfg, s, r);
    } else {
      assert RankInv(cfg.Plan(), cfg.cap, s, r);
      PredecessorOwes(cfg.Plan(), cfg.cap, s, r);
      if r == 0 {
        SenderUnblocked(cfg, s);
      } else {
        assert RankInv(cfg.Plan(), cfg.cap, s, r - 1);
        OwingReceiver(cfg.Plan(), cfg.cap, s, r - 1);
        if Busy(s, r - 1) {
          BusyReceiverSteps(cfg, s, r - 1);
        } else if s.receivers[r - 1].pc.AwaitAck? {
          AckWaiterUnblocked(cfg, s, r - 1);
        } else {
          MessageWaiterUnblocked(cfg, s, r - 1);
        }
      }
    }
  }

  /** A rank whose successor is done has every publication acknowledged. */
  lemma SuccessorDone(plan: seq<seq<Weight>>, cap: nat, s: State, r: nat)
    requires Aligned(s) && r < |s.receivers| && RankInv(plan, cap, s, r) && s.receivers[r].pc.ReceiverDone?
    ensures PortOf(s, r).op.Some? ==> s.acks[r] != []
  {
    hide Holds, DictMeta, Yielded, Delivered, Arrived;
  }

  /** Deadlock freedom: until every rank is done, some rank or transfer can step. */
  lemma Progress(cfg: Config, s: State)
    requires Inv(cfg, s) && !AllDone(s)
    ensures CanStep(cfg, s)
  {
    hide Buckets, SenderInv, EdgeInv, IncomingInv, CurrentInv, ForwardInv, Yielded, Delivered, CanStep;
    if r :| 0 <= r < cfg.receivers && !s.receivers[r].pc.ReceiverDone? {
      assert RankInv(cfg.Plan(), cfg.cap, s, r);
      if s.receivers[r].pc.AwaitAck? {
        AckWaiterUnblocked(cfg, s, r);
      } else if s.receivers[r].pc.AwaitFirst? || s.receivers[r].pc.AwaitNext? {
        MessageWaiterUnblocked(cfg, s, r);
      } else {
        BusyReceiverSteps(cfg, s, r);
      }
    } else {
      assert RankInv(cfg.Plan(), cfg.cap, s, 0);
      SuccessorDone(cfg.Plan(), cfg.cap, s, 0);
      SenderUnblocked(cfg, s);
    }
  }

  // ----- every run is finite -----

  /** Work a sender has left: weights to fill, buckets to publish, an acknowledgement to consume. */
  function SenderWork(cfg: Config, s: Sender): int
    requires cfg.Valid()
  {
    3 * (|cfg.weights| - s.idx) + 2 * (|cfg.Plan()| - s.port.sent) + (if s.port.op.Some? then 1 else 0)
  }

  function Phase(q: Receiver): nat {
    match q.pc
    case AwaitFirst => 2
    case ReadFirst => 1
    case Top => 5
    case AwaitNext => 4
    case Yielding => 3
    case AwaitAck => 2
    case AwaitRead => 1
    case ReceiverDone => 0
    case ReceiverFailed => 0
  }

  /** Steps that reading n more buckets can take. */
  function ReadWork(cap: nat, n: int): nat
    decreases n
  {
    if n <= 0 then 0 else cap + 2 + ReadWork(cap, n - 1)
  }

  /** Work a receiver has left: buckets to swap in, phases of this one, items to yield, bytes to read. */
  function ReceiverWork(plan: seq<seq<Weight>>, cap: nat, q: Receiver): int {
    5 * (|plan| - q.held) + Phase(q) + (|Flatten(DeliverAll(plan))| - |q.out|)
    + ReadWork(cap, |plan| - q.got) + (if q.reading then |q.missing| + 1 else 0)
  }

  function Sum(xs: seq<int>): int {
    if xs == [] then 0 else xs[0] + Sum(xs[1..])
  }

  lemma {:induction false} SumUpdate(xs: seq<int>, i: nat, x: int)
    requires i < |xs|
    ensures Sum(xs[i := x]) == Sum(xs) - xs[i] + x
  {
    if i > 0 {
      assert xs[i := x][1..] == xs[1..][i - 1 := x];
      SumUpdate(xs[1..], i - 1, x);
    }
  }

  lemma {:induction false} SumNonNegative(xs: seq<int>)
    requires forall i :: 0 <= i < |xs| ==> xs[i] >= 0
    ensures Sum(xs) >= 0
  {
    if xs != [] {
      assert forall i :: 0 <= i < |xs[1..]| ==> xs[1..][i] == xs[i + 1];
      SumNonNegative(xs[1..]);
    }
  }

  function ReceiverWorks(plan: seq<seq<Weight>>, cap: nat, qs: seq<Receiver>): (works: seq<int>)
    ensures |works| == |qs|
  {
    seq(|qs|, r requires 0 <= r < |qs| => ReceiverWork(plan, cap, qs[r]))
  }

  function Work(cfg: Config, s: State): int
    requires cfg.Valid()
  {
    SenderWork(cfg, s.sender) + Sum(ReceiverWorks(cfg.Plan(), cfg.cap, s.receivers))
  }

  lemma SenderWorkDrops(cfg: Config, s: Sender, acks: seq<nat>)
    requires cfg.Valid() && SenderInv(cfg, s) && SenderStep(cfg, s, acks).Act?
    ensures SenderWork(cfg, SenderStep(cfg, s, acks).next) < SenderWork(cfg, s)
              || SenderStep(cfg, s, acks).next.pc.SenderFailed?
  {
  }

  lemma BeginReadWork(plan: seq<seq<Weight>>, cap: nat, q: Receiver, m: Message, pc: ReceiverPc)
    requires !q.reading && q.got < |plan| && q.port.bufs.Sized(cap)
    ensures ReceiverWork(plan, cap, BeginRead(q, m, pc)) == ReceiverWork(plan, cap, q) - 1 - Phase(q) +
              Phase(q.(pc := pc))
  {
    hide Flatten, DeliverAll;
  }

  lemma OtherWorkDrops(plan: seq<seq<Weight>>, cap: nat, hasNext: bool, q: Receiver, msgs: seq<Message>,
                       acks: seq<nat>)
    requires !q.pc.AwaitFirst? && !q.pc.AwaitNext? && ReceiverStep(hasNext, q, msgs, acks).Act?
    ensures ReceiverWork(plan, cap, ReceiverStep(hasNext, q, msgs, acks).next) < ReceiverWork(plan, cap, q)
  {
    hide Flatten, DeliverAll, ReadWork, DecodeOne, Range;
  }

  lemma ReceiverWorkDrops(plan: seq<seq<Weight>>, cap: nat, hasNext: bool, q: Receiver, msgs: seq<Message>,
                          acks: seq<nat>)
    requires q.pc.AwaitFirst? || q.pc.AwaitNext? ==> !q.reading && q.got < |plan| && q.port.bufs.Sized(cap)
    requires ReceiverStep(hasNext, q, msgs, acks).Act?
    ensures ReceiverWork(plan, cap, ReceiverStep(hasNext, q, msgs, acks).next) < ReceiverWork(plan, cap, q)
  {
    hide Flatten, DeliverAll, ReadWork, DecodeOne, BeginRead, Range;
    if q.pc.AwaitFirst? {
      BeginReadWork(plan, cap, q, msgs[0], ReadFirst);
    } else if q.pc.AwaitNext? {
      BeginReadWork(plan, cap, q, msgs[0], Yielding);
    } else {
      OtherWorkDrops(plan, cap, hasNext, q, msgs, acks);
    }
  }

  lemma WorkOfOneReceiver(plan: seq<seq<Weight>>, cap: nat, qs: seq<Receiver>, r: nat, q': Receiver)
    requires r < |qs|
    ensures Sum(ReceiverWorks(plan, cap, qs[r := q'])) ==
            Sum(ReceiverWorks(plan, cap, qs)) - ReceiverWork(plan, cap, qs[r]) + ReceiverWork(plan, cap, q')
  {
    assert ReceiverWorks(plan, cap, qs[r := q']) == ReceiverWorks(plan, cap, qs)[r := ReceiverWork(plan, cap, q')];
    SumUpdate(ReceiverWorks(plan, cap, qs), r, ReceiverWork(plan, cap, q'));
  }

  /** A receiver about to take a message has not taken the last one. */
  lemma MessageLeft(plan: seq<seq<Weight>>, cap: nat, s: State, r: nat)
    requires Aligned(s) && r < |s.receivers| && RankInv(plan, cap, s, r)
    requires (s.receivers[r].pc.AwaitFirst? || s.receivers[r].pc.AwaitNext?) && s.msgs[r] != []
    ensures !s.receivers[r].reading && s.receivers[r].got < |plan| && s.receivers[r].port.bufs.Sized(cap)
  {
  }

  lemma ReceiveWorkDrops(cfg: Config, s: State, r: nat)
    requires Inv(cfg, s) && r < cfg.receivers && NextReceive(cfg, s, r).Some?
    ensures Work(cfg, NextReceive(cfg, s, r).value) < Work(cfg, s)
  {
    hide Buckets, ReceiverInv, EdgeInv, SenderInv, ReceiverWork, SenderWork;
    var hasNext := r + 1 < cfg.receivers;
    var acks := if hasNext then s.acks[r + 1] else [];
    var q := s.receivers[r];
    assert RankInv(cfg.Plan(), cfg.cap, s, r);
    if q.pc.AwaitFirst? || q.pc.AwaitNext? {
      MessageLeft(cfg.Plan(), cfg.cap, s, r);
    }
    ReceiverWorkDrops(cfg.Plan(), cfg.cap, hasNext, q, s.msgs[r], acks);
    WorkOfOneReceiver(cfg.Plan(), cfg.cap, s.receivers, r, ReceiverStep(hasNext, q, s.msgs[r], acks).next);
  }

  /** Every step uses up some work. */
  lemma WorkDrops(cfg: Config, s: State, step: Step)
    requires Inv(cfg, s) && Next(cfg, s, step).Some?
    ensures Work(cfg, Next(cfg, s, step).value) < Work(cfg, s)
  {
    hide Work, NextSend, NextReceive, NextCopy, NextFinish, SenderInv, ChainInv;
    match step
    case Send =>
      SendKeepsInv(cfg, s);
      SendWorkDrops(cfg, s);
    case Receive(r) => ReceiveWorkDrops(cfg, s, r);
    case Copy(r, lo, hi) => CopyWorkDrops(cfg, s, r, lo, hi);
    case Finish(r) => FinishWorkDrops(cfg, s, r);
  }

  lemma CopyWorkDrops(cfg: Config, s: State, r: nat, lo: nat, hi: nat)
    requires cfg.Valid() && Shaped(cfg, s) && r < cfg.receivers && NextCopy(cfg, s, r, lo, hi).Some?
    ensures Work(cfg, NextCopy(cfg, s, r, lo, hi).value) < Work(cfg, s)
  {
    hide Buckets, ReceiverWork, ReceiverWorks, SenderWork, CopyBytes;
    var q' := CopyBytes(s.receivers[r], PortOf(s, r), lo, hi);
    CopyWork(cfg.Plan(), cfg.cap, s.receivers[r], PortOf(s, r), lo, hi);
    WorkOfOneReceiver(cfg.Plan(), cfg.cap, s.receivers, r, q');
  }

  lemma FinishWorkDrops(cfg: Config, s: State, r: nat)
    requires cfg.Valid() && Shaped(cfg, s) && r < cfg.receivers && NextFinish(cfg, s, r).Some?
    ensures Work(cfg, NextFinish(cfg, s, r).value) < Work(cfg, s)
  {
    hide Buckets, ReceiverWorks, ReceiverWork, SenderWork;
    FinishWork(cfg.Plan(), cfg.cap, s.receivers[r]);
    WorkOfOneReceiver(cfg.Plan(), cfg.cap, s.receivers, r, s.receivers[r].(reading := false));
  }

  lemma FinishWork(plan: seq<seq<Weight>>, cap: nat, q: Receiver)
    requires q.reading
    ensures ReceiverWork(plan, cap, q.(reading := false)) < ReceiverWork(plan, cap, q)
  {
    hide Flatten, DeliverAll, ReadWork;
  }

  lemma SendWorkDrops(cfg: Config, s: State)
    requires Inv(cfg, s) && NextSend(cfg, s).Some? && Inv(cfg, NextSend(cfg, s).value)
    ensures Work(cfg, NextSend(cfg, s).value) < Work(cfg, s)
  {
    hide Buckets, ReceiverWorks, ChainInv;
    SenderWorkDrops(cfg, s.sender, s.acks[0]);
  }

  lemma CopyWork(plan: seq<seq<Weight>>, cap: nat, q: Receiver, up: Port, lo: nat, hi: nat)
    requires q.reading && q.missing * Range(lo, hi) != {}
    requires lo <= hi <= |q.port.bufs.At(!q.port.side)| && hi <= |up.bufs.At(q.incoming.side)|
    ensures ReceiverWork(plan, cap, CopyBytes(q, up, lo, hi)) < ReceiverWork(plan, cap, q)
  {
    hide Flatten, DeliverAll, ReadWork, Land;
    FewerMissing(q.missing, lo, hi);
  }

  lemma ReceiverWorkNonNegative(plan: seq<seq<Weight>>, cap: nat, hasNext: bool, q: Receiver)
    requires ReceiverInv(plan, cap, hasNext, q)
    ensures ReceiverWork(plan, cap, q) >= 0
  {
    hide Yielded, Delivered, DictMeta, Holds;
    OutIsPrefix(plan, cap, hasNext, q);
  }

  lemma WorkNonNegative(cfg: Config, s: State)
    requires Inv(cfg, s)
    ensures Work(cfg, s) >= 0
  {
    hide Buckets, ReceiverInv, EdgeInv, ReceiverWork, PackFrom, Holds;
    var works := ReceiverWorks(cfg.Plan(), cfg.cap, s.receivers);
    forall r | 0 <= r < |works|
      ensures works[r] >= 0
    {
      assert RankInv(cfg.Plan(), cfg.cap, s, r);
      ReceiverWorkNonNegative(cfg.Plan(), cfg.cap, r + 1 < cfg.receivers, s.receivers[r]);
    }
    SumNonNegative(works);
  }

  lemma {:induction false} RunUsesWork(cfg: Config, states: seq<State>, steps: seq<Step>, i: nat)
    requires Run(cfg, states, steps) && i < |states|
    ensures Work(cfg, states[i]) + i <= Work(cfg, states[0])
    decreases i
  {
    hide Work, Inv, Next;
    if i > 0 {
      RunUsesWork(cfg, states, steps, i - 1);
      RunInv(cfg, states, steps, i - 1);
      assert Next(cfg, states[i - 1], steps[i - 1]) == Some(states[i]);
      WorkDrops(cfg, states[i - 1], steps[i - 1]);
    }
  }

  /** Along a run no assertion fails and every receiver has yielded a prefix of the packed stream. */
  lemma EveryStateSafe(cfg: Config, states: seq<State>, steps: seq<Step>, i: nat)
    requires Run(cfg, states, steps) && i < |states|
    ensures Inv(cfg, states[i]) && !states[i].sender.pc.SenderFailed?
    ensures forall q :: q in states[i].receivers ==> !q.pc.ReceiverFailed? && q.out <= Flatten(DeliverAll(cfg.Plan()))
  {
    hide Next, SenderInv, ReceiverInv, EdgeInv, Buckets, Run;
    RunInv(cfg, states, steps, i);
    SenderNeverFails(cfg, states[i].sender);
    forall r | 0 <= r < cfg.receivers
      ensures var q := states[i].receivers[r]; !q.pc.ReceiverFailed? && q.out <= Flatten(DeliverAll(cfg.Plan()))
    {
      assert RankInv(cfg.Plan(), cfg.cap, states[i], r);
      OutIsPrefix(cfg.Plan(), cfg.cap, r + 1 < cfg.receivers, states[i].receivers[r]);
    }
  }

  /** The delivery theorem. Under every interleaving, and for every number of receivers: a run has
      at most as many steps as its initial work; along it no assertion fails and every receiver has
      yielded a prefix of the packed stream; and a run that cannot be extended has every rank done
      and every receiver's output the trainer's stream, item by item, exactly when no bucket of the
      plan repeats a name. */
  lemma EveryRunDelivers(cfg: Config, states: seq<State>, steps: seq<Step>)
    requires Run(cfg, states, steps)
    ensures |steps| <= Work(cfg, states[0])
    ensures forall i :: 0 <= i < |states| ==>
              && !states[i].sender.pc.SenderFailed?
              && forall q :: q in states[i].receivers ==>
                !q.pc.ReceiverFailed? && q.out <= Flatten(DeliverAll(cfg.Plan()))
    ensures var last := states[|states| - 1];
            Shaped(cfg, last) && (!CanStep(cfg, last) ==>
              && AllDone(last)
              && (forall q :: q in last.receivers ==> (q.out == cfg.weights <==> NamesDistinctPerBucket(cfg.Plan()))))
  {
    hide Work, Next, SenderInv, ChainInv, CanStep, Buckets, AllDone;
    var n := |steps|;
    RunUsesWork(cfg, states, steps, n);
    forall i | 0 <= i < |states|
      ensures !states[i].sender.pc.SenderFailed?
      ensures forall q :: q in states[i].receivers ==> !q.pc.ReceiverFailed? && q.out <= Flatten(DeliverAll(cfg.Plan()))
    {
      EveryStateSafe(cfg, states, steps, i);
    }
    EveryStateSafe(cfg, states, steps, n);
    EndState(cfg, states[n]);
  }

  lemma EndState(cfg: Config, s: State)
    requires Inv(cfg, s)
    ensures Work(cfg, s) >= 0
    ensures !CanStep(cfg, s) ==> AllDone(s)
    ensures AllDone(s) ==> forall q :: q in s.receivers ==>
              (q.out == cfg.weights <==> NamesDistinctPerBucket(cfg.Plan()))
  {
    hide Work, Next, SenderInv, ReceiverInv, EdgeInv, CanStep, Buckets;
    WorkNonNegative(cfg, s);
    if AllDone(s) {
      PlanDelivers(cfg);
      DoneReceivers(cfg, s);
    } else {
      Progress(cfg, s);
    }
  }

  lemma SenderNeverFails(cfg: Config, s: Sender)
    requires cfg.Valid() && SenderInv(cfg, s)
    ensures !s.pc.SenderFailed?
  {
  }

  lemma DoneReceivers(cfg: Config, s: State)
    requires Inv(cfg, s) && AllDone(s)
    ensures forall q :: q in s.receivers ==> q.out == Flatten(DeliverAll(cfg.Plan()))
  {
    forall q | q in s.receivers
      ensures q.out == Flatten(DeliverAll(cfg.Plan()))
    {
      var r :| 0 <= r < |s.receivers| && s.receivers[r] == q;
      assert RankInv(cfg.Plan(), cfg.cap, s, r);
      OutIsPrefix(cfg.Plan(), cfg.cap, r + 1 < cfg.receivers, q);
    }
  }

  lemma OneMoreStep(cfg: Config, states: seq<State>, steps: seq<Step>, step: Step)
    requires Run(cfg, states, steps) && Shaped(cfg, states[|steps|]) && Next(cfg, states[|steps|], step).Some?
    ensures Run(cfg, states + [Next(cfg, states[|steps|], step).value], steps + [step])
  {
    hide Next, Init;
    var states', steps' := states + [Next(cfg, states[|steps|], step).value], steps + [step];
    forall i | 0 <= i < |steps'|
      ensures Shaped(cfg, states'[i]) && Next(cfg, states'[i], steps'[i]) == Some(states'[i + 1])
    {
      if i < |steps| {
        assert states'[i] == states[i] && states'[i + 1] == states[i + 1] && steps'[i] == steps[i];
      }
    }
  }

  /** However a run has gone so far, it can be completed: the chain never paints itself into a corner. */
  lemma {:induction false} EveryRunCompletes(cfg: Config, states: seq<State>, steps: seq<Step>)
    returns (states': seq<State>, steps': seq<Step>)
    requires Run(cfg, states, steps)
    ensures Run(cfg, states', steps') && states <= states' && steps <= steps'
    ensures AllDone(states'[|states'| - 1])
    decreases RemainingWork(cfg, states[|states| - 1])
  {
    hide Next, Init, Inv, Work, AllDone, CanStep;
    var last := states[|steps|];
    RunInv(cfg, states, steps, |steps|);
    RemainingIs(cfg, last);
    if AllDone(last) {
      return states, steps;
    }
    Progress(cfg, last);
    var step := SomeStep(cfg, last);
    WorkDrops(cfg, last, step);
    OneMoreStep(cfg, states, steps, step);
    var longer := states + [Next(cfg, last, step).value];
    RunInv(cfg, longer, steps + [step], |steps| + 1);
    RemainingIs(cfg, longer[|longer| - 1]);
    states', steps' := EveryRunCompletes(cfg, longer, steps + [step]);
  }

  ghost function RemainingWork(cfg: Config, s: State): nat {
    if Inv(cfg, s) && Work(cfg, s) >= 0 then Work(cfg, s) else 0
  }

  lemma RemainingIs(cfg: Config, s: State)
    requires Inv(cfg, s)
    ensures Shaped(cfg, s) && cfg.receivers >= 1 && RemainingWork(cfg, s) == Work(cfg, s)
  {
    WorkNonNegative(cfg, s);
  }

  lemma SomeStep(cfg: Config, s: State) returns (step: Step)
    requires Shaped(cfg, s) && cfg.receivers >= 1 && CanStep(cfg, s)
    ensures Next(cfg, s, step).Some?
  {
    step :| Next(cfg, s, step).Some?;
  }

  /** Every configuration has a run to begin with. */
  lemma RunBegins(cfg: Config) returns (s: State)
    requires cfg.Valid()
    ensures Run(cfg, [s], [])
  {
    var zeros := seq(cfg.cap, _ => 0 as Byte);
    var port := Port(Buffers(zeros, zeros), false, None, 0);
    var q := Receiver(AwaitFirst, port, [], false, Message(0, false, [], false), false, {}, 0, [], 0, 0);
    s := State(Sender(Scan, port, 0, 0, [], 0), seq(cfg.receivers, _ => q),
               seq(cfg.receivers, _ => []), seq(cfg.receivers, _ => []));
  }
}
