/** What every step of the forwarding chain keeps. */
module NixlInvariant {
  import opened Options
  import opened Packing
  import opened Sequences
  import opened BucketCodec
  import opened NixlChain
  import opened Transfers

  /** The message that announces bucket j. */
  function Announcement(plan: seq<seq<Weight>>, j: nat, side: bool): Message
    requires j < |plan|
  {
    Message(j, side, DictMeta(plan[j]), j + 1 == |plan|)
  }

  /** A publication is numbered by its bucket, and its buffer still holds that bucket. */
  predicate PortInv(plan: seq<seq<Weight>>, cap: nat, p: Port) {
    && p.bufs.Sized(cap)
    && p.sent <= |plan|
    && (p.op.Some? ==>
          p.sent >= 1 && p.op.value.key == p.sent - 1 && Holds(p.bufs.At(p.op.value.side), plan[p.sent - 1]))
  }

  predicate FillInv(cfg: Config, s: Sender)
    requires cfg.Valid()
  {
    && s.start <= s.idx <= |cfg.weights|
    && s.port.sent < |cfg.Plan()|
    && (s.port.op.Some? ==> s.port.op.value.side != s.port.side)
    && var cur := cfg.weights[s.start..s.idx];
       && s.metas == DictMeta(cur)
       && s.offset == Bytes(cur) <= cfg.cap
       && Holds(s.port.bufs.At(s.port.side), cur)
       && cfg.Plan()[s.port.sent..] == PackFrom(cur, cfg.weights[s.idx..], cfg.cap)
  }

  predicate SenderInv(cfg: Config, s: Sender)
    requires cfg.Valid()
  {
    && PortInv(cfg.Plan(), cfg.cap, s.port)
    && s.idx <= |cfg.weights|
    && match s.pc
       case Scan => FillInv(cfg, s)
       case MustFill => FillInv(cfg, s) && s.start == s.idx < |cfg.weights|
       case Draining => s.port.sent == |cfg.Plan()| && s.port.op.Some? && s.port.op.value.side == s.port.side
       case SenderDone => s.port.sent == |cfg.Plan()| && s.port.op.None?
       case SenderFailed => false
  }

  /** The weights a receiver has yielded once it is done with n buckets. */
  function Yielded(plan: seq<seq<Weight>>, n: nat): seq<Weight>
    requires n <= |plan|
  {
    Flatten(DeliverAll(plan[..n]))
  }

  lemma NothingYielded(plan: seq<seq<Weight>>)
    ensures Yielded(plan, 0) == []
  {
    assert plan[..0] == [];
  }

  predicate CurrentInv(plan: seq<seq<Weight>>, q: Receiver) {
    1 <= q.held <= |plan| &&
    var b := plan[q.held - 1];
    q.metas == DictMeta(b) && q.isLast == (q.held == |plan|) && Holds(q.port.bufs.At(q.port.side), b)
  }

  predicate IncomingInv(plan: seq<seq<Weight>>, cap: nat, q: Receiver) {
    && q.got <= |plan|
    && (q.reading ==> q.missing <= Range(0, cap))
    && (if q.got == q.held then !q.reading
        else
          && q.got == q.held + 1
          && q.incoming == Announcement(plan, q.held, q.incoming.side)
          && (!q.reading ==> Holds(q.port.bufs.At(!q.port.side), plan[q.held])))
  }

  predicate ForwardInv(q: Receiver, hasNext: bool, published: nat, waiting: bool) {
    q.port.sent == (if hasNext then published else 0) && (q.port.op.Some? <==> hasNext && waiting)
  }

  predicate ReceiverInv(plan: seq<seq<Weight>>, cap: nat, hasNext: bool, q: Receiver) {
    && PortInv(plan, cap, q.port)
    && IncomingInv(plan, cap, q)
    && (q.held > 0 ==> CurrentInv(plan, q))
    && (q.port.op.Some? ==> q.port.op.value.side == q.port.side)
    && match q.pc
       case AwaitFirst => q.got == 0 && q.held == 0 && ForwardInv(q, hasNext, 0, false) && q.out == []
       case ReadFirst => q.got == 1 && q.held == 0 && ForwardInv(q, hasNext, 0, false) && q.out == []
       case Top =>
         q.held >= 1 && q.got == q.held && ForwardInv(q, hasNext, q.held - 1, false)
           && q.out == Yielded(plan, q.held - 1)
       case AwaitNext =>
         q.held >= 1 && q.got == q.held && !q.isLast && q.yielded == 0
         && ForwardInv(q, hasNext, q.held, true) && q.out == Yielded(plan, q.held - 1)
       case Yielding =>
         q.held >= 1 && q.got == (if q.isLast then q.held else q.held + 1) && q.yielded <= |q.metas|
         && ForwardInv(q, hasNext, q.held, true)
         && q.out == Yielded(plan, q.held - 1) + Delivered(plan[q.held - 1])[..q.yielded]
       case AwaitAck =>
         q.held >= 1 && q.got == (if q.isLast then q.held else q.held + 1)
         && ForwardInv(q, hasNext, q.held, true) && q.out == Yielded(plan, q.held)
       case AwaitRead =>
         q.held >= 1 && q.got == q.held + 1 && !q.isLast
         && ForwardInv(q, hasNext, q.held, false) && q.out == Yielded(plan, q.held)
       case ReceiverDone =>
         q.held >= 1 && q.got == q.held && q.isLast
         && ForwardInv(q, hasNext, q.held, false) && q.out == Yielded(plan, q.held)
       case ReceiverFailed => false
  }

  /** One edge: what is published upstream, in the two queues and read downstream adds up. */
  predicate EdgeInv(plan: seq<seq<Weight>>, up: Port, q: Receiver, msgs: seq<Message>, acks: seq<nat>) {
    var read := q.got - if q.reading then 1 else 0;
    var acked := up.sent - if up.op.Some? then 1 else 0;
    && up.sent <= |plan|
    && acked <= read <= q.got <= up.sent
    && msgs == (if q.got < up.sent && up.op.Some? then [Announcement(plan, q.got, up.op.value.side)] else [])
    && acks == (if acked < read then [acked] else [])
    && (q.reading ==>
          && up.op.Some? && q.incoming.side == up.op.value.side
          && Arrived(q.port.bufs.At(!q.port.side), up.bufs.At(up.op.value.side), q.missing))
  }

  predicate Aligned(s: State) {
    |s.receivers| == |s.msgs| == |s.acks|
  }

  predicate RankInv(plan: seq<seq<Weight>>, cap: nat, s: State, r: nat)
    requires Aligned(s) && r < |s.receivers|
  {
    && ReceiverInv(plan, cap, r + 1 < |s.receivers|, s.receivers[r])
    && EdgeInv(plan, PortOf(s, r), s.receivers[r], s.msgs[r], s.acks[r])
  }

  predicate ChainInv(plan: seq<seq<Weight>>, cap: nat, s: State) {
    Aligned(s) && forall r :: 0 <= r < |s.receivers| ==> RankInv(plan, cap, s, r)
  }

  predicate Inv(cfg: Config, s: State) {
    && cfg.Valid()
    && Shaped(cfg, s)
    && SenderInv(cfg, s.sender)
    && ChainInv(cfg.Plan(), cfg.cap, s)
  }

  // ----- one edge, seen from its upstream rank -----

  /** A rank that keeps its publication and the published buffer keeps the edge. */
  lemma EdgeUpstreamQuiet(plan: seq<seq<Weight>>, up: Port, up': Port, q: Receiver, msgs: seq<Message>, acks: seq<nat>)
    requires EdgeInv(plan, up, q, msgs, acks)
    requires up'.sent == up.sent && up'.op == up.op
    requires up.op.Some? ==> up'.bufs.At(up.op.value.side) == up.bufs.At(up.op.value.side)
    ensures EdgeInv(plan, up', q, msgs, acks)
  {
  }

  lemma EdgePublish(plan: seq<seq<Weight>>, up: Port, side: bool, q: Receiver, msgs: seq<Message>, acks: seq<nat>)
    requires EdgeInv(plan, up, q, msgs, acks)
    requires up.op.None? && up.sent < |plan|
    ensures EdgeInv(plan, up.Publish().(side := side), q, msgs + [Announcement(plan, up.sent, up.side)], acks)
  {
  }

  /** The notification at the head of the queue carries the key being waited for. */
  lemma EdgeAck(plan: seq<seq<Weight>>, up: Port, q: Receiver, msgs: seq<Message>, acks: seq<nat>)
    requires PortInv(plan, |up.bufs.left|, up) && EdgeInv(plan, up, q, msgs, acks)
    requires up.op.Some? && acks != []
    ensures acks[0] == up.op.value.key
    ensures EdgeInv(plan, up.(op := None), q, msgs, Consume(acks, true))
  {
  }

  // ----- the sender -----

  lemma FillPreserves(cfg: Config, s: Sender)
    requires cfg.Valid() && PortInv(cfg.Plan(), cfg.cap, s.port) && FillInv(cfg, s) && s.idx < |cfg.weights|
    requires s.offset + |cfg.weights[s.idx].data| <= cfg.cap
    ensures SenderInv(cfg, FillOne(s, cfg.weights[s.idx]))
    ensures s.port.op.Some? ==>
              FillOne(s, cfg.weights[s.idx]).port.bufs.At(s.port.op.value.side) == s.port.bufs.At(s.port.op.value.side)
  {
    hide Buckets, PackFrom, DictMeta, Put, Concat;
    var w := cfg.weights[s.idx];
    var cur := cfg.weights[s.start..s.idx];
    assert cfg.weights[s.start..s.idx + 1] == cur + [w];
    assert cfg.weights[s.idx..] == [w] + cfg.weights[s.idx + 1..];
    ConcatAppend(cur, w);
    DictMetaAppend(cur, w);
    PackFromStep(cur, w, cfg.weights[s.idx + 1..], cfg.cap);
    HoldsAfterWrite(s.port.bufs.At(s.port.side), cur, w);
  }

  lemma SenderPublishes(cfg: Config, s: Sender)
    requires cfg.Valid() && SenderInv(cfg, s) && s.pc.Scan? && s.port.op.None?
    requires s.idx < |cfg.weights| ==> s.offset + |cfg.weights[s.idx].data| > cfg.cap
    ensures s.port.sent < |cfg.Plan()|
    ensures var e := SenderStep(cfg, s, []);
            && e.Act? && SenderInv(cfg, e.next) && !e.tookAck
            && e.posts == [Announcement(cfg.Plan(), s.port.sent, s.port.side)]
            && e.next.port == s.port.Publish().(side := e.next.port.side)
  {
    hide Buckets;
    var plan, ws := cfg.Plan(), cfg.weights;
    var cur, rest := ws[s.start..s.idx], ws[s.idx..];
    var tail := plan[s.port.sent..];
    assert tail[0] == plan[s.port.sent] && tail[1..] == plan[s.port.sent + 1..];
    if s.idx < |ws| {
      assert ws[s.idx] in ws;
      CloseBucket(cur, rest, cfg.cap);
      assert ws[s.idx..s.idx] == [];
    } else {
      assert tail == [cur];
    }
  }

  /** The assertion that a weight fits once the bucket has been flushed never fires. */
  lemma FlushedWeightFits(cfg: Config, s: Sender)
    requires cfg.Valid() && SenderInv(cfg, s) && s.pc.MustFill?
    ensures s.idx < |cfg.weights| && s.offset + |cfg.weights[s.idx].data| <= cfg.cap
  {
    assert cfg.weights[s.idx..s.idx] == [];
    assert cfg.weights[s.idx] in cfg.weights;
  }

  lemma SenderPreserves(cfg: Config, s: Sender, q: Receiver, msgs: seq<Message>, acks: seq<nat>)
    requires cfg.Valid() && SenderInv(cfg, s) && EdgeInv(cfg.Plan(), s.port, q, msgs, acks)
    requires SenderStep(cfg, s, acks).Act?
    ensures var e := SenderStep(cfg, s, acks);
            SenderInv(cfg, e.next) && EdgeInv(cfg.Plan(), e.next.port, q, msgs + e.posts, Consume(acks, e.tookAck))
  {
    hide Buckets, PackFrom, DictMeta, Holds, Concat;
    var e := SenderStep(cfg, s, acks);
    assert e.posts == [] ==> msgs + e.posts == msgs;
    if s.pc.MustFill? {
      FlushedWeightFits(cfg, s);
    }
    if (s.pc.Scan? || s.pc.MustFill?) && s.idx < |cfg.weights| && s.offset + |cfg.weights[s.idx].data| <= cfg.cap {
      FillPreserves(cfg, s);
      EdgeUpstreamQuiet(cfg.Plan(), s.port, e.next.port, q, msgs, acks);
    } else if s.port.op.Some? {
      EdgeAck(cfg.Plan(), s.port, q, msgs, acks);
    } else {
      SenderPublishes(cfg, s);
      EdgePublish(cfg.Plan(), s.port, e.next.port.side, q, msgs, acks);
    }
  }

  // ----- a receiver -----

  lemma EdgeTakeMessage(plan: seq<seq<Weight>>, up: Port, q: Receiver, msgs: seq<Message>, acks: seq<nat>,
                        pc: ReceiverPc)
    requires EdgeInv(plan, up, q, msgs, acks) && !q.reading && msgs != []
    ensures q.got < |plan|
    ensures msgs[0] == Announcement(plan, q.got, msgs[0].side)
    ensures EdgeInv(plan, up, BeginRead(q, msgs[0], pc), Consume(msgs, true), acks)
  {
  }

  lemma YieldedNext(plan: seq<seq<Weight>>, n: nat)
    requires n < |plan|
    ensures Yielded(plan, n + 1) == Yielded(plan, n) + Delivered(plan[n])
  {
    var plan := plan;
    assert plan[..n + 1] == plan[..n] + [plan[n]];
    assert DeliverAll(plan[..n + 1]) == DeliverAll(plan[..n]) + [Delivered(plan[n])];
    FlattenAppend(DeliverAll(plan[..n]), Delivered(plan[n]));
  }

  /** The item yielded is the next one of the current bucket, whatever else is in the buffer. */
  lemma YieldsNextItem(b: seq<Weight>, buf: seq<Byte>, before: seq<Weight>, k: nat)
    requires WellFormed(b) && Holds(buf, b) && k < |DictMeta(b)|
    ensures (before + Delivered(b)[..k]) + [DecodeOne(DictMeta(b)[k], buf)] == before + Delivered(b)[..k + 1]
  {
    hide DictMeta, Concat, DecodeOne, Holds;
    var d := Delivered(b);
    DecodeHolds(b, buf, k);
    assert d[..k + 1] == d[..k] + [d[k]];
  }

  lemma YieldsWholeBucket(plan: seq<seq<Weight>>, n: nat)
    requires n < |plan|
    ensures Yielded(plan, n) + Delivered(plan[n])[..|DictMeta(plan[n])|] == Yielded(plan, n + 1)
  {
    var d := Delivered(plan[n]);
    YieldedNext(plan, n);
    assert d[..|d|] == d;
  }

  lemma YieldPreserves(plan: seq<seq<Weight>>, cap: nat, hasNext: bool, q: Receiver)
    requires (forall b :: b in plan ==> WellFormed(b)) && ReceiverInv(plan, cap, hasNext, q) && q.pc.Yielding?
    ensures ReceiverInv(plan, cap, hasNext, ReceiverStep(hasNext, q, [], []).next)
  {
    hide Yielded, Delivered, DictMeta, Holds, DecodeOne;
    if q.yielded < |q.metas| {
      var b := plan[q.held - 1];
      assert b in plan;
      YieldsNextItem(b, q.port.bufs.At(q.port.side), Yielded(plan, q.held - 1), q.yielded);
    } else {
      YieldsWholeBucket(plan, q.held - 1);
    }
  }

  lemma AdoptPreserves(plan: seq<seq<Weight>>, cap: nat, hasNext: bool, q: Receiver)
    requires ReceiverInv(plan, cap, hasNext, q) && (q.pc.ReadFirst? || q.pc.AwaitRead?) && !q.reading
    ensures ReceiverInv(plan, cap, hasNext, Adopt(q))
  {
    if q.pc.ReadFirst? {
      assert plan[..0] == [];
    }
  }

  lemma TopPreserves(plan: seq<seq<Weight>>, cap: nat, hasNext: bool, q: Receiver)
    requires ReceiverInv(plan, cap, hasNext, q) && q.pc.Top?
    ensures ReceiverInv(plan, cap, hasNext, ReceiverStep(hasNext, q, [], []).next)
    ensures hasNext ==> ReceiverStep(hasNext, q, [], []).posts == [Announcement(plan, q.port.sent, q.port.side)]
  {
    var d := Delivered(plan[q.held - 1]);
    assert Yielded(plan, q.held - 1) + d[..0] == Yielded(plan, q.held - 1);
  }

  lemma BeginPreserves(plan: seq<seq<Weight>>, cap: nat, hasNext: bool, q: Receiver, m: Message)
    requires ReceiverInv(plan, cap, hasNext, q) && (q.pc.AwaitFirst? || q.pc.AwaitNext?)
    requires q.got < |plan| && m == Announcement(plan, q.got, m.side)
    ensures ReceiverInv(plan, cap, hasNext, BeginRead(q, m, if q.pc.AwaitFirst? then ReadFirst else Yielding))
  {
    hide Holds, DictMeta, Yielded, Delivered;
    if q.pc.AwaitNext? {
      var d := Delivered(plan[q.held - 1]);
      assert Yielded(plan, q.held - 1) + d[..0] == Yielded(plan, q.held - 1);
    }
  }

  /** A receiver's own step, as seen by itself. */
  lemma ReceiverPreserves(plan: seq<seq<Weight>>, cap: nat, hasNext: bool, up: Port, q: Receiver, msgs: seq<Message>,
                          upAcks: seq<nat>, acks: seq<nat>)
    requires (forall b :: b in plan ==> WellFormed(b))
    requires ReceiverInv(plan, cap, hasNext, q) && EdgeInv(plan, up, q, msgs, upAcks)
    requires q.port.op.Some? && acks != [] ==> acks[0] == q.port.op.value.key
    requires ReceiverStep(hasNext, q, msgs, acks).Act?
    ensures ReceiverInv(plan, cap, hasNext, ReceiverStep(hasNext, q, msgs, acks).next)
  {
    hide Yielded, Delivered, DictMeta, Holds, DecodeOne;
    match q.pc
    case AwaitFirst =>
      EdgeTakeMessage(plan, up, q, msgs, upAcks, ReadFirst);
      BeginPreserves(plan, cap, hasNext, q, msgs[0]);
    case AwaitNext =>
      EdgeTakeMessage(plan, up, q, msgs, upAcks, Yielding);
      BeginPreserves(plan, cap, hasNext, q, msgs[0]);
    case ReadFirst => AdoptPreserves(plan, cap, hasNext, q);
    case AwaitRead => AdoptPreserves(plan, cap, hasNext, q);
    case Yielding => YieldPreserves(plan, cap, hasNext, q);
    case Top => TopPreserves(plan, cap, hasNext, q);
    case AwaitAck => AckPreserves(plan, cap, hasNext, q, acks);
    case ReceiverDone =>
    case ReceiverFailed =>
  }

  lemma AckPreserves(plan: seq<seq<Weight>>, cap: nat, hasNext: bool, q: Receiver, acks: seq<nat>)
    requires ReceiverInv(plan, cap, hasNext, q) && q.pc.AwaitAck?
    requires q.port.op.Some? && acks != [] ==> acks[0] == q.port.op.value.key
    requires ReceiverStep(hasNext, q, [], acks).Act?
    ensures ReceiverInv(plan, cap, hasNext, ReceiverStep(hasNext, q, [], acks).next)
  {
    hide Holds, DictMeta, Yielded, Delivered;
  }

  /** A rank that neither takes a message nor moves a transfer keeps the edge from its predecessor. */
  lemma EdgeDownstreamQuiet(plan: seq<seq<Weight>>, up: Port, q: Receiver, q': Receiver, msgs: seq<Message>,
                            acks: seq<nat>)
    requires EdgeInv(plan, up, q, msgs, acks)
    requires q'.got == q.got && q'.reading == q.reading
    requires q.reading ==> q'.missing == q.missing && q'.incoming == q.incoming
                           && q'.port.bufs.At(!q'.port.side) == q.port.bufs.At(!q.port.side)
    ensures EdgeInv(plan, up, q', msgs, acks)
  {
  }

  /** A receiver's own step, as seen on the edge from its predecessor. */
  lemma ReceiverDownstream(plan: seq<seq<Weight>>, hasNext: bool, up: Port, q: Receiver, msgs: seq<Message>,
                           upAcks: seq<nat>, acks: seq<nat>)
    requires EdgeInv(plan, up, q, msgs, upAcks)
    requires q.pc.AwaitFirst? || q.pc.AwaitNext? ==> !q.reading
    requires ReceiverStep(hasNext, q, msgs, acks).Act?
    ensures var e := ReceiverStep(hasNext, q, msgs, acks);
            EdgeInv(plan, up, e.next, Consume(msgs, e.tookMessage), upAcks)
  {
    hide EdgeInv, DecodeOne;
    var e := ReceiverStep(hasNext, q, msgs, acks);
    if q.pc.AwaitFirst? || q.pc.AwaitNext? {
      EdgeTakeMessage(plan, up, q, msgs, upAcks, e.next.pc);
    } else {
      EdgeDownstreamQuiet(plan, up, q, e.next, msgs, upAcks);
    }
  }

  /** The same step as seen on the edge to its successor. */
  lemma ReceiverUpstream(plan: seq<seq<Weight>>, cap: nat, q: Receiver, msgs: seq<Message>, succ: Receiver,
                         succMsgs: seq<Message>, acks: seq<nat>)
    requires ReceiverInv(plan, cap, true, q) && EdgeInv(plan, q.port, succ, succMsgs, acks)
    requires ReceiverStep(true, q, msgs, acks).Act?
    ensures var e := ReceiverStep(true, q, msgs, acks);
            EdgeInv(plan, e.next.port, succ, succMsgs + e.posts, Consume(acks, e.tookAck))
  {
    hide EdgeInv, DecodeOne, Holds, Yielded, DictMeta;
    var e := ReceiverStep(true, q, msgs, acks);
    if q.pc.Top? {
      TopPreserves(plan, cap, true, q);
      EdgePublish(plan, q.port, q.port.side, succ, succMsgs, acks);
    } else {
      assert succMsgs + e.posts == succMsgs;
      if q.pc.AwaitAck? && q.port.op.Some? {
        EdgeAck(plan, q.port, succ, succMsgs, acks);
      } else {
        EdgeUpstreamQuiet(plan, q.port, e.next.port, succ, succMsgs, acks);
      }
    }
  }

  // ----- a transfer -----

  lemma CopyBytesFacts(q: Receiver, up: Port, lo: nat, hi: nat, cap: nat)
    requires q.port.bufs.Sized(cap) && up.bufs.Sized(cap) && lo <= hi <= cap
    requires Arrived(q.port.bufs.At(!q.port.side), up.bufs.At(q.incoming.side), q.missing)
    ensures var q' := CopyBytes(q, up, lo, hi);
            && q'.port.bufs.Sized(cap) && q'.port.bufs.At(q.port.side) == q.port.bufs.At(q.port.side)
            && Arrived(q'.port.bufs.At(!q.port.side), up.bufs.At(q.incoming.side), q'.missing)
            && q'.missing <= q.missing
            && q' == q.(port := q.port.(bufs := q'.port.bufs), missing := q'.missing)
  {
    hide Arrived, Land;
    LandArrives(q.port.bufs.At(!q.port.side), up.bufs.At(q.incoming.side), q.missing, lo, hi);
  }

  /** A range of bytes arrives in the receive buffer: nothing but that buffer changes. */
  lemma CopyPreserves(plan: seq<seq<Weight>>, cap: nat, hasNext: bool, up: Port, q: Receiver, msgs: seq<Message>,
                      acks: seq<nat>, lo: nat, hi: nat)
    requires PortInv(plan, cap, up) && ReceiverInv(plan, cap, hasNext, q) && EdgeInv(plan, up, q, msgs, acks)
    requires q.reading && lo <= hi <= cap
    ensures var q' := CopyBytes(q, up, lo, hi);
            && ReceiverInv(plan, cap, hasNext, q') && EdgeInv(plan, up, q', msgs, acks)
            && q'.port.bufs.At(q.port.side) == q.port.bufs.At(q.port.side)
  {
    hide Arrived, CopyBytes, Range, Holds;
    CopyBytesFacts(q, up, lo, hi, cap);
    BufferSwapKeeps(plan, cap, hasNext, q, CopyBytes(q, up, lo, hi));
  }

  lemma BufferSwapKeeps(plan: seq<seq<Weight>>, cap: nat, hasNext: bool, q: Receiver, q': Receiver)
    requires ReceiverInv(plan, cap, hasNext, q) && q.reading
    requires q' == q.(port := q.port.(bufs := q'.port.bufs), missing := q'.missing) && q'.missing <= q.missing
    requires q'.port.bufs.Sized(cap) && q'.port.bufs.At(q.port.side) == q.port.bufs.At(q.port.side)
    ensures ReceiverInv(plan, cap, hasNext, q')
  {
    hide Holds, DictMeta, Yielded, Delivered, Range;
  }

  lemma FinishHolds(plan: seq<seq<Weight>>, cap: nat, up: Port, q: Receiver, msgs: seq<Message>, acks: seq<nat>)
    requires PortInv(plan, cap, up) && PortInv(plan, cap, q.port) && EdgeInv(plan, up, q, msgs, acks)
    requires q.reading && q.missing == {}
    ensures 1 <= q.got <= |plan| && Holds(q.port.bufs.At(!q.port.side), plan[q.got - 1])
  {
    ArrivedAll(q.port.bufs.At(!q.port.side), up.bufs.At(q.incoming.side));
  }

  lemma FinishEdge(plan: seq<seq<Weight>>, up: Port, q: Receiver, msgs: seq<Message>, acks: seq<nat>)
    requires EdgeInv(plan, up, q, msgs, acks) && q.reading && q.incoming.key == q.got - 1
    ensures EdgeInv(plan, up, q.(reading := false), msgs, acks + [q.incoming.key])
  {
  }

  lemma FinishPreserves(plan: seq<seq<Weight>>, cap: nat, hasNext: bool, up: Port, q: Receiver, msgs: seq<Message>,
                        acks: seq<nat>)
    requires PortInv(plan, cap, up) && ReceiverInv(plan, cap, hasNext, q) && EdgeInv(plan, up, q, msgs, acks)
    requires q.reading && q.missing == {}
    ensures var q' := q.(reading := false);
            ReceiverInv(plan, cap, hasNext, q') && EdgeInv(plan, up, q', msgs, acks + [q.incoming.key])
  {
    hide Holds, Yielded, Delivered, DictMeta, EdgeInv, PortInv;
    FinishHolds(plan, cap, up, q, msgs, acks);
    FinishEdge(plan, up, q, msgs, acks);
  }

  // ----- the chain -----

  lemma UpstreamPort(cfg: Config, s: State, r: nat)
    requires Inv(cfg, s) && r < cfg.receivers
    ensures PortInv(cfg.Plan(), cfg.cap, PortOf(s, r))
  {
    if r > 0 {
      assert RankInv(cfg.Plan(), cfg.cap, s, r - 1);
    }
  }

  lemma SenderChanges(plan: seq<seq<Weight>>, cap: nat, s: State, s': State)
    requires ChainInv(plan, cap, s) && Aligned(s') && s'.receivers == s.receivers && |s.receivers| > 0
    requires s'.msgs == s.msgs[0 := s'.msgs[0]] && s'.acks == s.acks[0 := s'.acks[0]]
    requires EdgeInv(plan, s'.sender.port, s.receivers[0], s'.msgs[0], s'.acks[0])
    ensures ChainInv(plan, cap, s')
  {
    forall r | 0 <= r < |s'.receivers|
      ensures RankInv(plan, cap, s', r)
    {
      assert RankInv(plan, cap, s, r);
    }
  }

  lemma SendKeepsInv(cfg: Config, s: State)
    requires Inv(cfg, s) && NextSend(cfg, s).Some?
    ensures Inv(cfg, NextSend(cfg, s).value)
  {
    assert RankInv(cfg.Plan(), cfg.cap, s, 0);
    SenderPreserves(cfg, s.sender, s.receivers[0], s.msgs[0], s.acks[0]);
    SenderChanges(cfg.Plan(), cfg.cap, s, NextSend(cfg, s).value);
  }

  lemma RankUnchanged(plan: seq<seq<Weight>>, cap: nat, s: State, s': State, i: nat)
    requires Aligned(s) && Aligned(s') && |s'.receivers| == |s.receivers| && i < |s.receivers|
               && RankInv(plan, cap, s, i)
    requires PortOf(s', i) == PortOf(s, i) && s'.receivers[i] == s.receivers[i]
    requires s'.msgs[i] == s.msgs[i] && s'.acks[i] == s.acks[i]
    ensures RankInv(plan, cap, s', i)
  {
  }

  /** What one receiver changes: itself and the queues of its two edges. */
  lemma OneRankChanges(plan: seq<seq<Weight>>, cap: nat, s: State, r: nat, q': Receiver, s': State)
    requires ChainInv(plan, cap, s) && Aligned(s') && r < |s.receivers|
    requires s'.sender == s.sender && s'.receivers == s.receivers[r := q']
    requires forall i :: 0 <= i < |s.receivers| && i != r && i != r + 1 ==>
               s'.msgs[i] == s.msgs[i] && s'.acks[i] == s.acks[i]
    requires ReceiverInv(plan, cap, r + 1 < |s.receivers|, q')
    requires EdgeInv(plan, PortOf(s, r), q', s'.msgs[r], s'.acks[r])
    requires r + 1 < |s.receivers| ==> EdgeInv(plan, q'.port, s.receivers[r + 1], s'.msgs[r + 1], s'.acks[r + 1])
    ensures ChainInv(plan, cap, s')
  {
    hide ReceiverInv, EdgeInv;
    forall i | 0 <= i < |s'.receivers|
      ensures RankInv(plan, cap, s', i)
    {
      assert PortOf(s', r) == PortOf(s, r);
      if i == r + 1 {
        assert RankInv(plan, cap, s, i);
        assert s'.receivers[i] == s.receivers[i] && PortOf(s', i) == q'.port;
      } else if i != r {
        assert RankInv(plan, cap, s, i);
        RankUnchanged(plan, cap, s, s', i);
      }
    }
  }

  lemma ReceiveKeepsChain(plan: seq<seq<Weight>>, cap: nat, s: State, r: nat, acks: seq<nat>)
    requires (forall b :: b in plan ==> WellFormed(b)) && ChainInv(plan, cap, s) && r < |s.receivers|
    requires acks == if r + 1 < |s.receivers| then s.acks[r + 1] else []
    requires ReceiverStep(r + 1 < |s.receivers|, s.receivers[r], s.msgs[r], acks).Act?
    ensures var e := ReceiverStep(r + 1 < |s.receivers|, s.receivers[r], s.msgs[r], acks);
            && ReceiverInv(plan, cap, r + 1 < |s.receivers|, e.next)
            && EdgeInv(plan, PortOf(s, r), e.next, Consume(s.msgs[r], e.tookMessage), s.acks[r])
            && (r + 1 < |s.receivers| ==>
                  EdgeInv(plan, e.next.port, s.receivers[r + 1], s.msgs[r + 1] + e.posts, Consume(acks, e.tookAck)))
  {
    hide ReceiverStep, Yielded, DecodeOne, DictMeta, Holds;
    var q, up := s.receivers[r], PortOf(s, r);
    var hasNext := r + 1 < |s.receivers|;
    assert RankInv(plan, cap, s, r);
    if hasNext {
      assert RankInv(plan, cap, s, r + 1);
      if q.port.op.Some? && acks != [] {
        EdgeAck(plan, q.port, s.receivers[r + 1], s.msgs[r + 1], acks);
      }
      ReceiverUpstream(plan, cap, q, s.msgs[r], s.receivers[r + 1], s.msgs[r + 1], acks);
    }
    ReceiverPreserves(plan, cap, hasNext, up, q, s.msgs[r], s.acks[r], acks);
    ReceiverDownstream(plan, hasNext, up, q, s.msgs[r], s.acks[r], acks);
  }

  lemma ReceiveKeepsInv(cfg: Config, s: State, r: nat)
    requires Inv(cfg, s) && r < cfg.receivers && NextReceive(cfg, s, r).Some?
    ensures Inv(cfg, NextReceive(cfg, s, r).value)
  {
    hide ReceiverInv, EdgeInv, ChainInv, SenderInv, ReceiverStep, Buckets;
    var acks := if r + 1 < cfg.receivers then s.acks[r + 1] else [];
    var s' := NextReceive(cfg, s, r).value;
    BucketsWellFormed(cfg.weights, cfg.cap);
    ReceiveKeepsChain(cfg.Plan(), cfg.cap, s, r, acks);
    OneRankChanges(cfg.Plan(), cfg.cap, s, r, s'.receivers[r], s');
  }

  lemma PublishesSendBuffer(plan: seq<seq<Weight>>, cap: nat, hasNext: bool, q: Receiver)
    requires ReceiverInv(plan, cap, hasNext, q)
    ensures q.port.op.Some? ==> q.port.op.value.side == q.port.side
  {
  }

  /** A transfer engine's move changes one receiver and at most its notification queue. */
  lemma TransferKeepsChain(plan: seq<seq<Weight>>, cap: nat, s: State, r: nat, q': Receiver, acks': seq<nat>)
    requires ChainInv(plan, cap, s) && r < |s.receivers|
    requires ReceiverInv(plan, cap, r + 1 < |s.receivers|, q')
    requires EdgeInv(plan, PortOf(s, r), q', s.msgs[r], acks')
    requires q'.port.sent == s.receivers[r].port.sent && q'.port.op == s.receivers[r].port.op
    requires q'.port.bufs.At(s.receivers[r].port.side) == s.receivers[r].port.bufs.At(s.receivers[r].port.side)
    ensures ChainInv(plan, cap, s.(receivers := s.receivers[r := q'], acks := s.acks[r := acks']))
  {
    hide ReceiverInv, EdgeInv;
    assert RankInv(plan, cap, s, r);
    if r + 1 < |s.receivers| {
      assert RankInv(plan, cap, s, r + 1);
      PublishesSendBuffer(plan, cap, true, s.receivers[r]);
      EdgeUpstreamQuiet(plan, s.receivers[r].port, q'.port, s.receivers[r + 1], s.msgs[r + 1], s.acks[r + 1]);
    }
    OneRankChanges(plan, cap, s, r, q', s.(receivers := s.receivers[r := q'], acks := s.acks[r := acks']));
  }

  lemma CopyKeepsInv(cfg: Config, s: State, r: nat, lo: nat, hi: nat)
    requires Inv(cfg, s) && r < cfg.receivers && NextCopy(cfg, s, r, lo, hi).Some?
    ensures Inv(cfg, NextCopy(cfg, s, r, lo, hi).value)
  {
    hide SenderInv, Buckets, DictMeta, Holds;
    assert RankInv(cfg.Plan(), cfg.cap, s, r);
    UpstreamPort(cfg, s, r);
    var q, up := s.receivers[r], PortOf(s, r);
    CopyPreserves(cfg.Plan(), cfg.cap, r + 1 < cfg.receivers, up, q, s.msgs[r], s.acks[r], lo, hi);
    assert s.acks[r := s.acks[r]] == s.acks;
    TransferKeepsChain(cfg.Plan(), cfg.cap, s, r, CopyBytes(q, up, lo, hi), s.acks[r]);
  }

  lemma FinishKeepsInv(cfg: Config, s: State, r: nat)
    requires Inv(cfg, s) && r < cfg.receivers && NextFinish(cfg, s, r).Some?
    ensures Inv(cfg, NextFinish(cfg, s, r).value)
  {
    assert RankInv(cfg.Plan(), cfg.cap, s, r);
    UpstreamPort(cfg, s, r);
    var q := s.receivers[r];
    FinishPreserves(cfg.Plan(), cfg.cap, r + 1 < cfg.receivers, PortOf(s, r), q, s.msgs[r], s.acks[r]);
    TransferKeepsChain(cfg.Plan(), cfg.cap, s, r, q.(reading := false), s.acks[r] + [q.incoming.key]);
  }

  lemma NextKeepsInv(cfg: Config, s: State, step: Step)
    requires Inv(cfg, s) && Next(cfg, s, step).Some?
    ensures Inv(cfg, Next(cfg, s, step).value)
  {
    match step
    case Send => SendKeepsInv(cfg, s);
    case Receive(r) => ReceiveKeepsInv(cfg, s, r);
    case Copy(r, lo, hi) => CopyKeepsInv(cfg, s, r, lo, hi);
    case Finish(r) => FinishKeepsInv(cfg, s, r);
  }

  lemma InitSender(cfg: Config, s: Sender)
    requires cfg.Valid() && s.pc == Scan && IdlePort(cfg, s.port)
    requires s.idx == s.offset == s.start == 0 && s.metas == []
    ensures SenderInv(cfg, s)
  {
    var ws := cfg.weights;
    assert ws[0..0] == [] && ws[0..] == ws && [] + ws == ws;
    PackFromIsBuckets([], ws, cfg.cap);
    assert cfg.Plan()[0..] == cfg.Plan();
  }

  lemma InitChain(plan: seq<seq<Weight>>, cfg: Config, s: State)
    requires Init(cfg, s) && plan != []
    ensures ChainInv(plan, cfg.cap, s)
  {
    forall r | 0 <= r < |s.receivers|
      ensures RankInv(plan, cfg.cap, s, r)
    {
      assert IdlePort(cfg, s.receivers[r].port);
      if r > 0 {
        assert IdlePort(cfg, s.receivers[r - 1].port);
      }
    }
  }

  lemma InitInv(cfg: Config, s: State)
    requires cfg.Valid() && Init(cfg, s)
    ensures Inv(cfg, s)
  {
    InitSender(cfg, s.sender);
    InitChain(cfg.Plan(), cfg, s);
  }
}
