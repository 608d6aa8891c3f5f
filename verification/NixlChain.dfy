/** The NIXL forwarding chain: rank 0 packs and publishes buckets, every other rank reads a
    bucket from its predecessor while it forwards and yields the one before.

    A state machine over single steps. Between `begin_read` and completion a transfer lands ranges of
    bytes one at a time and in any order, so a torn read is a behaviour of the model. Messages and
    notifications travel over one FIFO queue per edge and direction. */
module NixlChain {
  import opened Options
  import opened Packing
  import opened BucketCodec
  import opened Transfers

  datatype Config = Config(weights: seq<Weight>, cap: nat, receivers: nat) {
    predicate Valid() {
      WellFormed(weights) && Fits(weights, cap) && receivers >= 1
    }

    function Plan(): seq<seq<Weight>>
      requires Valid()
    {
      Buckets(weights, cap)
    }
  }

  // ----- one rank -----

  /** The bucket descriptor sent to the next agent. */
  datatype Message = Message(key: nat, side: bool, metas: seq<TensorMeta>, isLast: bool)

  /** A published buffer whose notification has not been consumed yet. */
  datatype Pending = Pending(key: nat, side: bool)

  datatype Buffers = Buffers(left: seq<Byte>, right: seq<Byte>) {
    function At(side: bool): seq<Byte> {
      if side then right else left
    }

    function With(side: bool, buf: seq<Byte>): Buffers {
      if side then this.(right := buf) else this.(left := buf)
    }

    predicate Sized(cap: nat) {
      |left| == cap && |right| == cap
    }
  }

  /** What a rank has towards its successor. `side` is the send buffer, `!side` the receive
      buffer; `sent` counts publications and serves as the next notify key. */
  datatype Port = Port(bufs: Buffers, side: bool, op: Option<Pending>, sent: nat) {
    function Publish(): Port {
      this.(op := Some(Pending(sent, side)), sent := sent + 1)
    }

    function Announce(metas: seq<TensorMeta>, isLast: bool): Message {
      Message(sent, side, metas, isLast)
    }
  }

  datatype SenderPc = Scan | MustFill | Draining | SenderDone | SenderFailed

  /** `start` is a history variable: the first weight of the bucket being filled. */
  datatype Sender = Sender(pc: SenderPc, port: Port, idx: nat, offset: nat, metas: seq<TensorMeta>, start: nat)

  datatype ReceiverPc =
    | AwaitFirst | ReadFirst | Top | AwaitNext | Yielding | AwaitAck | AwaitRead | ReceiverDone | ReceiverFailed

  /** `missing` are the offsets a read has not brought yet. `got` and `held` are history variables:
      messages taken from the predecessor, and buckets swapped into the send buffer. */
  datatype Receiver = Receiver(
    pc: ReceiverPc, port: Port,
    metas: seq<TensorMeta>, isLast: bool,
    incoming: Message, reading: bool, missing: set<nat>,
    yielded: nat, out: seq<Weight>,
    got: nat, held: nat)

  /** The outcome of a rank's next step: it waits, or it moves on, perhaps posting a message
      and perhaps consuming the head of one of its input queues. */
  datatype Effect<+S> = Blocked | Act(next: S, posts: seq<Message>, tookMessage: bool, tookAck: bool)

  function FillOne(s: Sender, w: Weight): Sender {
    s.(pc := Scan,
       port := s.port.(bufs := s.port.bufs.With(s.port.side, WriteAt(s.port.bufs.At(s.port.side), s.offset, w.data))),
       idx := s.idx + 1,
       offset := s.offset + |w.data|,
       metas := Put(s.metas, MetaFor(w, s.offset)))
  }

  /** `send_weights` from one scheduling point to the next. */
  function SenderStep(cfg: Config, s: Sender, acks: seq<nat>): Effect<Sender> {
    match s.pc
    case Scan =>
      if s.idx < |cfg.weights| && s.offset + |cfg.weights[s.idx].data| <= cfg.cap then
        Act(FillOne(s, cfg.weights[s.idx]), [], false, false)
      else if s.port.op.Some? then
        if acks == [] then Blocked
        else if acks[0] == s.port.op.value.key then Act(s.(port := s.port.(op := None)), [], false, true)
        else Act(s.(pc := SenderFailed), [], false, true)
      else if s.idx < |cfg.weights| then
        Act(s.(pc := MustFill, port := s.port.Publish().(side := !s.port.side), offset := 0, metas := [],
          start := s.idx),
            [s.port.Announce(s.metas, false)], false, false)
      else
        Act(s.(pc := Draining, port := s.port.Publish()), [s.port.Announce(s.metas, true)], false, false)
    case MustFill =>
      if s.idx < |cfg.weights| && s.offset + |cfg.weights[s.idx].data| <= cfg.cap then
        Act(FillOne(s, cfg.weights[s.idx]), [], false, false)
      else
        Act(s.(pc := SenderFailed), [], false, false)
    case Draining =>
      if acks == [] then Blocked
      else if s.port.op.Some? && acks[0] == s.port.op.value.key then
        Act(s.(pc := SenderDone, port := s.port.(op := None)), [], false, true)
      else Act(s.(pc := SenderFailed), [], false, true)
    case SenderDone => Blocked
    case SenderFailed => Blocked
  }

  function BeginRead(q: Receiver, m: Message, pc: ReceiverPc): Receiver {
    q.(pc := pc, incoming := m, reading := true, missing := Range(0, |q.port.bufs.At(!q.port.side)|), got := q.got + 1)
  }

  /** The metadata just read becomes current and the buffers swap. */
  function Adopt(q: Receiver): Receiver {
    q.(pc := Top, metas := q.incoming.metas, isLast := q.incoming.isLast,
       port := q.port.(side := !q.port.side), held := q.held + 1)
  }

  function AfterAck(q: Receiver): Receiver {
    q.(pc := if q.isLast then ReceiverDone else AwaitRead)
  }

  /** `receive_weights` from one scheduling point to the next. */
  function ReceiverStep(hasNext: bool, q: Receiver, msgs: seq<Message>, acks: seq<nat>): Effect<Receiver> {
    match q.pc
    case AwaitFirst =>
      if msgs == [] then Blocked else Act(BeginRead(q, msgs[0], ReadFirst), [], true, false)
    case ReadFirst =>
      if q.reading then Blocked else Act(Adopt(q), [], false, false)
    case Top =>
      var q' := q.(pc := if q.isLast then Yielding else AwaitNext, yielded := 0);
      if hasNext then Act(q'.(port := q.port.Publish()), [q.port.Announce(q.metas, q.isLast)], false, false)
      else Act(q', [], false, false)
    case AwaitNext =>
      if msgs == [] then Blocked else Act(BeginRead(q, msgs[0], Yielding), [], true, false)
    case Yielding =>
      if q.yielded < |q.metas| then
        Act(q.(out := q.out + [DecodeOne(q.metas[q.yielded], q.port.bufs.At(q.port.side))], yielded := q.yielded + 1),
            [], false, false)
      else Act(q.(pc := AwaitAck), [], false, false)
    case AwaitAck =>
      if q.port.op.None? then Act(AfterAck(q), [], false, false)
      else if acks == [] then Blocked
      else if acks[0] == q.port.op.value.key then Act(AfterAck(q.(port := q.port.(op := None))), [], false, true)
      else Act(q.(pc := ReceiverFailed), [], false, true)
    case AwaitRead =>
      if q.reading then Blocked else Act(Adopt(q), [], false, false)
    case ReceiverDone => Blocked
    case ReceiverFailed => Blocked
  }

  // ----- the whole chain -----

  /** `receivers[r]` is rank r + 1; `msgs[r]` and `acks[r]` belong to the edge from rank r to it. */
  datatype State = State(sender: Sender, receivers: seq<Receiver>, msgs: seq<seq<Message>>, acks: seq<seq<nat>>)

  /** Ranks step independently; `Copy` and `Finish` are the transfer engine working for receiver r. */
  datatype Step = Send | Receive(r: nat) | Copy(r: nat, lo: nat, hi: nat) | Finish(r: nat)

  /** The port of rank r. */
  function PortOf(s: State, r: nat): Port
    requires r <= |s.receivers|
  {
    if r == 0 then s.sender.port else s.receivers[r - 1].port
  }

  predicate Shaped(cfg: Config, s: State) {
    |s.receivers| == |s.msgs| == |s.acks| == cfg.receivers
  }

  function Consume<T>(xs: seq<T>, take: bool): seq<T> {
    if take && xs != [] then xs[1..] else xs
  }

  function NextSend(cfg: Config, s: State): Option<State>
    requires Shaped(cfg, s) && cfg.receivers >= 1
  {
    match SenderStep(cfg, s.sender, s.acks[0])
    case Blocked => None
    case Act(sender, posts, _, tookAck) =>
      Some(s.(sender := sender, msgs := s.msgs[0 := s.msgs[0] + posts],
        acks := s.acks[0 := Consume(s.acks[0], tookAck)]))
  }

  function NextReceive(cfg: Config, s: State, r: nat): Option<State>
    requires Shaped(cfg, s) && r < cfg.receivers
  {
    var hasNext := r + 1 < cfg.receivers;
    match ReceiverStep(hasNext, s.receivers[r], s.msgs[r], if hasNext then s.acks[r + 1] else [])
    case Blocked => None
    case Act(q, posts, tookMessage, tookAck) =>
      var msgs := s.msgs[r := Consume(s.msgs[r], tookMessage)];
      Some(s.(receivers := s.receivers[r := q],
              msgs := if hasNext then msgs[r + 1 := msgs[r + 1] + posts] else msgs,
              acks := if hasNext then s.acks[r + 1 := Consume(s.acks[r + 1], tookAck)] else s.acks))
  }

  function CopyBytes(q: Receiver, up: Port, lo: nat, hi: nat): Receiver
    requires lo <= hi <= |q.port.bufs.At(!q.port.side)| && hi <= |up.bufs.At(q.incoming.side)|
  {
    var buf := Land(q.port.bufs.At(!q.port.side), up.bufs.At(q.incoming.side), lo, hi);
    q.(port := q.port.(bufs := q.port.bufs.With(!q.port.side, buf)), missing := q.missing - Range(lo, hi))
  }

  function NextCopy(cfg: Config, s: State, r: nat, lo: nat, hi: nat): Option<State>
    requires Shaped(cfg, s) && r < cfg.receivers
  {
    var q, up := s.receivers[r], PortOf(s, r);
    if q.reading && q.missing * Range(lo, hi) != {}
       && lo <= hi <= |q.port.bufs.At(!q.port.side)| && hi <= |up.bufs.At(q.incoming.side)| then
      Some(s.(receivers := s.receivers[r := CopyBytes(q, up, lo, hi)]))
    else None
  }

  function NextFinish(cfg: Config, s: State, r: nat): Option<State>
    requires Shaped(cfg, s) && r < cfg.receivers
  {
    var q := s.receivers[r];
    if q.reading && q.missing == {} then
      Some(s.(receivers := s.receivers[r := q.(reading := false)],
              acks := s.acks[r := s.acks[r] + [q.incoming.key]]))
    else None
  }

  /** The state after a step, or None when the step cannot be taken. */
  function Next(cfg: Config, s: State, step: Step): Option<State>
    requires Shaped(cfg, s) && cfg.receivers >= 1
  {
    match step
    case Send => NextSend(cfg, s)
    case Receive(r) => if r < cfg.receivers then NextReceive(cfg, s, r) else None
    case Copy(r, lo, hi) => if r < cfg.receivers then NextCopy(cfg, s, r, lo, hi) else None
    case Finish(r) => if r < cfg.receivers then NextFinish(cfg, s, r) else None
  }

  predicate IdlePort(cfg: Config, p: Port) {
    p.bufs.Sized(cfg.cap) && p.op == None && p.sent == 0
  }

  /** Buffers of the right size with arbitrary contents, empty queues, nothing sent. */
  predicate Init(cfg: Config, s: State) {
    && Shaped(cfg, s)
    && s.sender.pc == Scan && IdlePort(cfg, s.sender.port)
    && s.sender.idx == s.sender.offset == s.sender.start == 0 && s.sender.metas == []
    && (forall r :: 0 <= r < cfg.receivers ==>
          var q := s.receivers[r];
          && q.pc == AwaitFirst && IdlePort(cfg, q.port) && !q.reading && q.out == []
            && q.got == q.held == 0
          && s.msgs[r] == [] && s.acks[r] == [])
  }

  predicate AllDone(s: State) {
    s.sender.pc == SenderDone && forall q :: q in s.receivers ==> q.pc == ReceiverDone
  }
}
