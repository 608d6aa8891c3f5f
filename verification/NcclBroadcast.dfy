/** The NCCL engine: rank 0 packs as in the NIXL engine, but every bucket is broadcast to all
    receivers at once.

    A broadcast is asynchronous at both ends. From its start the source's buffer is read piece by
    piece, in any order; each receiver's buffer is written piece by piece from what has been read so
    far, in any order too. Whether the source's call also waits for the receivers is left open:
    `synchronous` says which. */
module NcclBroadcast {
  import opened Options
  import opened Packing
  import opened Sequences
  import opened BucketCodec
  import opened NixlChain
  import opened NixlInvariant
  import opened NixlDelivery
  import opened Transfers

  /** A broadcast: its metadata, and the bytes read from the source buffer except at the offsets still
      unread. */
  datatype Cast = Cast(metas: seq<TensorMeta>, isLast: bool, side: bool, image: seq<Byte>, unread: set<nat>)

  datatype Pc = NotStarted | WaitFirst | LoopTop | Yield | WaitNext | Finished

  /** `started` counts the broadcasts joined, `held` those adopted; `missing` are the offsets at which
      the last has not arrived. */
  datatype Listener = Listener(
    pc: Pc, bufs: Buffers, side: bool, metas: seq<TensorMeta>, isLast: bool,
    started: nat, held: nat, missing: set<nat>, yielded: nat, out: seq<Weight>)

  datatype World = World(sender: Sender, casts: seq<Cast>, listeners: seq<Listener>)

  datatype Move = SendMove | ReadSource(lo: nat, hi: nat) | Hear(r: nat) | Deliver(r: nat, lo: nat, hi: nat)

  /** The listener has broadcast i in full. */
  predicate HasHeard(q: Listener, i: nat) {
    q.started > i + 1 || (q.started == i + 1 && (q.held == i + 1 || q.missing == {}))
  }

  /** The source's `wait_for_complete` may return. */
  predicate CastComplete(synchronous: bool, w: World) {
    w.casts != [] && w.casts[|w.casts| - 1].unread == {}
    && (synchronous ==> forall q :: q in w.listeners ==> HasHeard(q, |w.casts| - 1))
  }

  /** A broadcast nothing of which has been read. */
  function NewCast(cap: nat, m: Message): Cast {
    Cast(m.metas, m.isLast, m.side, seq(cap, _ => 0), Range(0, cap))
  }

  function SenderMove(cfg: Config, synchronous: bool, w: World): Option<World> {
    var key := if w.sender.port.op.Some? then w.sender.port.op.value.key else 0;
    match SenderStep(cfg, w.sender, if CastComplete(synchronous, w) then [key] else [])
    case Blocked => None
    case Act(s, posts, _, _) =>
      Some(w.(sender := s,
              casts := if posts == [] then w.casts else w.casts + [NewCast(cfg.cap, posts[0])]))
  }

  function ReadBytes(c: Cast, src: seq<Byte>, lo: nat, hi: nat): Cast
    requires lo <= hi <= |c.image| && hi <= |src|
  {
    c.(image := Land(c.image, src, lo, hi), unread := c.unread - Range(lo, hi))
  }

  function ReadMove(cfg: Config, w: World, lo: nat, hi: nat): Option<World> {
    if w.casts == [] then None
    else
      var c := w.casts[|w.casts| - 1];
      var src := w.sender.port.bufs.At(c.side);
      if c.unread * Range(lo, hi) != {} && lo <= hi <= |c.image| && hi <= |src| then
        Some(w.(casts := w.casts[|w.casts| - 1 := ReadBytes(c, src, lo, hi)]))
      else None
  }

  function Join(q: Listener, pc: Pc): Listener {
    q.(pc := pc, started := q.started + 1, missing := Range(0, |q.bufs.At(!q.side)|))
  }

  function AdoptCast(q: Listener, c: Cast): Listener {
    q.(pc := LoopTop, metas := c.metas, isLast := c.isLast, side := !q.side, held := q.held + 1)
  }

  function ListenerStep(casts: seq<Cast>, q: Listener): Option<Listener> {
    match q.pc
    case NotStarted => Some(Join(q, WaitFirst))
    case WaitFirst =>
      if 0 < q.started <= |casts| && q.missing == {} then Some(AdoptCast(q, casts[q.started - 1])) else None
    case LoopTop => Some((if q.isLast then q.(pc := Yield) else Join(q, Yield)).(yielded := 0))
    case Yield =>
      if q.yielded < |q.metas| then
        Some(q.(out := q.out + [DecodeOne(q.metas[q.yielded], q.bufs.At(q.side))], yielded := q.yielded + 1))
      else Some(q.(pc := if q.isLast then Finished else WaitNext))
    case WaitNext =>
      if 0 < q.started <= |casts| && q.missing == {} then Some(AdoptCast(q, casts[q.started - 1])) else None
    case Finished => None
  }

  function DeliverBytes(q: Listener, image: seq<Byte>, lo: nat, hi: nat): Listener
    requires lo <= hi <= |image| && hi <= |q.bufs.At(!q.side)|
  {
    q.(bufs := q.bufs.With(!q.side, Land(q.bufs.At(!q.side), image, lo, hi)), missing := q.missing - Range(lo, hi))
  }

  /** A range that has been read at the source arrives at a listener. */
  function DeliverMove(cfg: Config, w: World, r: nat, lo: nat, hi: nat): Option<World>
    requires r < |w.listeners|
  {
    var q := w.listeners[r];
    if q.held < q.started <= |w.casts| && q.missing * Range(lo, hi) != {}
       && w.casts[q.started - 1].unread !! Range(lo, hi)
       && lo <= hi <= |w.casts[q.started - 1].image| && hi <= |q.bufs.At(!q.side)| then
      Some(w.(listeners := w.listeners[r := DeliverBytes(q, w.casts[q.started - 1].image, lo, hi)]))
    else None
  }

  function HearMove(cfg: Config, w: World, r: nat): Option<World>
    requires r < |w.listeners|
  {
    match ListenerStep(w.casts, w.listeners[r])
    case None => None
    case Some(q) => Some(w.(listeners := w.listeners[r := q]))
  }

  function NextWorld(cfg: Config, synchronous: bool, w: World, m: Move): Option<World> {
    match m
    case SendMove => SenderMove(cfg, synchronous, w)
    case ReadSource(lo, hi) => ReadMove(cfg, w, lo, hi)
    case Hear(r) => if r < |w.listeners| then HearMove(cfg, w, r) else None
    case Deliver(r, lo, hi) => if r < |w.listeners| then DeliverMove(cfg, w, r, lo, hi) else None
  }

  predicate InitWorld(cfg: Config, w: World) {
    && w.sender.pc == Scan && IdlePort(cfg, w.sender.port)
    && w.sender.idx == w.sender.offset == w.sender.start == 0 && w.sender.metas == []
    && w.casts == []
    && forall q :: q in w.listeners ==>
         q.pc == NotStarted && q.bufs.Sized(cfg.cap) && q.started == q.held == 0 && q.out == []
  }

  // ----- the invariant -----

  /** Every broadcast announces its bucket; what has been read of it is what a full buffer holds. */
  predicate CastInv(plan: seq<seq<Weight>>, cap: nat, p: Port, casts: seq<Cast>, i: nat)
    requires i < |casts|
  {
    && i < |plan|
    && casts[i].metas == DictMeta(plan[i]) && (casts[i].isLast <==> i + 1 == |plan|)
    && |casts[i].image| == cap && casts[i].unread <= Range(0, cap)
    && (casts[i].unread == {} ==> Holds(casts[i].image, plan[i]))
    && (casts[i].unread != {} ==> i + 1 == |casts| && p.op.Some?)
    && (i + 1 == |casts| && p.op.Some? ==>
          casts[i].side == p.op.value.side
          && Arrived(casts[i].image, p.bufs.At(p.op.value.side), casts[i].unread))
  }

  predicate CastsInv(plan: seq<seq<Weight>>, cap: nat, p: Port, casts: seq<Cast>) {
    |casts| == p.sent && forall i :: 0 <= i < |casts| ==> CastInv(plan, cap, p, casts, i)
  }

  predicate HeardInv(plan: seq<seq<Weight>>, q: Listener) {
    1 <= q.held <= |plan| &&
    var b := plan[q.held - 1];
    q.metas == DictMeta(b) && (q.isLast <==> q.held == |plan|) && Holds(q.bufs.At(q.side), b)
  }

  predicate ListenerInv(plan: seq<seq<Weight>>, cap: nat, q: Listener) {
    && q.bufs.Sized(cap) && (q.held < q.started ==> q.missing <= Range(0, cap))
    && q.held <= q.started <= q.held + 1 && q.started <= |plan|
    && (q.held > 0 ==> HeardInv(plan, q))
    && match q.pc
       case NotStarted => q.started == 0 && q.out == []
       case WaitFirst => q.started == 1 && q.held == 0 && q.out == []
       case LoopTop => q.held >= 1 && q.started == q.held && q.out == Yielded(plan, q.held - 1)
       case Yield =>
         q.held >= 1 && q.started == (if q.isLast then q.held else q.held + 1) && q.yielded <= |q.metas|
         && q.out == Yielded(plan, q.held - 1) + Delivered(plan[q.held - 1])[..q.yielded]
       case WaitNext => q.held >= 1 && q.started == q.held + 1 && !q.isLast && q.out == Yielded(plan, q.held)
       case Finished => q.held >= 1 && q.started == q.held && q.isLast && q.out == Yielded(plan, q.held)
  }

  /** The bytes that have arrived are those read at the source, where they have been read. */
  predicate ArrivedInv(q: Listener, casts: seq<Cast>) {
    q.held < q.started ==>
      if q.started <= |casts| then
        Arrived(q.bufs.At(!q.side), casts[q.started - 1].image, q.missing)
        && casts[q.started - 1].unread <= q.missing
      else Range(0, |q.bufs.At(!q.side)|) <= q.missing
  }

  predicate WorldInv(cfg: Config, w: World) {
    && cfg.Valid()
    && SenderInv(cfg, w.sender)
    && CastsInv(cfg.Plan(), cfg.cap, w.sender.port, w.casts)
    && forall r :: 0 <= r < |w.listeners| ==>
         ListenerInv(cfg.Plan(), cfg.cap, w.listeners[r]) && w.listeners[r].held <= |w.casts|
         && ArrivedInv(w.listeners[r], w.casts)
  }

  // ----- the source -----

  lemma ImageSize(plan: seq<seq<Weight>>, cap: nat, p: Port, casts: seq<Cast>, i: nat)
    requires CastsInv(plan, cap, p, casts) && i < |casts|
    ensures |casts[i].image| == cap && casts[i].unread <= Range(0, cap)
  {
    assert CastInv(plan, cap, p, casts, i);
  }

  lemma SourceFills(cfg: Config, s: Sender, casts: seq<Cast>)
    requires cfg.Valid() && SenderInv(cfg, s) && FillInv(cfg, s) && CastsInv(cfg.Plan(), cfg.cap, s.port, casts)
    requires s.idx < |cfg.weights| && s.offset + |cfg.weights[s.idx].data| <= cfg.cap
    ensures SenderInv(cfg, FillOne(s, cfg.weights[s.idx]))
    ensures CastsInv(cfg.Plan(), cfg.cap, FillOne(s, cfg.weights[s.idx]).port, casts)
  {
    hide Buckets, DictMeta, Holds, PackFrom;
    FillPreserves(cfg, s);
    var s' := FillOne(s, cfg.weights[s.idx]);
    forall i | 0 <= i < |casts|
      ensures CastInv(cfg.Plan(), cfg.cap, s'.port, casts, i)
    {
      assert CastInv(cfg.Plan(), cfg.cap, s.port, casts, i);
    }
  }

  /** The broadcast awaited is complete when its bytes have been read in full. */
  lemma SourceAwaits(plan: seq<seq<Weight>>, cap: nat, p: Port, casts: seq<Cast>)
    requires CastsInv(plan, cap, p, casts) && casts != [] && casts[|casts| - 1].unread == {}
    ensures CastsInv(plan, cap, p.(op := None), casts)
  {
    forall i | 0 <= i < |casts|
      ensures CastInv(plan, cap, p.(op := None), casts, i)
    {
      assert CastInv(plan, cap, p, casts, i);
    }
  }

  lemma SourceAnnounces(plan: seq<seq<Weight>>, cap: nat, p: Port, side: bool, casts: seq<Cast>)
    requires CastsInv(plan, cap, p, casts) && p.op.None? && p.sent < |plan|
    requires p.bufs.Sized(cap) && Holds(p.bufs.At(p.side), plan[p.sent])
    ensures CastsInv(plan, cap, p.Publish().(side := side),
                     casts + [NewCast(cap, Announcement(plan, p.sent, p.side))])
  {
    var p' := p.Publish().(side := side);
    var casts' := casts + [NewCast(cap, Announcement(plan, p.sent, p.side))];
    forall i | 0 <= i < |casts'|
      ensures CastInv(plan, cap, p', casts', i)
    {
      if i < |casts| {
        assert CastInv(plan, cap, p, casts, i);
      } else {
        assert cap == 0 ==> p.bufs.At(p.side) == [];
      }
    }
  }

  lemma SourceKeeps(cfg: Config, synchronous: bool, w: World)
    requires WorldInv(cfg, w) && SenderMove(cfg, synchronous, w).Some?
    ensures var w' := SenderMove(cfg, synchronous, w).value;
            SenderInv(cfg, w'.sender) && CastsInv(cfg.Plan(), cfg.cap, w'.sender.port, w'.casts)
            && w.casts <= w'.casts && w'.listeners == w.listeners && !w'.sender.pc.SenderFailed?
  {
    hide Buckets, CastsInv, PackFrom, DictMeta, Holds, ListenerInv, ArrivedInv;
    var s := w.sender;
    if s.pc.MustFill? {
      FlushedWeightFits(cfg, s);
    }
    if (s.pc.Scan? || s.pc.MustFill?) && s.idx < |cfg.weights| && s.offset + |cfg.weights[s.idx].data| <= cfg.cap {
      SourceFills(cfg, s, w.casts);
    } else if s.port.op.Some? {
      SourceAwaits(cfg.Plan(), cfg.cap, s.port, w.casts);
    } else {
      SenderPublishes(cfg, s);
      PublishedHolds(cfg, s);
      SourceAnnounces(cfg.Plan(), cfg.cap, s.port, SenderStep(cfg, s, []).next.port.side, w.casts);
    }
  }

  /** At the moment of publication the send buffer holds the bucket being published. */
  lemma PublishedHolds(cfg: Config, s: Sender)
    requires cfg.Valid() && SenderInv(cfg, s) && s.pc.Scan? && s.port.op.None?
    requires s.idx < |cfg.weights| ==> s.offset + |cfg.weights[s.idx].data| > cfg.cap
    ensures s.port.sent < |cfg.Plan()| && s.port.bufs.Sized(cfg.cap)
    ensures Holds(s.port.bufs.At(s.port.side), cfg.Plan()[s.port.sent])
  {
    SenderPublishes(cfg, s);
    assert SenderStep(cfg, s, []).next.port.op == Some(Pending(s.port.sent, s.port.side));
  }

  /** More of the same broadcast has been read. */
  predicate Continues(c': Cast, c: Cast) {
    |c'.image| == |c.image| && Arrived(c.image, c'.image, c.unread) && c'.unread <= c.unread
  }

  lemma ContinuesItself(c: Cast)
    ensures Continues(c, c)
  {
  }

  lemma ReadContinues(c: Cast, src: seq<Byte>, lo: nat, hi: nat)
    requires lo <= hi <= |c.image| && hi <= |src| && Arrived(c.image, src, c.unread)
    ensures Continues(ReadBytes(c, src, lo, hi), c)
  {
    hide Land;
  }

  /** The last broadcast after one more piece has been read. */
  lemma ReadLast(plan: seq<seq<Weight>>, cap: nat, p: Port, casts: seq<Cast>, lo: nat, hi: nat)
    requires PortInv(plan, cap, p) && casts != [] && |casts| == p.sent && CastInv(plan, cap, p, casts, |casts| - 1)
    requires casts[|casts| - 1].unread != {} && lo <= hi <= cap
    ensures var n := |casts| - 1;
            var c' := ReadBytes(casts[n], p.bufs.At(casts[n].side), lo, hi);
            CastInv(plan, cap, p, casts[n := c'], n) && Continues(c', casts[n])
  {
    hide Land, Holds, Arrived, DictMeta, Range, Continues;
    var c := casts[|casts| - 1];
    var src := p.bufs.At(c.side);
    var c' := ReadBytes(c, src, lo, hi);
    LandArrives(c.image, src, c.unread, lo, hi);
    ReadContinues(c, src, lo, hi);
    if c'.unread == {} {
      ReadInFull(plan, cap, p, c', src);
    }
  }

  lemma ReadInFull(plan: seq<seq<Weight>>, cap: nat, p: Port, c: Cast, src: seq<Byte>)
    requires PortInv(plan, cap, p) && p.op.Some? && src == p.bufs.At(p.op.value.side)
    requires |c.image| == cap && c.unread == {} && Arrived(c.image, src, c.unread)
    ensures 1 <= p.sent <= |plan| && Holds(c.image, plan[p.sent - 1])
  {
    hide Holds;
    ArrivedAll(c.image, src);
  }

  lemma SameCast(plan: seq<seq<Weight>>, cap: nat, p: Port, casts: seq<Cast>, casts': seq<Cast>, i: nat)
    requires |casts'| == |casts| && i < |casts| && casts'[i] == casts[i] && CastInv(plan, cap, p, casts, i)
    ensures CastInv(plan, cap, p, casts', i)
  {
  }

  lemma ReadKeeps(plan: seq<seq<Weight>>, cap: nat, p: Port, casts: seq<Cast>, lo: nat, hi: nat)
    requires PortInv(plan, cap, p) && p.bufs.Sized(cap) && CastsInv(plan, cap, p, casts) && casts != []
    requires casts[|casts| - 1].unread != {} && lo <= hi <= cap
    ensures var c := casts[|casts| - 1];
            && |c.image| == cap
            && CastsInv(plan, cap, p, casts[|casts| - 1 := ReadBytes(c, p.bufs.At(c.side), lo, hi)])
            && Continues(ReadBytes(c, p.bufs.At(c.side), lo, hi), c)
  {
    hide CastInv, ReadBytes, PortInv, Range, Continues;
    var n := |casts| - 1;
    ImageSize(plan, cap, p, casts, n);
    ReadLast(plan, cap, p, casts, lo, hi);
    var casts' := casts[n := ReadBytes(casts[n], p.bufs.At(casts[n].side), lo, hi)];
    forall i | 0 <= i < |casts'|
      ensures CastInv(plan, cap, p, casts', i)
    {
      if i < n {
        SameCast(plan, cap, p, casts, casts', i);
      }
    }
  }

  // ----- a listener -----

  lemma AdoptHolds(plan: seq<seq<Weight>>, cap: nat, p: Port, casts: seq<Cast>, q: Listener)
    requires CastsInv(plan, cap, p, casts) && ArrivedInv(q, casts) && q.bufs.Sized(cap)
    requires q.held < q.started <= |casts| && q.missing == {}
    ensures q.started <= |plan| && Holds(q.bufs.At(!q.side), plan[q.started - 1])
    ensures casts[q.started - 1].metas == DictMeta(plan[q.started - 1])
    ensures casts[q.started - 1].isLast <==> q.started == |plan|
  {
    var c := casts[q.started - 1];
    assert CastInv(plan, cap, p, casts, q.started - 1);
    assert c.unread == {};
    ArrivedAll(q.bufs.At(!q.side), c.image);
  }

  lemma ListenerYields(plan: seq<seq<Weight>>, cap: nat, q: Listener)
    requires (forall b :: b in plan ==> WellFormed(b)) && ListenerInv(plan, cap, q) && q.pc.Yield?
    ensures ListenerInv(plan, cap, ListenerStep([], q).value)
  {
    hide Yielded, Delivered, DictMeta, Holds, DecodeOne;
    var b := plan[q.held - 1];
    assert b in plan;
    if q.yielded < |q.metas| {
      YieldsNextItem(b, q.bufs.At(q.side), Yielded(plan, q.held - 1), q.yielded);
    } else {
      YieldsWholeBucket(plan, q.held - 1);
    }
  }

  /** Nothing of a broadcast just joined has arrived. */
  lemma JoinArrives(plan: seq<seq<Weight>>, cap: nat, p: Port, casts: seq<Cast>, q: Listener, pc: Pc)
    requires CastsInv(plan, cap, p, casts) && q.bufs.Sized(cap)
    ensures ArrivedInv(Join(q, pc), casts)
  {
    hide CastsInv;
    if q.started < |casts| {
      ImageSize(plan, cap, p, casts, q.started);
    }
  }

  lemma AdoptKeeps(plan: seq<seq<Weight>>, cap: nat, p: Port, casts: seq<Cast>, q: Listener)
    requires CastsInv(plan, cap, p, casts) && ListenerInv(plan, cap, q) && ArrivedInv(q, casts)
    requires (q.pc.WaitFirst? || q.pc.WaitNext?) && q.started <= |casts| && q.missing == {}
    ensures ListenerInv(plan, cap, AdoptCast(q, casts[q.started - 1]))
  {
    hide DictMeta, Holds, CastsInv, ArrivedInv, Delivered, Yielded, Range;
    AdoptHolds(plan, cap, p, casts, q);
    NothingYielded(plan);
  }

  lemma LoopTopKeeps(plan: seq<seq<Weight>>, cap: nat, q: Listener)
    requires ListenerInv(plan, cap, q) && q.pc.LoopTop?
    ensures ListenerInv(plan, cap, ListenerStep([], q).value)
  {
    hide DictMeta, Holds, Delivered, Yielded, Range;
    assert Yielded(plan, q.held - 1) + Delivered(plan[q.held - 1])[..0] == Yielded(plan, q.held - 1);
  }

  lemma ListenerKeeps(plan: seq<seq<Weight>>, cap: nat, p: Port, casts: seq<Cast>, q: Listener)
    requires (forall b :: b in plan ==> WellFormed(b)) && plan != []
    requires CastsInv(plan, cap, p, casts) && ListenerInv(plan, cap, q) && ArrivedInv(q, casts) && q.held <= |casts|
    requires ListenerStep(casts, q).Some?
    ensures var q' := ListenerStep(casts, q).value;
            ListenerInv(plan, cap, q') && ArrivedInv(q', casts) && q'.held <= |casts|
  {
    hide DictMeta, Holds, DecodeOne, CastsInv, Delivered, Yielded, Range, Arrived;
    match q.pc
    case NotStarted => JoinArrives(plan, cap, p, casts, q, WaitFirst);
    case WaitFirst => AdoptKeeps(plan, cap, p, casts, q);
    case LoopTop =>
      LoopTopKeeps(plan, cap, q);
      JoinArrives(plan, cap, p, casts, q, Yield);
    case Yield => ListenerYields(plan, cap, q);
    case WaitNext => AdoptKeeps(plan, cap, p, casts, q);
    case Finished =>
  }

  lemma DeliverFacts(cap: nat, q: Listener, c: Cast, lo: nat, hi: nat)
    requires q.bufs.Sized(cap) && |c.image| == cap && lo <= hi <= cap && c.unread !! Range(lo, hi)
    requires Arrived(q.bufs.At(!q.side), c.image, q.missing) && c.unread <= q.missing
    ensures var q' := DeliverBytes(q, c.image, lo, hi);
            && q'.bufs.Sized(cap) && q'.bufs.At(q.side) == q.bufs.At(q.side)
            && Arrived(q'.bufs.At(!q.side), c.image, q'.missing) && c.unread <= q'.missing
            && q' == q.(bufs := q'.bufs, missing := q'.missing) && q'.missing <= q.missing
  {
    hide Land, Arrived;
    LandArrives(q.bufs.At(!q.side), c.image, q.missing, lo, hi);
  }

  lemma DeliverKeeps(plan: seq<seq<Weight>>, cap: nat, p: Port, casts: seq<Cast>, q: Listener, lo: nat, hi: nat)
    requires CastsInv(plan, cap, p, casts) && ListenerInv(plan, cap, q) && ArrivedInv(q, casts) && q.held <= |casts|
    requires q.held < q.started <= |casts| && casts[q.started - 1].unread !! Range(lo, hi)
    requires lo <= hi <= |casts[q.started - 1].image|
    ensures hi <= cap
    ensures var q' := DeliverBytes(q, casts[q.started - 1].image, lo, hi);
            ListenerInv(plan, cap, q') && ArrivedInv(q', casts)
  {
    hide ListenerInv, CastsInv, DeliverBytes, Range, Arrived;
    ImageSize(plan, cap, p, casts, q.started - 1);
    ListenerSized(plan, cap, q);
    DeliverFacts(cap, q, casts[q.started - 1], lo, hi);
    ListenerSwap(plan, cap, q, DeliverBytes(q, casts[q.started - 1].image, lo, hi));
  }

  lemma ListenerSwap(plan: seq<seq<Weight>>, cap: nat, q: Listener, q': Listener)
    requires ListenerInv(plan, cap, q)
    requires q' == q.(bufs := q'.bufs, missing := q'.missing) && q'.missing <= q.missing
    requires q'.bufs.Sized(cap) && q'.bufs.At(q.side) == q.bufs.At(q.side)
    ensures ListenerInv(plan, cap, q')
  {
    hide Holds, DictMeta, Yielded, Delivered;
  }

  // ----- the world -----

  lemma ArrivedGrows(plan: seq<seq<Weight>>, cap: nat, p: Port, q: Listener, casts: seq<Cast>, casts': seq<Cast>)
    requires ArrivedInv(q, casts) && |casts| <= |casts'| && q.bufs.Sized(cap) && CastsInv(plan, cap, p, casts')
    requires forall i :: 0 <= i < |casts| ==> Continues(casts'[i], casts[i])
    ensures ArrivedInv(q, casts')
  {
    hide CastsInv;
    if q.held < q.started <= |casts'| {
      ImageSize(plan, cap, p, casts', q.started - 1);
    }
  }

  lemma ListenerSized(plan: seq<seq<Weight>>, cap: nat, q: Listener)
    requires ListenerInv(plan, cap, q)
    ensures q.bufs.Sized(cap)
  {
  }

  /** Whatever the source does, the listeners see their broadcasts continued. */
  lemma SourceMoved(cfg: Config, w: World, w': World)
    requires WorldInv(cfg, w) && w'.listeners == w.listeners && |w.casts| <= |w'.casts|
    requires SenderInv(cfg, w'.sender) && CastsInv(cfg.Plan(), cfg.cap, w'.sender.port, w'.casts)
    requires forall i :: 0 <= i < |w.casts| ==> Continues(w'.casts[i], w.casts[i])
    ensures WorldInv(cfg, w')
  {
    hide Buckets, CastsInv, SenderInv, ListenerInv, ArrivedInv, Continues;
    forall r | 0 <= r < |w.listeners|
      ensures ArrivedInv(w.listeners[r], w'.casts)
    {
      ListenerSized(cfg.Plan(), cfg.cap, w.listeners[r]);
      ArrivedGrows(cfg.Plan(), cfg.cap, w'.sender.port, w.listeners[r], w.casts, w'.casts);
    }
  }

  lemma ReadWorld(cfg: Config, w: World, lo: nat, hi: nat)
    requires WorldInv(cfg, w) && ReadMove(cfg, w, lo, hi).Some?
    ensures WorldInv(cfg, ReadMove(cfg, w, lo, hi).value)
  {
    hide Buckets, CastsInv, SenderInv, ListenerInv, ArrivedInv, ReadBytes, Range, Land;
    var n := |w.casts| - 1;
    SenderPort(cfg, w.sender);
    ImageSize(cfg.Plan(), cfg.cap, w.sender.port, w.casts, n);
    ReadKeeps(cfg.Plan(), cfg.cap, w.sender.port, w.casts, lo, hi);
    var w' := ReadMove(cfg, w, lo, hi).value;
    forall i | 0 <= i < |w.casts|
      ensures Continues(w'.casts[i], w.casts[i])
    {
      ContinuesItself(w.casts[i]);
    }
    SourceMoved(cfg, w, w');
  }

  lemma SentWorld(cfg: Config, synchronous: bool, w: World)
    requires WorldInv(cfg, w) && SenderMove(cfg, synchronous, w).Some?
    ensures WorldInv(cfg, SenderMove(cfg, synchronous, w).value)
  {
    hide Buckets, CastsInv, SenderInv, ListenerInv, ArrivedInv, SenderMove, Range;
    SourceKeeps(cfg, synchronous, w);
    var w' := SenderMove(cfg, synchronous, w).value;
    forall i | 0 <= i < |w.casts|
      ensures Continues(w'.casts[i], w.casts[i])
    {
      ContinuesItself(w.casts[i]);
    }
    SourceMoved(cfg, w, w');
  }

  lemma WorldKeeps(cfg: Config, synchronous: bool, w: World, m: Move)
    requires WorldInv(cfg, w) && NextWorld(cfg, synchronous, w, m).Some?
    ensures WorldInv(cfg, NextWorld(cfg, synchronous, w, m).value)
  {
    hide Buckets, CastsInv, SenderInv, ListenerInv, ArrivedInv, ListenerStep, SenderMove, ReadMove, DeliverBytes, Range;
    match m
    case SendMove => SentWorld(cfg, synchronous, w);
    case ReadSource(lo, hi) => ReadWorld(cfg, w, lo, hi);
    case Hear(r) =>
      BucketsWellFormed(cfg.weights, cfg.cap);
      ListenerKeeps(cfg.Plan(), cfg.cap, w.sender.port, w.casts, w.listeners[r]);
    case Deliver(r, lo, hi) =>
      DeliverKeeps(cfg.Plan(), cfg.cap, w.sender.port, w.casts, w.listeners[r], lo, hi);
      DeliverCounts(w.listeners[r], w.casts[w.listeners[r].started - 1].image, lo, hi);
  }

  lemma DeliverCounts(q: Listener, image: seq<Byte>, lo: nat, hi: nat)
    requires lo <= hi <= |image| && hi <= |q.bufs.At(!q.side)|
    ensures DeliverBytes(q, image, lo, hi).held == q.held
  {
  }

  lemma SenderPort(cfg: Config, s: Sender)
    requires cfg.Valid() && SenderInv(cfg, s)
    ensures PortInv(cfg.Plan(), cfg.cap, s.port)
  {
  }

  lemma InitWorldInv(cfg: Config, w: World)
    requires cfg.Valid() && InitWorld(cfg, w)
    ensures WorldInv(cfg, w)
  {
    InitSender(cfg, w.sender);
  }

  lemma SourceBufferKept(cfg: Config, s: Sender, acks: seq<nat>)
    requires cfg.Valid() && SenderInv(cfg, s) && SenderStep(cfg, s, acks).Act? && s.port.op.Some?
    ensures var side := s.port.op.value.side;
            SenderStep(cfg, s, acks).next.port.bufs.At(side) == s.port.bufs.At(side)
  {
    hide Buckets, PackFrom, DictMeta, Holds;
    SourceFillSide(cfg, s);
  }

  lemma ListenerBufferKept(cap: nat, casts: seq<Cast>, q: Listener)
    ensures ListenerStep(casts, q).Some? ==> ListenerStep(casts, q).value.bufs == q.bufs
  {
  }

  /** The source never fills the buffer of a broadcast in flight, and no listener's incoming
      broadcast writes the buffer it yields from. */
  lemma CollectiveBufferSafety(cfg: Config, synchronous: bool, w: World, m: Move)
    requires WorldInv(cfg, w) && NextWorld(cfg, synchronous, w, m).Some?
    ensures var w' := NextWorld(cfg, synchronous, w, m).value;
            && (w.sender.port.op.Some? ==>
                  w'.sender.port.bufs.At(w.sender.port.op.value.side) ==
                    w.sender.port.bufs.At(w.sender.port.op.value.side))
            && |w'.listeners| == |w.listeners|
            && forall r :: 0 <= r < |w.listeners| && w.listeners[r].pc.Yield? ==>
                 w'.listeners[r].bufs.At(w.listeners[r].side) == w.listeners[r].bufs.At(w.listeners[r].side)
  {
    hide Buckets, CastsInv, SenderInv, ListenerInv, ArrivedInv, SenderStep, ListenerStep;
    match m
    case SendMove =>
      if w.sender.port.op.Some? {
        var key := w.sender.port.op.value.key;
        SourceBufferKept(cfg, w.sender, if CastComplete(synchronous, w) then [key] else []);
      }
    case ReadSource(lo, hi) =>
    case Hear(r) => ListenerBufferKept(cfg.cap, w.casts, w.listeners[r]);
    case Deliver(r, lo, hi) =>
  }

  lemma SourceFillSide(cfg: Config, s: Sender)
    requires cfg.Valid() && SenderInv(cfg, s)
    ensures s.port.op.Some? ==> s.pc.Draining? || s.port.op.value.side != s.port.side
  {
  }

  /** A wait that covers the listeners returns only once each of them holds the bucket just broadcast in full,
      in the buffer it receives into or, swapped in, in the one it yields from. */
  lemma SynchronousWait(cfg: Config, w: World)
    requires WorldInv(cfg, w) && CastComplete(true, w)
    ensures |w.casts| <= |cfg.Plan()|
    ensures forall q :: q in w.listeners ==>
              var b := cfg.Plan()[|w.casts| - 1];
              || (q.held == |w.casts| && Holds(q.bufs.At(q.side), b))
              || (q.held == |w.casts| - 1 && Holds(q.bufs.At(!q.side), b))
  {
    hide Buckets, CastsInv, SenderInv, Yielded, Delivered, DictMeta, Holds, Arrived;
    CastsWithinPlan(cfg.Plan(), cfg.cap, w.sender.port, w.casts);
    forall q | q in w.listeners
      ensures var b := cfg.Plan()[|w.casts| - 1];
              || (q.held == |w.casts| && Holds(q.bufs.At(q.side), b))
              || (q.held == |w.casts| - 1 && Holds(q.bufs.At(!q.side), b))
    {
      var r :| 0 <= r < |w.listeners| && w.listeners[r] == q;
      assert HasHeard(q, |w.casts| - 1);
      if q.held < |w.casts| {
        AdoptHolds(cfg.Plan(), cfg.cap, w.sender.port, w.casts, q);
      }
    }
  }

  // ----- progress and termination -----

  ghost predicate CanMove(cfg: Config, synchronous: bool, w: World) {
    exists m :: NextWorld(cfg, synchronous, w, m).Some?
  }

  predicate WorldDone(w: World) {
    w.sender.pc.SenderDone? && forall q :: q in w.listeners ==> q.pc.Finished?
  }

  lemma WaiterReceives(cfg: Config, synchronous: bool, w: World, r: nat)
    requires WorldInv(cfg, w) && r < |w.listeners|
    requires var q := w.listeners[r];
             q.held < q.started <= |w.casts| && w.casts[q.started - 1].unread == {} && q.missing != {}
    ensures CanMove(cfg, synchronous, w)
  {
    hide Buckets, CastsInv, SenderInv, HeardInv, Yielded, Delivered, Arrived, SenderMove, DeliverBytes;
    var q := w.listeners[r];
    ImageSize(cfg.Plan(), cfg.cap, w.sender.port, w.casts, q.started - 1);
    ListenerSized(cfg.Plan(), cfg.cap, q);
    assert q.missing * Range(0, cfg.cap) == q.missing;
    assert NextWorld(cfg, synchronous, w, Deliver(r, 0, cfg.cap)).Some?;
  }

  lemma ListenerMoves(cfg: Config, synchronous: bool, w: World, r: nat)
    requires WorldInv(cfg, w) && r < |w.listeners|
    requires var q := w.listeners[r];
             q.pc.NotStarted? || q.pc.LoopTop? || q.pc.Yield?
             || ((q.pc.WaitFirst? || q.pc.WaitNext?) && q.started <= |w.casts|
               && w.casts[q.started - 1].unread == {})
    ensures CanMove(cfg, synchronous, w)
  {
    hide Buckets, CastsInv, SenderInv, HeardInv, Yielded, Delivered, Arrived, ArrivedInv, DecodeOne, SenderMove, Range;
    var q := w.listeners[r];
    if (q.pc.WaitFirst? || q.pc.WaitNext?) && q.missing != {} {
      WaiterReceives(cfg, synchronous, w, r);
    } else {
      assert NextWorld(cfg, synchronous, w, Hear(r)).Some?;
    }
  }

  /** All broadcasts but the one in flight have been read in full. */
  lemma EarlierCastsFull(plan: seq<seq<Weight>>, cap: nat, p: Port, casts: seq<Cast>, i: nat)
    requires CastsInv(plan, cap, p, casts) && i < |casts|
    ensures i + 1 < |casts| || p.op.None? ==> casts[i].unread == {}
  {
    assert CastInv(plan, cap, p, casts, i);
  }

  lemma SourceMoves(cfg: Config, synchronous: bool, w: World)
    requires WorldInv(cfg, w) && !w.sender.pc.SenderDone?
    ensures CanMove(cfg, synchronous, w)
  {
    hide Buckets, CastsInv, PackFrom, DictMeta, Holds, ListenerInv, ListenerStep;
    var s := w.sender;
    if s.port.op.None? || CastComplete(synchronous, w) {
      assert NextWorld(cfg, synchronous, w, SendMove).Some?;
    } else {
      CastInFlight(cfg, w);
      var n := |w.casts| - 1;
      EarlierCastsFull(cfg.Plan(), cfg.cap, s.port, w.casts, n);
      if w.casts[n].unread != {} {
        ImageSize(cfg.Plan(), cfg.cap, s.port, w.casts, n);
        assert w.casts[n].unread * Range(0, cfg.cap) == w.casts[n].unread;
        assert NextWorld(cfg, synchronous, w, ReadSource(0, cfg.cap)).Some?;
      } else {
        var q :| q in w.listeners && !HasHeard(q, n);
        var r :| 0 <= r < |w.listeners| && w.listeners[r] == q;
        LaggardMoves(cfg, synchronous, w, r);
      }
    }
  }

  lemma CastInFlight(cfg: Config, w: World)
    requires WorldInv(cfg, w) && w.sender.port.op.Some?
    ensures w.casts != [] && w.sender.port.bufs.Sized(cfg.cap)
  {
  }

  /** A listener the source waits for has not joined, or has bytes to receive. */
  lemma LaggardMoves(cfg: Config, synchronous: bool, w: World, r: nat)
    requires WorldInv(cfg, w) && r < |w.listeners| && w.casts != []
    requires w.casts[|w.casts| - 1].unread == {} && !HasHeard(w.listeners[r], |w.casts| - 1)
    ensures CanMove(cfg, synchronous, w)
  {
    hide Buckets, CastsInv, SenderInv, DictMeta, Holds, Yielded;
    var q := w.listeners[r];
    assert |w.casts| <= |cfg.Plan()| by {
      CastsWithinPlan(cfg.Plan(), cfg.cap, w.sender.port, w.casts);
    }
    if q.started > 0 {
      EarlierCastsFull(cfg.Plan(), cfg.cap, w.sender.port, w.casts, q.started - 1);
    }
    ListenerMoves(cfg, synchronous, w, r);
  }

  lemma CastsWithinPlan(plan: seq<seq<Weight>>, cap: nat, p: Port, casts: seq<Cast>)
    requires CastsInv(plan, cap, p, casts)
    ensures |casts| <= |plan|
  {
    if casts != [] {
      assert CastInv(plan, cap, p, casts, |casts| - 1);
    }
  }

  /** Whether or not the source waits for its listeners, somebody can always move. */
  lemma CollectiveProgress(cfg: Config, synchronous: bool, w: World)
    requires WorldInv(cfg, w) && !WorldDone(w)
    ensures CanMove(cfg, synchronous, w)
  {
    if !w.sender.pc.SenderDone? {
      SourceMoves(cfg, synchronous, w);
    } else {
      var q :| q in w.listeners && !q.pc.Finished?;
      var r :| 0 <= r < |w.listeners| && w.listeners[r] == q;
      LastListenersMove(cfg, synchronous, w, r);
    }
  }

  lemma LastListenersMove(cfg: Config, synchronous: bool, w: World, r: nat)
    requires WorldInv(cfg, w) && w.sender.pc.SenderDone? && r < |w.listeners| && !w.listeners[r].pc.Finished?
    ensures CanMove(cfg, synchronous, w)
  {
    hide Buckets, DictMeta, Holds, Yielded, Delivered, PackFrom;
    var q := w.listeners[r];
    if q.started > 0 {
      EarlierCastsFull(cfg.Plan(), cfg.cap, w.sender.port, w.casts, q.started - 1);
    }
    ListenerMoves(cfg, synchronous, w, r);
  }

  lemma ListenerOut(plan: seq<seq<Weight>>, cap: nat, q: Listener)
    requires ListenerInv(plan, cap, q)
    ensures q.held <= |plan| && q.out <= Flatten(DeliverAll(plan))
    ensures q.pc.Finished? ==> q.out == Flatten(DeliverAll(plan))
  {
    hide Holds, DictMeta;
    YieldedAll(plan);
    if q.pc.Yield? {
      PartIsPrefix(plan, q.held - 1, q.yielded);
    } else if q.held >= 1 {
      YieldedGrows(plan, q.held - 1, q.held);
    }
    BetweenIsPrefix(plan, q.held, q.out);
  }

  function Stage(q: Listener): nat {
    match q.pc
    case NotStarted => 2
    case WaitFirst => 1
    case LoopTop => 4
    case Yield => 3
    case WaitNext => 2
    case Finished => 0
  }

  function ListenerWork(plan: seq<seq<Weight>>, cap: nat, q: Listener): int {
    5 * (|plan| - q.held) + Stage(q) + (|Flatten(DeliverAll(plan))| - |q.out|)
    + ReadWork(cap, |plan| - q.started) + (if q.started > q.held then |q.missing| else 0)
  }

  function ListenerWorks(plan: seq<seq<Weight>>, cap: nat, qs: seq<Listener>): (works: seq<int>)
    ensures |works| == |qs|
  {
    seq(|qs|, r requires 0 <= r < |qs| => ListenerWork(plan, cap, qs[r]))
  }

  function SourceWork(cfg: Config, w: World): int
    requires cfg.Valid()
  {
    SenderWork(cfg, w.sender) + ReadWork(cfg.cap, |cfg.Plan()| - |w.casts|)
    + (if w.casts == [] then 0 else |w.casts[|w.casts| - 1].unread|)
  }

  function WorldWork(cfg: Config, w: World): int
    requires cfg.Valid()
  {
    SourceWork(cfg, w) + Sum(ListenerWorks(cfg.Plan(), cfg.cap, w.listeners))
  }

  lemma JoinMissing(cap: nat, q: Listener)
    requires q.bufs.Sized(cap)
    ensures |Range(0, |q.bufs.At(!q.side)|)| == cap
  {
  }

  lemma ReadWorkStep(cap: nat, n: int)
    ensures n > 0 ==> ReadWork(cap, n) == cap + 2 + ReadWork(cap, n - 1)
  {
  }

  lemma ListenerWorkDrops(plan: seq<seq<Weight>>, cap: nat, casts: seq<Cast>, q: Listener)
    requires ListenerStep(casts, q).Some? && q.held <= q.started <= q.held + 1 && q.bufs.Sized(cap)
    requires q.pc.NotStarted? || (q.pc.LoopTop? && !q.isLast) ==> q.started == q.held && q.started < |plan|
    requires q.pc.WaitFirst? || q.pc.WaitNext? ==> q.started == q.held + 1
    ensures ListenerWork(plan, cap, ListenerStep(casts, q).value) < ListenerWork(plan, cap, q)
  {
    hide Flatten, DeliverAll, DecodeOne, ReadWork, Range;
    JoinMissing(cap, q);
    ReadWorkStep(cap, |plan| - q.started);
  }

  lemma OneListenerWork(plan: seq<seq<Weight>>, cap: nat, qs: seq<Listener>, r: nat, q': Listener)
    requires r < |qs|
    ensures Sum(ListenerWorks(plan, cap, qs[r := q'])) ==
            Sum(ListenerWorks(plan, cap, qs)) - ListenerWork(plan, cap, qs[r]) + ListenerWork(plan, cap, q')
  {
    assert ListenerWorks(plan, cap, qs[r := q']) == ListenerWorks(plan, cap, qs)[r := ListenerWork(plan, cap, q')];
    SumUpdate(ListenerWorks(plan, cap, qs), r, ListenerWork(plan, cap, q'));
  }

  lemma SourceStepWork(cfg: Config, s: Sender, acks: seq<nat>)
    requires cfg.Valid() && SenderStep(cfg, s, acks).Act? && !SenderStep(cfg, s, acks).next.pc.SenderFailed?
    requires s.pc.Draining? ==> s.port.op.Some?
    ensures SenderWork(cfg, SenderStep(cfg, s, acks).next) < SenderWork(cfg, s)
    ensures SenderStep(cfg, s, acks).posts != [] ==> s.port.op.None?
    ensures SenderStep(cfg, s, acks).next.port.sent == s.port.sent + |SenderStep(cfg, s, acks).posts|
  {
    hide Buckets;
  }

  lemma NewCastUnread(cap: nat)
    ensures forall m :: |NewCast(cap, m).unread| == cap
  {
  }

  lemma SourceWorkDrops(cfg: Config, synchronous: bool, w: World)
    requires WorldInv(cfg, w) && SenderMove(cfg, synchronous, w).Some?
    ensures SourceWork(cfg, SenderMove(cfg, synchronous, w).value) < SourceWork(cfg, w)
  {
    hide Buckets, CastsInv, PackFrom, DictMeta, Holds, ListenerInv, ArrivedInv, SenderStep, SenderWork, FillInv,
         PortInv, CastComplete, NewCast;
    NewCastUnread(cfg.cap);
    SourceKeeps(cfg, synchronous, w);
    var key := if w.sender.port.op.Some? then w.sender.port.op.value.key else 0;
    var acks := if CastComplete(synchronous, w) then [key] else [];
    SourceStepWork(cfg, w.sender, acks);
    var w' := SenderMove(cfg, synchronous, w).value;
    CastsWithinPlan(cfg.Plan(), cfg.cap, w'.sender.port, w'.casts);
    if w.casts != [] {
      EarlierCastsFull(cfg.Plan(), cfg.cap, w.sender.port, w.casts, |w.casts| - 1);
    }
  }

  lemma HearWorkDrops(cfg: Config, w: World, r: nat)
    requires WorldInv(cfg, w) && r < |w.listeners| && HearMove(cfg, w, r).Some?
    ensures WorldWork(cfg, HearMove(cfg, w, r).value) < WorldWork(cfg, w)
  {
    hide Buckets, CastsInv, SenderInv, SourceWork, ListenerStep, ListenerInv, ArrivedInv, ListenerWork, ListenerWorks;
    var q := w.listeners[r];
    LoopTopRoom(cfg.Plan(), cfg.cap, q);
    ListenerWorkDrops(cfg.Plan(), cfg.cap, w.casts, q);
    OneListenerWork(cfg.Plan(), cfg.cap, w.listeners, r, ListenerStep(w.casts, q).value);
    SameSource(cfg, w, HearMove(cfg, w, r).value);
  }

  lemma DeliverWorkDrops(cfg: Config, w: World, r: nat, lo: nat, hi: nat)
    requires cfg.Valid() && r < |w.listeners| && DeliverMove(cfg, w, r, lo, hi).Some?
    ensures WorldWork(cfg, DeliverMove(cfg, w, r, lo, hi).value) < WorldWork(cfg, w)
  {
    hide Buckets, SourceWork, ListenerWork, ListenerWorks;
    var q := w.listeners[r];
    var q' := DeliverBytes(q, w.casts[q.started - 1].image, lo, hi);
    FewerMissing(q.missing, lo, hi);
    DeliverWork(cfg.Plan(), cfg.cap, q, q');
    OneListenerWork(cfg.Plan(), cfg.cap, w.listeners, r, q');
    SameSource(cfg, w, DeliverMove(cfg, w, r, lo, hi).value);
  }

  lemma SameSource(cfg: Config, w: World, w': World)
    requires cfg.Valid() && w'.sender == w.sender && w'.casts == w.casts
    ensures SourceWork(cfg, w') == SourceWork(cfg, w)
  {
  }

  lemma ReadWorkDrops(cfg: Config, w: World, lo: nat, hi: nat)
    requires cfg.Valid() && ReadMove(cfg, w, lo, hi).Some?
    ensures WorldWork(cfg, ReadMove(cfg, w, lo, hi).value) < WorldWork(cfg, w)
  {
    hide Buckets, SenderWork, ReadWork, ListenerWorks, Land;
    FewerMissing(w.casts[|w.casts| - 1].unread, lo, hi);
  }

  lemma WorldWorkDrops(cfg: Config, synchronous: bool, w: World, m: Move)
    requires WorldInv(cfg, w) && NextWorld(cfg, synchronous, w, m).Some?
    ensures WorldWork(cfg, NextWorld(cfg, synchronous, w, m).value) < WorldWork(cfg, w)
  {
    hide Buckets, CastsInv, SenderInv, ListenerInv, ArrivedInv, SourceWork, ListenerWorks, SenderMove, ReadMove,
         HearMove, DeliverMove;
    match m
    case SendMove =>
      SourceWorkDrops(cfg, synchronous, w);
      SourceKeeps(cfg, synchronous, w);
    case ReadSource(lo, hi) => ReadWorkDrops(cfg, w, lo, hi);
    case Hear(r) => HearWorkDrops(cfg, w, r);
    case Deliver(r, lo, hi) => DeliverWorkDrops(cfg, w, r, lo, hi);
  }

  lemma DeliverWork(plan: seq<seq<Weight>>, cap: nat, q: Listener, q': Listener)
    requires q' == q.(bufs := q'.bufs, missing := q'.missing) && |q'.missing| < |q.missing| && q.held < q.started
    ensures ListenerWork(plan, cap, q') < ListenerWork(plan, cap, q)
  {
  }

  lemma LoopTopRoom(plan: seq<seq<Weight>>, cap: nat, q: Listener)
    requires ListenerInv(plan, cap, q) && plan != []
    ensures q.held <= q.started <= q.held + 1 && q.bufs.Sized(cap)
    ensures q.pc.NotStarted? || (q.pc.LoopTop? && !q.isLast) ==> q.started == q.held && q.started < |plan|
    ensures q.pc.WaitFirst? || q.pc.WaitNext? ==> q.started == q.held + 1
  {
  }

  lemma WorldWorkNonNegative(cfg: Config, w: World)
    requires WorldInv(cfg, w)
    ensures WorldWork(cfg, w) >= 0
  {
    hide Buckets, CastsInv, PackFrom, Holds, DictMeta, Yielded, Flatten, DeliverAll;
    var works := ListenerWorks(cfg.Plan(), cfg.cap, w.listeners);
    forall r | 0 <= r < |works|
      ensures works[r] >= 0
    {
      ListenerOut(cfg.Plan(), cfg.cap, w.listeners[r]);
    }
    SumNonNegative(works);
    if w.casts != [] {
      EarlierCastsFull(cfg.Plan(), cfg.cap, w.sender.port, w.casts, |w.casts| - 1);
    }
  }

  ghost predicate CastRun(cfg: Config, synchronous: bool, worlds: seq<World>, moves: seq<Move>) {
    && cfg.Valid() && |worlds| == |moves| + 1 && InitWorld(cfg, worlds[0])
    && forall i :: 0 <= i < |moves| ==> NextWorld(cfg, synchronous, worlds[i], moves[i]) == Some(worlds[i + 1])
  }

  lemma {:induction false} CastRunInv(cfg: Config, synchronous: bool, worlds: seq<World>, moves: seq<Move>, i: nat)
    requires CastRun(cfg, synchronous, worlds, moves) && i < |worlds|
    ensures WorldInv(cfg, worlds[i]) && WorldWork(cfg, worlds[i]) + i <= WorldWork(cfg, worlds[0])
    decreases i
  {
    hide WorldInv, WorldWork, NextWorld;
    if i == 0 {
      InitWorldInv(cfg, worlds[0]);
    } else {
      CastRunInv(cfg, synchronous, worlds, moves, i - 1);
      assert NextWorld(cfg, synchronous, worlds[i - 1], moves[i - 1]) == Some(worlds[i]);
      WorldKeeps(cfg, synchronous, worlds[i - 1], moves[i - 1]);
      WorldWorkDrops(cfg, synchronous, worlds[i - 1], moves[i - 1]);
    }
  }

  /** Under every interleaving, with either reading of the source's wait and any number of
      listeners: runs are bounded, outputs are prefixes of the packed stream, no assertion of the
      source fails, and a run that cannot be extended has delivered to every listener the stream the
      source was given, exactly when no bucket of the plan repeats a name. */
  lemma EveryCastRunDelivers(cfg: Config, synchronous: bool, worlds: seq<World>, moves: seq<Move>)
    requires CastRun(cfg, synchronous, worlds, moves)
    ensures |moves| <= WorldWork(cfg, worlds[0])
    ensures forall i :: 0 <= i < |worlds| ==>
              !worlds[i].sender.pc.SenderFailed?
              && forall q :: q in worlds[i].listeners ==> q.out <= Flatten(DeliverAll(cfg.Plan()))
    ensures var last := worlds[|worlds| - 1];
            !CanMove(cfg, synchronous, last) ==>
              WorldDone(last)
              && forall q :: q in last.listeners ==> (q.out == cfg.weights <==> NamesDistinctPerBucket(cfg.Plan()))
  {
    hide WorldWork, NextWorld, CanMove, Buckets, WorldDone, WorldInv;
    var n := |moves|;
    CastRunInv(cfg, synchronous, worlds, moves, n);
    WorldWorkNonNegative(cfg, worlds[n]);
    forall i | 0 <= i < |worlds|
      ensures !worlds[i].sender.pc.SenderFailed?
      ensures forall q :: q in worlds[i].listeners ==> q.out <= Flatten(DeliverAll(cfg.Plan()))
    {
      CastRunInv(cfg, synchronous, worlds, moves, i);
      WorldOutputs(cfg, worlds[i]);
    }
    if !WorldDone(worlds[n]) {
      CollectiveProgress(cfg, synchronous, worlds[n]);
    } else {
      WorldOutputs(cfg, worlds[n]);
      PlanDelivers(cfg);
    }
  }

  lemma WorldOutputs(cfg: Config, w: World)
    requires WorldInv(cfg, w)
    ensures !w.sender.pc.SenderFailed?
    ensures forall q :: q in w.listeners ==> q.out <= Flatten(DeliverAll(cfg.Plan()))
    ensures WorldDone(w) ==> forall q :: q in w.listeners ==> q.out == Flatten(DeliverAll(cfg.Plan()))
  {
    hide Buckets, CastsInv, PackFrom, Holds, DictMeta, Yielded, ListenerInv;
    forall r | 0 <= r < |w.listeners|
      ensures var q := w.listeners[r];
              q.out <= Flatten(DeliverAll(cfg.Plan())) && (q.pc.Finished? ==> q.out == Flatten(DeliverAll(cfg.Plan())))
    {
      ListenerOut(cfg.Plan(), cfg.cap, w.listeners[r]);
    }
  }

  lemma OneMoreMove(cfg: Config, synchronous: bool, worlds: seq<World>, moves: seq<Move>, m: Move)
    requires CastRun(cfg, synchronous, worlds, moves) && NextWorld(cfg, synchronous, worlds[|moves|], m).Some?
    ensures CastRun(cfg, synchronous, worlds + [NextWorld(cfg, synchronous, worlds[|moves|], m).value], moves + [m])
  {
    hide NextWorld, InitWorld;
    var worlds', moves' := worlds + [NextWorld(cfg, synchronous, worlds[|moves|], m).value], moves + [m];
    forall i | 0 <= i < |moves'|
      ensures NextWorld(cfg, synchronous, worlds'[i], moves'[i]) == Some(worlds'[i + 1])
    {
      if i < |moves| {
        assert worlds'[i] == worlds[i] && worlds'[i + 1] == worlds[i + 1] && moves'[i] == moves[i];
      }
    }
  }

  /** However a run has gone so far, it can be completed. */
  lemma {:induction false} EveryCastRunCompletes(cfg: Config, synchronous: bool, worlds: seq<World>, moves: seq<Move>)
    returns (worlds': seq<World>, moves': seq<Move>)
    requires CastRun(cfg, synchronous, worlds, moves)
    ensures CastRun(cfg, synchronous, worlds', moves') && worlds <= worlds' && moves <= moves'
    ensures WorldDone(worlds'[|worlds'| - 1])
    decreases RemainingCastWork(cfg, worlds[|worlds| - 1])
  {
    hide NextWorld, InitWorld, WorldInv, WorldWork, WorldDone, CanMove;
    var last := worlds[|moves|];
    CastRunInv(cfg, synchronous, worlds, moves, |moves|);
    if WorldDone(last) {
      return worlds, moves;
    }
    CollectiveProgress(cfg, synchronous, last);
    var m := SomeMove(cfg, synchronous, last);
    var longer := worlds + [NextWorld(cfg, synchronous, last, m).value];
    OneMoreMove(cfg, synchronous, worlds, moves, m);
    CastRunInv(cfg, synchronous, longer, moves + [m], |moves| + 1);
    RemainingCastIs(cfg, last);
    RemainingCastIs(cfg, longer[|longer| - 1]);
    WorldWorkDrops(cfg, synchronous, last, m);
    worlds', moves' := EveryCastRunCompletes(cfg, synchronous, longer, moves + [m]);
  }

  ghost function RemainingCastWork(cfg: Config, w: World): nat {
    if WorldInv(cfg, w) && WorldWork(cfg, w) >= 0 then WorldWork(cfg, w) else 0
  }

  lemma RemainingCastIs(cfg: Config, w: World)
    requires WorldInv(cfg, w)
    ensures cfg.Valid() && RemainingCastWork(cfg, w) == WorldWork(cfg, w)
  {
    WorldWorkNonNegative(cfg, w);
  }

  lemma SomeMove(cfg: Config, synchronous: bool, w: World) returns (m: Move)
    requires CanMove(cfg, synchronous, w)
    ensures NextWorld(cfg, synchronous, w, m).Some?
  {
    m :| NextWorld(cfg, synchronous, w, m).Some?;
  }

  /** Every stream has a run to begin with, for any number of listeners. */
  lemma CastRunBegins(cfg: Config, synchronous: bool, listeners: nat) returns (w: World)
    requires cfg.Valid()
    ensures CastRun(cfg, synchronous, [w], []) && |w.listeners| == listeners
  {
    var zeros := seq(cfg.cap, _ => 0 as Byte);
    var bufs := Buffers(zeros, zeros);
    var q := Listener(NotStarted, bufs, false, [], false, 0, 0, {}, 0, []);
    w := World(Sender(Scan, Port(bufs, false, None, 0), 0, 0, [], 0), [], seq(listeners, _ => q));
  }
}
