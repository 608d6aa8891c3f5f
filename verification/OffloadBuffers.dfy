/** What the buffer dictionary keeps alive, and how tensors are numbered, in every reachable state. */
module OffloadBuffers {
  import opened Options
  import opened OffloadSpec
  import opened OffloadRun
  import opened OffloadMemory

  /** Every tensor pushed in an offload group is in the buffer dictionary: released in the first n groups,
      and still held in the others. */
  ghost predicate Buffered(groups: nat, bufs: map<Tag, Option<Tensor>>, pushed: map<Tag, Tensor>, n: int) {
    && (forall tag :: tag in bufs <==> tag in pushed && tag.group < groups)
    && (forall tag :: tag in bufs ==> bufs[tag] == if tag.group < n then None else Some(pushed[tag]))
  }

  /** The groups retired so far. */
  function Retired(cfg: Config, s: Session): int {
    if s.backward then cfg.groups else s.h.offloaded
  }

  /** The tensors of a group that is not the first are numbered from 0 on. */
  ghost predicate Numbered(cfg: Config, s: Session) {
    !s.backward && 0 < s.h.current < cfg.layers ==>
      forall i: nat :: Tag(s.h.current, i) in s.pushed <==> i < s.h.count
  }

  ghost predicate BufferInv(cfg: Config, s: Session) {
    Inv(cfg, s) && Buffered(cfg.groups, s.h.bufs, s.pushed, Retired(cfg, s)) && Numbered(cfg, s)
  }

  /** The counter never passes the group being pushed, and ends at the number of groups. */
  lemma RetiredGroups(cfg: Config, s: Session)
    requires Inv(cfg, s) && !s.backward
    ensures s.h.offloaded <= s.h.current
    ensures s.h.current == cfg.layers ==> s.h.offloaded == cfg.groups
    ensures forall tag :: tag in s.pushed ==> tag.group <= s.h.current
  {
    var n := s.h.offloaded;
    if n > 0 {
      WindowIncreasing(cfg.layers, cfg.groups, n - 1, n - 1);
    }
    WindowLast(cfg.layers, cfg.groups);
    if n < cfg.groups {
      WindowIncreasing(cfg.layers, cfg.groups, n, cfg.groups - 1);
    }
  }

  lemma SaveBuffers(cfg: Config, s: Session, t: Tensor, s': Session)
    requires BufferInv(cfg, s) && Legal(cfg, s, Save(t)) && Step(s, Save(t), s')
    ensures Buffered(cfg.groups, s'.h.bufs, s'.pushed, Retired(cfg, s')) && Numbered(cfg, s')
  {
    hide Inv, Legal;
    RetiredGroups(cfg, s) by {
      LegalSave(cfg, s, t);
    }
    LegalSave(cfg, s, t);
  }

  lemma LegalSave(cfg: Config, s: Session, t: Tensor)
    requires Inv(cfg, s) && Legal(cfg, s, Save(t))
    ensures !s.backward && Sized(cfg, s.h)
  {
  }

  lemma RestoreBuffers(cfg: Config, s: Session, tag: Tag, s': Session)
    requires BufferInv(cfg, s) && Legal(cfg, s, Restore(tag)) && Step(s, Restore(tag), s')
    ensures Buffered(cfg.groups, s'.h.bufs, s'.pushed, Retired(cfg, s')) && Numbered(cfg, s')
  {
    hide Inv;
  }

  /** A commit frees the group it retires, and no other. */
  lemma AdvanceBuffers(cfg: Config, h: Handler, pushed: map<Tag, Tensor>, b: Option<Handler>)
    requires Sized(cfg, h) && Buffered(cfg.groups, h.bufs, pushed, h.offloaded) && Advance(h, b) && b.Some?
    ensures Buffered(cfg.groups, b.value.bufs, pushed, b.value.offloaded) && b.value.current == h.current
  {
    hide BulkOffload;
    var freed := h.(bufs := FreeGroup(h.bufs, h.offloaded));
    if WindowAt(h, h.offloaded) == Some(h.current) && h.offloaded < h.numOffload - 1 {
      var moved: Option<Handler> :| BulkOffload(freed, h.offloaded + 1, moved)
                   && b == if moved.None? then None else Some(moved.value.(offloaded := h.offloaded + 1));
      MovedGroup(freed, h.offloaded + 1, moved);
    }
  }

  lemma CommitBuffers(cfg: Config, s: Session, r: Handler)
    requires BufferInv(cfg, s) && Legal(cfg, s, Commit) && CommitForward(s.h, Some(r))
    ensures Buffered(cfg.groups, r.bufs, s.pushed, r.offloaded) && Numbered(cfg, Session(r, s.pushed, false))
  {
    hide Buffered, Advance, Tracks, Untouched, SharedAgree, Kickstart;
    var a: Option<Handler>, b: Option<Handler> :|
      && Kickstart(s.h, a)
      && (if a.None? then b.None? else Advance(a.value, b))
      && Some(r) == if b.None? then None else Some(NextGroup(b.value));
    KickstartKeeps(cfg, s, a);
    AdvanceBuffers(cfg, a.value, s.pushed, b);
    RetiredGroups(cfg, s);
  }

  lemma CommitBackBuffers(cfg: Config, s: Session, s': Session)
    requires BufferInv(cfg, s) && Legal(cfg, s, CommitBack) && Step(s, CommitBack, s')
    ensures Buffered(cfg.groups, s'.h.bufs, s'.pushed, Retired(cfg, s')) && Numbered(cfg, s')
  {
    hide Inv, Buffered;
    if !s.backward {
      RetiredGroups(cfg, s);
    }
  }

  lemma BuffersKeep(cfg: Config, s: Session, e: Event, s': Session)
    requires BufferInv(cfg, s) && Legal(cfg, s, e) && Step(s, e, s')
    ensures BufferInv(cfg, s')
  {
    hide Inv, Buffered, Numbered, CommitForward, CommitBackward, Push, Pop;
    StepKeeps(cfg, s, e);
    match e
    case Save(t) => SaveBuffers(cfg, s, t, s');
    case Restore(tag) => RestoreBuffers(cfg, s, tag, s');
    case CommitBack => CommitBackBuffers(cfg, s, s');
    case Commit => CommitBuffers(cfg, s, s'.h);
  }

  lemma {:induction false} RunBuffers(cfg: Config, states: seq<Session>, events: seq<Event>, i: nat)
    requires TrainingRun(cfg, states, events) && i < |states|
    ensures BufferInv(cfg, states[i])
    decreases i
  {
    hide Inv, Legal, Step;
    if i == 0 {
      StartInv(cfg, states[0].h);
    } else {
      RunBuffers(cfg, states, events, i - 1);
      assert Legal(cfg, states[i - 1], events[i - 1]) && Step(states[i - 1], events[i - 1], states[i]);
      BuffersKeep(cfg, states[i - 1], events[i - 1], states[i]);
    }
  }

  /** In every reachable state, going forward: a tensor of an offload group is held in the buffer dictionary
      from its push until its own group retires, and nothing else is. Going back, all have been released. */
  lemma HeldUntilRetired(cfg: Config, states: seq<Session>, events: seq<Event>, i: nat)
    requires TrainingRun(cfg, states, events) && i < |states|
    ensures var s := states[i];
            && s.h.bufs.Keys == set tag | tag in s.pushed && tag.group < cfg.groups
            && forall tag :: tag in s.h.bufs ==>
                 && tag in s.pushed
                 && s.h.bufs[tag] == if s.backward || tag.group < s.h.offloaded then None else Some(s.pushed[tag])
  {
    hide Inv, TrainingRun;
    RunBuffers(cfg, states, events, i);
  }

  /** The next tensor pushed in a group gets the number of those pushed in it before. The first group is apart:
      its count starts where the step before left it. */
  lemma PushesNumbered(cfg: Config, states: seq<Session>, events: seq<Event>, i: nat, t: Tensor)
    requires TrainingRun(cfg, states, events) && i < |states| && 0 < states[i].h.current < cfg.layers
    requires Legal(cfg, states[i], Save(t))
    ensures Push(states[i].h, t).Some?
    ensures var tag, s := Push(states[i].h, t).value.1, states[i];
            tag.group == s.h.current && forall k: nat :: Tag(tag.group, k) in s.pushed <==> k < tag.index
  {
    hide Inv, TrainingRun;
    RunBuffers(cfg, states, events, i);
    StepKeeps(cfg, states[i], Save(t));
  }
}
