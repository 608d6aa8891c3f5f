/** With one group fewer than layers offloaded, as installed, at most two groups of activations
    are on the device at any time. */
module OffloadMemory {
  import opened Options
  import opened OffloadSpec
  import opened OffloadRun

  /** Some tensor of group g is kept alive on the device by one of the handler's dictionaries. */
  ghost predicate Resident(h: Handler, g: int) {
    exists tag: Tag :: tag.group == g &&
      ((tag in h.states && h.states[tag].Live?) || (tag in h.bufs && h.bufs[tag].Some?))
  }

  /** A backward commit comes after the group before it has been restored in full. */
  ghost predicate Tidy(s: Session, e: Event) {
    e.CommitBack? ==> forall tag :: tag in s.pushed ==> tag.group < s.h.current
  }

  predicate Installed(cfg: Config) {
    cfg.layers >= 2 && cfg.groups == cfg.layers - 1
  }

  ghost predicate ForwardMemory(cfg: Config, h: Handler) {
    && (forall tag :: tag in h.states && tag.group < h.current && tag.group < cfg.groups ==> h.states[tag].Moved?)
    && (forall tag :: tag in h.bufs ==> tag.group < cfg.groups && (tag.group < h.current - 1 ==> h.bufs[tag].None?))
  }

  ghost predicate BackwardMemory(h: Handler, pushed: map<Tag, Tensor>) {
    && (forall tag :: tag in pushed ==> tag.group <= h.current)
    && (forall tag :: tag in h.states && h.states[tag].Live? ==> tag.group >= h.current - 1)
    && (forall tag :: tag in h.bufs ==> h.bufs[tag].None?)
  }

  ghost predicate MemoryInv(cfg: Config, s: Session) {
    && Inv(cfg, s)
    && if s.backward then BackwardMemory(s.h, s.pushed) else ForwardMemory(cfg, s.h)
  }

  /** In such a state the resident groups are the current one and the one before. */
  lemma ResidentGroups(cfg: Config, s: Session)
    requires Installed(cfg) && MemoryInv(cfg, s)
    ensures forall g :: Resident(s.h, g) ==> s.h.current - 1 <= g <= s.h.current
  {
  }

  lemma InstalledWindow(cfg: Config, k: int)
    requires Installed(cfg) && 0 <= k < cfg.groups
    ensures cfg.At(k) == k + 1
  {
    WindowInstalled(cfg.layers, k);
  }

  /** The forward counter lags one group behind. */
  lemma ForwardCount(cfg: Config, n: int, c: int)
    requires Installed(cfg) && Counts(cfg, n, c) && 0 <= c <= cfg.layers
    ensures n == if c == 0 then 0 else c - 1
  {
    if n > 0 {
      InstalledWindow(cfg, n - 1);
    }
    if n < cfg.groups {
      InstalledWindow(cfg, n);
    }
  }

  lemma MovedGroup(h: Handler, g: int, r: Option<Handler>)
    requires BulkOffload(h, g, r) && r.Some?
    ensures r.value.bufs == h.bufs && r.value.current == h.current && r.value.states.Keys == h.states.Keys
    ensures forall tag :: tag in h.states && (tag.group == g || h.states[tag].Moved?) ==> r.value.states[tag].Moved?
  {
  }

  /** Groups before m are on the host, and buffers of groups before f are freed. */
  ghost predicate Cleared(groups: nat, states: map<Tag, Saved>, bufs: map<Tag, Option<Tensor>>, m: int, f: int) {
    && (forall tag :: tag in states && tag.group < m && tag.group < groups ==> states[tag].Moved?)
    && (forall tag :: tag in bufs ==> tag.group < groups && (tag.group < f ==> bufs[tag].None?))
  }

  lemma KickstartClears(cfg: Config, h: Handler, a: Option<Handler>)
    requires (forall tag :: tag in h.bufs ==> 0 <= tag.group)
    requires h.current == 0 && Cleared(cfg.groups, h.states, h.bufs, 0, -1) && BulkOffload(h, 0, a) && a.Some?
    ensures Cleared(cfg.groups, a.value.states, a.value.bufs, 1, 0)
  {
    MovedGroup(h, 0, a);
  }

  lemma RetireClears(cfg: Config, h: Handler, b: Option<Handler>)
    requires Sized(cfg, h) && 0 <= h.offloaded < cfg.groups && Retire(h, b) && b.Some?
    requires Cleared(cfg.groups, h.states, h.bufs, h.offloaded + 1, h.offloaded)
    ensures b.value.current == h.current
    ensures Cleared(cfg.groups, b.value.states, b.value.bufs, h.offloaded + 2, h.offloaded + 1)
  {
    hide BulkOffload;
    var freed := h.(bufs := FreeGroup(h.bufs, h.offloaded));
    if h.offloaded < cfg.groups - 1 {
      var moved: Option<Handler> :| BulkOffload(freed, h.offloaded + 1, moved)
                   && b == if moved.None? then None else Some(moved.value.(offloaded := h.offloaded + 1));
      MovedGroup(freed, h.offloaded + 1, moved);
      forall tag | tag in b.value.states && tag.group < h.offloaded + 2
        ensures b.value.states[tag].Moved?
      {
        assert tag in h.states;
      }
    }
  }

  /** The first commit moves group 0 out; nothing is due to retire. */
  lemma FirstCommitMemory(cfg: Config, s: Session, a: Option<Handler>, b: Option<Handler>)
    requires Installed(cfg) && MemoryInv(cfg, s) && Legal(cfg, s, Commit) && s.h.current == 0
    requires Kickstart(s.h, a) && a.Some? && Advance(a.value, b) && b.Some?
    ensures ForwardMemory(cfg, NextGroup(b.value))
  {
    hide BulkOffload, Tracks, Untouched, SharedAgree, Retire, Cleared;
    var h := s.h;
    ForwardCount(cfg, h.offloaded, h.current);
    InstalledWindow(cfg, h.offloaded);
    ClearedForward(cfg, h);
    KickstartKeeps(cfg, s, a);
    SameTags(h, s.pushed);
    KickstartClears(cfg, h, a);
    assert b == a;
    ForwardCleared(cfg, NextGroup(b.value));
  }

  /** Every later commit retires the group before. */
  lemma LaterCommitMemory(cfg: Config, s: Session, a: Option<Handler>, b: Option<Handler>)
    requires Installed(cfg) && MemoryInv(cfg, s) && Legal(cfg, s, Commit) && s.h.current != 0
    requires Kickstart(s.h, a) && a.Some? && Advance(a.value, b) && b.Some?
    ensures ForwardMemory(cfg, NextGroup(b.value))
  {
    hide BulkOffload, Tracks, Untouched, SharedAgree, Retire, Cleared;
    var h := s.h;
    ForwardCount(cfg, h.offloaded, h.current);
    InstalledWindow(cfg, h.offloaded);
    ClearedForward(cfg, h);
    assert a == Some(h) && Retire(h, b);
    RetireClears(cfg, h, b);
    ForwardCleared(cfg, NextGroup(b.value));
  }

  lemma CommitMemory(cfg: Config, s: Session, r: Handler)
    requires Installed(cfg) && MemoryInv(cfg, s) && Legal(cfg, s, Commit) && CommitForward(s.h, Some(r))
    ensures ForwardMemory(cfg, r)
  {
    hide Kickstart, Advance, Installed, MemoryInv, Legal, ForwardMemory, NextGroup;
    var a: Option<Handler>, b: Option<Handler> :|
      && Kickstart(s.h, a)
      && (if a.None? then b.None? else Advance(a.value, b))
      && Some(r) == if b.None? then None else Some(NextGroup(b.value));
    if s.h.current == 0 {
      FirstCommitMemory(cfg, s, a, b);
    } else {
      LaterCommitMemory(cfg, s, a, b);
    }
  }

  lemma ClearedForward(cfg: Config, h: Handler)
    requires ForwardMemory(cfg, h)
    ensures Cleared(cfg.groups, h.states, h.bufs, h.current, h.current - 1)
  {
  }

  lemma ForwardCleared(cfg: Config, h: Handler)
    requires Cleared(cfg.groups, h.states, h.bufs, h.current, h.current - 1)
    ensures ForwardMemory(cfg, h)
  {
  }

  lemma PrefetchMemory(h: Handler, pushed: map<Tag, Tensor>)
    requires h.states.Keys == pushed.Keys && Prefetch(h).Some?
    requires (forall tag :: tag in pushed ==> tag.group <= h.current)
    requires forall tag :: tag in h.states && h.states[tag].Live? ==> tag.group >= h.current - 1
    requires forall tag :: tag in h.bufs ==> h.bufs[tag].None?
    requires WindowAt(h, h.offloaded - 1) == Some(h.offloaded)
    ensures BackwardMemory(Prefetch(h).value, pushed)
  {
  }

  lemma CommitBackMemory(cfg: Config, s: Session)
    requires Installed(cfg) && MemoryInv(cfg, s) && Legal(cfg, s, CommitBack) && Tidy(s, CommitBack)
    requires CommitBackward(s.h).Some?
    ensures BackwardMemory(CommitBackward(s.h).value, s.pushed)
  {
    hide Prefetch, Tracks, Untouched, SharedAgree, Window, Counts;
    var h := s.h.(current := s.h.current - 1);
    CommitBackEnters(cfg, s);
    InstalledWindow(cfg, h.offloaded - 1);
    SameTags(s.h, s.pushed);
    PrefetchMemory(h, s.pushed);
  }

  lemma MemoryKeeps(cfg: Config, s: Session, e: Event, s': Session)
    requires Installed(cfg) && MemoryInv(cfg, s) && Legal(cfg, s, e) && Tidy(s, e) && Step(s, e, s')
    ensures MemoryInv(cfg, s')
  {
    hide Inv, ForwardMemory, BackwardMemory, CommitForward, CommitBackward, Push, Pop, Legal, Tidy, Installed;
    StepKeeps(cfg, s, e);
    if e.Commit? {
      CommitMemory(cfg, s, s'.h);
    } else if e.CommitBack? {
      CommitBackMemory(cfg, s);
    } else {
      OtherMemory(cfg, s, e, s');
    }
  }

  lemma OtherMemory(cfg: Config, s: Session, e: Event, s': Session)
    requires Installed(cfg) && MemoryInv(cfg, s) && Legal(cfg, s, e) && Step(s, e, s')
    requires e.Save? || e.Restore?
    ensures if s'.backward then BackwardMemory(s'.h, s'.pushed) else ForwardMemory(cfg, s'.h)
  {
    SameTags(s.h, s.pushed);
  }

  ghost predicate TidyRun(states: seq<Session>, events: seq<Event>)
    requires |states| == |events| + 1
  {
    forall i :: 0 <= i < |events| ==> Tidy(states[i], events[i])
  }

  lemma {:induction false} RunMemory(cfg: Config, states: seq<Session>, events: seq<Event>, i: nat)
    requires Installed(cfg) && TrainingRun(cfg, states, events) && TidyRun(states, events) && i < |states|
    ensures MemoryInv(cfg, states[i])
    decreases i
  {
    hide Inv, Legal, Step;
    if i == 0 {
      StartInv(cfg, states[0].h);
    } else {
      RunMemory(cfg, states, events, i - 1);
      assert Legal(cfg, states[i - 1], events[i - 1]) && Step(states[i - 1], events[i - 1], states[i]);
      MemoryKeeps(cfg, states[i - 1], events[i - 1], states[i]);
    }
  }

  /** In every reachable state at most two groups, and then consecutive ones, are on the device. */
  lemma TwoGroupsResident(cfg: Config, states: seq<Session>, events: seq<Event>)
    requires Installed(cfg) && TrainingRun(cfg, states, events) && TidyRun(states, events)
    ensures forall i, g :: 0 <= i < |states| && Resident(states[i].h, g) ==>
              states[i].h.current - 1 <= g <= states[i].h.current
  {
    forall i, g | 0 <= i < |states| && Resident(states[i].h, g)
      ensures states[i].h.current - 1 <= g <= states[i].h.current
    {
      RunMemory(cfg, states, events, i);
      ResidentGroups(cfg, states[i]);
    }
  }
}
