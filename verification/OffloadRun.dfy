/** Whole training steps of the offload handler: N forward commits with pushes, then N backward
    commits with the matching pops. */
module OffloadRun {
  import opened Options
  import opened Arithmetic
  import opened OffloadSpec

  datatype Config = Config(layers: nat, groups: nat) {
    predicate Valid() {
      1 <= groups <= layers
    }

    function At(k: int): int
      requires Valid() && 0 <= k < groups
    {
      Window(layers, groups, k)
    }
  }

  /** The handler, and the tensors autograd still expects back under their tags. */
  datatype Session = Session(h: Handler, pushed: map<Tag, Tensor>, backward: bool)

  datatype Event = Save(t: Tensor) | Commit | CommitBack | Restore(tag: Tag)

  /** A handler between training steps. The running tensor count is reset by the first commit. */
  predicate Idle(cfg: Config, h: Handler) {
    && h.numOffload == cfg.groups && h.numLayers == cfg.layers
    && h.current == 0 && h.offloaded == 0
    && h.states == map[] && h.bufs == map[] && h.mapping == map[]
  }

  /** The order autograd keeps: pushes and commits going forward, and going back a tensor is
      restored once its group's commit has run. Views of the same memory saved in the same group
      have the same row-major contents, where the group is one that is offloaded. */
  predicate Legal(cfg: Config, s: Session, e: Event) {
    match e
    case Save(t) =>
      && !s.backward && t.WellFormed()
      && forall tag :: tag in s.pushed && tag.group == s.h.current < cfg.groups && s.pushed[tag].SharesWith(t) ==>
           s.pushed[tag].data == t.data
    case Commit => !s.backward && s.h.current < cfg.layers
    case CommitBack => if s.backward then s.h.current > 0 else s.h.current == cfg.layers
    case Restore(tag) => tag in s.pushed && tag.group >= s.h.current && (s.backward || s.h.current == cfg.layers)
  }

  /** The source raises: an assertion fails or a key is missing. */
  ghost predicate Raises(s: Session, e: Event) {
    match e
    case Save(t) => Push(s.h, t).None?
    case Commit => CommitForward(s.h, None)
    case CommitBack => CommitBackward(s.h).None?
    case Restore(tag) => Pop(s.h, tag).None?
  }

  ghost predicate Step(s: Session, e: Event, s': Session) {
    match e
    case Save(t) =>
      Push(s.h, t).Some? && var (h, tag) := Push(s.h, t).value; s' == Session(h, s.pushed[tag := t], s.backward)
    case Commit => CommitForward(s.h, Some(s'.h)) && s' == Session(s'.h, s.pushed, false)
    case CommitBack => CommitBackward(s.h) == Some(s'.h) && s' == Session(s'.h, s.pushed, true)
    case Restore(tag) =>
      Pop(s.h, tag).Some? && s' == Session(Pop(s.h, tag).value.0, s.pushed - {tag}, s.backward)
  }

  // ----- the invariant -----

  /** A saved activation still stands for the tensor that was pushed. */
  predicate Stands(x: Saved, t: Tensor, g: int, mapping: map<int, map<Key, Backup>>) {
    match x
    case Live(y) => y.SameValue(t)
    case Moved(key, shape) =>
      shape == t.shape && g in mapping && key in mapping[g] && mapping[g][key].data == t.data
        && mapping[g][key].dtype == t.dtype
  }

  ghost predicate Tracks(h: Handler, pushed: map<Tag, Tensor>) {
    && h.states.Keys == pushed.Keys
    && h.bufs.Keys <= pushed.Keys
    && forall tag :: tag in pushed ==>
         pushed[tag].WellFormed() && Stands(h.states[tag], pushed[tag], tag.group, h.mapping)
  }

  ghost predicate Untouched(h: Handler, pushed: map<Tag, Tensor>) {
    forall tag :: tag in h.states && tag in pushed && h.states[tag].Live? ==> h.states[tag].tensor == pushed[tag]
  }

  ghost predicate SharedAgree(groups: nat, pushed: map<Tag, Tensor>) {
    forall a, b :: a in pushed && b in pushed && a.group == b.group < groups && pushed[a].SharesWith(pushed[b]) ==>
      pushed[a].data == pushed[b].data
  }

  predicate Sized(cfg: Config, h: Handler) {
    h.numOffload == cfg.groups && h.numLayers == cfg.layers
  }

  /** `offloaded` counts the offload groups whose retiring commit lies before group c. */
  predicate Counts(cfg: Config, n: int, c: int)
    requires cfg.Valid()
  {
    0 <= n <= cfg.groups && (n > 0 ==> cfg.At(n - 1) < c) && (n < cfg.groups ==> cfg.At(n) >= c)
  }

  ghost predicate ForwardInv(cfg: Config, s: Session)
    requires cfg.Valid()
  {
    var h := s.h;
    && 0 <= h.current <= cfg.layers
    && Counts(cfg, h.offloaded, h.current)
    && Untouched(h, s.pushed) && SharedAgree(cfg.groups, s.pushed)
    && (forall tag :: tag in s.pushed ==>
          0 <= tag.group && (tag.group < h.current || (tag.group == h.current && tag.index < h.count)))
    && (forall k :: k in h.mapping <==> h.current > 0 && 0 <= k < cfg.groups && k <= h.offloaded)
  }

  ghost predicate BackwardInv(cfg: Config, s: Session)
    requires cfg.Valid()
  {
    var h := s.h;
    && 0 <= h.current < cfg.layers
    && (h.current == 0 ==> h.offloaded == 0)
    && (h.current > 0 ==> 1 <= h.offloaded <= cfg.groups
                          && (h.offloaded > 1 ==> cfg.At(h.offloaded - 1) < h.current)
                          && (h.offloaded < cfg.groups ==> cfg.At(h.offloaded) >= h.current))
    && (forall k :: k in h.mapping <==> 0 <= k < cfg.groups && cfg.At(k) < h.current)
  }

  ghost predicate Inv(cfg: Config, s: Session) {
    && cfg.Valid()
    && Sized(cfg, s.h)
    && Tracks(s.h, s.pushed)
    && if s.backward then BackwardInv(cfg, s) else ForwardInv(cfg, s)
  }

  lemma StartInv(cfg: Config, h: Handler)
    requires cfg.Valid() && Idle(cfg, h)
    ensures Inv(cfg, Session(h, map[], false))
  {
    WindowIncreasing(cfg.layers, cfg.groups, 0, 0);
  }

  /** Once every tensor has been restored and the last backward commit has run, nothing is left. */
  lemma EndIdle(cfg: Config, s: Session)
    requires Inv(cfg, s) && s.backward && s.h.current == 0 && s.pushed == map[]
    ensures Idle(cfg, s.h)
  {
    forall k | k in s.h.mapping
      ensures false
    {
      WindowIncreasing(cfg.layers, cfg.groups, k, k);
    }
    assert s.h.states.Keys == {} && s.h.bufs.Keys == {};
  }

  // ----- pushes and pops -----

  lemma SaveTracks(h: Handler, pushed: map<Tag, Tensor>, t: Tensor)
    requires Tracks(h, pushed) && Untouched(h, pushed) && Push(h, t).Some? && t.WellFormed()
    ensures var (h', tag) := Push(h, t).value;
            Tracks(h', pushed[tag := t]) && Untouched(h', pushed[tag := t])
  {
  }

  lemma SaveShares(groups: nat, pushed: map<Tag, Tensor>, tag: Tag, t: Tensor)
    requires SharedAgree(groups, pushed) && tag !in pushed
    requires forall x :: x in pushed && x.group == tag.group < groups && pushed[x].SharesWith(t) ==>
               pushed[x].data == t.data
    ensures SharedAgree(groups, pushed[tag := t])
  {
  }

  lemma SaveKeeps(cfg: Config, s: Session, t: Tensor)
    requires Inv(cfg, s) && Legal(cfg, s, Save(t))
    ensures Push(s.h, t).Some?
    ensures var (h, tag) := Push(s.h, t).value; Inv(cfg, Session(h, s.pushed[tag := t], false))
  {
    hide Tracks, Untouched, SharedAgree;
    var tag := Tag(s.h.current, s.h.count);
    assert tag !in s.h.states by {
      SameTags(s.h, s.pushed);
      assert tag !in s.pushed;
    }
    SameTags(s.h, s.pushed);
    SaveTracks(s.h, s.pushed, t);
    SaveShares(cfg.groups, s.pushed, tag, t);
  }

  lemma SameTags(h: Handler, pushed: map<Tag, Tensor>)
    requires Tracks(h, pushed)
    ensures h.states.Keys == pushed.Keys && h.bufs.Keys <= pushed.Keys
  {
  }

  /** In the backward pass a group that has been committed is back on the device. */
  lemma CommittedIsLive(cfg: Config, s: Session, tag: Tag)
    requires Inv(cfg, s) && Legal(cfg, s, Restore(tag))
    ensures s.h.states[tag].Live?
  {
    if s.h.states[tag].Moved? {
      assert Stands(s.h.states[tag], s.pushed[tag], tag.group, s.h.mapping);
      WindowIncreasing(cfg.layers, cfg.groups, tag.group, tag.group);
    }
  }

  lemma RestoreTracks(h: Handler, pushed: map<Tag, Tensor>, tag: Tag)
    requires Tracks(h, pushed) && Pop(h, tag).Some?
    ensures tag in pushed && Pop(h, tag).value.1.SameValue(pushed[tag])
    ensures Tracks(Pop(h, tag).value.0, pushed - {tag})
    ensures Untouched(h, pushed) ==> Untouched(Pop(h, tag).value.0, pushed - {tag})
    ensures SharedAgree(h.numOffload, pushed) ==> SharedAgree(h.numOffload, pushed - {tag})
  {
    assert Stands(h.states[tag], pushed[tag], tag.group, h.mapping);
  }

  /** Every restored tensor is the one that was pushed under its tag. */
  lemma RestoreReturns(cfg: Config, s: Session, tag: Tag)
    requires Inv(cfg, s) && Legal(cfg, s, Restore(tag))
    ensures Pop(s.h, tag).Some? && Pop(s.h, tag).value.1.SameValue(s.pushed[tag])
    ensures Inv(cfg, Session(Pop(s.h, tag).value.0, s.pushed - {tag}, s.backward))
  {
    hide Tracks, Untouched, SharedAgree;
    SameTags(s.h, s.pushed);
    CommittedIsLive(cfg, s, tag);
    RestoreTracks(s.h, s.pushed, tag);
  }

  // ----- forward commits -----

  /** Moving a whole group to the host keeps every saved activation standing. */
  lemma BulkOffloadKeeps(h: Handler, g: int, pushed: map<Tag, Tensor>, r: Option<Handler>)
    requires Tracks(h, pushed) && Untouched(h, pushed) && SharedAgree(h.numOffload, pushed)
    requires g < h.numOffload && g !in h.mapping && BulkOffload(h, g, r)
    ensures r.Some? && Tracks(r.value, pushed) && Untouched(r.value, pushed)
    ensures r.value.mapping.Keys == h.mapping.Keys + {g}
    ensures r.value == h.(states := r.value.states, mapping := r.value.mapping)
  {
    assert AllLive(h.states, g) by {
      forall tag | tag in h.states && tag.group == g
        ensures h.states[tag].Live?
      {
        assert Stands(h.states[tag], pushed[tag], g, h.mapping);
      }
    }
    forall tag | tag in pushed
      ensures Stands(r.value.states[tag], pushed[tag], tag.group, r.value.mapping)
    {
      MovedStands(h, g, pushed, r.value, tag);
    }
  }

  lemma MovedStands(h: Handler, g: int, pushed: map<Tag, Tensor>, moved: Handler, tag: Tag)
    requires Tracks(h, pushed) && Untouched(h, pushed) && SharedAgree(h.numOffload, pushed) && tag in pushed
    requires g < h.numOffload && g !in h.mapping && AllLive(h.states, g) && BulkOffload(h, g, Some(moved))
    ensures tag in moved.states && Stands(moved.states[tag], pushed[tag], tag.group, moved.mapping)
  {
    var copies := moved.mapping[g];
    assert Stands(h.states[tag], pushed[tag], tag.group, h.mapping);
    if tag.group == g {
      var key := pushed[tag].Key();
      assert h.states[tag].tensor.Key() in copies;
      var other :| other in h.states && other.group == g && h.states[other].Live?
                   && h.states[other].tensor.Key() == key && copies[key] == BackupOf(h.states[other].tensor);
      assert pushed[other].SharesWith(pushed[tag]);
    }
  }

  lemma CountsStep(cfg: Config, n: int, c: int)
    requires cfg.Valid() && Counts(cfg, n, c) && 0 <= c < cfg.layers
    ensures n < cfg.groups
    ensures cfg.At(n) == c ==> Counts(cfg, n + 1, c + 1)
    ensures cfg.At(n) != c ==> Counts(cfg, n, c + 1)
  {
    WindowLast(cfg.layers, cfg.groups);
    if n + 1 < cfg.groups {
      WindowIncreasing(cfg.layers, cfg.groups, n, n + 1);
    }
  }

  lemma KickstartKeeps(cfg: Config, s: Session, a: Option<Handler>)
    requires Inv(cfg, s) && Legal(cfg, s, Commit) && Kickstart(s.h, a)
    ensures a.Some? && Tracks(a.value, s.pushed) && Untouched(a.value, s.pushed)
    ensures a.value == s.h.(states := a.value.states, mapping := a.value.mapping)
    ensures CopiedUpTo(cfg, a.value.mapping, s.h.offloaded)
  {
    if s.h.current == 0 {
      BulkOffloadKeeps(s.h, 0, s.pushed, a);
    }
  }

  lemma FreeKeeps(h: Handler, pushed: map<Tag, Tensor>, g: int)
    requires Tracks(h, pushed) && Untouched(h, pushed)
    ensures Tracks(h.(bufs := FreeGroup(h.bufs, g)), pushed) && Untouched(h.(bufs := FreeGroup(h.bufs, g)), pushed)
  {
  }

  /** Host copies exist for the offload groups up to the one being retired. */
  ghost predicate CopiedUpTo(cfg: Config, mapping: map<int, map<Key, Backup>>, n: int) {
    forall k :: k in mapping <==> 0 <= k < cfg.groups && k <= n
  }

  lemma RetireKeeps(cfg: Config, h: Handler, pushed: map<Tag, Tensor>, b: Option<Handler>)
    requires Sized(cfg, h) && Tracks(h, pushed) && Untouched(h, pushed) && SharedAgree(h.numOffload, pushed)
    requires 0 <= h.offloaded < cfg.groups && CopiedUpTo(cfg, h.mapping, h.offloaded) && Retire(h, b)
    ensures b.Some? && Tracks(b.value, pushed) && Untouched(b.value, pushed)
    ensures b.value ==
              h.(states := b.value.states, bufs := b.value.bufs, mapping := b.value.mapping,
                offloaded := h.offloaded + 1)
    ensures CopiedUpTo(cfg, b.value.mapping, h.offloaded + 1)
  {
    hide Stands, SharedAgree, BulkOffload;
    var freed := h.(bufs := FreeGroup(h.bufs, h.offloaded));
    FreeKeeps(h, pushed, h.offloaded);
    if h.offloaded < cfg.groups - 1 {
      var moved: Option<Handler> :| BulkOffload(freed, h.offloaded + 1, moved)
                   && b == if moved.None? then None else Some(moved.value.(offloaded := h.offloaded + 1));
      assert h.offloaded + 1 !in h.mapping;
      BulkOffloadKeeps(freed, h.offloaded + 1, pushed, moved);
      assert forall k :: k in b.value.mapping <==> k in h.mapping || k == h.offloaded + 1;
    }
  }

  lemma AdvanceKeeps(cfg: Config, h: Handler, pushed: map<Tag, Tensor>, b: Option<Handler>)
    requires cfg.Valid() && Sized(cfg, h) && Tracks(h, pushed) && Untouched(h, pushed)
               && SharedAgree(h.numOffload, pushed)
    requires 0 <= h.current < cfg.layers && Counts(cfg, h.offloaded, h.current)
    requires CopiedUpTo(cfg, h.mapping, h.offloaded)
    requires Advance(h, b)
    ensures b.Some? && Tracks(b.value, pushed) && Untouched(b.value, pushed)
    ensures b.value ==
              h.(states := b.value.states, bufs := b.value.bufs, mapping := b.value.mapping,
                offloaded := b.value.offloaded)
    ensures Counts(cfg, b.value.offloaded, h.current + 1)
    ensures CopiedUpTo(cfg, b.value.mapping, b.value.offloaded)
  {
    hide Tracks, Untouched, SharedAgree, Retire, CopiedUpTo;
    CountsStep(cfg, h.offloaded, h.current);
    if cfg.At(h.offloaded) == h.current {
      RetireKeeps(cfg, h, pushed, b);
    }
  }

  lemma CommitKeeps(cfg: Config, s: Session, r: Option<Handler>)
    requires Inv(cfg, s) && Legal(cfg, s, Commit) && CommitForward(s.h, r)
    ensures r.Some? && Inv(cfg, Session(r.value, s.pushed, false))
  {
    var a: Option<Handler>, b: Option<Handler> :|
      && Kickstart(s.h, a)
      && (if a.None? then b.None? else Advance(a.value, b))
      && r == if b.None? then None else Some(NextGroup(b.value));
    KickstartKeeps(cfg, s, a);
    AdvanceKeeps(cfg, a.value, s.pushed, b);
  }

  // ----- backward commits -----

  lemma BulkReloadKeeps(h: Handler, g: int, pushed: map<Tag, Tensor>)
    requires Tracks(h, pushed) && g in h.mapping && g < h.numOffload
    ensures BulkReload(h, g).Some? && Tracks(BulkReload(h, g).value, pushed)
  {
    forall tag | tag in h.states
      ensures tag.group == g ==> Reloadable(h.states[tag], h.mapping[g])
    {
      assert Stands(h.states[tag], pushed[tag], tag.group, h.mapping);
    }
    var h' := BulkReload(h, g).value;
    forall tag | tag in pushed
      ensures Stands(h'.states[tag], pushed[tag], tag.group, h'.mapping)
    {
      assert Stands(h.states[tag], pushed[tag], tag.group, h.mapping);
    }
  }

  /** What the counter and the host copies look like before the commit that returns to group c. */
  ghost predicate Entering(cfg: Config, h: Handler)
    requires cfg.Valid()
  {
    && 0 <= h.current < cfg.layers && 1 <= h.offloaded <= cfg.groups
    && (h.offloaded > 1 ==> cfg.At(h.offloaded - 1) <= h.current)
    && (h.offloaded < cfg.groups ==> cfg.At(h.offloaded) > h.current)
    && (forall k :: k in h.mapping <==> 0 <= k < cfg.groups && cfg.At(k) <= h.current)
  }

  lemma CommitBackEnters(cfg: Config, s: Session)
    requires Inv(cfg, s) && Legal(cfg, s, CommitBack)
    ensures Entering(cfg, s.h.(current := s.h.current - 1))
  {
    if !s.backward {
      WindowLast(cfg.layers, cfg.groups);
      forall k | 0 <= k < cfg.groups
        ensures cfg.At(k) < cfg.layers
      {
        WindowIncreasing(cfg.layers, cfg.groups, k, cfg.groups - 1);
      }
    }
  }

  /** Exactly the group whose window is this commit is reloaded. */
  lemma PrefetchKeeps(cfg: Config, h: Handler, pushed: map<Tag, Tensor>)
    requires cfg.Valid() && Sized(cfg, h) && Tracks(h, pushed) && Entering(cfg, h)
    ensures Prefetch(h).Some? && Tracks(Prefetch(h).value, pushed)
    ensures var h' := Prefetch(h).value;
            && h'.current == h.current && Sized(cfg, h') && 1 <= h'.offloaded <= cfg.groups
            && (h'.offloaded > 1 ==> cfg.At(h'.offloaded - 1) < h.current)
            && (h'.offloaded < cfg.groups ==> cfg.At(h'.offloaded) >= h.current)
            && (forall k :: k in h'.mapping <==> 0 <= k < cfg.groups && cfg.At(k) < h.current)
  {
    var n := h.offloaded - 1;
    forall k | 0 <= k < cfg.groups
      ensures k < n ==> cfg.At(k) < cfg.At(n)
      ensures k > n ==> cfg.At(k) > h.current
    {
      if k < n {
        WindowIncreasing(cfg.layers, cfg.groups, k, n);
      } else if k > n {
        WindowIncreasing(cfg.layers, cfg.groups, n + 1, k);
      }
    }
    if cfg.At(n) == h.current {
      BulkReloadKeeps(h, n, pushed);
    }
  }

  lemma InvFacts(cfg: Config, s: Session)
    requires Inv(cfg, s)
    ensures cfg.Valid() && Sized(cfg, s.h) && Tracks(s.h, s.pushed)
  {
  }

  lemma EnteringCurrent(cfg: Config, h: Handler)
    requires cfg.Valid() && Entering(cfg, h)
    ensures 0 <= h.current < cfg.layers
  {
  }

  lemma TracksEntering(s: Session)
    requires Tracks(s.h, s.pushed)
    ensures Tracks(s.h.(current := s.h.current - 1), s.pushed)
  {
  }

  lemma PrefetchedInv(cfg: Config, s: Session, h: Handler)
    requires cfg.Valid() && Sized(cfg, h) && Tracks(h, s.pushed)
    requires 0 <= h.current < cfg.layers && 1 <= h.offloaded <= cfg.groups
    requires h.offloaded > 1 ==> cfg.At(h.offloaded - 1) < h.current
    requires h.offloaded < cfg.groups ==> cfg.At(h.offloaded) >= h.current
    requires forall k :: k in h.mapping <==> 0 <= k < cfg.groups && cfg.At(k) < h.current
    ensures Inv(cfg, Session(if h.current == 0 then h.(offloaded := 0) else h, s.pushed, true))
  {
  }

  lemma CommitBackKeeps(cfg: Config, s: Session)
    requires Inv(cfg, s) && Legal(cfg, s, CommitBack)
    ensures CommitBackward(s.h).Some? && Inv(cfg, Session(CommitBackward(s.h).value, s.pushed, true))
  {
    hide Tracks, Prefetch, Inv, Legal, Entering;
    var entering := s.h.(current := s.h.current - 1);
    CommitBackEnters(cfg, s);
    InvFacts(cfg, s);
    TracksEntering(s);
    EnteringCurrent(cfg, entering);
    PrefetchKeeps(cfg, entering, s.pushed);
    PrefetchedInv(cfg, s, Prefetch(entering).value);
  }

  /** Out of order, too, the handler's assertions guard what is saved: a push never replaces a saved tensor, a tag
      is popped once, and no commit goes back before the first group. */
  lemma GuardsHold(h: Handler, t: Tensor, tag: Tag)
    ensures Push(h, t).Some? ==> forall x :: x in h.states ==>
              x in Push(h, t).value.0.states && Push(h, t).value.0.states[x] == h.states[x]
    ensures Pop(h, tag).Some? ==> tag in h.states && Pop(Pop(h, tag).value.0, tag).None?
    ensures h.current <= 0 ==> CommitBackward(h).None?
  {
  }

  /** Going back, a commit raises exactly when there is no group left to go back to. */
  lemma CommitBackRaises(cfg: Config, s: Session)
    requires Inv(cfg, s) && s.backward
    ensures CommitBackward(s.h).None? <==> s.h.current == 0
  {
    if s.h.current > 0 {
      CommitBackKeeps(cfg, s);
    }
  }

  // ----- whole runs -----

  lemma SessionFacts(cfg: Config, s: Session)
    requires Inv(cfg, s)
    ensures s.backward ==> s.h.current < cfg.layers
  {
  }

  /** In a legal order nothing raises, and every operation keeps the invariant. */
  lemma StepKeeps(cfg: Config, s: Session, e: Event)
    requires Inv(cfg, s) && Legal(cfg, s, e)
    ensures !Raises(s, e)
    ensures forall s' :: Step(s, e, s') ==> Inv(cfg, s')
  {
    hide CommitForward, CommitBackward, Push, Pop, Inv;
    SessionFacts(cfg, s);
    match e
    case Save(t) => SaveKeeps(cfg, s, t);
    case Restore(tag) => RestoreReturns(cfg, s, tag);
    case CommitBack => CommitBackKeeps(cfg, s);
    case Commit =>
      forall r | CommitForward(s.h, r)
        ensures r.Some? && Inv(cfg, Session(r.value, s.pushed, false))
      {
        CommitKeeps(cfg, s, r);
      }
  }

  /** A group can always be moved, or the move raises. */
  lemma OffloadExists(h: Handler, g: int) returns (r: Option<Handler>)
    ensures BulkOffload(h, g, r)
  {
    if AllLive(h.states, g) {
      var keys := set tag | tag in h.states && tag.group == g :: h.states[tag].tensor.Key();
      var copies := map key | key in keys ::
        (var tag :| tag in h.states && tag.group == g && h.states[tag].tensor.Key() == key;
         BackupOf(h.states[tag].tensor));
      CopiesFrom(h.states, g, copies);
      r := Some(h.(states := MoveGroup(h.states, g), mapping := h.mapping[g := copies]));
    } else {
      r := None;
    }
  }

  lemma CopiesFrom(states: map<Tag, Saved>, g: int, copies: map<Key, Backup>)
    requires AllLive(states, g)
    requires copies.Keys == set tag | tag in states && tag.group == g :: states[tag].tensor.Key()
    requires forall key :: key in copies ==> exists tag :: tag in states && tag.group == g
                                                           && states[tag].tensor.Key() == key
                                                           && copies[key] == BackupOf(states[tag].tensor)
    ensures Copies(states, g, copies)
  {
  }

  lemma CommitExists(h: Handler) returns (r: Option<Handler>)
    ensures CommitForward(h, r)
  {
    hide BulkOffload;
    var a: Option<Handler> := Some(h);
    if h.current == 0 {
      a := OffloadExists(h, 0);
    }
    var b: Option<Handler> := None;
    if a.Some? {
      b := AdvanceExists(a.value);
    }
    r := if b.None? then None else Some(NextGroup(b.value));
    assert Kickstart(h, a) && if a.None? then b.None? else Advance(a.value, b);
  }

  lemma AdvanceExists(h: Handler) returns (b: Option<Handler>)
    ensures Advance(h, b)
  {
    hide BulkOffload;
    b := if WindowAt(h, h.offloaded).None? then None else Some(h);
    if WindowAt(h, h.offloaded) == Some(h.current) {
      var freed := h.(bufs := FreeGroup(h.bufs, h.offloaded));
      b := Some(freed.(offloaded := h.offloaded + 1));
      if h.offloaded < h.numOffload - 1 {
        var moved := OffloadExists(freed, h.offloaded + 1);
        b := if moved.None? then None else Some(moved.value.(offloaded := h.offloaded + 1));
      }
    }
  }

  /** Every legal operation can be performed, so the statements about runs are about some run. */
  lemma LegalSteps(cfg: Config, s: Session, e: Event) returns (s': Session)
    requires Inv(cfg, s) && Legal(cfg, s, e)
    ensures Step(s, e, s') && Inv(cfg, s')
  {
    hide CommitForward, CommitBackward, Push, Pop, Inv, Legal;
    StepKeeps(cfg, s, e);
    match e
    case Save(t) =>
      var (h, tag) := Push(s.h, t).value;
      s' := Session(h, s.pushed[tag := t], s.backward);
    case Restore(tag) => s' := Session(Pop(s.h, tag).value.0, s.pushed - {tag}, s.backward);
    case CommitBack => s' := Session(CommitBackward(s.h).value, s.pushed, true);
    case Commit =>
      var r := CommitExists(s.h);
      s' := Session(if r.Some? then r.value else s.h, s.pushed, false);
  }

  /** A legal run from a handler between training steps. */
  ghost predicate TrainingRun(cfg: Config, states: seq<Session>, events: seq<Event>) {
    && cfg.Valid() && |states| == |events| + 1
    && Idle(cfg, states[0].h) && states[0].pushed == map[] && !states[0].backward
    && forall i :: 0 <= i < |events| ==> Legal(cfg, states[i], events[i]) && Step(states[i], events[i], states[i + 1])
  }

  lemma {:induction false} TrainingRunInv(cfg: Config, states: seq<Session>, events: seq<Event>, i: nat)
    requires TrainingRun(cfg, states, events) && i < |states|
    ensures Inv(cfg, states[i])
    decreases i
  {
    hide Inv, Legal, Step, Raises;
    if i == 0 {
      StartInv(cfg, states[0].h);
    } else {
      TrainingRunInv(cfg, states, events, i - 1);
      assert Legal(cfg, states[i - 1], events[i - 1]) && Step(states[i - 1], events[i - 1], states[i]);
      StepKeeps(cfg, states[i - 1], events[i - 1]);
    }
  }

  /** The round trip: along every run no assertion fails and no key is missing; every tensor comes
      back as it was pushed; and a completed run leaves the handler ready for the next step. */
  lemma OffloadRoundTrip(cfg: Config, states: seq<Session>, events: seq<Event>)
    requires TrainingRun(cfg, states, events)
    ensures forall i, e :: 0 <= i < |states| && Legal(cfg, states[i], e) ==> !Raises(states[i], e)
    ensures forall i, tag :: 0 <= i < |states| && Legal(cfg, states[i], Restore(tag)) ==>
              Pop(states[i].h, tag).Some? && Pop(states[i].h, tag).value.1.SameValue(states[i].pushed[tag])
    ensures var last := states[|states| - 1];
            last.backward && last.h.current == 0 && last.pushed == map[] ==> Idle(cfg, last.h)
  {
    hide Inv, Step, Raises;
    forall i, e | 0 <= i < |states| && Legal(cfg, states[i], e)
      ensures !Raises(states[i], e)
    {
      TrainingRunInv(cfg, states, events, i);
      StepKeeps(cfg, states[i], e);
    }
    forall i, tag | 0 <= i < |states| && Legal(cfg, states[i], Restore(tag))
      ensures Pop(states[i].h, tag).Some? && Pop(states[i].h, tag).value.1.SameValue(states[i].pushed[tag])
    {
      TrainingRunInv(cfg, states, events, i);
      RestoreReturns(cfg, states[i], tag);
    }
    var last := states[|states| - 1];
    TrainingRunInv(cfg, states, events, |states| - 1);
    if last.backward && last.h.current == 0 && last.pushed == map[] {
      EndIdle(cfg, last);
    }
  }

  // ----- shared copies: exactly when they are harmless -----

  /** Views of the same memory within a group agree on their row-major contents. */
  ghost predicate GroupAgrees(states: map<Tag, Saved>, g: int) {
    forall a, b :: a in states && b in states && a.group == g && b.group == g
                   && states[a].Live? && states[b].Live? && states[a].tensor.SharesWith(states[b].tensor) ==>
      states[a].tensor.data == states[b].tensor.data
  }

  ghost predicate GroupRestored(before: map<Tag, Saved>, g: int, after: Option<Handler>) {
    after.Some? && forall tag :: tag in before && tag.group == g ==>
      before[tag].Live? && tag in after.value.states && after.value.states[tag].Live?
      && after.value.states[tag].tensor.SameValue(before[tag].tensor)
  }

  lemma RestoredAgrees(h: Handler, g: int, moved: Handler)
    requires BulkOffload(h, g, Some(moved)) && g < h.numOffload && GroupRestored(h.states, g, BulkReload(moved, g))
    ensures GroupAgrees(h.states, g)
  {
    var copies := moved.mapping[g];
    var back := BulkReload(moved, g);
    forall a, b | a in h.states && b in h.states && a.group == g && b.group == g
                  && h.states[a].Live? && h.states[b].Live? && h.states[a].tensor.SharesWith(h.states[b].tensor)
      ensures h.states[a].tensor.data == h.states[b].tensor.data
    {
      assert back.value.states[a].tensor.data == copies[h.states[a].tensor.Key()].data;
      assert back.value.states[b].tensor.data == copies[h.states[b].tensor.Key()].data;
    }
  }

  lemma CopyAgrees(h: Handler, g: int, moved: Handler, tag: Tag)
    requires BulkOffload(h, g, Some(moved)) && GroupAgrees(h.states, g) && tag in h.states && tag.group == g
    requires h.states[tag].Live? && h.states[tag].tensor.WellFormed()
    ensures Reloadable(moved.states[tag], moved.mapping[g])
    ensures moved.mapping[g][h.states[tag].tensor.Key()].data == h.states[tag].tensor.data
  {
    var t, copies := h.states[tag].tensor, moved.mapping[g];
    assert t.Key() in copies;
    var other :| other in h.states && other.group == g && h.states[other].Live?
                 && h.states[other].tensor.Key() == t.Key() && copies[t.Key()] == BackupOf(h.states[other].tensor);
    assert h.states[other].tensor.SharesWith(t);
  }

  /** Moving a group out and back restores it exactly when its shared views agree: one copy is kept
      per address and dtype, and it is re-viewed in the shape of each tensor. */
  lemma GroupRoundTripExact(h: Handler, g: int, moved: Handler)
    requires forall tag :: tag in h.states && tag.group == g ==>
               h.states[tag].Live? && h.states[tag].tensor.WellFormed()
    requires BulkOffload(h, g, Some(moved)) && g < h.numOffload
    ensures GroupRestored(h.states, g, BulkReload(moved, g)) <==> GroupAgrees(h.states, g)
  {
    var copies := moved.mapping[g];
    var back := BulkReload(moved, g);
    if GroupRestored(h.states, g, back) {
      RestoredAgrees(h, g, moved);
    }
    if GroupAgrees(h.states, g) {
      forall tag | tag in h.states && tag.group == g
        ensures Reloadable(moved.states[tag], copies)
                  && copies[h.states[tag].tensor.Key()].data == h.states[tag].tensor.data
      {
        CopyAgrees(h, g, moved, tag);
      }
      RestoredByCopies(h, g, moved);
    }
  }

  lemma RestoredByCopies(h: Handler, g: int, moved: Handler)
    requires forall tag :: tag in h.states && tag.group == g ==> h.states[tag].Live?
    requires BulkOffload(h, g, Some(moved)) && g < h.numOffload
    requires var copies := moved.mapping[g];
             forall tag :: tag in h.states && tag.group == g ==>
               Reloadable(moved.states[tag], copies)
               && copies[h.states[tag].tensor.Key()].data == h.states[tag].tensor.data
    ensures GroupRestored(h.states, g, BulkReload(moved, g))
  {
    var copies := moved.mapping[g];
    forall tag | tag in h.states && tag.group == g
      ensures var t := h.states[tag].tensor; copies[t.Key()].dtype == t.dtype
    {
      var key := h.states[tag].tensor.Key();
      var other :| other in h.states && other.group == g && h.states[other].Live?
                   && h.states[other].tensor.Key() == key && copies[key] == BackupOf(h.states[other].tensor);
    }
  }

  /** A tensor and its transpose share storage, offset and dtype, so saving both in an offloaded
      group loses one of them. */
  lemma TransposeIsLost(h: Handler, moved: Handler)
    requires h.numOffload > 0 && h.states == map[
      Tag(0, 0) := Live(Tensor(64, 0, "float32", [2, 2], [1, 2, 3, 4])),
      Tag(0, 1) := Live(Tensor(64, 0, "float32", [2, 2], [1, 3, 2, 4]))]
    requires BulkOffload(h, 0, Some(moved))
    ensures !GroupRestored(h.states, 0, BulkReload(moved, 0))
  {
    assert Numel([2, 2]) == 4 by {
      assert [2, 2][1..] == [2] && [2][1..] == [];
    }
    assert h.states[Tag(0, 0)].tensor.data[1] != h.states[Tag(0, 1)].tensor.data[1];
    GroupRoundTripExact(h, 0, moved);
  }
}
