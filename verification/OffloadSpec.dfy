/** The bookkeeping of the double-buffered activation offload handler, as values:
    what each operation makes of the handler's dictionaries and counters. */
module OffloadSpec {
  import opened Options
  import opened Arithmetic

  /** A device tensor: where its storage starts, its offset in it, and its row-major contents. */
  datatype Tensor = Tensor(storage: int, offset: int, dtype: string, shape: seq<nat>, data: seq<int>) {
    predicate WellFormed() {
      |data| == Numel(shape)
    }

    /** The key under which views of the same memory share one copy. */
    function Key(): Key {
      UniqueKey(storage + offset, dtype)
    }

    /** Views that begin at the same address with the same element type. */
    predicate SharesWith(t: Tensor) {
      storage + offset == t.storage + t.offset && dtype == t.dtype
    }

    /** Equality of everything a program can read, storage location aside. */
    predicate SameValue(t: Tensor) {
      dtype == t.dtype && shape == t.shape && data == t.data
    }
  }

  datatype Key = UniqueKey(address: int, dtype: string)

  /** The host copy of a tensor. */
  datatype Backup = Backup(dtype: string, shape: seq<nat>, data: seq<int>)

  function BackupOf(t: Tensor): Backup {
    Backup(t.dtype, t.shape, t.data)
  }

  /** A saved activation: still a tensor, or a key into its group's host copies. */
  datatype Saved = Live(tensor: Tensor) | Moved(key: Key, shape: seq<nat>)

  datatype Tag = Tag(group: int, index: nat)

  /** What a push hands to autograd: a tag, or the tensor itself when it is not managed. */
  datatype Handle = Tagged(tag: Tag) | Bare(tensor: Tensor)

  datatype Handler = Handler(
    numOffload: nat, numLayers: nat,
    current: int, count: nat, offloaded: int,
    states: map<Tag, Saved>,
    bufs: map<Tag, Option<Tensor>>,
    mapping: map<int, map<Key, Backup>>)

  // ----- the window map -----

  /** The group whose forward commit retires offload group i. */
  function Window(layers: nat, groups: nat, i: nat): int
    requires groups > 0
  {
    (layers / groups) * (i + 1) - 1 + Min(i + 1, layers % groups)
  }

  lemma WindowLast(layers: nat, groups: nat)
    requires 1 <= groups <= layers
    ensures Window(layers, groups, groups - 1) == layers - 1
  {
  }

  lemma WindowStep(layers: nat, groups: nat, i: nat)
    requires 1 <= groups <= layers && i + 1 < groups
    ensures Window(layers, groups, i) < Window(layers, groups, i + 1)
  {
    var q := layers / groups;
    assert q >= 1;
    assert q * (i + 2) == q * (i + 1) + q;
  }

  /** Strictly increasing, and entry i is at least i. */
  lemma {:induction false} WindowIncreasing(layers: nat, groups: nat, i: nat, j: nat)
    requires 1 <= groups <= layers && i <= j < groups
    ensures Window(layers, groups, i) + (j - i) <= Window(layers, groups, j)
    ensures i <= Window(layers, groups, i)
    decreases j
  {
    if i < j {
      WindowIncreasing(layers, groups, i, j - 1);
      WindowStep(layers, groups, j - 1);
    } else if i > 0 {
      WindowIncreasing(layers, groups, 0, i - 1);
      WindowIncreasing(layers, groups, i - 1, i - 1);
      WindowStep(layers, groups, i - 1);
    } else {
      assert layers / groups >= 1;
    }
  }

  /** The layers from the last retirement on, up to the one that retires group i. */
  function Span(layers: nat, groups: nat, i: nat): int
    requires groups > 0
  {
    Window(layers, groups, i) - if i == 0 then -1 else Window(layers, groups, i - 1)
  }

  /** The layers are spread evenly over the offload groups: no two spans differ by more than one, and the
      longer ones come first. */
  lemma WindowBalanced(layers: nat, groups: nat, i: nat, j: nat)
    requires groups > 0 && i <= j < groups
    ensures 0 <= Span(layers, groups, i) - Span(layers, groups, j) <= 1
  {
    SpanIs(layers, groups, i);
    SpanIs(layers, groups, j);
  }

  lemma SpanIs(layers: nat, groups: nat, i: nat)
    requires groups > 0
    ensures Span(layers, groups, i) == layers / groups + if i < layers % groups then 1 else 0
  {
    var q := layers / groups;
    assert q * (i + 1) == q * i + q;
  }

  /** A group is moved only once it has been pushed, unless every group is offloaded. */
  lemma WindowLate(layers: nat, groups: nat, i: nat)
    requires 1 <= groups < layers && i < groups
    ensures i + 1 <= Window(layers, groups, i)
  {
    var q, rem := layers / groups, layers % groups;
    assert layers == q * groups + rem;
    if q == 1 {
      assert rem >= 1;
    } else {
      assert q >= 2;
      assert q * (i + 1) >= 2 * (i + 1);
    }
  }

  /** One group fewer than layers, as installed: group k is retired by commit k + 1. */
  lemma WindowInstalled(layers: nat, i: nat)
    requires layers >= 2 && i < layers - 1
    ensures Window(layers, layers - 1, i) == i + 1
  {
    if layers > 2 {
      assert layers / (layers - 1) == 1;
      assert layers % (layers - 1) == 1;
    }
  }

  // ----- the operations; None where the source raises -----

  function Push(h: Handler, t: Tensor): Option<(Handler, Tag)> {
    var tag := Tag(h.current, h.count);
    if tag in h.states then None
    else
      Some((h.(count := h.count + 1,
               states := h.states[tag := Live(t)],
               bufs := if h.current < h.numOffload then h.bufs[tag := Some(t)] else h.bufs),
            tag))
  }

  function Pop(h: Handler, tag: Tag): Option<(Handler, Tensor)> {
    if tag !in h.states || h.states[tag].Moved? then None
    else Some((h.(states := h.states - {tag}, bufs := h.bufs - {tag}), h.states[tag].tensor))
  }

  function MoveOne(s: Saved): Saved {
    match s case Live(t) => Moved(t.Key(), t.shape) case Moved(_, _) => s
  }

  function MoveGroup(states: map<Tag, Saved>, g: int): (r: map<Tag, Saved>)
    ensures r.Keys == states.Keys
  {
    map tag | tag in states :: if tag.group == g then MoveOne(states[tag]) else states[tag]
  }

  /** One host copy per key, each of some tensor of the group with that key. */
  ghost predicate Copies(states: map<Tag, Saved>, g: int, copies: map<Key, Backup>) {
    && (forall tag :: tag in states && tag.group == g && states[tag].Live? ==> states[tag].tensor.Key() in copies)
    && (forall key :: key in copies ==>
          exists tag :: tag in states && tag.group == g && states[tag].Live?
                        && states[tag].tensor.Key() == key && copies[key] == BackupOf(states[tag].tensor))
  }

  ghost predicate AllLive(states: map<Tag, Saved>, g: int) {
    forall tag :: tag in states && tag.group == g ==> states[tag].Live?
  }

  /** `bulk_offload_group`: which tensor of those sharing a key is copied is left open. */
  ghost predicate BulkOffload(h: Handler, g: int, r: Option<Handler>) {
    if AllLive(h.states, g) then
      && r.Some?
      && g in r.value.mapping && Copies(h.states, g, r.value.mapping[g])
      && r.value == h.(states := MoveGroup(h.states, g), mapping := h.mapping[g := r.value.mapping[g]])
    else r.None?
  }

  function FreeGroup(bufs: map<Tag, Option<Tensor>>, g: int): (r: map<Tag, Option<Tensor>>)
    ensures r.Keys == bufs.Keys
  {
    map tag | tag in bufs :: if tag.group == g then None else bufs[tag]
  }

  ghost predicate Kickstart(h: Handler, r: Option<Handler>) {
    if h.current == 0 then BulkOffload(h, 0, r) else r == Some(h)
  }

  /** `layer_window_map[i]`, None on a missing key. */
  function WindowAt(h: Handler, i: int): Option<int> {
    if 0 <= i < h.numOffload then Some(Window(h.numLayers, h.numOffload, i)) else None
  }

  function NextGroup(h: Handler): Handler {
    h.(current := h.current + 1, count := 0)
  }

  ghost predicate Retire(h: Handler, r: Option<Handler>) {
    var freed := h.(bufs := FreeGroup(h.bufs, h.offloaded));
    if h.offloaded < h.numOffload - 1 then
      exists moved: Option<Handler> :: BulkOffload(freed, h.offloaded + 1, moved)
                      && r == if moved.None? then None else Some(moved.value.(offloaded := h.offloaded + 1))
    else r == Some(freed.(offloaded := h.offloaded + 1))
  }

  ghost predicate Advance(h: Handler, r: Option<Handler>) {
    match WindowAt(h, h.offloaded)
    case None => r.None?
    case Some(w) => if w == h.current then Retire(h, r) else r == Some(h)
  }

  /** `on_group_commit_forward`. */
  ghost predicate CommitForward(h: Handler, r: Option<Handler>) {
    exists a: Option<Handler>, b: Option<Handler> ::
      && Kickstart(h, a)
      && (if a.None? then b.None? else Advance(a.value, b))
      && r == if b.None? then None else Some(NextGroup(b.value))
  }

  predicate Reloadable(s: Saved, copies: map<Key, Backup>) {
    s.Moved? ==> s.key in copies && |copies[s.key].data| == Numel(s.shape)
  }

  /** `.view(shape)` of the reloaded copy; where it is allocated is never looked at again. */
  function ReloadOne(s: Saved, copies: map<Key, Backup>): Saved
    requires Reloadable(s, copies)
  {
    match s
    case Live(_) => s
    case Moved(key, shape) => Live(Tensor(0, 0, copies[key].dtype, shape, copies[key].data))
  }

  ghost predicate GroupReloadable(states: map<Tag, Saved>, g: int, copies: map<Key, Backup>) {
    forall tag :: tag in states && tag.group == g ==> Reloadable(states[tag], copies)
  }

  ghost function ReloadGroup(states: map<Tag, Saved>, g: int, copies: map<Key, Backup>): (r: map<Tag, Saved>)
    requires GroupReloadable(states, g, copies)
    ensures r.Keys == states.Keys
  {
    map tag | tag in states :: if tag.group == g then ReloadOne(states[tag], copies) else states[tag]
  }

  /** `bulk_reload_group`. */
  ghost function BulkReload(h: Handler, g: int): Option<Handler> {
    if g < h.numOffload && g in h.mapping && GroupReloadable(h.states, g, h.mapping[g]) then
      Some(h.(states := ReloadGroup(h.states, g, h.mapping[g]), mapping := h.mapping - {g}))
    else None
  }

  ghost function Prefetch(h: Handler): Option<Handler> {
    match WindowAt(h, h.offloaded - 1)
    case None => None
    case Some(w) =>
      if w != h.current then Some(h)
      else
        match BulkReload(h, h.offloaded - 1)
        case None => None
        case Some(h') => Some(h'.(offloaded := if h.offloaded > 1 then h.offloaded - 1 else h.offloaded))
  }

  /** `on_group_commit_backward`. */
  ghost function CommitBackward(h: Handler): Option<Handler> {
    if h.current - 1 < 0 then None
    else
      match Prefetch(h.(current := h.current - 1))
      case None => None
      case Some(h') => Some(if h'.current == 0 then h'.(offloaded := 0) else h')
  }
}
