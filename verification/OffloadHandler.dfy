/** The asynchronous double-buffer offload handler: the object, its fields and its loops,
    each method tied to the operation it performs on the handler's value. */
module OffloadHandler {
  import opened Options
  import opened Arithmetic
  import opened OffloadSpec

  class AsyncDoubleBufferHandler {
    const numOffloadGroup: nat
    const numLayers: nat
    var layerWindowMap: map<int, int>
    var currentGroup: int
    var tensorCount: nat
    var offloadedGroupCount: int
    var tensorTagToState: map<Tag, Saved>
    var tensorTagToBuf: map<Tag, Option<Tensor>>
    var groupOffloadMapping: map<int, map<Key, Backup>>

    /** The window map has the closed form of the specification. */
    ghost predicate Valid()
      reads this`layerWindowMap
    {
      && (forall k :: k in layerWindowMap <==> 0 <= k < numOffloadGroup)
      && (forall k :: 0 <= k < numOffloadGroup ==> layerWindowMap[k] == Window(numLayers, numOffloadGroup, k))
    }

    ghost function Value(): Handler
      reads this
    {
      Handler(numOffloadGroup, numLayers, currentGroup, tensorCount, offloadedGroupCount,
              tensorTagToState, tensorTagToBuf, groupOffloadMapping)
    }

    constructor (numOffload: nat, numModel: nat)
      ensures Valid() && numOffloadGroup == numOffload && numLayers == numModel
      ensures Value() == Handler(numOffload, numModel, 0, 0, 0, map[], map[], map[])
    {
      numOffloadGroup, numLayers := numOffload, numModel;
      currentGroup, tensorCount, offloadedGroupCount := 0, 0, 0;
      tensorTagToState, tensorTagToBuf, groupOffloadMapping := map[], map[], map[];
      layerWindowMap := map[];
      new;
      var constant := 0;
      for i := 0 to numOffload
        invariant forall k :: k in layerWindowMap <==> 0 <= k < i
        invariant forall k :: 0 <= k < i ==> layerWindowMap[k] == Window(numModel, numOffload, k)
        invariant numOffload > 0 ==> constant == Min(i, numModel % numOffload)
        invariant Value() == Handler(numOffload, numModel, 0, 0, 0, map[], map[], map[])
      {
        var window := (numModel / numOffload) * (i + 1) - 1;
        if i < numModel % numOffload {
          window := window + i + 1;
          constant := i + 1;
        } else {
          window := window + constant;
        }
        layerWindowMap := layerWindowMap[i := window];
      }
    }

    /** `needOffload` is the checker's verdict; a tensor it rejects is handed back as its own tag. */
    method TensorPush(tensor: Tensor, needOffload: bool) returns (r: Option<Handle>)
      modifies this`tensorCount, this`tensorTagToState, this`tensorTagToBuf
      ensures !needOffload ==> r == Some(Bare(tensor)) && Value() == old(Value())
      ensures needOffload ==>
                match Push(old(Value()), tensor)
                case None => r.None?
                case Some((h, tag)) => r == Some(Tagged(tag)) && Value() == h
    {
      if !needOffload {
        return Some(Bare(tensor));
      }
      var tag := Tag(currentGroup, tensorCount);
      tensorCount := tensorCount + 1;
      if tag in tensorTagToState {
        return None;
      }
      tensorTagToState := tensorTagToState[tag := Live(tensor)];
      if currentGroup < numOffloadGroup {
        tensorTagToBuf := tensorTagToBuf[tag := Some(tensor)];
      }
      return Some(Tagged(tag));
    }

    method TensorPop(handle: Handle) returns (r: Option<Tensor>)
      modifies this`tensorTagToState, this`tensorTagToBuf
      ensures handle.Bare? ==> r == Some(handle.tensor) && Value() == old(Value())
      ensures handle.Tagged? ==>
                match Pop(old(Value()), handle.tag)
                case None => r.None?
                case Some((h, t)) => r == Some(t) && Value() == h
    {
      match handle
      case Bare(tensor) => return Some(tensor);
      case Tagged(tag) =>
        if tag !in tensorTagToState {
          return None;
        }
        var state := tensorTagToState[tag];
        tensorTagToState := tensorTagToState - {tag};
        tensorTagToBuf := tensorTagToBuf - {tag};
        match state
        case Moved(_, _) => return None;
        case Live(tensor) => return Some(tensor);
    }

    /** One pass over the saved tensors: every one of the group is replaced by its key, and the
        first tensor seen under a key is remembered. */
    method MoveTags(g: int) returns (ok: bool, firsts: map<Key, Tensor>)
      modifies this`tensorTagToState
      ensures ok <==> AllLive(old(tensorTagToState), g)
      ensures ok ==> Scanned(old(tensorTagToState), g, tensorTagToState, {}, firsts)
    {
      hide Scanned;
      ghost var before := tensorTagToState;
      firsts := map[];
      var todo := tensorTagToState.Keys;
      ScanStart(before, g);
      while todo != {}
        invariant Scanned(before, g, tensorTagToState, todo, firsts)
        invariant todo <= before.Keys && tensorTagToState.Keys == before.Keys
        decreases |todo|
      {
        var tag :| tag in todo;
        ScanOne(before, g, tensorTagToState, todo, firsts, tag);
        if tag.group == g {
          if tensorTagToState[tag].Moved? {
            assert !AllLive(before, g);
            return false, firsts;
          }
          var tensor := tensorTagToState[tag].tensor;
          var key := tensor.Key();
          if key !in firsts {
            firsts := firsts[key := tensor];
          }
          tensorTagToState := tensorTagToState[tag := Moved(key, tensor.shape)];
        }
        todo := todo - {tag};
      }
      ScanEnd(before, g, tensorTagToState, firsts);
      return true, firsts;
    }

    method CopyToHost(firsts: map<Key, Tensor>) returns (copies: map<Key, Backup>)
      ensures copies.Keys == firsts.Keys
      ensures forall key :: key in copies ==> copies[key] == BackupOf(firsts[key])
    {
      copies := map[];
      var keys := firsts.Keys;
      while keys != {}
        invariant keys <= firsts.Keys && copies.Keys == firsts.Keys - keys
        invariant forall key :: key in copies ==> copies[key] == BackupOf(firsts[key])
        decreases |keys|
      {
        var key :| key in keys;
        copies := copies[key := BackupOf(firsts[key])];
        keys := keys - {key};
      }
    }

    method BulkOffloadGroup(g: int) returns (ok: bool)
      modifies this`tensorTagToState, this`groupOffloadMapping
      ensures BulkOffload(old(Value()), g, if ok then Some(Value()) else None)
    {
      ghost var before := tensorTagToState;
      var firsts;
      ok, firsts := MoveTags(g);
      if !ok {
        return;
      }
      var copies := CopyToHost(firsts);
      groupOffloadMapping := groupOffloadMapping[g := copies];
      assert tensorTagToState == MoveGroup(before, g);
      CopiesOfFirsts(before, g, tensorTagToState, firsts, copies);
    }

    /** The tags already visited carry a key, and every key visited has its first tensor. */
    static ghost predicate Scanned(before: map<Tag, Saved>, g: int, now: map<Tag, Saved>, todo: set<Tag>,
                                   firsts: map<Key, Tensor>)
    {
      && now.Keys == before.Keys
      && (forall tag :: tag in before ==>
            now[tag] == if tag !in todo && tag.group == g then MoveOne(before[tag]) else before[tag])
      && (forall tag :: tag in before && tag !in todo && tag.group == g ==>
            before[tag].Live? && before[tag].tensor.Key() in firsts)
      && (forall key :: key in firsts ==> FirstOf(before, g, key, firsts[key]))
    }

    static ghost predicate FirstOf(before: map<Tag, Saved>, g: int, key: Key, t: Tensor) {
      t.Key() == key && exists tag :: tag in before && tag.group == g && before[tag] == Live(t)
    }

    static lemma ScanStart(before: map<Tag, Saved>, g: int)
      ensures Scanned(before, g, before, before.Keys, map[])
    {
    }

    static lemma ScanEnd(before: map<Tag, Saved>, g: int, now: map<Tag, Saved>, firsts: map<Key, Tensor>)
      requires Scanned(before, g, now, {}, firsts)
      ensures AllLive(before, g)
    {
    }

    static lemma ScanOne(before: map<Tag, Saved>, g: int, now: map<Tag, Saved>, todo: set<Tag>,
                         firsts: map<Key, Tensor>, tag: Tag)
      requires Scanned(before, g, now, todo, firsts) && tag in todo && tag in before
      ensures tag in now && now[tag] == before[tag]
      ensures tag.group != g ==> Scanned(before, g, now, todo - {tag}, firsts)
      ensures tag.group == g && now[tag].Live? ==>
                var t := now[tag].tensor;
                var firsts' := if t.Key() in firsts then firsts else firsts[t.Key() := t];
                Scanned(before, g, now[tag := Moved(t.Key(), t.shape)], todo - {tag}, firsts')
    {
    }

    static lemma CopiesOfFirsts(before: map<Tag, Saved>, g: int, now: map<Tag, Saved>, firsts: map<Key, Tensor>,
                                copies: map<Key, Backup>)
      requires Scanned(before, g, now, {}, firsts)
      requires copies.Keys == firsts.Keys && forall key :: key in copies ==> copies[key] == BackupOf(firsts[key])
      ensures AllLive(before, g) && Copies(before, g, copies)
    {
      forall key | key in copies
        ensures exists tag :: tag in before && tag.group == g && before[tag].Live?
                              && before[tag].tensor.Key() == key && copies[key] == BackupOf(before[tag].tensor)
      {
        assert FirstOf(before, g, key, firsts[key]);
      }
    }

    method FreeBuffers(g: int)
      modifies this`tensorTagToBuf
      ensures tensorTagToBuf == FreeGroup(old(tensorTagToBuf), g)
    {
      var todo := tensorTagToBuf.Keys;
      while todo != {}
        invariant todo <= tensorTagToBuf.Keys == old(tensorTagToBuf).Keys
        invariant forall tag :: tag in tensorTagToBuf ==>
                    tensorTagToBuf[tag] == if tag !in todo && tag.group == g then None else old(tensorTagToBuf)[tag]
        decreases |todo|
      {
        var tag :| tag in todo;
        if tag.group == g {
          tensorTagToBuf := tensorTagToBuf[tag := None];
        }
        todo := todo - {tag};
      }
    }

    /** The part of the forward synchronisation that consults the window map. */
    method AdvanceWindow() returns (ok: bool)
      requires Valid()
      modifies this`offloadedGroupCount, this`tensorTagToBuf, this`tensorTagToState, this`groupOffloadMapping
      ensures Advance(old(Value()), if ok then Some(Value()) else None)
    {
      if offloadedGroupCount !in layerWindowMap {
        return false;
      }
      if layerWindowMap[offloadedGroupCount] == currentGroup {
        FreeBuffers(offloadedGroupCount);
        ghost var freed := Value();
        if offloadedGroupCount < numOffloadGroup - 1 {
          ok := BulkOffloadGroup(offloadedGroupCount + 1);
          ghost var moved := if ok then Some(Value()) else None;
          assert BulkOffload(freed, freed.offloaded + 1, moved);
          if !ok {
            return;
          }
        }
        offloadedGroupCount := offloadedGroupCount + 1;
      }
      return true;
    }

    method OnGroupCommitForward() returns (ok: bool)
      requires Valid()
      modifies this`currentGroup, this`tensorCount, this`offloadedGroupCount,
               this`tensorTagToBuf, this`tensorTagToState, this`groupOffloadMapping
      ensures Valid() && CommitForward(old(Value()), if ok then Some(Value()) else None)
    {
      ghost var start := Value();
      ok := true;
      if currentGroup == 0 {
        ok := BulkOffloadGroup(currentGroup);
      }
      ghost var a := if ok then Some(Value()) else None;
      assert Kickstart(start, a);
      if !ok {
        return;
      }
      ok := AdvanceWindow();
      ghost var b := if ok then Some(Value()) else None;
      assert Advance(a.value, b);
      if !ok {
        return;
      }
      currentGroup := currentGroup + 1;
      tensorCount := 0;
      assert Value() == NextGroup(b.value);
    }

    method BulkReloadGroup(g: int) returns (ok: bool)
      modifies this`tensorTagToState, this`groupOffloadMapping
      ensures match BulkReload(old(Value()), g) case None => !ok case Some(h) => ok && Value() == h
    {
      if g >= numOffloadGroup || g !in groupOffloadMapping {
        return false;
      }
      var copies := groupOffloadMapping[g];
      groupOffloadMapping := groupOffloadMapping - {g};
      ghost var before := tensorTagToState;
      var todo := tensorTagToState.Keys;
      while todo != {}
        invariant todo <= before.Keys && tensorTagToState.Keys == before.Keys
        invariant forall tag :: tag in before && tag !in todo && tag.group == g ==> Reloadable(before[tag], copies)
        invariant forall tag :: tag in before ==>
                    tensorTagToState[tag] == if tag !in todo && tag.group == g then ReloadOne(before[tag], copies)
                      else before[tag]
        invariant groupOffloadMapping == old(groupOffloadMapping) - {g}
        decreases |todo|
      {
        var tag :| tag in todo;
        if tag.group == g && tensorTagToState[tag].Moved? {
          var key, shape := tensorTagToState[tag].key, tensorTagToState[tag].shape;
          if key !in copies || |copies[key].data| != Numel(shape) {
            assert !Reloadable(before[tag], copies);
            return false;
          }
          tensorTagToState := tensorTagToState[tag := Live(Tensor(0, 0, copies[key].dtype, shape, copies[key].data))];
        }
        todo := todo - {tag};
      }
      assert tensorTagToState == ReloadGroup(before, g, copies);
      return true;
    }

    method OnGroupCommitBackward() returns (ok: bool)
      requires Valid()
      modifies this`currentGroup, this`offloadedGroupCount, this`tensorTagToState, this`groupOffloadMapping
      ensures Valid()
      ensures match CommitBackward(old(Value())) case None => !ok case Some(h) => ok && Value() == h
    {
      currentGroup := currentGroup - 1;
      if currentGroup < 0 || offloadedGroupCount - 1 !in layerWindowMap {
        return false;
      }
      if layerWindowMap[offloadedGroupCount - 1] == currentGroup {
        ok := BulkReloadGroup(offloadedGroupCount - 1);
        if !ok {
          return;
        }
        offloadedGroupCount := offloadedGroupCount - if offloadedGroupCount > 1 then 1 else 0;
      }
      if currentGroup == 0 {
        offloadedGroupCount := 0;
      }
      return true;
    }
  }
}
