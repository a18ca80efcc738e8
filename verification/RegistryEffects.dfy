/** What each call on the registry does to the marks of the kernel, to both indexes and to the
    fields of the watches, and exactly when it throws. */
module RegistryEffects {
  import opened EventMask
  import opened EventRecords
  import opened Delivery
  import opened Kernel
  import opened Registry

  // ---------------------------------------------------------------- the words

  /** Every mark but that of `d` is as before. */
  ghost predicate OtherMarksStay(k: Instance, after: Instance, d: int) {
    && (forall x :: x != d ==> (x in after.marks <==> x in k.marks))
    && (forall x :: x != d && x in k.marks ==> after.marks[x] == k.marks[x])
  }

  /** Every watch but that of `path` is as before. */
  ghost predicate OtherPathsStay(s: State, t: State, path: string) {
    && (forall p :: p != path ==> (p in t.paths <==> p in s.paths))
    && (forall p :: p != path && p in s.paths ==> t.paths[p] == s.paths[p])
  }

  /** Every entry of the descriptor index but that of `d` is as before. */
  ghost predicate OtherWatchesStay(s: State, t: State, d: int) {
    && (forall x :: x != d ==> (x in t.watches <==> x in s.watches))
    && (forall x :: x != d && x in s.watches ==> t.watches[x] == s.watches[x])
  }

  // ---------------------------------------------------------------- removing and disabling

  /** Removing a watch throws exactly if the kernel has dropped its mark, and changes nothing then.
      Otherwise the watch is gone from both indexes and its mark from
      the kernel, and nothing else is. */
  lemma RemoveMeans(s: State, path: string)
    requires s.Valid() && path in s.paths
    ensures var (t, outcome) := Remove(s, path);
            var wd := s.paths[path].wd;
            && (outcome.Thrown? <==> wd != NO_WD && wd !in s.kernel.marks)
            && (outcome.Thrown? ==> t == s && outcome.reason == RemovingFailed)
            && (outcome.Done? ==>
                  && path !in t.paths && OtherPathsStay(s, t, path)
                  && wd !in t.watches && OtherWatchesStay(s, t, wd)
                  && wd !in t.kernel.marks && OtherMarksStay(s.kernel, t.kernel, wd)
                  && t.kernel.inodeOf == s.kernel.inodeOf && t.events == s.events && t.open == s.open)
  {
    assert s.PathEntryOk(path);
  }

  /** Removing a stranger takes its path and its descriptor away, whose ever they are, and nothing
      else. */
  lemma RemoveStrangerMeans(s: State, path: string, wd: int)
    requires s.Valid() && RemoveStranger(s, path, wd).1.Done?
    ensures var t := RemoveStranger(s, path, wd).0;
            && path !in t.paths && OtherPathsStay(s, t, path)
            && wd !in t.watches && OtherWatchesStay(s, t, wd)
            && wd !in t.kernel.marks && OtherMarksStay(s.kernel, t.kernel, wd)
            && t.kernel.inodeOf == s.kernel.inodeOf && t.events == s.events && t.open == s.open
  {
    assert forall d :: d in s.watches ==> s.WatchEntryOk(d);
  }

  /** Disabling a watch does the same, except that the watch stays, detached from its mark. */
  lemma DisablingMeans(s: State, path: string, grants: bool)
    requires s.Valid() && path in s.paths && s.paths[path].enabled
    ensures var (t, outcome) := SetEnabled(s, path, false, grants);
            var w := s.paths[path];
            && (outcome.Thrown? <==> w.wd !in s.kernel.marks)
            && (outcome.Thrown? ==> t == s && outcome.reason == DisablingFailed)
            && (outcome.Done? ==>
                  && path in t.paths && t.paths[path] == Watch(w.mask, NO_WD, false) && OtherPathsStay(s, t, path)
                  && w.wd !in t.watches && OtherWatchesStay(s, t, w.wd)
                  && w.wd !in t.kernel.marks && OtherMarksStay(s.kernel, t.kernel, w.wd)
                  && t.kernel.inodeOf == s.kernel.inodeOf && t.events == s.events && t.open == s.open)
  {
  }

  // ---------------------------------------------------------------- adding, enabling and changing

  /** A mask replaces the one before, or adds to it if it asks for that. */
  ghost predicate SetsMask(previous: bv32, mask: bv32, after: bv32) {
    after == if mask & IN_MASK_ADD == 0 then mask else previous | (mask & !IN_MASK_ADD)
  }

  lemma NewMaskMeans(previous: bv32, mask: bv32)
    ensures SetsMask(previous, mask, NewMask(previous, mask))
  {
  }

  /** The watch of `path` has descriptor `wd`, and the kernel a mark of this descriptor on the inode
      that the path names, with the mask of the watch. */
  ghost predicate Marked(s: State, t: State, path: string, wd: int, mask: bv32) {
    && path in s.kernel.inodeOf && wd in t.kernel.marks
    && t.kernel.marks[wd].inode == s.kernel.inodeOf[path]
    && SetsMask(if wd in s.kernel.marks then s.kernel.marks[wd].mask else 0, mask, t.kernel.marks[wd].mask)
    && OtherMarksStay(s.kernel, t.kernel, wd) && t.kernel.inodeOf == s.kernel.inodeOf
    && t.kernel.unread == s.kernel.unread
  }

  lemma MarkingMeans(s: State, t: State, path: string, mask: bv32)
    requires s.kernel.Ok() && s.kernel.CanAdd(path) && t.kernel == s.kernel.Add(path, mask)
    ensures Marked(s, t, path, s.kernel.WdFor(path), mask)
  {
    var wd := s.kernel.WdFor(path);
    NewMaskMeans(s.kernel.Mask(wd), mask);
    assert t.kernel.marks[wd].mask == NewMask(s.kernel.Mask(wd), mask);
  }

  /** Enabling a watch throws exactly if the kernel refuses, and changes nothing then. Otherwise the
      watch is enabled and marked, and the descriptor index leads to it unless the mark is already
      that of another watch. */
  lemma EnablingMeans(s: State, path: string, grants: bool)
    requires s.Valid() && path in s.paths && !s.paths[path].enabled
    ensures var (t, outcome) := SetEnabled(s, path, true, grants);
            && (outcome.Thrown? <==> !grants || !s.kernel.CanAdd(path))
            && (outcome.Thrown? ==> t == s && outcome.reason == EnablingFailed)
            && (outcome.Done? ==>
                  && path in t.paths && OtherPathsStay(s, t, path)
                  && var w := t.paths[path];
                     && w.enabled && w.mask == s.paths[path].mask && Marked(s, t, path, w.wd, w.mask)
                     && w.wd in t.watches && OtherWatchesStay(s, t, w.wd)
                     && t.watches[w.wd] == (if w.wd in s.watches then s.watches[w.wd] else path)
                     && t.events == s.events && t.open == s.open)
  {
    if grants && s.kernel.CanAdd(path) {
      MarkingMeans(s, SetEnabled(s, path, true, grants).0, path, s.paths[path].mask);
    }
  }

  /** Setting what is set already does nothing. */
  lemma EnabledAlready(s: State, path: string, grants: bool)
    requires path in s.paths
    ensures SetEnabled(s, path, s.paths[path].enabled, grants) == (s, Done)
  {
  }

  /** Changing a mask succeeds exactly for a watch without a mark of its own and for one whose path
      still leads to its mark, if the kernel grants it. Then only this mask changes, in the watch
      and in its mark. Whatever else comes of it, no watch and no index does. */
  lemma SetMaskMeans(s: State, path: string, mask: bv32, grants: bool)
    requires s.Valid() && path in s.paths
    ensures var (t, outcome) := SetMask(s, path, mask, grants);
            var w := s.paths[path];
            && (outcome.Done? <==>
                  w.wd == NO_WD || (grants && s.kernel.CanAdd(path) && s.kernel.WdFor(path) == w.wd))
            && (outcome.Thrown? ==> outcome.reason == ChangingMaskFailed && t.paths == s.paths)
            && (outcome.Done? ==>
                  && path in t.paths && t.paths[path] == Watch(mask, w.wd, w.enabled) && OtherPathsStay(s, t, path)
                  && (w.wd == NO_WD ==> t.kernel == s.kernel)
                  && (w.wd != NO_WD ==> Marked(s, t, path, w.wd, mask)))
            && t.watches == s.watches && t.events == s.events && t.open == s.open
  {
    if s.paths[path].wd != NO_WD && grants && s.kernel.CanAdd(path) {
      MarkingMeans(s, SetMask(s, path, mask, grants).0, path, mask);
    }
  }

  /** Exactly when adding throws what; and after a success the watch is in the path index and, if it
      is enabled, marked and in the descriptor index, which had nothing of that descriptor. */
  lemma AddMeans(s: State, path: string, w: Watch, grants: bool, grantsAgain: bool)
    requires s.Valid()
    ensures var (t, outcome) := Add(s, path, w, grants, grantsAgain);
            var marks := s.open && path !in s.paths && w.enabled;
            && (outcome == Thrown(InvalidDescriptor) <==> !s.open)
            && (outcome == Thrown(PathAlreadyWatched) <==> s.open && path in s.paths)
            && (outcome == Thrown(AddingFailed) <==> marks && !(grants && s.kernel.CanAdd(path)))
            && (outcome == Thrown(CollisionRecoveryFailed) || outcome == Thrown(PathWatchedAnotherWay) <==>
                  marks && grants && s.kernel.CanAdd(path) && Collides(s, path))
            && (outcome == Thrown(PathWatchedAnotherWay) ==> grantsAgain)
            && t.paths.Keys == s.paths.Keys + (if outcome.Done? then {path} else {})
            && (outcome.Thrown? ==> t.paths == s.paths && t.watches == s.watches)
            && t.events == s.events && t.open == s.open
  {
  }

  lemma AddedMeans(s: State, path: string, w: Watch, grants: bool, grantsAgain: bool)
    requires s.Valid() && Add(s, path, w, grants, grantsAgain).1.Done?
    ensures var t := Add(s, path, w, grants, grantsAgain).0;
            && path in t.paths && OtherPathsStay(s, t, path)
            && (!w.enabled ==> t.paths[path] == w && t.watches == s.watches && t.kernel == s.kernel)
            && (w.enabled ==>
                  && var wd := t.paths[path].wd;
                  && t.paths[path] == Watch(w.mask, wd, true) && Marked(s, t, path, wd, w.mask)
                  && wd !in s.watches && wd in t.watches && t.watches[wd] == path && OtherWatchesStay(s, t, wd))
  {
    if w.enabled {
      MarkingMeans(s, Add(s, path, w, grants, grantsAgain).0, path, w.mask);
    }
  }

  /** Removing everything takes exactly the marks of the watches from the kernel. */
  lemma RemoveAllMeans(s: State, order: seq<int>)
    requires s.Valid() && forall d :: d in order <==> d in Descriptors(s.paths)
    ensures var t := RemoveAll(s, order);
            && (forall d :: d in t.kernel.marks <==> d in s.kernel.marks && d !in s.watches)
            && t.paths == map[] && t.watches == map[] && t.events == s.events && t.open == s.open
  {
    UnmarkForgets(s.kernel, order);
    forall d
      ensures d in Descriptors(s.paths) <==> d in s.watches
    {
      assert d in s.watches ==> s.WatchEntryOk(d);
    }
  }

  // ---------------------------------------------------------------- the decode loop

  /** An event of a descriptor that is not watched does nothing. Any other is queued, and ends its
      watch exactly if it announces that the kernel has dropped the mark or the watch is for one
      event only; then the watch leaves the descriptor index and is disabled. No mark changes. */
  lemma TakeMeans(s: State, e: Event)
    requires s.ValidForTaking()
    ensures var t := Take(s, e);
            && t.kernel == s.kernel && t.open == s.open
            && (e.wd !in s.watches ==> t == s)
            && (e.wd in s.watches ==>
                  var path := s.watches[e.wd];
                  var over := e.mask & IN_IGNORED != 0 || s.MaskOf(path) & IN_ONESHOT != 0;
                  && (e.wd in t.watches <==> !over) && OtherWatchesStay(s, t, e.wd)
                  && (!over ==> t.paths == s.paths && t.watches == s.watches)
                  && (over ==> path in t.paths && t.paths[path] == Watch(s.MaskOf(path), NO_WD, false))
                  && OtherPathsStay(s, t, path)
                  && t.events == s.events + [Notice(e.mask, e.cookie, e.name, path)])
  {
    if e.wd in s.watches {
      TerminatesExactly(s.MaskOf(s.watches[e.wd]), e);
    }
  }

  /** Over a whole batch: a watch is kept exactly if no event of the batch is one of its own that
      announces that its mark was dropped, and it is not for one event only or had none. */
  lemma TakeAllKeepsExactly(s: State, es: seq<Event>, wd: int)
    requires s.ValidForTaking() && wd in s.watches
    ensures wd in TakeAll(s, es).watches <==>
            forall i :: 0 <= i < |es| && es[i].wd == wd ==>
              es[i].mask & IN_IGNORED == 0 && s.MaskOf(s.watches[wd]) & IN_ONESHOT == 0
  {
    TakeAllDelivers(s, es);
    AfterAllKeeps(s.WatchedNow(), es);
    StillWatchedExactly(s.WatchedNow(), es, |es|, wd);
  }

  /** Reading: an ongoing watch is kept exactly if none of the records that were read is one of its
      own with IN_IGNORED. */
  lemma ReadingKeepsExactly(s: State, count: nat, wd: int)
    requires s.Valid() && count <= |s.kernel.unread| && wd in s.watches
    requires s.MaskOf(s.watches[wd]) & IN_ONESHOT == 0
    ensures wd in Received(s, count).watches <==>
            forall i :: 0 <= i < count && s.kernel.unread[i].wd == wd ==> s.kernel.unread[i].mask & IN_IGNORED == 0
  {
    var t, rs := s.(kernel := s.kernel.(unread := s.kernel.unread[count..])), s.kernel.unread[..count];
    TakeAllKeepsExactly(t, Meanings(rs), wd);
    MeaningsAt(rs);
  }

  lemma {:induction false} MeaningsAt(rs: seq<Record>)
    ensures |Meanings(rs)| == |rs|
    ensures forall i :: 0 <= i < |rs| ==> Meanings(rs)[i] == Meaning(rs[i])
  {
    if rs != [] {
      MeaningsAt(rs[1..]);
    }
  }
}
