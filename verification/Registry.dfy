/** What the registry of watches does, as a state machine: the two indexes over the watches,
    the fields of each watch, the queue of decoded events and the kernel instance below. */
module Registry {
  import opened EventMask
  import opened EventRecords
  import opened Delivery
  import opened Kernel

  const NO_WD: int := -1

  datatype Outcome = Done | Thrown(reason: Reason)

  datatype Reason =
    | InvalidDescriptor
    | PathAlreadyWatched
    | AddingFailed
    | CollisionRecoveryFailed
    | PathWatchedAnotherWay
    | RemovingFailed
    | ChangingMaskFailed
    | EnablingFailed
    | DisablingFailed
    | EventOnDisabledWatch

  /** The mutable fields of a watch. */
  datatype Watch = Watch(mask: bv32, wd: int, enabled: bool)

  /** A queued event; `path` names the watch it came from. */
  datatype Notice = Notice(mask: bv32, cookie: bv32, name: seq<Byte>, path: string)

  datatype State = State(
    open: bool,
    watches: map<int, string>,  // the descriptor index
    paths: map<string, Watch>,  // the path index
    events: seq<Notice>,
    kernel: Instance)
  {
    function MaskOf(path: string): bv32 {
      if path in paths then paths[path].mask else 0
    }

    // ------------------------------------------------------------- agreement

    /** A path entry is active exactly when enabled, and then the descriptor index has it. */
    ghost predicate PathEntryOk(p: string)
      requires p in paths
    {
      var w := paths[p];
      && (w.enabled <==> w.wd != NO_WD)
      && (w.enabled ==> w.wd in watches && watches[w.wd] == p)
    }

    /** A descriptor entry leads to a watch that has this very descriptor. */
    ghost predicate WatchEntryOk(d: int)
      requires d in watches
    {
      && 0 < d < kernel.nextWd
      && watches[d] in paths
      && paths[watches[d]].wd == d
    }

    /** The kernel still has this descriptor, or has said that it dropped it. */
    ghost predicate Accounted(d: int, incoming: seq<Record>) {
      d in kernel.marks || Announced(incoming, d) || Announced(kernel.unread, d)
    }

    /** The agreement of indexes, watches and kernel, while `incoming` records have been read
        from the kernel but not yet looked at. */
    ghost predicate ValidWith(incoming: seq<Record>) {
      && kernel.Ok()
      && (forall p :: p in paths ==> PathEntryOk(p))
      && (forall d :: d in watches ==> WatchEntryOk(d))
      && (forall d :: d in watches ==> Accounted(d, incoming))
      && (!open ==> paths == map[])
    }

    ghost predicate Valid() {
      ValidWith([])
    }

    /** Every active watch still resolves to the inode that the kernel marked for it. */
    ghost predicate Settled() {
      forall d :: d in watches && d in kernel.marks ==>
        watches[d] in kernel.inodeOf && kernel.marks[d].inode == kernel.inodeOf[watches[d]]
    }

    /** The kernel filters with the mask that the watch shows (IN_MASK_ADD requests aside). */
    ghost predicate MasksAgree() {
      forall d :: d in watches && d in kernel.marks && watches[d] in paths
                  && !IsType(paths[watches[d]].mask, IN_MASK_ADD) ==>
        kernel.marks[d].mask == paths[watches[d]].mask
    }

    /** Both indexes agree with the watches; nothing is said of the kernel. */
    ghost predicate ValidForTaking() {
      && (forall p :: p in paths ==> PathEntryOk(p))
      && (forall d :: d in watches ==> WatchEntryOk(d))
    }

    /** The watched descriptors with the masks of their watches. */
    ghost function WatchedNow(): (w: Watched)
      requires ValidForTaking()
      ensures w.Keys == watches.Keys
    {
      map d | d in watches :: paths[watches[d]].mask
    }
  }

  function Empty(kernel: Instance): State {
    State(true, map[], map[], [], kernel)
  }

  // ---------------------------------------------------------------- the calls

  /** `Inotify::Add` of a watch that belongs to no registry. The kernel may refuse either of
      the two calls that this can need. */
  function Add(s: State, path: string, w: Watch, grants: bool, grantsAgain: bool): (r: (State, Outcome)) {
    if !s.open then (s, Thrown(InvalidDescriptor))
    else if path in s.paths then (s, Thrown(PathAlreadyWatched))
    else if !w.enabled then (s.(paths := s.paths[path := w]), Done)
    else if !grants || !s.kernel.CanAdd(path) then (s, Thrown(AddingFailed))
    else
      var wd, marked := s.kernel.WdFor(path), s.kernel.Add(path, w.mask);
      if wd in s.watches then
        var other := s.watches[wd];
        if !grantsAgain || !marked.CanAdd(other) then (s.(kernel := marked), Thrown(CollisionRecoveryFailed))
        else (s.(kernel := marked.Add(other, s.MaskOf(other))), Thrown(PathWatchedAnotherWay))
      else
        (s.(kernel := marked, watches := s.watches[wd := path], paths := s.paths[path := w.(wd := wd)]), Done)
  }

  /** `Inotify::Remove` of the watch that owns `path`. */
  function Remove(s: State, path: string): (r: (State, Outcome))
    requires path in s.paths
  {
    var w := s.paths[path];
    if !s.open then (s, Thrown(InvalidDescriptor))
    else if w.wd == NO_WD then (s.(paths := s.paths - {path}), Done)
    else if w.wd !in s.kernel.marks then (s, Thrown(RemovingFailed))
    else
      (s.(kernel := s.kernel.Remove(w.wd), watches := s.watches - {w.wd}, paths := s.paths - {path}), Done)
  }

  /** `Inotify::Remove` of a watch that this registry does not hold: its path is erased from
      the path index, whoever owns it, and a descriptor `wd` that it has from another registry
      is taken for one of this. */
  function RemoveStranger(s: State, path: string, wd: int): (r: (State, Outcome)) {
    if !s.open then (s, Thrown(InvalidDescriptor))
    else if wd == NO_WD then (s.(paths := s.paths - {path}), Done)
    else if wd !in s.kernel.marks then (s, Thrown(RemovingFailed))
    else
      (s.(kernel := s.kernel.Remove(wd), watches := s.watches - {wd}, paths := s.paths - {path}), Done)
  }

  /** The marks that `RemoveAll` gives back, in the order in which it meets them; the kernel's
      answers are not looked at. */
  function Unmark(k: Instance, wds: seq<int>): (r: Instance)
    ensures k.Ok() ==> r.Ok()
  {
    if wds == [] then k
    else
      var before, d := Unmark(k, wds[..|wds| - 1]), wds[|wds| - 1];
      if d in before.marks then before.Remove(d) else before
  }

  /** The descriptors that the watches have. */
  ghost function Descriptors(paths: map<string, Watch>): set<int> {
    set p | p in paths && paths[p].wd != NO_WD :: paths[p].wd
  }

  function RemoveAll(s: State, order: seq<int>): (r: State) {
    s.(kernel := Unmark(s.kernel, order), watches := map[], paths := map[])
  }

  function Close(s: State, order: seq<int>): (r: State) {
    if s.open then RemoveAll(s, order).(open := false) else s
  }

  /** `InotifyWatch::SetMask` of an attached watch. */
  function SetMask(s: State, path: string, mask: bv32, grants: bool): (r: (State, Outcome))
    requires path in s.paths
  {
    var w := s.paths[path];
    var changed := s.(paths := s.paths[path := w.(mask := mask)]);
    if w.wd == NO_WD then (changed, Done)
    else if !grants || !s.kernel.CanAdd(path) then (s, Thrown(ChangingMaskFailed))
    else
      var marked := s.kernel.Add(path, mask);
      if s.kernel.WdFor(path) != w.wd then (s.(kernel := marked), Thrown(ChangingMaskFailed))
      else (changed.(kernel := marked), Done)
  }

  /** `InotifyWatch::SetEnabled` of an attached watch. Entering the descriptor index does not
      replace an entry that is already there. */
  function SetEnabled(s: State, path: string, enabled: bool, grants: bool): (r: (State, Outcome))
    requires path in s.paths
  {
    var w := s.paths[path];
    if w.enabled == enabled then (s, Done)
    else if enabled then
      if !grants || !s.kernel.CanAdd(path) then (s, Thrown(EnablingFailed))
      else
        var wd := s.kernel.WdFor(path);
        (s.(kernel := s.kernel.Add(path, w.mask),
            watches := if wd in s.watches then s.watches else s.watches[wd := path],
            paths := s.paths[path := Watch(w.mask, wd, true)]), Done)
    else if w.wd !in s.kernel.marks then (s, Thrown(DisablingFailed))
    else
      (s.(kernel := s.kernel.Remove(w.wd), watches := s.watches - {w.wd},
          paths := s.paths[path := Watch(w.mask, NO_WD, false)]), Done)
  }

  /** `InotifyWatch::__Disable` of an attached watch. */
  function Disable(s: State, path: string): (r: (State, Outcome))
    requires path in s.paths
  {
    var w := s.paths[path];
    if !w.enabled then (s, Thrown(EventOnDisabledWatch))
    else
      (s.(watches := s.watches - {w.wd}, paths := s.paths[path := Watch(w.mask, NO_WD, false)]), Done)
  }

  /** One round of the decode loop: look the descriptor up, follow the kernel if the watch is
      over, queue the event. */
  function Take(s: State, e: Event): State {
    if e.wd !in s.watches || s.watches[e.wd] !in s.paths then s
    else
      var path := s.watches[e.wd];
      var followed := if Terminates(s.paths[path].mask, e) then Disable(s, path).0 else s;
      followed.(events := s.events + [Notice(e.mask, e.cookie, e.name, path)])
  }

  function TakeAll(s: State, es: seq<Event>): State {
    if es == [] then s else Take(TakeAll(s, es[..|es| - 1]), es[|es| - 1])
  }

  lemma TakeAllStep(s: State, rs: seq<Record>, k: nat)
    requires k < |rs|
    ensures TakeAll(s, Meanings(rs[..k + 1])) == Take(TakeAll(s, Meanings(rs[..k])), Meaning(rs[k]))
  {
    MeaningsAppend(rs[..k], rs[k]);
    assert rs[..k + 1] == rs[..k] + [rs[k]];
    var es := Meanings(rs[..k]);
    assert (es + [Meaning(rs[k])])[..|es|] == es;
  }

  lemma {:induction false} MeaningsAppend(rs: seq<Record>, r: Record)
    ensures Meanings(rs + [r]) == Meanings(rs) + [Meaning(r)]
  {
    if rs == [] {
      assert rs + [r] == [r];
    } else {
      MeaningsAppend(rs[1..], r);
      assert (rs + [r])[1..] == rs[1..] + [r];
    }
  }

  // ---------------------------------------------------------------- every call keeps the agreement

  lemma AddKeepsValid(s: State, path: string, w: Watch, grants: bool, grantsAgain: bool)
    requires s.Valid() && (w.enabled || w.wd == NO_WD)
    ensures Add(s, path, w, grants, grantsAgain).0.Valid()
  {
    if s.open && path !in s.paths && w.enabled && grants && s.kernel.CanAdd(path) {
      var wd, marked := s.kernel.WdFor(path), s.kernel.Add(path, w.mask);
      MarkingKeepsValid(s, marked);
      if wd !in s.watches {
        EnteringKeepsValid(s.(kernel := marked), path, w.(wd := wd));
      } else if marked.CanAdd(s.watches[wd]) {
        MarkingKeepsValid(s.(kernel := marked), marked.Add(s.watches[wd], s.paths[s.watches[wd]].mask));
      }
    }
  }

  /** The kernel may gain marks without anyone noticing. */
  lemma MarkingKeepsValid(s: State, k: Instance)
    requires s.Valid() && k.Ok() && s.kernel.nextWd <= k.nextWd
    requires k.unread == s.kernel.unread && forall d :: d in s.kernel.marks ==> d in k.marks
    ensures s.(kernel := k).Valid()
  {
  }

  lemma EnteringKeepsValid(s: State, path: string, w: Watch)
    requires s.Valid() && s.open && path !in s.paths && w.enabled
    requires 0 < w.wd < s.kernel.nextWd && w.wd !in s.watches && w.wd in s.kernel.marks
    ensures s.(watches := s.watches[w.wd := path], paths := s.paths[path := w]).Valid()
  {
  }

  lemma RemoveKeepsValid(s: State, path: string)
    requires s.Valid() && path in s.paths
    ensures Remove(s, path).0.Valid()
  {
  }

  lemma SetMaskKeepsValid(s: State, path: string, mask: bv32, grants: bool)
    requires s.Valid() && path in s.paths
    ensures SetMask(s, path, mask, grants).0.Valid()
  {
  }

  /** Some other enabled watch already holds the mark of the inode that this path names. */
  predicate Collides(s: State, path: string) {
    path in s.kernel.inodeOf && s.kernel.WdFor(path) in s.watches
  }

  /** Enabling a watch keeps the agreement unless its inode is already watched; disabling one
      always does. */
  lemma SetEnabledKeepsValid(s: State, path: string, enabled: bool, grants: bool)
    requires s.Valid() && path in s.paths
    ensures SetEnabled(s, path, enabled, grants).0.Valid() <==>
            !(enabled && !s.paths[path].enabled && grants && Collides(s, path))
  {
    var w, r := s.paths[path], SetEnabled(s, path, enabled, grants).0;
    if enabled && !w.enabled && grants && s.kernel.CanAdd(path) {
      EnablingKeepsValid(s, path);
    } else if enabled && !w.enabled && grants {
      assert !Collides(s, path);
    }
  }

  lemma EnablingKeepsValid(s: State, path: string)
    requires s.Valid() && path in s.paths && !s.paths[path].enabled && s.kernel.CanAdd(path)
    ensures SetEnabled(s, path, true, true).0.Valid() <==> !Collides(s, path)
  {
    var r, wd := SetEnabled(s, path, true, true).0, s.kernel.WdFor(path);
    if Collides(s, path) {
      assert !r.PathEntryOk(path);
    } else {
      var marked := s.(kernel := r.kernel);
      MarkingKeepsValid(s, r.kernel);
      ActivatingKeepsValid(marked, path, wd);
    }
  }

  lemma ActivatingKeepsValid(s: State, path: string, wd: int)
    requires s.Valid() && path in s.paths && !s.paths[path].enabled
    requires 0 < wd < s.kernel.nextWd && wd !in s.watches && wd in s.kernel.marks
    ensures s.(watches := s.watches[wd := path], paths := s.paths[path := Watch(s.paths[path].mask, wd, true)]).Valid()
  {
  }

  lemma {:induction false} UnmarkForgets(k: Instance, wds: seq<int>)
    ensures forall d :: d in Unmark(k, wds).marks <==> d in k.marks && d !in wds
  {
    if wds != [] {
      var init, last := wds[..|wds| - 1], wds[|wds| - 1];
      UnmarkForgets(k, init);
      forall d
        ensures d in wds <==> d in init || d == last
      {
        assert wds == init + [last];
      }
    }
  }

  /** After RemoveAll both indexes are empty and no mark of a former watch is left, so that
      every former watch can be added again as soon as the kernel grants it. */
  lemma RemoveAllForgets(s: State, order: seq<int>, path: string)
    requires s.Valid() && s.open && path in s.paths
    requires forall d :: d in Descriptors(s.paths) ==> d in order
    ensures var t, w := RemoveAll(s, order), s.paths[path].(wd := NO_WD);
            && t.Valid() && t.paths == map[] && t.watches == map[]
            && (forall d :: d in s.watches ==> d !in t.kernel.marks)
            && (t.kernel.CanAdd(path) ==> Add(t, path, w, true, true).1 == Done)
  {
    UnmarkForgets(s.kernel, order);
    assert forall d :: d in s.watches ==> s.WatchEntryOk(d);
  }

  // ---------------------------------------------------------------- the decode loop

  /** A round of the loop uses up one incoming record. */
  lemma TakeKeepsValid(s: State, r: Record, rest: seq<Record>)
    requires s.ValidWith([r] + rest)
    ensures Take(s, Meaning(r)).ValidWith(rest)
  {
    var t := Take(s, Meaning(r));
    forall d | d in t.watches
      ensures t.Accounted(d, rest)
    {
      assert s.Accounted(d, [r] + rest);
      if Announced([r] + rest, d) {
        var i :| 0 <= i < |[r] + rest| && IsIgnored(([r] + rest)[i], d);
        if i != 0 {
          assert IsIgnored(rest[i - 1], d);
        }
      }
    }
  }

  lemma TakeKeepsIndexes(s: State, e: Event)
    requires s.ValidForTaking()
    ensures Take(s, e).ValidForTaking()
  {
  }

  lemma FirstApart(some: seq<Record>, rest: seq<Record>)
    requires some != []
    ensures some + rest == [some[0]] + (some[1..] + rest)
  {
  }

  lemma {:induction false} TakeAllKeepsValid(s: State, rs: seq<Record>, n: nat, rest: seq<Record>)
    requires n <= |rs| && s.ValidWith(rs + rest)
    ensures TakeAll(s, Meanings(rs[..n])).ValidWith(rs[n..] + rest)
  {
    if n == 0 {
      assert rs[0..] == rs && rs[..0] == [];
    } else {
      TakeAllKeepsValid(s, rs, n - 1, rest);
      TakeAllStep(s, rs, n - 1);
      FirstApart(rs[n - 1..], rest);
      assert rs[n - 1..][1..] == rs[n..];
      TakeKeepsValid(TakeAll(s, Meanings(rs[..n - 1])), rs[n - 1], rs[n..] + rest);
    }
  }

  /** The queue entries for events whose descriptors are in the descriptor index. */
  function Notices(watches: map<int, string>, es: seq<Event>): seq<Notice>
    requires forall i :: 0 <= i < |es| ==> es[i].wd in watches
  {
    if es == [] then []
    else
      var e := es[|es| - 1];
      Notices(watches, es[..|es| - 1]) + [Notice(e.mask, e.cookie, e.name, watches[e.wd])]
  }

  lemma {:induction false} DeliverIsWatched(watched: Watched, es: seq<Event>)
    ensures forall i :: 0 <= i < |Deliver(watched, es)| ==> Deliver(watched, es)[i].wd in watched
  {
    if es != [] {
      DeliverIsWatched(watched, es[..|es| - 1]);
      AfterAllKeeps(watched, es[..|es| - 1]);
    }
  }

  /** What stays the same while events are taken, and what is left to be watched. */
  ghost predicate Narrowed(s: State, t: State, watched: Watched) {
    && t.kernel == s.kernel && t.open == s.open
    && t.paths.Keys == s.paths.Keys
    && (forall p :: p in s.paths ==> t.paths[p].mask == s.paths[p].mask)
    && t.watches.Keys == watched.Keys
    && (forall d :: d in t.watches ==> d in s.watches && t.watches[d] == s.watches[d])
    && (forall d :: d in t.watches ==>
       t.watches[d] in t.paths && t.paths[t.watches[d]].enabled && t.paths[t.watches[d]].wd == d)
    && (forall d :: d in t.watches ==> watched[d] == s.paths[s.watches[d]].mask)
  }

  lemma TakeNarrows(s: State, t: State, e: Event, watched: Watched)
    requires s.ValidForTaking() && Narrowed(s, t, watched)
    ensures Narrowed(s, Take(t, e), After(watched, e))
  {
    if e.wd in t.watches {
      assert watched[e.wd] == t.paths[t.watches[e.wd]].mask;
      if Terminates(watched[e.wd], e) {
        DisableNarrows(s, t, e.wd, watched);
      }
    }
  }

  lemma DisableNarrows(s: State, t: State, wd: Wd, watched: Watched)
    requires s.ValidForTaking() && Narrowed(s, t, watched) && wd in t.watches
    ensures Narrowed(s, Disable(t, t.watches[wd]).0, watched - {wd})
  {
  }

  lemma TakeQueues(s: State, t: State, e: Event, watched: Watched)
    requires s.ValidForTaking() && Narrowed(s, t, watched)
    ensures e.wd in watched ==> e.wd in s.watches
    ensures Take(t, e).events ==
            t.events + (if e.wd in watched then [Notice(e.mask, e.cookie, e.name, s.watches[e.wd])] else [])
  {
    assert e.wd in watched <==> e.wd in t.watches;
  }

  lemma {:induction false} TakeAllNarrows(s: State, es: seq<Event>)
    requires s.ValidForTaking()
    ensures Narrowed(s, TakeAll(s, es), AfterAll(s.WatchedNow(), es))
  {
    if es != [] {
      var init, e := es[..|es| - 1], es[|es| - 1];
      TakeAllNarrows(s, init);
      TakeNarrows(s, TakeAll(s, init), e, AfterAll(s.WatchedNow(), init));
    }
  }

  lemma NoticesAppend(watches: map<int, string>, es: seq<Event>, e: Event)
    requires e.wd in watches && forall i :: 0 <= i < |es| ==> es[i].wd in watches
    ensures Notices(watches, es + [e]) == Notices(watches, es) + [Notice(e.mask, e.cookie, e.name, watches[e.wd])]
  {
    assert (es + [e])[..|es|] == es;
  }

  /** One more event for the queue, if its watch is not over. */
  lemma QueueStep(s: State, init: seq<Event>, e: Event)
    requires s.ValidForTaking()
    ensures e.wd in AfterAll(s.WatchedNow(), init) ==> e.wd in s.watches
    ensures TakeAll(s, init + [e]).events ==
            TakeAll(s, init).events
            + (if e.wd in AfterAll(s.WatchedNow(), init) then [Notice(e.mask, e.cookie, e.name, s.watches[e.wd])]
              else [])
  {
    TakeAllNarrows(s, init);
    TakeQueues(s, TakeAll(s, init), e, AfterAll(s.WatchedNow(), init));
    assert (init + [e])[..|init|] == init;
  }

  /** The loop refines the filter of module Delivery: the queue grows by exactly the delivered
      events, in order, and the index keeps exactly the descriptors whose watch is not over. */
  lemma TakeAllDelivers(s: State, es: seq<Event>)
    requires s.ValidForTaking()
    ensures Narrowed(s, TakeAll(s, es), AfterAll(s.WatchedNow(), es))
    ensures forall i :: 0 <= i < |Deliver(s.WatchedNow(), es)| ==> Deliver(s.WatchedNow(), es)[i].wd in s.watches
    ensures TakeAll(s, es).events == s.events + Notices(s.watches, Deliver(s.WatchedNow(), es))
  {
    TakeAllNarrows(s, es);
    DeliverIsWatched(s.WatchedNow(), es);
    TakeAllQueues(s, es);
  }

  lemma {:induction false} TakeAllQueues(s: State, es: seq<Event>)
    requires s.ValidForTaking()
    ensures forall i :: 0 <= i < |Deliver(s.WatchedNow(), es)| ==> Deliver(s.WatchedNow(), es)[i].wd in s.watches
    ensures TakeAll(s, es).events == s.events + Notices(s.watches, Deliver(s.WatchedNow(), es))
  {
    var watched := s.WatchedNow();
    DeliverIsWatched(watched, es);
    if es != [] {
      var init, e := es[..|es| - 1], es[|es| - 1];
      assert es == init + [e];
      TakeAllQueues(s, init);
      QueueStep(s, init, e);
      if e.wd in AfterAll(watched, init) {
        NoticesAppend(s.watches, Deliver(watched, init), e);
      }
    }
  }

  /** The loop only disables watches that are enabled, so `__Disable` never throws there. */
  lemma LoopNeverThrows(s: State, es: seq<Event>, e: Event)
    requires s.ValidForTaking() && e.wd in TakeAll(s, es).watches
    ensures var t := TakeAll(s, es);
            t.watches[e.wd] in t.paths && Disable(t, t.watches[e.wd]).1 == Done
  {
    TakeAllDelivers(s, es);
  }

  // ---------------------------------------------------------------- masks

  /** Adding: on success the kernel filters with the mask of the new watch. */
  lemma AddKeepsMasks(s: State, path: string, w: Watch, grants: bool, grantsAgain: bool)
    requires s.Valid() && w.wd == NO_WD && s.Settled() && s.MasksAgree()
    ensures var (t, outcome) := Add(s, path, w, grants, grantsAgain);
            t.Settled() && (outcome != Thrown(CollisionRecoveryFailed) ==> t.MasksAgree())
  {
    if s.open && path !in s.paths && w.enabled && grants && s.kernel.CanAdd(path) {
      if Collides(s, path) {
        CollisionKeepsMasks(s, path, w.mask);
      } else {
        NewMarkKeepsMasks(s, path, w);
      }
    }
  }

  /** The new watch has the mark for itself. */
  lemma NewMarkKeepsMasks(s: State, path: string, w: Watch)
    requires s.Valid() && s.Settled() && s.MasksAgree()
    requires path !in s.paths && s.kernel.CanAdd(path) && !Collides(s, path)
    ensures var wd := s.kernel.WdFor(path);
            var t := s.(kernel := s.kernel.Add(path, w.mask), watches := s.watches[wd := path],
                        paths := s.paths[path := w.(wd := wd)]);
            t.Settled() && t.MasksAgree()
  {
  }

  /** The mask of the watch that holds the mark already is put back, if the kernel lets that happen. */
  lemma CollisionKeepsMasks(s: State, path: string, mask: bv32)
    requires s.Valid() && s.Settled() && s.MasksAgree() && s.kernel.CanAdd(path) && Collides(s, path)
    ensures var marked, other := s.kernel.Add(path, mask), s.watches[s.kernel.WdFor(path)];
            && s.(kernel := marked).Settled()
            && (marked.CanAdd(other) ==>
                  && s.(kernel := marked.Add(other, s.MaskOf(other))).Settled()
                  && s.(kernel := marked.Add(other, s.MaskOf(other))).MasksAgree())
  {
  }

  /** A failed Add is rolled back: whatever it tried in the kernel, the whole state is as
      before, provided the watch whose mask is put back does not itself ask for IN_MASK_ADD. */
  lemma FailedAddIsRolledBack(s: State, path: string, w: Watch, grants: bool, grantsAgain: bool)
    requires s.Valid() && w.wd == NO_WD && s.Settled() && s.MasksAgree()
    requires Collides(s, path) ==> !IsType(s.paths[s.watches[s.kernel.WdFor(path)]].mask, IN_MASK_ADD)
    ensures var (t, outcome) := Add(s, path, w, grants, grantsAgain);
            outcome.Thrown? && outcome.reason != CollisionRecoveryFailed ==> t == s
  {
    var (t, outcome) := Add(s, path, w, grants, grantsAgain);
    if outcome == Thrown(PathWatchedAnotherWay) {
      var wd := s.kernel.WdFor(path);
      assert s.Accounted(wd, []);
      assert t.kernel.marks == s.kernel.marks;
      assert t.kernel.holder == s.kernel.holder;
    }
  }

  /** Changing the mask of a watch keeps the kernel's masks right if the watch still has its
      mark, or none at all, or if no other watch has the mark that its path leads to now. */
  lemma SetMaskKeepsMasks(s: State, path: string, mask: bv32, grants: bool)
    requires s.Valid() && path in s.paths && s.Settled() && s.MasksAgree()
    requires s.paths[path].wd == NO_WD || s.paths[path].wd in s.kernel.marks || !Collides(s, path)
    ensures SetMask(s, path, mask, grants).0.Settled() && SetMask(s, path, mask, grants).0.MasksAgree()
  {
    var wd := s.paths[path].wd;
    if wd != NO_WD && wd !in s.kernel.marks && s.kernel.CanAdd(path) {
      StrayMarkHarmsNobody(s, path, mask);
    }
  }

  /** A mark that no watch has may change or come into being. */
  lemma StrayMarkHarmsNobody(s: State, path: string, mask: bv32)
    requires s.Valid() && s.Settled() && s.MasksAgree() && s.kernel.CanAdd(path) && !Collides(s, path)
    ensures s.(kernel := s.kernel.Add(path, mask)).Settled() && s.(kernel := s.kernel.Add(path, mask)).MasksAgree()
  {
  }

  /** Exactly when a failed change leaves everything as it was: the kernel refused it, or the
      mark that the path leads to already had the mask that it got. */
  lemma FailedSetMaskExactly(s: State, path: string, mask: bv32, grants: bool)
    requires s.Valid() && path in s.paths && SetMask(s, path, mask, grants).1.Thrown?
    ensures SetMask(s, path, mask, grants).0 == s <==>
            !grants || !s.kernel.CanAdd(path)
            || (s.kernel.WdFor(path) in s.kernel.marks
                && NewMask(s.kernel.Mask(s.kernel.WdFor(path)), mask) == s.kernel.Mask(s.kernel.WdFor(path)))
  {
    var k := s.kernel;
    if grants && k.CanAdd(path) {
      if k.inodeOf[path] in k.holder {
        AddingAgain(k, path, mask);
      } else {
        assert k.Add(path, mask).nextWd != k.nextWd;
      }
    }
  }

  /** Exactly when a failed change leaves the kernel filtering with a mask that no watch shows:
      it was granted, and it changed the mark of another watch. */
  lemma FailedSetMaskHarmsExactly(s: State, path: string, mask: bv32, grants: bool)
    requires s.Valid() && path in s.paths && s.Settled() && s.MasksAgree()
    requires SetMask(s, path, mask, grants).1.Thrown?
    ensures !SetMask(s, path, mask, grants).0.MasksAgree() <==>
            grants && Collides(s, path)
            && var wd := s.kernel.WdFor(path);
               !IsType(s.MaskOf(s.watches[wd]), IN_MASK_ADD) && NewMask(s.kernel.Mask(wd), mask) != s.kernel.Mask(wd)
  {
    var t := SetMask(s, path, mask, grants).0;
    if grants && Collides(s, path) {
      var wd := s.kernel.WdFor(path);
      assert s.WatchEntryOk(wd) && s.paths[path].wd != wd && wd in s.kernel.marks;
      assert t.kernel.Mask(wd) == NewMask(s.kernel.Mask(wd), mask) && wd in t.kernel.marks;
      assert IsType(s.MaskOf(s.watches[wd]), IN_MASK_ADD) || s.kernel.Mask(wd) == s.MaskOf(s.watches[wd]);
    }
  }

  lemma SetEnabledKeepsMasks(s: State, path: string, enabled: bool, grants: bool)
    requires s.Valid() && path in s.paths && s.Settled() && s.MasksAgree()
    requires !(enabled && !s.paths[path].enabled && grants && Collides(s, path))
    ensures var (t, outcome) := SetEnabled(s, path, enabled, grants);
            && t.Settled() && t.MasksAgree()
            && (outcome.Thrown? ==> t == s)
  {
  }

  /** A watch whose mark the kernel has dropped cannot change its mask, even when the kernel
      grants the call: the descriptor that comes back is never the old one. */
  lemma SetMaskNeedsItsMark(s: State, path: string, mask: bv32, grants: bool)
    requires s.Valid() && path in s.paths && s.paths[path].wd != NO_WD
    ensures var (t, outcome) := SetMask(s, path, mask, grants);
            var wd := s.paths[path].wd;
            outcome == Done ==>
              wd in s.kernel.marks && t.kernel.marks[wd].mask == NewMask(s.kernel.marks[wd].mask, mask)
  {
    assert s.WatchEntryOk(s.paths[path].wd);
  }

  /** The two kernel calls of a collision, for `path` with `mask` and then for `other` with the
      mask `holder`, cancel each other out. The second one reaches the same mark only while both
      paths name one inode. */
  predicate PutsBack(k: Instance, path: string, mask: bv32, other: string, holder: bv32)
    requires path in k.inodeOf && other in k.inodeOf
  {
    var changed := NewMask(k.Mask(k.WdFor(path)), mask);
    if k.inodeOf[other] == k.inodeOf[path] then NewMask(changed, holder) == k.Mask(k.WdFor(path))
    else
      && changed == k.Mask(k.WdFor(path))
      && k.WdFor(other) in k.marks && NewMask(k.Mask(k.WdFor(other)), holder) == k.Mask(k.WdFor(other))
  }

  lemma RecoveryOnSameInode(k: Instance, path: string, mask: bv32, other: string, holder: bv32)
    requires k.Ok() && k.CanAdd(path) && k.inodeOf[path] in k.holder && k.Add(path, mask).CanAdd(other)
    requires k.inodeOf[other] == k.inodeOf[path]
    ensures k.Add(path, mask).Add(other, holder) == k <==>
            NewMask(NewMask(k.Mask(k.WdFor(path)), mask), holder) == k.Mask(k.WdFor(path))
  {
    var wd, twice := k.WdFor(path), k.Add(path, mask).Add(other, holder);
    assert twice.holder == k.holder && twice.marks == k.marks[wd := twice.marks[wd]];
  }

  lemma RecoveryElsewhere(k: Instance, path: string, mask: bv32, other: string, holder: bv32)
    requires k.Ok() && k.CanAdd(path) && k.inodeOf[path] in k.holder && k.Add(path, mask).CanAdd(other)
    requires k.inodeOf[other] != k.inodeOf[path]
    ensures k.Add(path, mask).Add(other, holder) == k <==> PutsBack(k, path, mask, other, holder)
  {
    var wd, once := k.WdFor(path), k.Add(path, mask);
    var wd2, twice := once.WdFor(other), once.Add(other, holder);
    assert once.holder == k.holder && once.nextWd == k.nextWd && wd2 == k.WdFor(other) && wd2 != wd;
    assert twice.marks == k.marks[wd := once.marks[wd]][wd2 := twice.marks[wd2]];
    if wd2 in k.marks {
      assert twice.holder == k.holder;
    } else {
      assert wd2 in twice.marks;
    }
  }

  lemma RecoveryInKernel(k: Instance, path: string, mask: bv32, other: string, holder: bv32)
    requires k.Ok() && k.CanAdd(path) && k.inodeOf[path] in k.holder && k.Add(path, mask).CanAdd(other)
    ensures k.Add(path, mask).Add(other, holder) == k <==> PutsBack(k, path, mask, other, holder)
  {
    if k.inodeOf[other] == k.inodeOf[path] {
      RecoveryOnSameInode(k, path, mask, other, holder);
    } else {
      RecoveryElsewhere(k, path, mask, other, holder);
    }
  }

  /** Exactly when a failed Add leaves everything as it was, in any state of agreement: when no
      collision was found, when the new mask changed nothing, or when the recovery puts back
      what there was. */
  lemma FailedAddExactly(s: State, path: string, w: Watch, grants: bool, grantsAgain: bool)
    requires s.Valid() && Add(s, path, w, grants, grantsAgain).1.Thrown?
    ensures var (t, outcome) := Add(s, path, w, grants, grantsAgain);
            match outcome.reason
            case CollisionRecoveryFailed =>
              t == s <==> NewMask(s.kernel.Mask(s.kernel.WdFor(path)), w.mask) == s.kernel.Mask(s.kernel.WdFor(path))
            case PathWatchedAnotherWay =>
              var other := s.watches[s.kernel.WdFor(path)];
              other in s.kernel.inodeOf
              && (t == s <==> PutsBack(s.kernel, path, w.mask, other, s.MaskOf(other)))
            case _ => t == s
  {
    var (t, outcome) := Add(s, path, w, grants, grantsAgain);
    if outcome.reason.CollisionRecoveryFailed? || outcome.reason.PathWatchedAnotherWay? {
      var k, wd := s.kernel, s.kernel.WdFor(path);
      assert s.WatchEntryOk(wd);
      if outcome.reason.PathWatchedAnotherWay? {
        RecoveryInKernel(k, path, w.mask, s.watches[wd], s.MaskOf(s.watches[wd]));
      } else {
        AddingAgain(k, path, w.mask);
      }
    }
  }

  lemma AddingAgain(k: Instance, path: string, mask: bv32)
    requires k.Ok() && k.CanAdd(path) && k.inodeOf[path] in k.holder
    ensures k.Add(path, mask) == k <==> NewMask(k.Mask(k.WdFor(path)), mask) == k.Mask(k.WdFor(path))
  {
    var wd, t := k.WdFor(path), k.Add(path, mask);
    assert t.holder == k.holder;
    if NewMask(k.Mask(wd), mask) == k.Mask(wd) {
      assert t.marks == k.marks;
    } else {
      assert t.marks[wd] != k.marks[wd];
    }
  }

  lemma MaskPutBack(before: bv32, mask: bv32, holder: bv32)
    requires !IsType(holder, IN_MASK_ADD) ==> before == holder
    ensures NewMask(NewMask(before, mask), holder) == before <==>
            !IsType(holder, IN_MASK_ADD) || NewMask(before, mask) | (holder & !IN_MASK_ADD) == before
  {
  }

  /** While path names stay put and masks agree, the recovery restores everything exactly when
      the watch that holds the mark does not ask for IN_MASK_ADD, or its mark already had all
      the bits involved. */
  lemma RecoveryExactly(s: State, path: string, w: Watch)
    requires s.Valid() && s.Settled() && s.MasksAgree()
    requires Add(s, path, w, true, true).1 == Thrown(PathWatchedAnotherWay)
    ensures var wd := s.kernel.WdFor(path);
            && wd in s.watches
            && var before, holder := s.kernel.Mask(wd), s.MaskOf(s.watches[wd]);
               (Add(s, path, w, true, true).0 == s <==>
                  !IsType(holder, IN_MASK_ADD) || NewMask(before, w.mask) | (holder & !IN_MASK_ADD) == before)
  {
    var wd := s.kernel.WdFor(path);
    FailedAddExactly(s, path, w, true, true);
    HolderIsSettled(s, path);
    MaskPutBack(s.kernel.Mask(wd), w.mask, s.MaskOf(s.watches[wd]));
  }

  /** Its path names the inode of its mark, and its mark has its mask. */
  lemma HolderIsSettled(s: State, path: string)
    requires s.Valid() && s.Settled() && s.MasksAgree() && s.kernel.CanAdd(path) && Collides(s, path)
    ensures var wd := s.kernel.WdFor(path);
            && s.watches[wd] in s.kernel.inodeOf && s.kernel.inodeOf[s.watches[wd]] == s.kernel.inodeOf[path]
            && (!IsType(s.MaskOf(s.watches[wd]), IN_MASK_ADD) ==> s.kernel.Mask(wd) == s.MaskOf(s.watches[wd]))
  {
    var wd := s.kernel.WdFor(path);
    assert s.WatchEntryOk(wd) && wd in s.kernel.marks;
  }

  /** Removing the path and the descriptor of a stranger hurts no watch: the descriptor is that
      of the watch with that path, or neither is in use. */
  predicate Spares(s: State, path: string, wd: int) {
    if wd in s.watches then s.watches[wd] == path else !(path in s.paths && s.paths[path].enabled)
  }

  /** Removing a watch that this registry does not hold does nothing exactly when it throws or
      the watch has no descriptor and no other watch has its path; and it leaves the agreement
      intact exactly when it throws or spares the enabled watches. */
  lemma RemoveStrangerExactly(s: State, path: string, wd: int)
    requires s.Valid() && s.open
    ensures var (t, outcome) := RemoveStranger(s, path, wd);
            && (outcome.Thrown? <==> wd != NO_WD && wd !in s.kernel.marks)
            && (t == s <==> outcome.Thrown? || (wd == NO_WD && path !in s.paths))
            && (t.Valid() <==> outcome.Thrown? || Spares(s, path, wd))
  {
    var (t, outcome) := RemoveStranger(s, path, wd);
    if outcome.Done? {
      if path in s.paths && s.paths[path].enabled && s.paths[path].wd != wd {
        assert !t.WatchEntryOk(s.paths[path].wd);
      } else if wd in s.watches && s.watches[wd] != path {
        assert s.WatchEntryOk(wd) && !t.PathEntryOk(s.watches[wd]);
      } else {
        SparingKeepsValid(s, path, wd);
      }
      if path !in s.paths {
        assert s.paths - {path} == s.paths;
      }
    }
  }

  lemma SparingKeepsValid(s: State, path: string, wd: int)
    requires s.Valid() && s.open && Spares(s, path, wd) && (wd == NO_WD || wd in s.kernel.marks)
    ensures RemoveStranger(s, path, wd).0.Valid()
  {
  }

  // ---------------------------------------------------------------- whole runs

  /** Everything that can happen to a registry, its watches and its kernel. */
  datatype Call =
    | AddWatch(path: string, mask: bv32, enabled: bool, grants: bool, grantsAgain: bool)
    | RemoveWatch(path: string)
    | RemoveForeign(path: string, wd: int)
    | RemoveEvery(order: seq<int>)
    | CloseAll(order: seq<int>)
    | ChangeMask(path: string, mask: bv32, grants: bool)
    | ChangeEnabled(path: string, enabled: bool, grants: bool)
    | ReadEvents(count: nat)
    | TakeEvent
    | KernelEmits(r: Record)
    | KernelDrops(wd: int)
    | KernelRelinks(inodeOf: map<string, nat>)

  /** What the caller and the kernel keep to: the caller removes no foreign watch and enables no
      colliding one if that breaks the agreement. */
  ghost predicate Permitted(s: State, c: Call) {
    match c
    case RemoveWatch(path) => path in s.paths
    case RemoveForeign(path, wd) => RemoveStranger(s, path, wd).1.Thrown? || Spares(s, path, wd)
    case ChangeMask(path, _, _) => path in s.paths
    case ChangeEnabled(path, enabled, grants) =>
      path in s.paths && !(enabled && !s.paths[path].enabled && grants && Collides(s, path))
    case ReadEvents(count) => count <= |s.kernel.unread|
    case TakeEvent => s.events != []
    case KernelEmits(r) => r.WellFormed() && (r.wd in s.kernel.marks || r.wd == NO_WD)
    case KernelDrops(wd) => wd in s.kernel.marks
    case _ => true
  }

  /** Reading moves the oldest records out of the kernel and runs the loop over them. */
  ghost function Received(s: State, count: nat): State
    requires count <= |s.kernel.unread| && s.kernel.Ok()
  {
    TakeAll(s.(kernel := s.kernel.(unread := s.kernel.unread[count..])), Meanings(s.kernel.unread[..count]))
  }

  ghost function Step(s: State, c: Call): State
    requires s.Valid() && Permitted(s, c)
  {
    match c
    case AddWatch(path, mask, enabled, grants, grantsAgain) =>
      Add(s, path, Watch(mask, NO_WD, enabled), grants, grantsAgain).0
    case RemoveWatch(path) => Remove(s, path).0
    case RemoveForeign(path, wd) => RemoveStranger(s, path, wd).0
    case RemoveEvery(order) => RemoveAll(s, order)
    case CloseAll(order) => Close(s, order)
    case ChangeMask(path, mask, grants) => SetMask(s, path, mask, grants).0
    case ChangeEnabled(path, enabled, grants) => SetEnabled(s, path, enabled, grants).0
    case ReadEvents(count) => Received(s, count)
    case TakeEvent => s.(events := s.events[1..])
    case KernelEmits(r) => s.(kernel := s.kernel.Emit(r))
    case KernelDrops(wd) => s.(kernel := s.kernel.Remove(wd))
    case KernelRelinks(inodeOf) => s.(kernel := s.kernel.Relink(inodeOf))
  }

  lemma ReceivedKeepsValid(s: State, count: nat)
    requires s.Valid() && count <= |s.kernel.unread|
    ensures Received(s, count).Valid()
  {
    var rs, rest := s.kernel.unread[..count], s.kernel.unread[count..];
    var t := s.(kernel := s.kernel.(unread := rest));
    assert s.kernel.unread == rs + rest;
    forall d | d in t.watches
      ensures t.Accounted(d, rs)
    {
      assert s.Accounted(d, []);
      if Announced(s.kernel.unread, d) {
        var i :| 0 <= i < |rs + rest| && IsIgnored((rs + rest)[i], d);
        if i < count {
          assert IsIgnored(rs[i], d);
        } else {
          assert IsIgnored(rest[i - count], d);
        }
      }
    }
    assert rs + [] == rs && rs[count..] + [] == [] && rs[..count] == rs;
    TakeAllKeepsValid(t, rs, count, []);
  }

  lemma StepKeepsValid(s: State, c: Call)
    requires s.Valid() && Permitted(s, c)
    ensures Step(s, c).Valid()
  {
    match c
    case AddWatch(path, mask, enabled, grants, grantsAgain) =>
      AddKeepsValid(s, path, Watch(mask, NO_WD, enabled), grants, grantsAgain);
    case RemoveWatch(path) => RemoveKeepsValid(s, path);
    case RemoveForeign(path, wd) =>
      if s.open {
        RemoveStrangerExactly(s, path, wd);
      }
    case ChangeMask(path, mask, grants) => SetMaskKeepsValid(s, path, mask, grants);
    case ChangeEnabled(path, enabled, grants) => SetEnabledKeepsValid(s, path, enabled, grants);
    case ReadEvents(count) => ReceivedKeepsValid(s, count);
    case KernelEmits(r) => KernelStepKeepsValid(s, s.kernel.Emit(r));
    case KernelDrops(wd) => KernelStepKeepsValid(s, s.kernel.Remove(wd));
    case KernelRelinks(inodeOf) => KernelStepKeepsValid(s, s.kernel.Relink(inodeOf));
    case _ =>
  }

  /** The kernel may do anything that forgets no announcement and announces what it drops. */
  lemma KernelStepKeepsValid(s: State, k: Instance)
    requires s.Valid() && k.Ok() && k.nextWd == s.kernel.nextWd
    requires forall d :: d in s.kernel.marks && d !in k.marks ==> Announced(k.unread, d)
    requires forall d :: Announced(s.kernel.unread, d) ==> Announced(k.unread, d)
    ensures s.(kernel := k).Valid()
  {
  }

  /** A run of calls and kernel steps; one that breaks the rules is not made. */
  ghost function Run(s: State, calls: seq<Call>): (t: State)
    requires s.Valid()
    ensures t.Valid()
  {
    if calls == [] then s
    else
      var before, c := Run(s, calls[..|calls| - 1]), calls[|calls| - 1];
      if Permitted(before, c) then StepKeepsValid(before, c); Step(before, c) else before
  }

  /** Calls under which path names stay put, every recovery succeeds, and no watch whose mark is
      gone changes its mask while its path leads to the mark of another watch. */
  ghost predicate Quiet(s: State, c: Call)
    requires s.Valid()
  {
    match c
    case AddWatch(path, mask, enabled, grants, grantsAgain) =>
      Add(s, path, Watch(mask, NO_WD, enabled), grants, grantsAgain).1 != Thrown(CollisionRecoveryFailed)
    case ChangeMask(path, _, _) =>
      path in s.paths ==>
        s.paths[path].wd == NO_WD || s.paths[path].wd in s.kernel.marks || !Collides(s, path)
    case KernelRelinks(_) => false
    case _ => true
  }

  ghost predicate QuietRun(s: State, calls: seq<Call>)
    requires s.Valid()
  {
    calls == []
    || (QuietRun(s, calls[..|calls| - 1]) && Quiet(Run(s, calls[..|calls| - 1]), calls[|calls| - 1]))
  }

  lemma StepKeepsMasks(s: State, c: Call)
    requires s.Valid() && Permitted(s, c) && Quiet(s, c) && s.Settled() && s.MasksAgree()
    ensures Step(s, c).Settled() && Step(s, c).MasksAgree()
  {
    match c
    case AddWatch(path, mask, enabled, grants, grantsAgain) =>
      AddKeepsMasks(s, path, Watch(mask, NO_WD, enabled), grants, grantsAgain);
    case ChangeMask(path, mask, grants) => SetMaskKeepsMasks(s, path, mask, grants);
    case ChangeEnabled(path, enabled, grants) => SetEnabledKeepsMasks(s, path, enabled, grants);
    case ReadEvents(count) => ReadKeepsMasks(s, count);
    case _ =>
  }

  lemma ReadKeepsMasks(s: State, count: nat)
    requires s.Valid() && s.Settled() && s.MasksAgree() && Permitted(s, ReadEvents(count))
    ensures Step(s, ReadEvents(count)).Settled() && Step(s, ReadEvents(count)).MasksAgree()
  {
    TakeAllDelivers(s.(kernel := s.kernel.(unread := s.kernel.unread[count..])), Meanings(s.kernel.unread[..count]));
  }

  lemma {:induction false} QuietRunKeepsMasks(s: State, calls: seq<Call>)
    requires s.Valid() && s.Settled() && s.MasksAgree() && QuietRun(s, calls)
    ensures Run(s, calls).Settled() && Run(s, calls).MasksAgree()
  {
    if calls != [] {
      var init, c := calls[..|calls| - 1], calls[|calls| - 1];
      QuietRunKeepsMasks(s, init);
      if Permitted(Run(s, init), c) {
        StepKeepsMasks(Run(s, init), c);
      }
    }
  }

  /** Over every run from an empty registry: the two indexes, the watch fields and the kernel
      agree, and once everything announced has been read every active watch is really marked.
      In quiet runs the kernel also filters with exactly the masks that the watches show. */
  lemma EveryRun(kernel: Instance, calls: seq<Call>)
    requires kernel.Ok() && kernel.marks == map[]
    ensures var t := Run(Empty(kernel), calls);
            && t.Valid()
            && (t.kernel.unread == [] ==> forall d :: d in t.watches ==> d in t.kernel.marks)
            && (QuietRun(Empty(kernel), calls) ==> t.Settled() && t.MasksAgree())
  {
    var t := Run(Empty(kernel), calls);
    forall d | d in t.watches && t.kernel.unread == []
      ensures d in t.kernel.marks
    {
      assert t.Accounted(d, []);
    }
    if QuietRun(Empty(kernel), calls) {
      QuietRunKeepsMasks(Empty(kernel), calls);
    }
  }

  // ---------------------------------------------------------------- the queue over whole runs

  /** What reading `count` records delivers, by the filter of module Delivery. */
  ghost function Delivered(s: State, count: nat): seq<Notice>
    requires s.Valid() && count <= |s.kernel.unread|
  {
    var es := Meanings(s.kernel.unread[..count]);
    DeliverIsWatched(s.WatchedNow(), es);
    Notices(s.watches, Deliver(s.WatchedNow(), es))
  }

  /** What one call delivers into the queue, and what it takes out. */
  ghost function PutIn(s: State, c: Call): seq<Notice>
    requires s.Valid()
  {
    if c.ReadEvents? && Permitted(s, c) then Delivered(s, c.count) else []
  }

  ghost function TakenOut(s: State, c: Call): seq<Notice> {
    if c.TakeEvent? && s.events != [] then [s.events[0]] else []
  }

  /** The same for a run. */
  ghost function AllPutIn(s: State, calls: seq<Call>): seq<Notice>
    requires s.Valid()
  {
    if calls == [] then []
    else AllPutIn(s, calls[..|calls| - 1]) + PutIn(Run(s, calls[..|calls| - 1]), calls[|calls| - 1])
  }

  ghost function AllTakenOut(s: State, calls: seq<Call>): seq<Notice>
    requires s.Valid()
  {
    if calls == [] then []
    else AllTakenOut(s, calls[..|calls| - 1]) + TakenOut(Run(s, calls[..|calls| - 1]), calls[|calls| - 1])
  }

  lemma StepQueues(s: State, c: Call)
    requires s.Valid() && Permitted(s, c)
    ensures TakenOut(s, c) + Step(s, c).events == s.events + PutIn(s, c)
  {
    if c.ReadEvents? {
      ReadQueues(s, c.count);
    } else if c.TakeEvent? {
      assert [s.events[0]] + s.events[1..] == s.events;
    } else {
      OthersQueueNothing(s, c);
    }
  }

  lemma ReadQueues(s: State, count: nat)
    requires s.Valid() && count <= |s.kernel.unread|
    ensures Received(s, count).events == s.events + Delivered(s, count)
  {
    var t := s.(kernel := s.kernel.(unread := s.kernel.unread[count..]));
    assert t.WatchedNow() == s.WatchedNow();
    TakeAllDelivers(t, Meanings(s.kernel.unread[..count]));
  }

  lemma OthersQueueNothing(s: State, c: Call)
    requires s.Valid() && Permitted(s, c) && !c.ReadEvents? && !c.TakeEvent?
    ensures Step(s, c).events == s.events
  {
  }

  lemma QueueGrows(taken: seq<Notice>, before: seq<Notice>, start: seq<Notice>, put: seq<Notice>,
                   out: seq<Notice>, after: seq<Notice>, more: seq<Notice>)
    requires taken + before == start + put && out + after == before + more
    ensures (taken + out) + after == start + (put + more)
  {
    assert (taken + out) + after == taken + (out + after);
    assert taken + (before + more) == (taken + before) + more;
  }

  /** Over every run, what was taken out of the queue and then what is left in it is what was in
      it and then what was delivered: whatever is added, removed, disabled or closed in between,
      no event is lost, doubled or overtaken. */
  lemma {:induction false} QueueKeepsOrder(s: State, calls: seq<Call>)
    requires s.Valid()
    ensures AllTakenOut(s, calls) + Run(s, calls).events == s.events + AllPutIn(s, calls)
  {
    if calls != [] {
      var init, c := calls[..|calls| - 1], calls[|calls| - 1];
      var before := Run(s, init);
      QueueKeepsOrder(s, init);
      if Permitted(before, c) {
        StepQueues(before, c);
      }
      QueueGrows(AllTakenOut(s, init), before.events, s.events, AllPutIn(s, init),
                 TakenOut(before, c), Run(s, calls).events, PutIn(before, c));
    }
  }

  // ---------------------------------------------------------------- where the code falls short

  /** Two names of one inode. */
  const TWO_NAMES := Instance(map["a" := 1, "b" := 1], map[], map[], 1, [])

  /** Enabling the second of two watches on one inode breaks the registry: both watches carry
      the same descriptor, and the index leads only to the first. */
  lemma EnablingCanBreakTheRegistry() returns (before: State)
    ensures before.Valid() && "a" in before.paths && "b" in before.paths
    ensures SetEnabled(before, "b", true, true).1 == Done
    ensures var after := SetEnabled(before, "b", true, true).0;
            !after.Valid() && after.paths["a"].wd == after.paths["b"].wd && after.watches == before.watches
  {
    var s0 := Empty(TWO_NAMES);
    AddKeepsValid(s0, "a", Watch(IN_CREATE, NO_WD, true), true, true);
    var s1 := Add(s0, "a", Watch(IN_CREATE, NO_WD, true), true, true).0;
    AddKeepsValid(s1, "b", Watch(IN_CREATE, NO_WD, false), true, true);
    before := Add(s1, "b", Watch(IN_CREATE, NO_WD, false), true, true).0;
    SetEnabledKeepsValid(before, "b", true, true);
  }

  /** A failed Add that leaves its bits behind in the kernel. */
  lemma RecoveryCanFail() returns (before: State)
    ensures before.Valid() && before.Settled() && before.MasksAgree()
    ensures var (after, outcome) := Add(before, "b", Watch(IN_DELETE, NO_WD, true), true, true);
            outcome == Thrown(PathWatchedAnotherWay) && after.kernel.Mask(1) != before.kernel.Mask(1)
  {
    var s0, mask := Empty(TWO_NAMES), IN_CREATE | IN_MASK_ADD;
    AddKeepsValid(s0, "a", Watch(mask, NO_WD, true), true, true);
    AddKeepsMasks(s0, "a", Watch(mask, NO_WD, true), true, true);
    before := Add(s0, "a", Watch(mask, NO_WD, true), true, true).0;
    assert before.kernel.Mask(1) == IN_CREATE;
    assert Add(before, "b", Watch(IN_DELETE, NO_WD, true), true, true).0.kernel.Mask(1) == IN_CREATE | IN_DELETE;
  }

  /** A failed Add that leaves its mask behind although nobody asks for IN_MASK_ADD: the path of
      the watch that holds the mark names another inode by now, and that is where the recovery
      goes. */
  lemma RecoveryCanMiss() returns (before: State)
    ensures before.Valid() && before.MasksAgree() && !IsType(before.MaskOf("a"), IN_MASK_ADD)
    ensures var (after, outcome) := Add(before, "b", Watch(IN_DELETE, NO_WD, true), true, true);
            outcome == Thrown(PathWatchedAnotherWay) && after.kernel.Mask(1) == IN_DELETE
              && before.kernel.Mask(1) == IN_CREATE
  {
    var s0 := Empty(TWO_NAMES);
    AddKeepsValid(s0, "a", Watch(IN_CREATE, NO_WD, true), true, true);
    var s1 := Add(s0, "a", Watch(IN_CREATE, NO_WD, true), true, true).0;
    KernelStepKeepsValid(s1, s1.kernel.Relink(map["a" := 2, "b" := 1]));
    before := s1.(kernel := s1.kernel.Relink(map["a" := 2, "b" := 1]));
  }

  /** A failed change of one watch's mask that changes what the kernel filters for another. */
  lemma SetMaskCanHarmAnother() returns (before: State)
    ensures before.Valid() && before.Settled() && before.MasksAgree() && "a" in before.paths && "b" in before.paths
    ensures var (after, outcome) := SetMask(before, "a", IN_DELETE, true);
            && outcome == Thrown(ChangingMaskFailed) && after.paths["b"] == before.paths["b"]
            && after.kernel.Mask(after.paths["b"].wd) == IN_DELETE && after.paths["b"].mask == IN_CREATE
            && !after.MasksAgree()
  {
    var s0, w := Empty(TWO_NAMES), Watch(IN_CREATE, NO_WD, true);
    AddKeepsValid(s0, "a", w, true, true);
    AddKeepsMasks(s0, "a", w, true, true);
    var s1 := Add(s0, "a", w, true, true).0;
    KernelStepKeepsValid(s1, s1.kernel.Remove(1));
    var s2 := s1.(kernel := s1.kernel.Remove(1));
    AddKeepsValid(s2, "b", w, true, true);
    AddKeepsMasks(s2, "b", w, true, true);
    before := Add(s2, "b", w, true, true).0;
    assert before.paths["b"].wd == 2 && before.kernel.WdFor("a") == 2 && before.watches[2] == "b";
  }
}
