/** `InotifyWatch` and `Inotify` as objects: two indexes that share mutable watch objects, each
    pointing back to its registry. Every method is proved to do what the machine of module
    Registry does, so that the theorems about its runs are theorems about these objects. */
module InotifyObjects {
  import opened Options
  import opened EventMask
  import opened EventRecords
  import opened Delivery
  import opened Registry
  import Kernel

  datatype InotifyEvent = InotifyEvent(mask: bv32, cookie: bv32, name: seq<Byte>, watch: InotifyWatch)

  function Noticed(e: InotifyEvent): Notice {
    Notice(e.mask, e.cookie, e.name, e.watch.path)
  }

  class InotifyWatch {
    const path: string
    var mask: bv32
    var wd: int
    var inotify: Inotify?
    var enabled: bool

    constructor (path: string, mask: bv32, enabled: bool := true)
      ensures this.path == path && Fields() == Watch(mask, NO_WD, enabled) && inotify == null
    {
      this.path := path;
      this.mask := mask;
      this.enabled := enabled;
      wd := NO_WD;
      inotify := null;
    }

    function Fields(): Watch
      reads this
    {
      Watch(mask, wd, enabled)
    }

    /** In no registry: what Add expects, and what Remove and RemoveAll leave behind. */
    predicate Detached()
      reads this
    {
      inotify == null && wd == NO_WD
    }

    ghost predicate Attached()
      reads this, inotify, if inotify == null then {} else inotify.paths.Values
    {
      inotify != null && inotify.Linked() && inotify.Holds(this)
    }

    method SetMask(mask: bv32, grants: bool) returns (r: Outcome)
      requires Detached() || Attached()
      modifies this, if inotify == null then {} else {inotify}
      ensures inotify == null ==> r == Done && this.mask == mask && Detached()
      ensures inotify == old(inotify)
      ensures inotify != null ==>
                Attached() && inotify.paths == old(inotify.paths)
                && (inotify.state, r) == Registry.SetMask(old(inotify.state), path, mask, grants)
    {
      if inotify == null {
        this.mask := mask;
        return Done;
      }
      r := inotify.ChangeMask(this, mask, grants);
    }

    method SetEnabled(enabled: bool, grants: bool) returns (r: Outcome)
      requires Detached() || Attached()
      modifies this, if inotify == null then {} else {inotify}
      ensures inotify == null ==> r == Done && this.enabled == enabled && Detached()
      ensures inotify == old(inotify)
      ensures inotify != null ==>
                Attached() && inotify.paths == old(inotify.paths)
                && (inotify.state, r) == Registry.SetEnabled(old(inotify.state), path, enabled, grants)
    {
      if enabled == this.enabled {
        if inotify != null {
          assert inotify.PathLinked(path);
        }
        return Done;
      }
      if inotify == null {
        this.enabled := enabled;
        return Done;
      }
      if enabled {
        r := inotify.Enable(this, grants);
      } else {
        r := inotify.Unmark(this);
      }
    }

    /** Follows the kernel, which is done with this watch. */
    method Disable() returns (r: Outcome)
      requires Detached() || Attached()
      modifies this, if inotify == null then {} else {inotify}
      ensures inotify == null ==>
              r == (if old(enabled) then Done else Thrown(EventOnDisabledWatch)) && !enabled && Detached()
      ensures inotify == old(inotify)
      ensures inotify != null ==>
                Attached() && inotify.paths == old(inotify.paths)
                  && (inotify.state, r) == Registry.Disable(old(inotify.state), path)
    {
      if !enabled {
        if inotify != null {
          assert inotify.PathLinked(path);
        }
        return Thrown(EventOnDisabledWatch);
      }
      if inotify == null {
        enabled := false;
        return Done;
      }
      inotify.Deactivate(this);
      r := Done;
    }
  }

  class Inotify {
    var open: bool
    var watches: map<int, InotifyWatch>
    var paths: map<string, InotifyWatch>
    var events: seq<InotifyEvent>
    var kernel: Kernel.Instance
    /** The state of the machine that these fields and watches represent. */
    ghost var state: State

    constructor (kernel: Kernel.Instance)
      ensures Linked() && state == Empty(kernel)
    {
      this.kernel := kernel;
      open := true;
      watches, paths, events := map[], map[], [];
      state := Empty(kernel);
    }

    /** A path entry is keyed by the path of its watch, which points back here. */
    ghost predicate PathLinked(p: string)
      requires p in paths
      reads this, paths[p]
    {
      var w := paths[p];
      w.path == p && w.inotify == this && p in state.paths && state.paths[p] == w.Fields()
    }

    /** The descriptor index holds the very objects of the path index. */
    ghost predicate DescriptorLinked(d: int)
      requires d in watches
      reads this
    {
      var p := watches[d].path;
      p in paths && paths[p] == watches[d] && d in state.watches && state.watches[d] == p
    }

    ghost predicate QueueLinked()
      reads this
    {
      |events| == |state.events| && forall i :: 0 <= i < |events| ==> Noticed(events[i]) == state.events[i]
    }

    /** The fields and the watches represent `state`. */
    ghost predicate Linked()
      reads this, paths.Values
    {
      && open == state.open && kernel == state.kernel
      && paths.Keys == state.paths.Keys && (forall p :: p in paths ==> PathLinked(p))
      && watches.Keys == state.watches.Keys && (forall d :: d in watches ==> DescriptorLinked(d))
      && QueueLinked()
    }

    /** This registry holds the watch, under its path and under no descriptor but its own. */
    ghost predicate Holds(w: InotifyWatch)
      reads this, w
    {
      && w.path in paths && paths[w.path] == w
      && (w.enabled <==> w.wd != NO_WD)
      && forall d :: d in watches && watches[d] == w ==> d == w.wd && d != NO_WD
    }

    /** Under the agreement of the machine, the path index alone decides which watch is held. */
    lemma HeldByPath(w: InotifyWatch)
      requires Linked() && state.ValidForTaking() && w.path in paths && paths[w.path] == w
      ensures Holds(w) && (w.enabled <==> w.wd in watches)
    {
      assert PathLinked(w.path) && state.PathEntryOk(w.path);
      forall d | d in watches && watches[d] == w
        ensures d == w.wd && d != NO_WD
      {
        assert DescriptorLinked(d) && state.WatchEntryOk(d);
      }
    }

    // ------------------------------------------------------------- small moves

    /** The kernel side moves on; the registry does not notice. */
    method SetKernel(k: Kernel.Instance)
      requires Linked()
      modifies this`kernel, this`state
      ensures Linked() && state == old(state).(kernel := k)
    {
      kernel := k;
      state := state.(kernel := k);
    }

    /** Gives a watch of the path index new fields. */
    method Show(w: InotifyWatch, f: Watch)
      requires Linked() && w.path in paths && paths[w.path] == w
      modifies this`state, w`mask, w`wd, w`enabled
      ensures Linked() && w.Fields() == f
      ensures state == old(state).(paths := old(state).paths[w.path := f])
    {
      w.mask := f.mask;
      w.wd := f.wd;
      w.enabled := f.enabled;
      state := state.(paths := state.paths[w.path := f]);
    }

    /** Enters a watch of the path index into the descriptor index. */
    method Index(w: InotifyWatch, wd: int)
      requires Linked() && w.path in paths && paths[w.path] == w
      modifies this`watches, this`state
      ensures Linked() && watches == old(watches)[wd := w]
      ensures state == old(state).(watches := old(state).watches[wd := w.path])
    {
      watches := watches[wd := w];
      state := state.(watches := state.watches[wd := w.path]);
    }

    method Unindex(wd: int)
      requires Linked()
      modifies this`watches, this`state
      ensures Linked() && watches == old(watches) - {wd}
      ensures state == old(state).(watches := old(state).watches - {wd})
    {
      watches := watches - {wd};
      state := state.(watches := state.watches - {wd});
    }

    /** Enters a watch into the path index and makes it point back here. */
    method EnterPath(w: InotifyWatch)
      requires Linked() && w.path !in paths
      modifies this`paths, this`state, w`inotify
      ensures Linked() && paths == old(paths)[w.path := w]
      ensures state == old(state).(paths := old(state).paths[w.path := w.Fields()])
    {
      paths := paths[w.path := w];
      w.inotify := this;
      state := state.(paths := state.paths[w.path := w.Fields()]);
    }

    /** Takes a watch out of the path index and detaches it. */
    method LeavePath(w: InotifyWatch)
      requires Linked() && w.path in paths && paths[w.path] == w
      requires forall d :: d in watches ==> watches[d] != w
      modifies this`paths, this`state, w`inotify
      ensures Linked() && w.inotify == null && paths == old(paths) - {w.path}
      ensures state == old(state).(paths := old(state).paths - {w.path})
    {
      paths := paths - {w.path};
      state := state.(paths := state.paths - {w.path});
      w.inotify := null;
    }

    // ------------------------------------------------------------- adding and removing

    /** Adds a watch, whatever it belongs to so far; one that this registry holds is refused. */
    method Add(w: InotifyWatch, grants: bool, grantsAgain: bool) returns (r: Outcome)
      requires Linked()
      modifies this`watches, this`paths, this`kernel, this`state, w
      ensures Linked()
      ensures (state, r) == Registry.Add(old(state), w.path, old(w.Fields()), grants, grantsAgain)
      ensures r.Done? ==> paths == old(paths)[w.path := w]
      ensures r.Thrown? ==> paths == old(paths) && watches == old(watches)
      ensures r.Thrown? ==> w.inotify == old(w.inotify) && w.Fields() == old(w.Fields())
    {
      if !open {
        return Thrown(InvalidDescriptor);
      }
      if w.path in paths {
        return Thrown(PathAlreadyWatched);
      }
      if w.enabled {
        var wd;
        r, wd := MarkFor(w, grants, grantsAgain);
        if r.Done? {
          Enter(w, wd);
        }
      } else {
        EnterPath(w);
        r := Done;
      }
    }

    /** The kernel's half of adding an enabled watch: marks the inode and, when another watch
        turns out to hold that mark already, tries to put its mask back. */
    method MarkFor(w: InotifyWatch, grants: bool, grantsAgain: bool) returns (r: Outcome, wd: int)
      requires Linked() && open && w.path !in paths && w.enabled
      modifies this`kernel, this`state
      ensures Linked()
      ensures r.Thrown? ==> (state, r) == Registry.Add(old(state), w.path, w.Fields(), grants, grantsAgain)
      ensures r.Done? ==>
                && grants && old(kernel).CanAdd(w.path)
                && wd == old(kernel).WdFor(w.path) && wd != NO_WD && wd !in watches
                && state == old(state).(kernel := old(kernel).Add(w.path, w.mask))
    {
      if !grants || !kernel.CanAdd(w.path) {
        return Thrown(AddingFailed), NO_WD;
      }
      wd := kernel.WdFor(w.path);
      var marked := kernel.Add(w.path, w.mask);
      if wd !in watches {
        r := Done;
      } else {
        var other := watches[wd];
        assert DescriptorLinked(wd) && PathLinked(other.path);
        if !grantsAgain || !marked.CanAdd(other.path) {
          r := Thrown(CollisionRecoveryFailed);
        } else {
          marked := marked.Add(other.path, other.mask);
          r := Thrown(PathWatchedAnotherWay);
        }
      }
      SetKernel(marked);
    }

    /** Enters a watch that is marked as `wd` into both indexes. */
    method Enter(w: InotifyWatch, wd: int)
      requires Linked() && w.path !in paths
      modifies this`watches, this`paths, this`state, w
      ensures Linked() && paths == old(paths)[w.path := w]
      ensures state == old(state).(
                paths := old(state).paths[w.path := old(w.Fields()).(wd := wd)],
                watches := old(state).watches[wd := w.path])
    {
      assert forall p :: p in paths ==> PathLinked(p);
      w.wd := wd;
      EnterPath(w);
      Index(w, wd);
    }

    /** Removes a watch of this registry. */
    method Remove(w: InotifyWatch) returns (r: Outcome)
      requires Linked() && Holds(w)
      modifies this`watches, this`paths, this`kernel, this`state, w
      ensures Linked()
      ensures (state, r) == Registry.Remove(old(state), w.path)
      ensures r.Done? ==> w.Detached() && paths == old(paths) - {w.path} && old(w.wd) !in kernel.marks
      ensures r.Thrown? ==> Holds(w) && paths == old(paths) && watches == old(watches)
    {
      assert PathLinked(w.path);
      if !open {
        return Thrown(InvalidDescriptor);
      }
      if w.wd != NO_WD {
        if w.wd !in kernel.marks {
          return Thrown(RemovingFailed);
        }
        SetKernel(kernel.Remove(w.wd));
        Unindex(w.wd);
      }
      LeavePath(w);
      w.wd := NO_WD;
      r := Done;
    }

    /** Removes a watch that is not held here: whatever owns its path leaves the path index, and
        what the descriptor index then holds is no longer known by path. */
    method RemoveStranger(w: InotifyWatch) returns (r: Outcome)
      requires Linked() && w !in paths.Values
      modifies this`watches, this`paths, this`kernel, this`state, w`wd, w`inotify
      ensures (state, r) == Registry.RemoveStranger(old(state), w.path, old(w.wd))
      ensures r.Done? ==> w.Detached() && paths == old(paths) - {w.path}
      ensures r.Done? ==> watches == if old(w.wd) == NO_WD then old(watches) else old(watches) - {old(w.wd)}
      ensures r.Thrown? ==> paths == old(paths) && watches == old(watches)
      ensures r.Thrown? ==> w.wd == old(w.wd) && w.inotify == old(w.inotify)
      ensures w.path !in old(paths) ==> Linked()
    {
      if !open {
        return Thrown(InvalidDescriptor);
      }
      if w.wd != NO_WD {
        if w.wd !in kernel.marks {
          return Thrown(RemovingFailed);
        }
        SetKernel(kernel.Remove(w.wd));
        Unindex(w.wd);
      }
      ForgetPath(w);
      r := Done;
    }

    method ForgetPath(w: InotifyWatch)
      requires Linked() && w !in paths.Values
      modifies this`paths, this`state, w`wd, w`inotify
      ensures w.Detached() && paths == old(paths) - {w.path}
      ensures state == old(state).(paths := old(state).paths - {w.path})
      ensures w.path !in old(paths) ==> Linked()
    {
      paths := paths - {w.path};
      w.wd := NO_WD;
      w.inotify := null;
      state := state.(paths := state.paths - {w.path});
    }

    /** Removes every watch; `order` lists the descriptors in the order of their removal. */
    method RemoveAll() returns (ghost order: seq<int>)
      requires Linked()
      modifies this`watches, this`paths, this`kernel, this`state, paths.Values
      ensures Linked() && paths == map[] && watches == map[]
      ensures state == Registry.RemoveAll(old(state), order)
      ensures forall d :: d in order <==> d in Descriptors(old(state).paths)
      ensures forall p :: p in old(paths) ==>
                p in old(state).paths && old(paths)[p].Detached()
                  && old(paths)[p].Fields() == old(state).paths[p].(wd := NO_WD)
    {
      ghost var held, former := paths, state;
      assert forall p :: p in held ==> PathLinked(p);
      order := ReleaseAll(paths.Values);
      forall p | p in held
        ensures p in former.paths && held[p].Detached() && held[p].Fields() == former.paths[p].(wd := NO_WD)
      {
        assert held[p] in held.Values && held[p].path == p;
        assert Released(held[p]);
      }
      InOrder(held, former, order);
      ForgetAll(order);
    }

    lemma InOrder(held: map<string, InotifyWatch>, former: State, order: seq<int>)
      requires held.Keys == former.paths.Keys && forall p :: p in held ==> held[p].path == p
      requires forall w :: w in held.Values && former.paths[w.path].wd != NO_WD ==> former.paths[w.path].wd in order
      requires forall d :: d in order ==> d in Descriptors(former.paths)
      ensures forall d :: d in order <==> d in Descriptors(former.paths)
    {
      forall p | p in former.paths && former.paths[p].wd != NO_WD
        ensures former.paths[p].wd in order
      {
        assert held[p] in held.Values;
      }
    }

    /** Empties both indexes once the kernel has forgotten the marks in `order`. */
    method ForgetAll(ghost order: seq<int>)
      requires open == state.open && QueueLinked()
      requires kernel == Registry.Unmark(state.kernel, order)
      modifies this`watches, this`paths, this`state
      ensures Linked() && paths == map[] && watches == map[]
      ensures state == Registry.RemoveAll(old(state), order)
    {
      watches := map[];
      paths := map[];
      state := Registry.RemoveAll(state, order);
    }

    /** A watch that RemoveAll has dealt with. */
    ghost predicate Released(w: InotifyWatch)
      reads this, w
    {
      w.path in state.paths && w.Detached() && w.Fields() == state.paths[w.path].(wd := NO_WD)
    }

    /** Gives every mark back and detaches every watch, without touching the indexes. */
    method ReleaseAll(all: set<InotifyWatch>) returns (ghost order: seq<int>)
      requires forall w :: w in all ==> w.path in state.paths && w.Fields() == state.paths[w.path]
      modifies this`kernel, all
      ensures kernel == Registry.Unmark(old(kernel), order)
      ensures forall w :: w in all ==> Released(w)
      ensures forall w :: w in all && state.paths[w.path].wd != NO_WD ==> state.paths[w.path].wd in order
      ensures forall d :: d in order ==> d in Descriptors(state.paths)
    {
      order := [];
      var todo := all;
      while todo != {}
        invariant todo <= all && kernel == Registry.Unmark(old(kernel), order)
        invariant forall w :: w in todo ==> w.path in state.paths && w.Fields() == state.paths[w.path]
        invariant forall w :: w in all - todo ==> Released(w)
        invariant forall w :: w in all - todo && state.paths[w.path].wd != NO_WD ==> state.paths[w.path].wd in order
        invariant forall d :: d in order ==> d in Descriptors(state.paths)
      {
        var w :| w in todo;
        ghost var done := all - todo;
        assert forall v :: v in done ==> v != w && Released(v);
        order := Release(w, old(kernel), order);
        assert forall v :: v in done ==> Released(v);
        todo := todo - {w};
        assert all - todo == done + {w};
      }
    }

    method Release(w: InotifyWatch, ghost before: Kernel.Instance, ghost order: seq<int>)
      returns (ghost longer: seq<int>)
      requires kernel == Registry.Unmark(before, order)
      modifies this`kernel, w`wd, w`inotify
      ensures kernel == Registry.Unmark(before, longer) && w.Detached()
      ensures longer == if old(w.wd) != NO_WD then order + [old(w.wd)] else order
    {
      longer := order;
      if w.wd != NO_WD {
        longer := order + [w.wd];
        assert longer[..|order|] == order;
        if w.wd in kernel.marks {  // the kernel's answer is not looked at
          kernel := kernel.Remove(w.wd);
        }
        w.wd := NO_WD;
      }
      w.inotify := null;
    }

    /** Closes in whatever state the indexes are; a second time nothing happens. */
    method Close() returns (ghost order: seq<int>)
      requires Linked()
      modifies this`open, this`watches, this`paths, this`kernel, this`state, paths.Values
      ensures Linked() && !open
      ensures state == Registry.Close(old(state), order)
      ensures old(open) ==> forall d :: d in order <==> d in Descriptors(old(state).paths)
      ensures old(open) ==> paths == map[] && watches == map[]
      ensures old(open) ==> forall p :: p in old(paths) ==> old(paths)[p].Detached()
      ensures !old(open) ==> paths == old(paths) && watches == old(watches)
    {
      order := [];
      if open {
        order := RemoveAll();
        open := false;
        state := state.(open := false);
      }
    }

    lemma ClosedIsEmpty()
      requires Linked() && state.Valid() && !open
      ensures paths == map[] && watches == map[]
    {
      assert paths.Keys == {};
      assert forall d :: d in watches ==> DescriptorLinked(d);
      assert forall d :: d !in watches;
    }

    // ------------------------------------------------------------- what a held watch asks for

    method ChangeMask(w: InotifyWatch, mask: bv32, grants: bool) returns (r: Outcome)
      requires Linked() && Holds(w)
      modifies this`kernel, this`state, w
      ensures Linked() && Holds(w)
      ensures (state, r) == Registry.SetMask(old(state), w.path, mask, grants)
    {
      assert PathLinked(w.path);
      if w.wd != NO_WD {
        if !grants || !kernel.CanAdd(w.path) {
          return Thrown(ChangingMaskFailed);
        }
        var wd := kernel.WdFor(w.path);
        SetKernel(kernel.Add(w.path, mask));
        if wd != w.wd {
          return Thrown(ChangingMaskFailed);
        }
      }
      Show(w, w.Fields().(mask := mask));
      r := Done;
    }

    /** Enabling: the descriptor index keeps an entry that is already there. */
    method Enable(w: InotifyWatch, grants: bool) returns (r: Outcome)
      requires Linked() && Holds(w) && !w.enabled
      modifies this`watches, this`kernel, this`state, w
      ensures Linked() && Holds(w)
      ensures (state, r) == Registry.SetEnabled(old(state), w.path, true, grants)
    {
      assert PathLinked(w.path);
      if !grants || !kernel.CanAdd(w.path) {
        return Thrown(EnablingFailed);
      }
      var wd := kernel.WdFor(w.path);
      SetKernel(kernel.Add(w.path, w.mask));
      if wd !in watches {
        Index(w, wd);
      }
      Show(w, Watch(w.mask, wd, true));
      r := Done;
    }

    method Unmark(w: InotifyWatch) returns (r: Outcome)
      requires Linked() && Holds(w) && w.enabled
      modifies this`watches, this`kernel, this`state, w
      ensures Linked() && Holds(w)
      ensures (state, r) == Registry.SetEnabled(old(state), w.path, false, true)
    {
      assert PathLinked(w.path);
      if w.wd !in kernel.marks {
        return Thrown(DisablingFailed);
      }
      SetKernel(kernel.Remove(w.wd));
      Deactivate(w);
      r := Done;
    }

    /** Takes a watch out of the descriptor index and shows it as disabled. */
    method Deactivate(w: InotifyWatch)
      requires Linked() && Holds(w)
      modifies this`watches, this`state, w
      ensures Linked() && Holds(w) && watches == old(watches) - {old(w.wd)}
              && w.Fields() == Watch(old(w.mask), NO_WD, false)
      ensures state == old(state).(paths := old(state).paths[w.path := Watch(w.mask, NO_WD, false)],
                                   watches := old(state).watches - {old(w.wd)})
    {
      Unindex(w.wd);
      Show(w, Watch(w.mask, NO_WD, false));
    }

    // ------------------------------------------------------------- events

    function FindByDescriptor(wd: int): (w: InotifyWatch?)
      reads this
      ensures w != null <==> wd in watches
      ensures w != null ==> w == watches[wd]
    {
      if wd in watches then watches[wd] else null
    }

    /** The decode loop over a filled buffer, as the blocking and the asynchronous read run it:
        it never looks outside the `len` bytes, ends exactly at their end, and does what the
        machine does with the records `rs` that the kernel put there. */
    method Decode(buf: array<Byte>, len: nat, ghost rs: seq<Record>)
      requires Linked() && state.ValidForTaking()
      requires len <= buf.Length && AllWellFormed(rs) && buf[..len] == EncodeAll(rs)
      modifies this, paths.Values
      ensures Linked() && state.ValidForTaking() && paths == old(paths)
      ensures state == TakeAll(old(state), Meanings(rs))
    {
      var b, i := buf[..len], 0;
      ghost var k := 0;
      assert rs[..0] == [];
      while i < len
        invariant AtRecord(b, i, rs, k)
        invariant Linked() && state.ValidForTaking() && paths == old(paths)
        invariant state == TakeAll(old(state), Meanings(rs[..k]))
        decreases len - i
      {
        i := DecodeOne(b, i, rs, k, old(state));
        k := k + 1;
      }
      NothingLeft(b, i, rs, k);
    }

    /** Decodes the record at `i` and moves on to the next. */
    method DecodeOne(b: seq<Byte>, i: nat, ghost rs: seq<Record>, ghost k: nat, ghost start: State) returns (next: nat)
      requires AllWellFormed(rs) && AtRecord(b, i, rs, k) && i < |b|
      requires Linked() && state.ValidForTaking() && state == TakeAll(start, Meanings(rs[..k]))
      modifies this, paths.Values
      ensures i < next && k < |rs| && AtRecord(b, next, rs, k + 1)
      ensures Linked() && state.ValidForTaking() && paths == old(paths)
      ensures state == TakeAll(start, Meanings(rs[..k + 1]))
    {
      SomethingLeft(b, i, rs, k);
      RecordAt(b, i, rs, k);
      TakeAllStep(start, rs, k);
      TakeOne(EventAt(b, i));
      next := i + HEADER_SIZE + LengthAt(b, i);
    }

    /** One round of the loop. */
    method TakeOne(e: Event)
      requires Linked() && state.ValidForTaking()
      modifies this, paths.Values
      ensures Linked() && state.ValidForTaking() && paths == old(paths)
      ensures state == Take(old(state), e)
    {
      TakeKeepsIndexes(state, e);
      var w := FindByDescriptor(e.wd);
      if w != null {
        assert DescriptorLinked(e.wd);
        assert paths[w.path] in paths.Values;
        HeldByPath(w);
        assert PathLinked(w.path);
        var evt := InotifyEvent(e.mask, e.cookie, e.name, w);
        if IsType(w.mask, IN_ONESHOT) || IsType(evt.mask, IN_IGNORED) {
          var r := w.Disable();
          assert r == Done;
        }
        Push(evt);
      }
    }

    method Push(evt: InotifyEvent)
      requires Linked()
      modifies this`events, this`state
      ensures Linked() && events == old(events) + [evt]
      ensures state == old(state).(events := old(state).events + [Noticed(evt)])
    {
      events := events + [evt];
      state := state.(events := state.events + [Noticed(evt)]);
    }

    /** Moves the oldest records out of the kernel into the buffer. */
    method Fetch(buf: array<Byte>) returns (len: nat, ghost rs: seq<Record>)
      requires Linked() && state.kernel.Ok()
      modifies this`kernel, this`state, buf
      ensures Linked() && |rs| <= |old(state).kernel.unread| && rs == old(state).kernel.unread[..|rs|]
      ensures state == old(state).(kernel := old(state).kernel.(unread := old(state).kernel.unread[|rs|..]))
      ensures AllWellFormed(rs) && len <= buf.Length && buf[..len] == EncodeAll(rs)
    {
      var after;
      after, len, rs := Kernel.Read(kernel, buf);
      assert rs == kernel.unread[..|rs|] && after.unread == kernel.unread[|rs|..];
      SetKernel(after);
    }

    /** Reading: whatever the kernel hands over is decoded and queued. The registry's agreement
        with the kernel survives, and the kernel has forgotten exactly what was handed over. */
    method WaitForEvents(buf: array<Byte>) returns (ghost count: nat)
      requires Linked() && state.Valid()
      modifies this, paths.Values, buf
      ensures Linked() && state.Valid() && paths == old(paths)
      ensures count <= |old(state).kernel.unread| && state == Received(old(state), count)
    {
      var len;
      ghost var rs;
      len, rs := Fetch(buf);
      count := |rs|;
      ReceivedKeepsValid(old(state), count);
      Decode(buf, len, rs);
    }

    method GetEventCount() returns (count: nat)
      requires Linked()
      ensures count == |events| == |state.events|
    {
      count := |events|;
    }

    /** Takes the oldest event out of the queue; answers whether there was one. */
    method GetEvent() returns (got: bool, e: Option<InotifyEvent>)
      requires Linked()
      modifies this`events, this`state
      ensures Linked() && got == (old(events) != []) && got == e.Some?
      ensures got ==> e.value == old(events)[0] && events == old(events)[1..]
      ensures !got ==> events == []
      ensures state == old(state).(events := if got then old(state).events[1..] else [])
    {
      got, e := PeekEvent();
      if got {
        events := events[1..];
        state := state.(events := state.events[1..]);
      }
    }

    method PeekEvent() returns (got: bool, e: Option<InotifyEvent>)
      requires Linked()
      ensures got == (events != []) && got == e.Some?
      ensures got ==> e.value == events[0]
    {
      got := events != [];
      e := if got then Some(events[0]) else None;
    }
  }

  /** The loop's index stands where record `k` starts, and the remaining ones fill the rest. */
  ghost predicate AtRecord(b: seq<Byte>, i: nat, rs: seq<Record>, k: nat)
    requires AllWellFormed(rs)
  {
    k <= |rs| && i <= |b| && b[i..] == EncodeAll(rs[k..])
  }

  lemma FirstOfRest(b: seq<Byte>, i: nat, rs: seq<Record>, k: nat)
    requires AllWellFormed(rs) && k < |rs| && i <= |b| && b[i..] == EncodeAll(rs[k..])
    ensures i + rs[k].Size() <= |b| && b[i..i + rs[k].Size()] == Encode(rs[k])
    ensures b[i + rs[k].Size()..] == EncodeAll(rs[k + 1..])
  {
    var rest := rs[k..];
    SplitFirst(b, i, rest);
    assert rest[1..] == rs[k + 1..] && rest[0] == rs[k];
  }

  lemma SomethingLeft(b: seq<Byte>, i: nat, rs: seq<Record>, k: nat)
    requires AllWellFormed(rs) && AtRecord(b, i, rs, k) && i < |b|
    ensures k < |rs|
  {
    assert |EncodeAll(rs[k..])| == |b| - i;
  }

  /** The record at the loop's index is read back correctly and the index moves to the next. */
  lemma RecordAt(b: seq<Byte>, i: nat, rs: seq<Record>, k: nat)
    requires AllWellFormed(rs) && AtRecord(b, i, rs, k) && k < |rs|
    ensures i + rs[k].Size() <= |b| && rs[k].Size() == HEADER_SIZE + LengthAt(b, i)
    ensures Complete(b, i) && EventAt(b, i) == Meaning(rs[k])
    ensures AtRecord(b, i + rs[k].Size(), rs, k + 1)
  {
    FirstOfRest(b, i, rs, k);
    DecodeEncode(b, i, rs[k]);
  }

  lemma NothingLeft(b: seq<Byte>, i: nat, rs: seq<Record>, k: nat)
    requires AllWellFormed(rs) && AtRecord(b, i, rs, k) && i == |b|
    ensures k == |rs| && rs[..k] == rs
  {
    assert |EncodeAll(rs[k..])| == 0;
  }
}
