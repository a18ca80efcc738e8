/** The file watcher: what the manager does with the events of its inotify object, and the list
    of watches that it keeps beside that object's own indexes. */
module FileWatcherObject {
  import opened Options
  import opened EventMask
  import opened EventRecords
  import opened Registry
  import opened InotifyObjects
  import Kernel

  /** What the outside answers while one event is handled. */
  datatype Outside = Outside(isSocket: bool, grants: bool, grantsAgain: bool)

  /** What an event leads to beside changes of what is watched. */
  datatype Effect =
    | SocketChanged(fullPath: string, name: string, mask: bv32)
    | ConfigsChanged(fullPath: string, filename: string)

  datatype Decision = Ignore | CheckSocket | WatchDir | WatchFile | Send | Forget

  function Text(bytes: seq<Byte>): string {
    seq(|bytes|, i requires 0 <= i < |bytes| => bytes[i] as char)
  }

  function FullPath(n: Notice): string {
    if n.name == [] then n.path else n.path + "/" + Text(n.name)
  }

  predicate AllowedSubDir(name: string) {
    name == "common" || name == "monitors" || name == "scrapers"
  }

  predicate AllowedFile(name: string) {
    name == "whitelists.json" || name == "blacklists.json" || name == "webhooks.json" || name == "configs.json"
  }

  /** What a mask without the directory flag, that flag, and a name mean for config files. */
  function Choose(m: bv32, isDir: bool, filename: string, alreadyMonitored: bool): Decision {
    if m == IN_CREATE && isDir then
      if AllowedSubDir(filename) then WatchDir else Ignore
    else if m == IN_CREATE then
      if !AllowedFile(filename) then Ignore else if alreadyMonitored then Send else WatchFile
    else if m == IN_MODIFY || m == IN_CLOSE_NOWRITE || m == IN_CLOSE_WRITE then Send
    else if m == IN_DELETE && (if isDir then AllowedSubDir(filename) else AllowedFile(filename)) then Forget
    else Ignore
  }

  /** The case distinction over an event: sockets by single flags, everything else by the whole
      mask without the directory flag. */
  function Decide(n: Notice, socketPath: string, isSocket: bool, alreadyMonitored: bool): Decision {
    if n.path == socketPath then
      if (n.mask & IN_CREATE != 0 && isSocket) || n.mask & IN_DELETE != 0 then CheckSocket else Ignore
    else Choose(n.mask & !IN_ISDIR, n.mask & IN_ISDIR != 0, Text(n.name), alreadyMonitored)
  }

  /** The paths watched after an event that was handled without an exception, and its effects. */
  function React(watched: set<string>, n: Notice, socketPath: string, isSocket: bool): (set<string>, seq<Effect>) {
    var full, filename := FullPath(n), Text(n.name);
    match Decide(n, socketPath, isSocket, full in watched)
    case Ignore => (watched, [])
    case CheckSocket => (watched, [SocketChanged(n.path + "/" + filename, filename, n.mask)])
    case WatchDir => (watched + {full}, [])
    case WatchFile => (watched + {full}, [ConfigsChanged(full, filename)])
    case Send => (watched, [ConfigsChanged(full, filename)])
    case Forget => (watched - {full}, [])
  }

  /** ... and after the first `k` of several events. */
  function ReactAll(watched: set<string>, ns: seq<Notice>, k: nat, socketPath: string, outside: seq<Outside>)
    : (set<string>, seq<Effect>)
    requires k <= |ns| && k <= |outside|
  {
    if k == 0 then (watched, [])
    else
      var (before, effects) := ReactAll(watched, ns, k - 1, socketPath, outside);
      var (after, more) := React(before, ns[k - 1], socketPath, outside[k - 1].isSocket);
      (after, effects + more)
  }

  /** One event as the registry has it: what it is afterwards, the exception if there is one, and
      the effects. */
  function Handle(s: State, n: Notice, socketPath: string, outside: Outside): (State, Outcome, seq<Effect>) {
    var full, filename := FullPath(n), Text(n.name);
    match Decide(n, socketPath, outside.isSocket, full in s.paths)
    case Ignore => (s, Done, [])
    case CheckSocket => (s, Done, [SocketChanged(n.path + "/" + filename, filename, n.mask)])
    case WatchDir =>
      var (t, r) := Registry.Add(s, full, Registry.Watch(IN_CREATE | IN_DELETE, NO_WD, true),
                                 outside.grants, outside.grantsAgain);
      (t, r, [])
    case WatchFile =>
      var (t, r) := Registry.Add(s, full, Registry.Watch(IN_MODIFY, NO_WD, true), outside.grants, outside.grantsAgain);
      (t, r, if r.Done? then [ConfigsChanged(full, filename)] else [])
    case Send => (s, Done, [ConfigsChanged(full, filename)])
    case Forget =>
      if full !in s.paths then (s, Done, [])
      else
        var (t, r) := Registry.Remove(s, full);
        (t, r, [])
  }

  /** All events that are queued, until one of them throws. */
  function Update(s: State, socketPath: string, outside: seq<Outside>): (State, Outcome, seq<Effect>)
    decreases |outside|
  {
    if s.events == [] || outside == [] then (s, Done, [])
    else
      var (t, r, effects) := Handle(s.(events := s.events[1..]), s.events[0], socketPath, outside[0]);
      if r.Thrown? then (t, r, effects)
      else
        var (u, result, more) := Update(t, socketPath, outside[1..]);
        (u, result, effects + more)
  }

  /** What has been done and what is still to be done make up the whole. */
  ghost predicate Remains(whole: (State, Outcome, seq<Effect>), done: seq<Effect>,
                          rest: (State, Outcome, seq<Effect>)) {
    whole == (rest.0, rest.1, done + rest.2)
  }

  lemma NoneDone(s: State, socketPath: string, outside: seq<Outside>)
    ensures Remains(Update(s, socketPath, outside), [], Update(s, socketPath, outside[0..]))
  {
    assert outside[0..] == outside;
    assert [] + Update(s, socketPath, outside).2 == Update(s, socketPath, outside).2;
  }

  lemma AllDone(whole: (State, Outcome, seq<Effect>), done: seq<Effect>, s: State, socketPath: string,
                    outside: seq<Outside>)
    requires s.events == [] && Remains(whole, done, Update(s, socketPath, outside))
    ensures whole == (s, Done, done)
  {
    assert done + [] == done;
  }

  /** One more event of those that are still to be handled. */
  lemma UpdateAdvances(whole: (State, Outcome, seq<Effect>), done: seq<Effect>, s: State, socketPath: string,
                       outside: seq<Outside>)
    requires s.events != [] && outside != [] && Remains(whole, done, Update(s, socketPath, outside))
    ensures var (t, r, effects) := Handle(s.(events := s.events[1..]), s.events[0], socketPath, outside[0]);
            if r.Thrown? then whole == (t, r, done + effects)
            else Remains(whole, done + effects, Update(t, socketPath, outside[1..]))
  {
    var (t, r, effects) := Handle(s.(events := s.events[1..]), s.events[0], socketPath, outside[0]);
    if r.Done? {
      var rest := Update(t, socketPath, outside[1..]);
      assert done + (effects + rest.2) == (done + effects) + rest.2;
    }
  }

  /** Without an exception, what is watched and the effects are as above. */
  lemma HandleReacts(s: State, n: Notice, socketPath: string, outside: Outside)
    ensures var (t, r, effects) := Handle(s, n, socketPath, outside);
            && t.events == s.events
            && (r.Done? ==> (t.paths.Keys, effects) == React(s.paths.Keys, n, socketPath, outside.isSocket))
  {
    var full := FullPath(n);
    match Decide(n, socketPath, outside.isSocket, full in s.paths)
    case WatchDir => AddedWas(s, full, Registry.Watch(IN_CREATE | IN_DELETE, NO_WD, true),
                              outside.grants, outside.grantsAgain);
    case WatchFile => AddedWas(s, full, Registry.Watch(IN_MODIFY, NO_WD, true), outside.grants, outside.grantsAgain);
    case Forget =>
      if full in s.paths {
        RemovedWas(s, full);
      } else {
        assert s.paths.Keys - {full} == s.paths.Keys;
      }
    case _ =>
  }

  // ------------------------------------------------------------- what an event leads to

  const CONFIG_DIRS: set<string> := {"common", "monitors", "scrapers"}
  const CONFIG_FILES: set<string> := {"whitelists.json", "blacklists.json", "webhooks.json", "configs.json"}

  /** An event in the socket directory changes nothing that is watched. It is passed on exactly if
      it has the flag of a deletion, or that of a creation and what was created is a socket. */
  lemma SocketDirectoryMeans(s: State, n: Notice, outside: Outside)
    ensures var relevant := n.mask & IN_DELETE != 0 || (n.mask & IN_CREATE != 0 && outside.isSocket);
            var name := Text(n.name);
            Handle(s, n, n.path, outside)
            == (s, Done, if relevant then [SocketChanged(n.path + "/" + name, name, n.mask)] else [])
  {
  }

  /** A directory that is watched for config files, or a config file, has come into being, has been
      written or touched, or is gone. */
  predicate NewDir(n: Notice) {
    n.mask == IN_CREATE | IN_ISDIR && Text(n.name) in CONFIG_DIRS
  }

  predicate NewFile(n: Notice) {
    n.mask == IN_CREATE && Text(n.name) in CONFIG_FILES
  }

  predicate Written(n: Notice) {
    || n.mask == IN_MODIFY || n.mask == IN_CLOSE_NOWRITE || n.mask == IN_CLOSE_WRITE
    || n.mask == IN_MODIFY | IN_ISDIR || n.mask == IN_CLOSE_NOWRITE | IN_ISDIR || n.mask == IN_CLOSE_WRITE | IN_ISDIR
  }

  predicate Gone(n: Notice) {
    || (n.mask == IN_DELETE && Text(n.name) in CONFIG_FILES)
    || (n.mask == IN_DELETE | IN_ISDIR && Text(n.name) in CONFIG_DIRS)
  }

  lemma ChooseExactly(n: Notice, m: bv32, isDir: bool, alreadyMonitored: bool)
    requires TellsDirectory(n.mask, m, isDir, IN_CREATE) && TellsDirectory(n.mask, m, isDir, IN_DELETE)
    requires TellsDirectory(n.mask, m, isDir, IN_MODIFY) && TellsDirectory(n.mask, m, isDir, IN_CLOSE_WRITE)
    requires TellsDirectory(n.mask, m, isDir, IN_CLOSE_NOWRITE)
    ensures Choose(m, isDir, Text(n.name), alreadyMonitored)
            == if NewDir(n) then WatchDir
               else if NewFile(n) && !alreadyMonitored then WatchFile
               else if NewFile(n) || Written(n) then Send
               else if Gone(n) then Forget else Ignore
  {
  }

  lemma DecideExactly(n: Notice, socketPath: string, isSocket: bool, alreadyMonitored: bool)
    requires n.path != socketPath
    ensures Decide(n, socketPath, isSocket, alreadyMonitored)
            == if NewDir(n) then WatchDir
               else if NewFile(n) && !alreadyMonitored then WatchFile
               else if NewFile(n) || Written(n) then Send
               else if Gone(n) then Forget else Ignore
  {
    DirectoryOrNot(n.mask);
    ChooseExactly(n, n.mask & !IN_ISDIR, n.mask & IN_ISDIR != 0, alreadyMonitored);
  }

  lemma NeverBoth(n: Notice)
    ensures Gone(n) ==> !NewDir(n) && !NewFile(n) && !Written(n)
    ensures NewDir(n) ==> !NewFile(n) && !Written(n)
  {
  }

  /** The path of an event: that of its watch, and its name if it has one. */
  ghost predicate HasPath(n: Notice, full: string) {
    if n.name == [] then full == n.path else full == n.path + "/" + Text(n.name)
  }

  /** An event anywhere else. A new directory is watched for what comes and goes in it, a new file
      for changes; whatever is gone is no longer watched. The configs of a file are sent exactly
      if the file is new or was written, when watching it did not throw; and an exception is one
      of those two calls. */
  lemma ConfigDirectoryMeans(s: State, n: Notice, socketPath: string, outside: Outside, full: string)
    requires n.path != socketPath && HasPath(n, full)
    ensures var (t, r, effects) := Handle(s, n, socketPath, outside);
            var isNew := full !in s.paths;
            && effects == (if (NewFile(n) || Written(n)) && r.Done? then [ConfigsChanged(full, Text(n.name))] else [])
            && (t, r) == if NewDir(n) then
                           Registry.Add(s, full, Registry.Watch(IN_CREATE | IN_DELETE, NO_WD, true),
                                        outside.grants, outside.grantsAgain)
                         else if NewFile(n) && isNew then
                           Registry.Add(s, full, Registry.Watch(IN_MODIFY, NO_WD, true),
                                        outside.grants, outside.grantsAgain)
                         else if Gone(n) && !isNew then Registry.Remove(s, full)
                         else (s, Done)
  {
    DecideExactly(n, socketPath, outside.isSocket, full in s.paths);
  }

  /** The event is about whether `path` is to be watched, and says that it is. */
  predicate Asks(n: Notice, socketPath: string, path: string) {
    && FullPath(n) == path
    && (Decide(n, socketPath, false, false).WatchDir? || Decide(n, socketPath, false, false).WatchFile?)
  }

  predicate Revokes(n: Notice, socketPath: string, path: string) {
    FullPath(n) == path && Decide(n, socketPath, false, false).Forget?
  }

  lemma AsksExactly(n: Notice, socketPath: string, path: string)
    ensures Asks(n, socketPath, path) <==> n.path != socketPath && HasPath(n, path) && (NewDir(n) || NewFile(n))
    ensures Revokes(n, socketPath, path) <==> n.path != socketPath && HasPath(n, path) && Gone(n)
  {
    if n.path != socketPath {
      DecideExactly(n, socketPath, false, false);
      NeverBoth(n);
    }
  }

  predicate Concerns(n: Notice, socketPath: string, path: string) {
    Asks(n, socketPath, path) || Revokes(n, socketPath, path)
  }

  /** Events that are not about a path leave it as it was. */
  lemma {:induction false} OtherEventsDontMatter(watched: set<string>, ns: seq<Notice>, from: nat, k: nat,
                                                 socketPath: string, outside: seq<Outside>, path: string)
    requires from <= k <= |ns| && k <= |outside|
    requires forall j :: from <= j < k ==> !Concerns(ns[j], socketPath, path)
    ensures path in ReactAll(watched, ns, k, socketPath, outside).0 <==>
            path in ReactAll(watched, ns, from, socketPath, outside).0
  {
    if from < k {
      OtherEventsDontMatter(watched, ns, from, k - 1, socketPath, outside, path);
      ReactDecides(ReactAll(watched, ns, k - 1, socketPath, outside).0, ns[k - 1], socketPath,
                   outside[k - 1].isSocket, path);
    }
  }

  /** Whether a path is watched after a number of events is decided by the last event, the one
      at `i`, that was about it: it is watched exactly if that one asked for it. */
  lemma LastEventDecides(watched: set<string>, ns: seq<Notice>, i: nat, k: nat, socketPath: string,
                         outside: seq<Outside>, path: string)
    requires i < k <= |ns| && k <= |outside| && Concerns(ns[i], socketPath, path)
    requires forall j :: i < j < k ==> !Concerns(ns[j], socketPath, path)
    ensures path in ReactAll(watched, ns, k, socketPath, outside).0 <==> Asks(ns[i], socketPath, path)
  {
    OtherEventsDontMatter(watched, ns, i + 1, k, socketPath, outside, path);
    ReactDecides(ReactAll(watched, ns, i, socketPath, outside).0, ns[i], socketPath, outside[i].isSocket, path);
  }

  lemma ChooseMonitored(m: bv32, isDir: bool, filename: string, alreadyMonitored: bool)
    ensures var anew := Choose(m, isDir, filename, false);
            Choose(m, isDir, filename, alreadyMonitored) == if alreadyMonitored && anew.WatchFile? then Send else anew
  {
  }

  /** Whether a path is watched already matters for new files only. */
  lemma DecideMonitored(n: Notice, socketPath: string, isSocket: bool, alreadyMonitored: bool)
    ensures var decision := Decide(n, socketPath, isSocket, alreadyMonitored);
            var anew := Decide(n, socketPath, false, false);
            if n.path == socketPath then
              (decision.Ignore? || decision.CheckSocket?) && (anew.Ignore? || anew.CheckSocket?)
            else
              decision == if alreadyMonitored && anew.WatchFile? then Send else anew
  {
    ChooseMonitored(n.mask & !IN_ISDIR, n.mask & IN_ISDIR != 0, Text(n.name), alreadyMonitored);
  }

  lemma ReactDecides(watched: set<string>, n: Notice, socketPath: string, isSocket: bool, path: string)
    ensures path in React(watched, n, socketPath, isSocket).0 <==>
            Asks(n, socketPath, path) || (path in watched && !Revokes(n, socketPath, path))
    ensures !(Asks(n, socketPath, path) && Revokes(n, socketPath, path))
  {
    DecideMonitored(n, socketPath, isSocket, FullPath(n) in watched);
  }

  /** An event leads to an effect: a deleted or created socket in the socket directory, a config file
      that is new or was written anywhere else. */
  predicate LeadsTo(n: Notice, socketPath: string, isSocket: bool, e: Effect) {
    match e
    case SocketChanged(fullPath, name, mask) =>
      && n.path == socketPath && (n.mask & IN_DELETE != 0 || (n.mask & IN_CREATE != 0 && isSocket))
      && fullPath == n.path + "/" + Text(n.name) && name == Text(n.name) && mask == n.mask
    case ConfigsChanged(fullPath, filename) =>
      n.path != socketPath && (NewFile(n) || Written(n)) && fullPath == FullPath(n) && filename == Text(n.name)
  }

  lemma ReactEffects(watched: set<string>, n: Notice, socketPath: string, isSocket: bool)
    ensures var effects := React(watched, n, socketPath, isSocket).1;
            |effects| <= 1 && forall e :: e in effects <==> LeadsTo(n, socketPath, isSocket, e)
  {
    if n.path != socketPath {
      DecideExactly(n, socketPath, isSocket, FullPath(n) in watched);
      NeverBoth(n);
    }
  }

  /** Over any number of events, the effects are those that one of the events leads to, in their
      order, and no others. */
  lemma {:induction false} EffectsExactly(watched: set<string>, ns: seq<Notice>, k: nat, socketPath: string,
                                          outside: seq<Outside>)
    requires k <= |ns| && k <= |outside|
    ensures forall e :: e in ReactAll(watched, ns, k, socketPath, outside).1 <==>
                        exists i :: 0 <= i < k && LeadsTo(ns[i], socketPath, outside[i].isSocket, e)
    ensures forall i :: 0 <= i < k ==>
              ReactAll(watched, ns, i, socketPath, outside).1 <= ReactAll(watched, ns, k, socketPath, outside).1
  {
    if k > 0 {
      EffectsExactly(watched, ns, k - 1, socketPath, outside);
      ReactEffects(ReactAll(watched, ns, k - 1, socketPath, outside).0, ns[k - 1], socketPath, outside[k - 1].isSocket);
    }
  }

  /** A list of watches and an index by path name the same watches, each of them once. */
  ghost predicate SameWatches(list: seq<InotifyWatch>, index: map<string, InotifyWatch>) {
    && (forall i :: 0 <= i < |list| ==> list[i].path in index && index[list[i].path] == list[i])
    && (forall i, j :: 0 <= i < j < |list| ==> list[i] != list[j])
    && (forall p :: p in index ==> index[p].path == p && index[p] in list)
  }

  lemma SameWithOneMore(list: seq<InotifyWatch>, index: map<string, InotifyWatch>, w: InotifyWatch)
    requires SameWatches(list, index) && w.path !in index
    ensures SameWatches(list + [w], index[w.path := w])
  {
    var more, larger := list + [w], index[w.path := w];
    forall p | p in larger
      ensures larger[p].path == p && larger[p] in more
    {
      assert p != w.path ==> index[p] in list;
      assert more[|list|] == w;
    }
  }

  lemma SameWithOneLess(list: seq<InotifyWatch>, index: map<string, InotifyWatch>, i: nat)
    requires SameWatches(list, index) && i < |list|
    ensures SameWatches(list[..i] + list[i + 1..], index - {list[i].path})
  {
    var w, less, smaller := list[i], list[..i] + list[i + 1..], index - {list[i].path};
    forall j | 0 <= j < |less|
      ensures less[j].path in smaller && smaller[less[j].path] == less[j]
    {
      assert less[j] == list[if j < i then j else j + 1];
    }
    forall p | p in smaller
      ensures smaller[p].path == p && smaller[p] in less
    {
      var j :| 0 <= j < |list| && list[j] == index[p];
      assert less[if j < i then j else j - 1] == list[j];
    }
  }

  /** What a successful Add says about the registry. */
  lemma AddedWas(s: State, path: string, w: Watch, grants: bool, grantsAgain: bool)
    ensures Registry.Add(s, path, w, grants, grantsAgain).0.events == s.events
    ensures Registry.Add(s, path, w, grants, grantsAgain).1.Done? ==>
              path !in s.paths && Registry.Add(s, path, w, grants, grantsAgain).0.paths.Keys == s.paths.Keys + {path}
  {
  }

  lemma InBoth(list: seq<InotifyWatch>, index: map<string, InotifyWatch>, path: string)
    requires SameWatches(list, index)
    ensures path in index <==> exists i :: 0 <= i < |list| && list[i].path == path
  {
    if path in index {
      var i :| 0 <= i < |list| && list[i] == index[path];
      assert list[i].path == path;
    }
  }

  lemma RemovedWas(s: State, path: string)
    requires path in s.paths
    ensures Registry.Remove(s, path).0.events == s.events
    ensures Registry.Remove(s, path).1.Done? ==> Registry.Remove(s, path).0.paths.Keys == s.paths.Keys - {path}
  {
  }

  lemma DequeueKeepsValid(s: State)
    requires s.Valid() && s.events != []
    ensures s.(events := s.events[1..]).Valid()
  {
  }

  /** What the kernel does by itself. */
  datatype Happening = Emits(record: Record) | Drops(wd: int) | Relinks(inodeOf: map<string, nat>)

  datatype Move = KernelMoves(happening: Happening) | ReadArrives

  function Happened(k: Kernel.Instance, h: Happening): Kernel.Instance {
    match h
    case Emits(r) => if r.WellFormed() && (r.wd in k.marks || r.wd == NO_WD) then k.Emit(r) else k
    case Drops(wd) => if wd in k.marks then k.Remove(wd) else k
    case Relinks(inodeOf) => k.Relink(inodeOf)
  }

  lemma HappeningKeepsValid(s: State, h: Happening)
    requires s.Valid()
    ensures s.(kernel := Happened(s.kernel, h)).Valid()
  {
    KernelStepKeepsValid(s, Happened(s.kernel, h));
  }

  class FileWatcher {
    const inotify: Inotify
    const socketPath: string
    var watches: seq<InotifyWatch>

    constructor (inotify: Inotify, socketPath: string)
      requires inotify.Linked() && inotify.state.Valid() && inotify.paths == map[]
      ensures Listed() && this.inotify == inotify && this.socketPath == socketPath
    {
      this.inotify, this.socketPath, watches := inotify, socketPath, [];
    }

    ghost predicate Listed()
      reads this, inotify, inotify.paths.Values
    {
      inotify.Linked() && inotify.state.Valid() && SameWatches(watches, inotify.paths)
    }

    /** Appends a new watch to the list. */
    method Emplace(path: string, mask: bv32) returns (w: InotifyWatch)
      requires Listed()
      modifies this`watches
      ensures fresh(w) && w.path == path && watches == old(watches) + [w]
      ensures inotify.Linked() && w.Fields() == Registry.Watch(mask, NO_WD, true)
    {
      w := new InotifyWatch(path, mask);
      watches := watches + [w];
    }

    /** Adds a new watch to the inotify object. */
    method Register(w: InotifyWatch, outside: Outside) returns (r: Outcome)
      requires inotify.Linked() && inotify.state.Valid() && w.wd == NO_WD
      modifies inotify`watches, inotify`paths, inotify`kernel, inotify`state, w
      ensures inotify.Linked() && inotify.state.Valid() && inotify.state.events == old(inotify.state.events)
      ensures (inotify.state, r) == Registry.Add(old(inotify.state), w.path, old(w.Fields()),
                                                 outside.grants, outside.grantsAgain)
      ensures r.Done? ==> w.path !in old(inotify.paths) && inotify.paths == old(inotify.paths)[w.path := w]
    {
      AddKeepsValid(inotify.state, w.path, w.Fields(), outside.grants, outside.grantsAgain);
      AddedWas(inotify.state, w.path, w.Fields(), outside.grants, outside.grantsAgain);
      r := inotify.Add(w, outside.grants, outside.grantsAgain);
    }

    /** Adds a watch to the list and then to the inotify object. When that throws, the list has
        a watch too many and the exception ends the run. */
    method Watch(path: string, mask: bv32, outside: Outside) returns (r: Outcome)
      requires Listed()
      modifies this`watches, inotify`watches, inotify`paths, inotify`kernel, inotify`state
      ensures inotify.Linked() && inotify.state.Valid() && inotify.state.events == old(inotify.state.events)
      ensures (inotify.state, r) == Registry.Add(old(inotify.state), path, Registry.Watch(mask, NO_WD, true),
                                                 outside.grants, outside.grantsAgain)
      ensures r.Done? ==> SameWatches(watches, inotify.paths)
      ensures forall w :: w in watches ==> w in old(watches) || fresh(w)
    {
      var w := Emplace(path, mask);
      r := Register(w, outside);
      if r.Done? {
        SameWithOneMore(old(watches), old(inotify.paths), w);
      }
    }

    /** The position in the list of the watch with this path, if there is one. */
    method FindInList(path: string) returns (found: Option<nat>)
      requires Listed()
      ensures found.Some? <==> path in inotify.paths
      ensures found.Some? ==> found.value < |watches| && watches[found.value].path == path
    {
      InBoth(watches, inotify.paths, path);
      for i := 0 to |watches|
        invariant forall j :: 0 <= j < i ==> watches[j].path != path
      {
        if watches[i].path == path {
          return Some(i);
        }
      }
      return None;
    }

    /** Removes one watch of the list from the inotify object. */
    method Drop(w: InotifyWatch) returns (r: Outcome)
      requires Listed() && w.path in inotify.paths && inotify.paths[w.path] == w
      modifies inotify`watches, inotify`paths, inotify`kernel, inotify`state, w
      ensures inotify.Linked() && inotify.state.Valid() && inotify.state.events == old(inotify.state.events)
      ensures (inotify.state, r) == Registry.Remove(old(inotify.state), w.path)
      ensures r.Done? ==> inotify.paths == old(inotify.paths) - {w.path}
    {
      ghost var state := inotify.state;
      inotify.HeldByPath(w);
      RemoveKeepsValid(state, w.path);
      RemovedWas(state, w.path);
      r := inotify.Remove(w);
    }

    method EraseAt(i: nat)
      requires i < |watches| && inotify.Linked()
      modifies this`watches
      ensures watches == old(watches)[..i] + old(watches)[i + 1..] && inotify.Linked()
    {
      watches := watches[..i] + watches[i + 1..];
    }

    /** Removes the watch with this path, if there is one, from both. */
    method Unwatch(path: string, ghost owned: set<InotifyWatch>) returns (r: Outcome)
      requires Listed() && forall w :: w in watches ==> w in owned
      modifies this`watches, inotify`watches, inotify`paths, inotify`kernel, inotify`state, owned
      ensures inotify.Linked() && inotify.state.Valid() && inotify.state.events == old(inotify.state.events)
      ensures (inotify.state, r) == if path in old(inotify.state).paths then Registry.Remove(old(inotify.state), path)
              else (old(inotify.state), Done)
      ensures r.Done? ==> SameWatches(watches, inotify.paths)
      ensures forall w :: w in watches ==> w in old(watches)
    {
      var i := FindInList(path);
      if i.None? {
        return Done;
      }
      r := Drop(watches[i.value]);
      if r.Done? {
        SameWithOneLess(watches, old(inotify.paths), i.value);
        EraseAt(i.value);
      }
    }

    /** Handles one event: the exception if there is one, what is watched, with which masks, and the
        effects are as above. */
    method HandleEvent(n: Notice, outside: Outside, ghost owned: set<InotifyWatch>)
      returns (r: Outcome, effects: seq<Effect>)
      requires Listed() && forall w :: w in watches ==> w in owned
      modifies this`watches, inotify`watches, inotify`paths, inotify`kernel, inotify`state, owned
      ensures inotify.Linked() && inotify.state.Valid() && inotify.state.events == old(inotify.state.events)
      ensures (inotify.state, r, effects) == Handle(old(inotify.state), n, socketPath, outside)
      ensures r.Done? ==> SameWatches(watches, inotify.paths)
      ensures r.Done? ==>
                (inotify.paths.Keys, effects) == React(old(inotify.paths.Keys), n, socketPath, outside.isSocket)
      ensures forall w :: w in watches ==> w in owned || fresh(w)
    {
      HandleReacts(inotify.state, n, socketPath, outside);
      var filename, fullEventPath := Text(n.name), FullPath(n);
      var monitored := FindInList(fullEventPath);
      r, effects := Done, [];
      match Decide(n, socketPath, outside.isSocket, monitored.Some?)
      case Ignore =>
      case CheckSocket => effects := [SocketChanged(n.path + "/" + filename, filename, n.mask)];
      case WatchDir => r := Watch(fullEventPath, IN_CREATE | IN_DELETE, outside);
      case WatchFile =>
        r := Watch(fullEventPath, IN_MODIFY, outside);
        if r.Done? {
          effects := [ConfigsChanged(fullEventPath, filename)];
        }
      case Send => effects := [ConfigsChanged(fullEventPath, filename)];
      case Forget => r := Unwatch(fullEventPath, owned);
    }

    /** Takes the next event out of the queue, as the loop of the update does. */
    method NextEvent() returns (n: Notice)
      requires Listed() && inotify.state.events != []
      modifies inotify`events, inotify`state
      ensures Listed() && n == old(inotify.state).events[0] && inotify.paths == old(inotify.paths)
      ensures inotify.state == old(inotify.state).(events := old(inotify.state).events[1..])
    {
      DequeueKeepsValid(inotify.state);
      var got, e := inotify.GetEvent();
      n := Noticed(e.value);
    }

    /** One round of the loop. */
    method HandleNext(outside: Outside, ghost owned: set<InotifyWatch>) returns (r: Outcome, effects: seq<Effect>)
      requires Listed() && inotify.state.events != [] && forall w :: w in watches ==> w in owned
      modifies this`watches, inotify`watches, inotify`paths, inotify`kernel, inotify`events, inotify`state, owned
      ensures inotify.state.events == old(inotify.state.events)[1..]
      ensures (inotify.state, r, effects)
              == Handle(old(inotify.state).(events := old(inotify.state).events[1..]), old(inotify.state).events[0],
                        socketPath, outside)
      ensures r.Done? ==> Listed()
      ensures r.Done? ==>
                (inotify.paths.Keys, effects)
                == React(old(inotify.paths.Keys), old(inotify.state.events)[0], socketPath, outside.isSocket)
      ensures forall w :: w in watches ==> w in owned || fresh(w)
    {
      var n := NextEvent();
      r, effects := HandleEvent(n, outside, owned);
    }

    /** Handles exactly the events that are queued, in their order; getting the next one never
        fails. Whenever this ends without an exception, list and index name the same watches:
        those that the events, one after the other, lead to. */
    method OnInotifyUpdate(outside: seq<Outside>, ghost listed: set<InotifyWatch>)
      returns (r: Outcome, effects: seq<Effect>)
      requires Listed() && |outside| == |inotify.state.events| && forall w :: w in watches ==> w in listed
      modifies this`watches, inotify`watches, inotify`paths, inotify`kernel, inotify`events, inotify`state, listed
      ensures r.Done? ==> Listed() && inotify.state.events == []
      ensures r.Done? ==>
                (inotify.paths.Keys, effects)
                == ReactAll(old(inotify.paths.Keys), old(inotify.state.events), |outside|, socketPath, outside)
      ensures (inotify.state, r, effects) == Update(old(inotify.state), socketPath, outside)
      ensures forall w :: w in watches ==> w in listed || fresh(w)
    {
      ghost var whole := Update(inotify.state, socketPath, outside);
      NoneDone(inotify.state, socketPath, outside);
      ghost var owned := listed;
      ghost var queued, watched := inotify.state.events, inotify.paths.Keys;
      r, effects := Done, [];
      var count := inotify.GetEventCount();
      var k := 0;
      while count > 0
        invariant r == Done && 0 <= k <= k + count == |outside| == |queued|
        invariant Listed() && inotify.state.events == queued[k..]
        invariant (inotify.paths.Keys, effects) == ReactAll(watched, queued, k, socketPath, outside)
        invariant Remains(whole, effects, Update(inotify.state, socketPath, outside[k..]))
        invariant forall w :: w in watches ==> w in owned
        invariant forall w :: w in owned ==> w in listed || fresh(w)
      {
        var more;
        UpdateAdvances(whole, effects, inotify.state, socketPath, outside[k..]);
        assert outside[k..][1..] == outside[k + 1..];
        r, more := HandleNext(outside[k], owned);
        effects := effects + more;
        if r.Thrown? {
          return;
        }
        owned := owned + set w | w in watches;
        k, count := k + 1, count - 1;
      }
      AllDone(whole, effects, inotify.state, socketPath, outside[k..]);
    }

    // ------------------------------------------------------------- any number of reads

    /** The kernel does something; what it cannot do, it does not. */
    method LetHappen(h: Happening)
      requires Listed()
      modifies inotify`kernel, inotify`state
      ensures Listed() && inotify.state.events == old(inotify.state.events)
    {
      HappeningKeepsValid(inotify.state, h);
      inotify.SetKernel(Happened(inotify.kernel, h));
    }

    /** A read is decoded and its events are queued; then the update handles them. */
    method ReadAndUpdate(buf: array<Byte>, answers: nat -> Outside, ghost listed: set<InotifyWatch>)
      returns (r: Outcome)
      requires Listed() && inotify.state.events == [] && forall w :: w in watches ==> w in listed
      modifies this`watches, inotify, buf, listed
      ensures r.Done? ==> Listed() && inotify.state.events == []
      ensures forall w :: w in watches ==> w in listed || fresh(w)
    {
      Receive(buf, listed);
      var count := inotify.GetEventCount();
      var effects;
      r, effects := OnInotifyUpdate(seq(count, answers), listed);
    }

    method Receive(buf: array<Byte>, ghost listed: set<InotifyWatch>)
      requires Listed() && forall w :: w in watches ==> w in listed
      modifies inotify, buf, listed
      ensures Listed() && watches == old(watches)
    {
      forall w | w in inotify.paths.Values
        ensures w in listed
      {
        var p :| p in inotify.paths && inotify.paths[p] == w;
      }
      ghost var count := inotify.WaitForEvents(buf);
    }

    /** Over any sequence of things the kernel does and of reads, each followed by its update, the
        list and the path index name the same watches whenever no exception has ended it. */
    method KeepWatching(moves: seq<Move>, buf: array<Byte>, answers: (nat, nat) -> Outside,
                        ghost listed: set<InotifyWatch>)
      returns (r: Outcome)
      requires Listed() && inotify.state.events == [] && forall w :: w in watches ==> w in listed
      modifies this`watches, inotify, buf, listed
      ensures r.Done? ==> Listed() && inotify.state.events == []
    {
      ghost var owned := listed;
      r := Done;
      for i := 0 to |moves|
        invariant r == Done && Listed() && inotify.state.events == []
        invariant forall w :: w in watches ==> w in owned
        invariant forall w :: w in owned ==> w in listed || fresh(w)
      {
        match moves[i]
        case KernelMoves(h) => LetHappen(h);
        case ReadArrives =>
          var round: nat := i;
          r := ReadAndUpdate(buf, (k: nat) => answers(round, k), owned);
          if r.Thrown? {
            return;
          }
          owned := owned + set w | w in watches;
      }
    }
  }
}
