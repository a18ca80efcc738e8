/** What the agreements of the event loop mean: one process per class, exact exits, exact adds,
    exact status tables, one STOP per entry, and a clean shutdown. */
module LifecycleFacts {
  import opened Options
  import opened Messages
  import opened Replies
  import opened Lifecycle
  import opened LifecycleLedger
  import opened LifecycleSound

  // ------------------------------------------------------------- processes

  /** There is never more than one process per class that lives or whose exit is still to be
      handled, and it is the one stored for that class. */
  lemma OneProcessPerClass(s: State, p: Pid, q: Pid)
    requires Reachable(s) && s.status.Running?
    requires p in s.books.live || p in s.books.handlers
    requires q in s.books.live || q in s.books.handlers
    ensures p < |s.books.owner| && q < |s.books.owner| && s.books.Runs(s.books.owner[p], p)
    ensures s.books.owner[p] == s.books.owner[q] ==> p == q
  {
    ReachableSound(s);
    assert ProcessOk(s.books, p) && ProcessOk(s.books, q);
  }

  /** The exit of a process is handled for the process that exited and for no other: it was the
      stored one, its entry loses it or goes, and every other entry stays as it was. A handler
      that is handed an error changes nothing but that it has run. */
  lemma ExitClearsItsOwn(b: Books, p: Pid)
    requires Sound(b) && p in b.handlers && p !in b.live && p < |b.owner|
    ensures var k, after := b.owner[p], ProcessExit(b, p, false);
            && b.Runs(k, p)
            && (after.Has(k) <==> b.At(k).endpoint.Some?)
            && (after.Has(k) ==> after.At(k) == b.At(k).(process := None))
            && (forall j: Key :: j != k ==> after.Has(j) == b.Has(j) && (after.Has(j) ==> after.At(j) == b.At(j)))
            && after.live == b.live
    ensures ProcessExit(b, p, true) == b.(handlers := b.handlers - {p})
  {
    assert ProcessOk(b, p);
  }

  /** An add spawns a process exactly when its payload names a class with no entry at all, a
      python was found, the class is registered and the process can be spawned. Otherwise it
      changes nothing. */
  lemma SpawnsExactly(b: Books, kind: Kind, args: Args, cb: Cb, w: World)
    requires Sound(b)
    ensures var (after, verdict) := OnAdd(b, kind, args, cb, w);
            var spawns := args.Name? && !b.Has(Key(kind, args.name))
                          && w.python.Some? && w.python.value != "" && w.register.Registered? && w.spawns;
            && (verdict.Waits? <==> spawns)
            && (spawns ==> after.owner == b.owner + [Key(kind, args.name)] && after.live == b.live + {|b.owner|}
                           && after.Runs(Key(kind, args.name), |b.owner|) && |b.owner| !in b.live)
            && (!spawns ==> after == b)
  {
    if args.Name? {
      NeverReused(b, Key(kind, args.name));
    }
    forall p | p in b.live
      ensures p < |b.owner|
    {
      assert ProcessOk(b, p);
    }
  }

  // ------------------------------------------------------------- entries

  /** Removing the socket, if the class is still stored. */
  function SocketOff(b: Books, k: Key): Books {
    if b.Has(k) then RemoveSocket(b, k) else b
  }

  function ProcessOff(b: Books, k: Key): Books {
    if b.Has(k) then RemoveProcess(b, k) else b
  }

  /** In either order, removing socket and process erases the entry and cancels its timer. */
  lemma RemovalsCommute(b: Books, k: Key)
    requires b.Has(k)
    ensures ProcessOff(SocketOff(b, k), k) == SocketOff(ProcessOff(b, k), k) == b.Erase(k)
  {
    var e := b.At(k);
    if e.process.Some? {
      assert b.stored[k := e.(endpoint := None)] - {k} == b.stored - {k};
    }
    if e.endpoint.Some? {
      assert b.stored[k := e.(process := None)] - {k} == b.stored - {k};
    }
    CancelTwice(b.waits, TimerOf(e));
  }

  lemma CancelTwice(waits: seq<Wait>, timers: set<Timer>)
    ensures Cancel(Cancel(waits, timers), timers) == Cancel(waits, timers)
  {
  }

  /** While a manager runs, no stored entry is empty and each is stored under its own name. */
  lemma NoEmptyEntries(s: State, k: Key)
    requires Reachable(s) && s.status.Running? && s.books.Has(k)
    ensures s.books.At(k).className == k.name && (s.books.At(k).process.Some? || s.books.At(k).endpoint.Some?)
  {
    ReachableSound(s);
    assert EntryOk(s.books, k);
  }

  /** An add whose timer still runs has its entry, and no other entry has that timer. */
  lemma TimerHasOneOwner(s: State, i: nat, k: Key)
    requires Reachable(s) && s.status.Running? && i < |s.books.waits|
    requires s.books.waits[i].AddWait? && s.books.waits[i].phase.Waiting?
    ensures s.books.Has(k) && s.books.At(k).addTimer == Some(s.books.waits[i].timer) <==> k == s.books.waits[i].key
  {
    ReachableSound(s);
    assert WaitOk(s.books, s.books.waits[i]);
    if s.books.Has(k) {
      assert EntryOk(s.books, k);
    }
  }

  // ------------------------------------------------------------- stopping

  /** However the commands, sockets and exits interleave, at most one STOP is initiated for an
      entry between its insertion and its erasure. */
  lemma {:induction false} AtMostOneStop(names: ErrorNames, events: seq<Event>, serial: nat)
    ensures Run(names, events).books.stopsSent[serial] <= 1
  {
    if events != [] {
      var n := |events| - 1;
      var s := Run(names, events[..n]);
      AtMostOneStop(names, events[..n], serial);
      if Enabled(s, events[n]) {
        if Step(s, events[n]).status.Running? {
          EveryRunSound(names, events);
          assert StopsOnce(Run(names, events).books);
        } else {
          EndingSendsNoStop(s, events[n]);
        }
      }
    }
  }

  lemma ConcludeEnds(s: State, cb: Cb, result: (Books, Verdict))
    requires s.status.Running? && !Conclude(s, cb, result).status.Running?
    ensures Conclude(s, cb, result).books == result.0 && !result.1.Waits?
  {
  }

  lemma ActSendsNoStop(b: Books, op: Op, kind: Kind, args: Args, cb: Cb, w: World)
    requires !Act(b, op, kind, args, cb, w).1.Waits?
    ensures Act(b, op, kind, args, cb, w).0.stopsSent == b.stopsSent
  {
  }

  /** A step that ends the run initiates no STOP. */
  lemma EndingSendsNoStop(s: State, e: Event)
    requires Enabled(s, e) && !Step(s, e).status.Running?
    ensures Step(s, e).books.stopsSent == s.books.stopsSent
  {
    var b := s.books;
    match e
    case Command(Single(op, kind), args, w) =>
      var cb := Direct(|s.desk.asked|);
      ActSendsNoStop(b, op, kind, args, cb, w);
      ConcludeEnds(s.(desk := Ask(s.desk, e.command)), cb, Act(b, op, kind, args, cb, w));
    case PostedRuns(w) =>
      var half := s.posted[0];
      ActSendsNoStop(b, half.op, KindOf(half.cb), half.args, half.cb, w);
      ConcludeEnds(s.(posted := s.posted[1..]), half.cb, Act(b, half.op, KindOf(half.cb), half.args, half.cb, w));
    case AddContinues(i) =>
      var wait := b.waits[i];
      ConcludeEnds(s, wait.cb, AddDone(WithoutWait(b, i), wait.key, wait.phase.Cancelled?));
    case StopIsWritten(i, failure) =>
      var wait := b.waits[i];
      ConcludeEnds(s, wait.cb, StopWritten(WithoutWait(b, i), wait.key, wait.cb, failure));
    case _ =>
  }

  // ------------------------------------------------------------- status

  /** Every stored class is in at least one of the two tables of its kind, and the tables hold
      nothing else. */
  lemma StatusIsExact(b: Books, kind: Kind, name: string)
    requires Sound(b)
    ensures var tables := Tabulated(b.Of(kind));
            && (name in tables.processes || name in tables.sockets <==> b.Has(Key(kind, name)))
            && (name in tables.processes <==> b.Has(Key(kind, name)) && b.At(Key(kind, name)).process.Some?)
            && (name in tables.processes ==> b.Runs(Key(kind, name), tables.processes[name]))
            && (name in tables.sockets <==> b.Has(Key(kind, name)) && b.At(Key(kind, name)).endpoint.Some?)
            && (name in tables.sockets ==> b.At(Key(kind, name)).endpoint == Some(tables.sockets[name]))
  {
    var k := Key(kind, name);
    OfKindFinds(b.stored, kind);
    if b.Has(k) {
      assert EntryOk(b, k);
    }
  }

  // ------------------------------------------------------------- shutting down

  /** Shutting down stops every process and keeps exactly the entries that have a socket, with
      that socket. */
  lemma TerminatesEverything(b: Books)
    requires Sound(b)
    ensures var after := TerminateAll(b);
            && after.live == {}
            && (forall k: Key :: after.Has(k) <==> b.Has(k) && b.At(k).endpoint.Some?)
            && (forall k: Key :: after.Has(k) ==> after.At(k) == b.At(k).(process := None))
  {
    forall p | p in b.live
      ensures p in ProcessesOf(b.stored)
    {
      assert ProcessOk(b, p);
      assert b.owner[p] in b.stored && b.stored[b.owner[p]].process.value == p;
    }
    forall k: Key | b.Has(k)
      ensures b.At(k).process.Some? || b.At(k).endpoint.Some?
    {
      assert EntryOk(b, k);
    }
  }

  /** A manager that has shut down has no process left and only entries with a socket. */
  lemma {:induction false} EveryShutdown(names: ErrorNames, events: seq<Event>)
    requires Run(names, events).status.ShutDown?
    ensures var b := Run(names, events).books;
            b.live == {} && forall k: Key :: b.Has(k) ==> b.At(k).process.None? && b.At(k).endpoint.Some?
  {
    var n := |events| - 1;
    var s := Run(names, events[..n]);
    if Enabled(s, events[n]) {
      EveryRunSound(names, events[..n]);
      TerminatesEverything(s.books);
      OnlyShutdownShutsDown(s, events[n]);
    } else {
      EveryShutdown(names, events[..n]);
    }
  }

  lemma ConcludeShutsNothing(s: State, cb: Cb, result: (Books, Verdict))
    requires s.status.Running?
    ensures !Conclude(s, cb, result).status.ShutDown?
  {
  }

  lemma OnlyShutdownShutsDown(s: State, e: Event)
    requires Enabled(s, e) && Step(s, e).status.ShutDown?
    ensures e.Command? && e.command.Shutdown? && Step(s, e).books == TerminateAll(s.books)
  {
    var b := s.books;
    match e
    case Command(Single(op, kind), args, w) =>
      var cb := Direct(|s.desk.asked|);
      ConcludeShutsNothing(s.(desk := Ask(s.desk, e.command)), cb, Act(b, op, kind, args, cb, w));
    case PostedRuns(w) =>
      var half := s.posted[0];
      ConcludeShutsNothing(s.(posted := s.posted[1..]), half.cb,
                           Act(b, half.op, KindOf(half.cb), half.args, half.cb, w));
    case AddContinues(i) =>
      var wait := b.waits[i];
      ConcludeShutsNothing(s, wait.cb, AddDone(WithoutWait(b, i), wait.key, wait.phase.Cancelled?));
    case StopIsWritten(i, failure) =>
      var wait := b.waits[i];
      ConcludeShutsNothing(s, wait.cb, StopWritten(WithoutWait(b, i), wait.key, wait.cb, failure));
    case _ =>
  }

  // ------------------------------------------------------------- where a run can fail

  const ALL_GOOD: World := World(Some("python3"), Registered, true, true)

  function FailingRun(name: string, path: string): seq<Event> {
    [Command(Single(Add, Monitor), Name(name), ALL_GOOD), SocketCreated(Key(Monitor, name), path), TimerExpires(0),
     ProcessDies(0), ProcessExits(0, false), AddContinues(0)]
  }

  /** Where the failing run stands: the process is stored and, with or without a socket, its
      add waits. */
  ghost predicate AddedAlone(s: State, k: Key, endpoint: Option<string>, phase: Phase) {
    && s.status.Running? && s.books.stored
       == map[k := Stored(k.name, Some(0), endpoint, Some(0), true, false, false, 0)]
    && s.books.waits == [AddWait(0, k, Direct(0), phase)]
    && s.books.owner == [k] && s.books.handlers == {0} && s.books.live == {0}
  }

  lemma FailingAdd(names: ErrorNames, k: Key)
    requires k.kind.Monitor?
    ensures AddedAlone(Dispatch(Empty(names), Single(Add, Monitor), Name(k.name), ALL_GOOD), k, None, Waiting)
  {
    var b := Empty(names).books;
    assert Act(b, Add, Monitor, Name(k.name), Direct(0), ALL_GOOD) == (Spawn(b, k, Direct(0)), Waits);
  }

  lemma FailingSocket(s: State, k: Key, path: string)
    requires AddedAlone(s, k, None, Waiting)
    ensures AddedAlone(Step(s, SocketCreated(k, path)), k, Some(path), Waiting)
  {
  }

  lemma FailingExpiry(s: State, k: Key, path: string)
    requires AddedAlone(s, k, Some(path), Waiting)
    ensures Enabled(s, TimerExpires(0)) && AddedAlone(Step(s, TimerExpires(0)), k, Some(path), Expired)
  {
  }

  /** The process is gone but its entry is not, and the add is about to continue. */
  ghost predicate AboutToFail(s: State, k: Key) {
    && s.status.Running? && s.books.Has(k) && s.books.At(k).process.None?
    && s.books.waits == [AddWait(0, k, Direct(0), Expired)]
  }

  lemma FailingExit(s: State, k: Key, path: string)
    requires AddedAlone(s, k, Some(path), Expired)
    ensures Enabled(s, ProcessDies(0)) && Enabled(Step(s, ProcessDies(0)), ProcessExits(0, false))
    ensures AboutToFail(Step(Step(s, ProcessDies(0)), ProcessExits(0, false)), k)
  {
  }

  lemma FailingContinuation(s: State, k: Key)
    requires AboutToFail(s, k)
    ensures Enabled(s, AddContinues(0)) && Step(s, AddContinues(0)).status.Crashed?
  {
  }

  lemma RunGrows(names: ErrorNames, before: seq<Event>, e: Event, events: seq<Event>)
    requires events == before + [e] && Enabled(Run(names, before), e)
    ensures Run(names, events) == Step(Run(names, before), e)
  {
    assert events[..|before|] == before;
  }

  lemma FailingRunBegins(names: ErrorNames, k: Key, path: string, e: Event, events: seq<Event>)
    requires k.kind.Monitor? && e == Command(Single(Add, Monitor), Name(k.name), ALL_GOOD)
    requires events == [e, SocketCreated(k, path), TimerExpires(0)]
    ensures AddedAlone(Run(names, events), k, Some(path), Expired)
  {
    FailingAdd(names, k);
    RunGrows(names, [], e, [e]);
    FailingSocket(Run(names, [e]), k, path);
    RunGrows(names, [e], SocketCreated(k, path), events[..2]);
    FailingExpiry(Run(names, events[..2]), k, path);
    RunGrows(names, events[..2], TimerExpires(0), events);
  }

  lemma FailingRunEnds(names: ErrorNames, k: Key, path: string, events: seq<Event>)
    requires AddedAlone(Run(names, events), k, Some(path), Expired)
    ensures Run(names, events + [ProcessDies(0)] + [ProcessExits(0, false)] + [AddContinues(0)]).status.Crashed?
  {
    var more := events + [ProcessDies(0)];
    FailingExit(Run(names, events), k, path);
    RunGrows(names, events, ProcessDies(0), more);
    RunGrows(names, more, ProcessExits(0, false), more + [ProcessExits(0, false)]);
    FailingContinuation(Run(names, more + [ProcessExits(0, false)]), k);
    RunGrows(names, more + [ProcessExits(0, false)], AddContinues(0),
             more + [ProcessExits(0, false)] + [AddContinues(0)]);
  }

  /** An add can end the run: its process exits after its socket was seen and after its timer
      has expired, but before the continuation runs. The entry is still stored then, and the
      process that the continuation looks at is gone. */
  lemma AddCanFail(names: ErrorNames, name: string, path: string)
    ensures Run(names, FailingRun(name, path)).status.Crashed?
  {
    var k, es := Key(Monitor, name), FailingRun(name, path);
    FailingRunBegins(names, k, path, es[0], es[..3]);
    FailingRunEnds(names, k, path, es[..3]);
    assert es[..3] + [ProcessDies(0)] + [ProcessExits(0, false)] + [AddContinues(0)] == es;
  }

  /** An add ends the run in exactly two ways: its timer expired and the class is stored without
      a process, or it completes a join of which one half failed with an unregistered code. */
  lemma AddFailsExactly(s: State, i: nat)
    requires Accounted(s) && Enabled(s, AddContinues(i))
    ensures var wait := s.books.waits[i];
            var verdict := AddDone(WithoutWait(s.books, i), wait.key, wait.phase.Cancelled?).1;
            && (wait.cb.Half? ==> wait.cb.token in s.desk.joins)
            && (Step(s, AddContinues(i)).status.Crashed? <==>
                  || (wait.phase.Expired? && s.books.Has(wait.key) && s.books.At(wait.key).process.None?)
                  || (verdict.Says? && wait.cb.Half? && s.desk.joins[wait.cb.token].bothCompleted
                      && (Unspeakable(s.desk, s.desk.joins[wait.cb.token].firstResponse)
                          || Unspeakable(s.desk, verdict.response))))
  {
    var b, wait := WithoutWait(s.books, i), s.books.waits[i];
    var result := AddDone(b, wait.key, wait.phase.Cancelled?);
    WithoutOwes(s.books.waits, i);
    assert wait.cb in Owed(s);
    AddThrows(b, wait.key, wait.phase.Cancelled?);
    RespondFailsExactly(s.desk, Owed(s), wait.cb, if result.1.Says? then result.1.response else Ok());
    ConcludeCrashes(s, wait.cb, result);
  }

  lemma AddThrows(b: Books, k: Key, cancelled: bool)
    ensures AddDone(b, k, cancelled).1.Throws? <==> !cancelled && b.Has(k) && b.At(k).process.None?
  {
  }

  lemma ConcludeCrashes(s: State, cb: Cb, result: (Books, Verdict))
    requires s.status.Running?
    ensures Conclude(s, cb, result).status.Crashed? <==>
            result.1.Throws? || (result.1.Says? && Respond(s.desk, cb, result.1.response).None?)
  {
  }

  // ------------------------------------------------------------- where a client can be lost

  /** The first add waits; nothing else has happened. */
  ghost predicate AddedFirst(s: State, k: Key) {
    && AddedAlone(s, k, None, Waiting) && s.posted == [] && s.books.armed == [k] && s.books.born == [k]
    && s.desk.asked == [Single(Add, Monitor)] && s.desk.replies == [] && s.desk.dropped == multiset{}
  }

  /** Its process has come and gone, and so has its entry, which cancelled the wait. */
  ghost predicate GoneAgain(s: State, k: Key) {
    && s.status.Running? && s.posted == [] && s.books.stored == map[]
    && s.books.waits == [AddWait(0, k, Direct(0), Cancelled)]
    && s.books.owner == [k] && s.books.live == {} && s.books.armed == [k] && s.books.born == [k]
    && s.desk.asked == [Single(Add, Monitor)] && s.desk.replies == [] && s.desk.dropped == multiset{}
  }

  /** Before that wait continues, the class is added a second time. */
  ghost predicate AddedTwice(s: State, k: Key) {
    && s.status.Running? && s.posted == [] && s.books.live == {1}
    && s.books.stored == map[k := Stored(k.name, Some(1), None, Some(1), true, false, false, 1)]
    && s.books.waits == [AddWait(0, k, Direct(0), Cancelled), AddWait(1, k, Direct(1), Waiting)]
    && |s.desk.asked| == 2 && s.desk.replies == [] && s.desk.dropped == multiset{}
  }

  /** The first wait has found the entry of the second add and let its client go. */
  ghost predicate FirstLost(s: State, k: Key, phase: Phase) {
    && s.status.Running? && s.posted == [] && s.books.live == {1}
    && s.books.stored == map[k := Stored(k.name, Some(1), None, Some(1), false, false, false, 1)]
    && s.books.waits == [AddWait(1, k, Direct(1), phase)]
    && s.desk.replies == [] && s.desk.dropped == multiset{Direct(0)}
  }

  lemma LosingAdd(names: ErrorNames, k: Key)
    requires k.kind.Monitor?
    ensures AddedFirst(Dispatch(Empty(names), Single(Add, Monitor), Name(k.name), ALL_GOOD), k)
  {
    FailingAdd(names, k);
  }

  lemma LosingExit(s: State, k: Key)
    requires AddedFirst(s, k)
    ensures Enabled(s, ProcessDies(0)) && Enabled(Step(s, ProcessDies(0)), ProcessExits(0, false))
    ensures GoneAgain(Step(Step(s, ProcessDies(0)), ProcessExits(0, false)), k)
  {
  }

  lemma LosingSecondAdd(s: State, k: Key)
    requires GoneAgain(s, k) && k.kind.Monitor?
    ensures AddedTwice(Dispatch(s, Single(Add, Monitor), Name(k.name), ALL_GOOD), k)
  {
    assert Act(s.books, Add, Monitor, Name(k.name), Direct(1), ALL_GOOD) == (Spawn(s.books, k, Direct(1)), Waits);
  }

  lemma LosingContinuation(s: State, k: Key)
    requires AddedTwice(s, k)
    ensures Enabled(s, AddContinues(0)) && FirstLost(Step(s, AddContinues(0)), k, Waiting)
  {
  }

  lemma LosingExpiry(s: State, k: Key)
    requires FirstLost(s, k, Waiting)
    ensures Enabled(s, TimerExpires(0)) && FirstLost(Step(s, TimerExpires(0)), k, Expired)
  {
  }

  lemma LosingSecondContinuation(s: State, k: Key)
    requires FirstLost(s, k, Expired)
    ensures Enabled(s, AddContinues(0))
    ensures var after := Step(s, AddContinues(0));
            && after.status.Running? && after.books.waits == [] && after.posted == []
            && after.desk.replies == [Reply(1, Ok())] && after.desk.dropped == multiset{Direct(0)}
  {
  }

  lemma LosingRunBegins(names: ErrorNames, k: Key, add: Event) returns (events: seq<Event>)
    requires k.kind.Monitor? && add == Command(Single(Add, Monitor), Name(k.name), ALL_GOOD)
    ensures AddedTwice(Run(names, events), k)
  {
    LosingAdd(names, k);
    RunGrows(names, [], add, [add]);
    LosingExit(Run(names, [add]), k);
    RunGrows(names, [add], ProcessDies(0), [add, ProcessDies(0)]);
    RunGrows(names, [add, ProcessDies(0)], ProcessExits(0, false), [add, ProcessDies(0), ProcessExits(0, false)]);
    events := [add, ProcessDies(0), ProcessExits(0, false)];
    LosingSecondAdd(Run(names, events), k);
    RunGrows(names, events, add, events + [add]);
    events := events + [add];
  }

  /** A run at whose end nothing is pending and one client was never answered. Two clients add
      the same class, the second one after the process of the first has exited and before the
      first add continues: that add finds the new entry, which is not confirmed. */
  lemma ClientCanBeLost(names: ErrorNames, name: string) returns (events: seq<Event>)
    ensures Run(names, events).status.Running? && Owed(Run(names, events)) == multiset{}
    ensures Run(names, events).desk.dropped == multiset{Direct(0)}
            && Run(names, events).desk.replies == [Reply(1, Ok())]
  {
    var k := Key(Monitor, name);
    events := LosingRunBegins(names, k, Command(Single(Add, Monitor), Name(name), ALL_GOOD));
    LosingContinuation(Run(names, events), k);
    RunGrows(names, events, AddContinues(0), events + [AddContinues(0)]);
    events := events + [AddContinues(0)];
    LosingExpiry(Run(names, events), k);
    RunGrows(names, events, TimerExpires(0), events + [TimerExpires(0)]);
    events := events + [TimerExpires(0)];
    LosingSecondContinuation(Run(names, events), k);
    RunGrows(names, events, AddContinues(0), events + [AddContinues(0)]);
    events := events + [AddContinues(0)];
    NothingOwed(Run(names, events));
  }

  lemma NothingOwed(s: State)
    requires s.posted == [] && s.books.waits == []
    ensures Owed(s) == multiset{}
  {
    assert CbsPosted(s.posted) == [] && CbsWaiting(s.books.waits) == [];
  }
}
