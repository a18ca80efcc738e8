/** What every turn of the event loop keeps about the two tables, the processes, the timers and
    the STOP commands. */
module LifecycleSound {
  import opened Options
  import opened Messages
  import opened Replies
  import opened Lifecycle

  /** An entry is stored under its own class name, has a process or a socket, has its own process
      and timer, and was sent as many STOPs as its flag says: one or none. */
  ghost predicate EntryOk(b: Books, k: Key)
    requires b.Has(k)
  {
    var e := b.At(k);
    && e.className == k.name
    && (e.process.Some? || e.endpoint.Some?)
    && (e.process.Some? ==> e.process.value < |b.owner| && b.owner[e.process.value] == k)
    && (e.addTimer.Some? ==> e.addTimer.value < |b.armed| && b.armed[e.addTimer.value] == k)
    && e.serial < |b.born| && b.born[e.serial] == k
    && b.stopsSent[e.serial] == if e.isBeingStopped then 1 else 0
  }

  /** A process that lives or whose exit handler is still to run is the one stored for its class. */
  ghost predicate ProcessOk(b: Books, p: Pid) {
    p < |b.owner| && b.Runs(b.owner[p], p)
  }

  /** A pending add is for the class its timer was started for; while the timer runs, the entry
      of that class owns it. */
  ghost predicate WaitOk(b: Books, w: Wait) {
    w.AddWait? ==>
      && w.timer < |b.armed| && b.armed[w.timer] == w.key
      && (w.phase.Waiting? ==> b.Has(w.key) && b.At(w.key).addTimer == Some(w.timer))
  }

  ghost predicate Entries(b: Books) {
    forall k: Key :: b.Has(k) ==> EntryOk(b, k)
  }

  ghost predicate Processes(b: Books) {
    forall p :: p in b.handlers || p in b.live ==> ProcessOk(b, p)
  }

  ghost predicate WaitsOk(b: Books) {
    forall i :: 0 <= i < |b.waits| ==> WaitOk(b, b.waits[i])
  }

  /** No entry was ever sent more than one STOP. */
  ghost predicate StopsOnce(b: Books) {
    forall n :: n in b.stopsSent ==> n < |b.born| && b.stopsSent[n] == 1
  }

  ghost predicate Sound(b: Books) {
    Entries(b) && Processes(b) && WaitsOk(b) && StopsOnce(b)
  }

  // ------------------------------------------------------------- changing one entry

  /** No process that lives or is still to be handled is stored under `k`. */
  ghost predicate Idle(b: Books, k: Key) {
    forall p :: p in b.handlers || p in b.live ==> !b.Runs(k, p)
  }

  /** Flags and sockets may change freely as long as the entry stays non-empty, and a process
      that is over may be forgotten. */
  lemma PutKeeps(b: Books, k: Key, e: Stored)
    requires Sound(b) && b.Has(k)
    requires e.className == b.At(k).className && e.addTimer == b.At(k).addTimer
    requires e.serial == b.At(k).serial && e.isBeingStopped == b.At(k).isBeingStopped
    requires e.process == b.At(k).process || (e.process.None? && Idle(b, k))
    requires e.process.Some? || e.endpoint.Some?
    ensures Sound(b.Put(k, e))
  {
    var after := b.Put(k, e);
    assert EntryOk(b, k);
    forall j: Key | after.Has(j)
      ensures EntryOk(after, j)
    {
      assert b.Has(j) && EntryOk(b, j);
    }
    forall p | p in after.handlers || p in after.live
      ensures ProcessOk(after, p)
    {
      assert ProcessOk(b, p);
    }
    forall i | 0 <= i < |after.waits|
      ensures WaitOk(after, after.waits[i])
    {
      assert WaitOk(b, b.waits[i]);
    }
  }

  lemma EraseKeeps(b: Books, k: Key)
    requires Sound(b) && b.Has(k) && Idle(b, k)
    ensures Sound(b.Erase(k))
  {
    var after := b.Erase(k);
    assert EntryOk(b, k);
    forall j: Key | after.Has(j)
      ensures EntryOk(after, j)
    {
      assert b.Has(j) && EntryOk(b, j);
    }
    forall p | p in after.handlers || p in after.live
      ensures ProcessOk(after, p)
    {
      assert ProcessOk(b, p) && !b.Runs(k, p);
    }
    forall i | 0 <= i < |after.waits|
      ensures WaitOk(after, after.waits[i])
    {
      assert WaitOk(b, b.waits[i]);
    }
  }

  /** A new entry, for a process that was just spawned or for a socket that was just found. */
  lemma InsertKeeps(b: Books, after: Books, k: Key, e: Stored)
    requires Sound(b) && !b.Has(k)
    requires after.stored == b.stored[k := e] && after.waits == b.waits && after.stopsSent == b.stopsSent
    requires after.born == b.born + [k] && e.serial == |b.born| && e.className == k.name && !e.isBeingStopped
    requires if e.process.None?
             then e.endpoint.Some? && after.owner == b.owner && after.handlers == b.handlers && after.live == b.live
             else after.owner == b.owner + [k] && e.process == Some(|b.owner|)
                  && after.handlers == b.handlers + {|b.owner|} && after.live == b.live + {|b.owner|}
    requires if e.addTimer.None? then after.armed == b.armed
             else after.armed == b.armed + [k] && e.addTimer == Some(|b.armed|)
    ensures Sound(after)
  {
    forall j: Key | after.Has(j)
      ensures EntryOk(after, j)
    {
      assert j != k ==> b.Has(j) && EntryOk(b, j);
      assert |b.born| !in b.stopsSent;
    }
    forall p | p in after.handlers || p in after.live
      ensures ProcessOk(after, p)
    {
      assert p != |b.owner| ==> ProcessOk(b, p);
    }
    forall i | 0 <= i < |after.waits|
      ensures WaitOk(after, after.waits[i])
    {
      assert WaitOk(b, b.waits[i]);
    }
  }

  /** A STOP is initiated for an entry that was not sent one. */
  lemma StopKeeps(b: Books, k: Key)
    requires Sound(b) && b.Has(k) && !b.At(k).isBeingStopped
    ensures Sound(b.Put(k, b.At(k).(isBeingStopped := true)).(stopsSent := b.stopsSent + multiset{b.At(k).serial}))
  {
    var n := b.At(k).serial;
    var after := b.Put(k, b.At(k).(isBeingStopped := true)).(stopsSent := b.stopsSent + multiset{n});
    assert EntryOk(b, k);
    forall j: Key | after.Has(j)
      ensures EntryOk(after, j)
    {
      assert b.Has(j) && EntryOk(b, j);
      assert j != k ==> b.At(j).serial != n;
    }
    forall p | p in after.handlers || p in after.live
      ensures ProcessOk(after, p)
    {
      assert ProcessOk(b, p);
    }
    forall i | 0 <= i < |after.waits|
      ensures WaitOk(after, after.waits[i])
    {
      assert WaitOk(b, b.waits[i]);
    }
  }

  /** The continuations change, each remaining sound. */
  lemma WaitsKeep(b: Books, waits: seq<Wait>)
    requires Sound(b)
    requires forall i :: 0 <= i < |waits| ==> WaitOk(b, waits[i])
    ensures Sound(b.(waits := waits))
  {
    var after := b.(waits := waits);
    forall j: Key | after.Has(j)
      ensures EntryOk(after, j)
    {
      assert b.Has(j) && EntryOk(b, j);
    }
    forall p | p in after.handlers || p in after.live
      ensures ProcessOk(after, p)
    {
      assert ProcessOk(b, p);
    }
    forall i | 0 <= i < |after.waits|
      ensures WaitOk(after, after.waits[i])
    {
      assert WaitOk(b, waits[i]);
    }
  }

  /** Fewer processes live or are still to be handled. */
  lemma FewerProcessesKeep(b: Books, handlers: set<Pid>, live: set<Pid>)
    requires Sound(b) && handlers <= b.handlers && live <= b.live
    ensures Sound(b.(handlers := handlers, live := live))
  {
    var after := b.(handlers := handlers, live := live);
    forall j: Key | after.Has(j)
      ensures EntryOk(after, j)
    {
      assert b.Has(j) && EntryOk(b, j);
    }
    forall p | p in after.handlers || p in after.live
      ensures ProcessOk(after, p)
    {
      assert ProcessOk(b, p);
    }
    forall i | 0 <= i < |after.waits|
      ensures WaitOk(after, after.waits[i])
    {
      assert WaitOk(b, b.waits[i]);
    }
  }

  // ------------------------------------------------------------- the operations

  lemma RemoveSocketKeeps(b: Books, k: Key)
    requires Sound(b) && b.Has(k)
    ensures Sound(RemoveSocket(b, k))
  {
    if b.At(k).process.None? {
      EraseKeeps(b, k);
    } else {
      PutKeeps(b, k, b.At(k).(endpoint := None));
    }
  }

  lemma RemoveProcessKeeps(b: Books, k: Key)
    requires Sound(b) && b.Has(k) && Idle(b, k)
    ensures Sound(RemoveProcess(b, k))
  {
    if b.At(k).endpoint.None? {
      EraseKeeps(b, k);
    } else {
      PutKeeps(b, k, b.At(k).(process := None));
    }
  }

  /** Every existing entry is refused, whatever its flags: an add never reuses one. */
  lemma NeverReused(b: Books, k: Key)
    requires Sound(b)
    ensures Refusal(b, k).Some? <==> b.Has(k)
  {
    if b.Has(k) {
      assert EntryOk(b, k);
    }
  }

  lemma SpawnKeeps(b: Books, k: Key, cb: Cb)
    requires Sound(b) && !b.Has(k)
    ensures Sound(Spawn(b, k, cb))
  {
    var after := Spawn(b, k, cb);
    InsertKeeps(b, after.(waits := b.waits), k, after.At(k));
    forall i | 0 <= i < |after.waits|
      ensures WaitOk(after.(waits := b.waits), after.waits[i])
    {
      assert i < |b.waits| ==> WaitOk(after.(waits := b.waits), b.waits[i]);
    }
    WaitsKeep(after.(waits := b.waits), after.waits);
  }

  lemma AddKeeps(b: Books, kind: Kind, args: Args, cb: Cb, w: World)
    requires Sound(b)
    ensures Sound(OnAdd(b, kind, args, cb, w).0)
  {
    if args.Name? {
      var k := Key(kind, args.name);
      NeverReused(b, k);
      if !b.Has(k) {
        SpawnKeeps(b, k, cb);
      }
    }
  }

  lemma StopNamedKeeps(b: Books, k: Key, cb: Cb, w: World)
    requires Sound(b)
    ensures StopNamed(b, k, cb, w).1.Throws? || Sound(StopNamed(b, k, cb, w).0)
  {
    if b.Has(k) && b.At(k).endpoint.Some? && !b.At(k).isBeingStopped && w.connects {
      StopKeeps(b, k);
      var after := b.Put(k, b.At(k).(isBeingStopped := true)).(stopsSent := b.stopsSent + multiset{b.At(k).serial});
      var waits := b.waits + [StopWrite(k, cb)];
      forall i | 0 <= i < |waits|
        ensures WaitOk(after, waits[i])
      {
        assert i < |b.waits| ==> WaitOk(after, after.waits[i]);
      }
      WaitsKeep(after, waits);
    }
  }

  lemma ActKeeps(b: Books, op: Op, kind: Kind, args: Args, cb: Cb, w: World)
    requires Sound(b)
    ensures Act(b, op, kind, args, cb, w).1.Throws? || Sound(Act(b, op, kind, args, cb, w).0)
  {
    match op
    case Add => AddKeeps(b, kind, args, cb, w);
    case Status =>
    case Stop =>
      if args.Name? {
        StopNamedKeeps(b, Key(kind, args.name), cb, w);
      }
  }

  lemma WithoutWaitKeeps(b: Books, i: nat)
    requires Sound(b) && i < |b.waits|
    ensures Sound(WithoutWait(b, i))
  {
    var waits := Without(b.waits, i);
    forall j | 0 <= j < |waits|
      ensures WaitOk(b, waits[j])
    {
      assert waits[j] == b.waits[if j < i then j else j + 1];
    }
    WaitsKeep(b, waits);
  }

  lemma AddDoneKeeps(b: Books, k: Key, cancelled: bool)
    requires Sound(b)
    ensures Sound(AddDone(b, k, cancelled).0)
  {
    if b.Has(k) {
      assert EntryOk(b, k);
      PutKeeps(b, k, b.At(k).(isBeingAdded := false));
      PutKeeps(b, k, b.At(k).(isBeingAdded := false, confirmAdded := false));
    }
  }

  lemma StopWrittenKeeps(b: Books, k: Key, cb: Cb, failure: Option<string>)
    requires Sound(b)
    ensures Sound(StopWritten(b, k, cb, failure).0)
  {
    var after := if b.Has(k) then RemoveSocket(b, k) else b;
    if b.Has(k) {
      RemoveSocketKeeps(b, k);
    }
    var waits := after.waits + [StopRead(k, cb)];
    forall i | 0 <= i < |waits|
      ensures WaitOk(after, waits[i])
    {
      assert i < |after.waits| ==> WaitOk(after, after.waits[i]);
    }
    WaitsKeep(after, waits);
  }

  lemma ProcessExitKeeps(b: Books, p: Pid, failed: bool)
    requires Sound(b) && p in b.handlers && p < |b.owner| && (failed || p !in b.live)
    ensures Sound(ProcessExit(b, p, failed))
  {
    var k, after := b.owner[p], b.(handlers := b.handlers - {p});
    FewerProcessesKeep(b, b.handlers - {p}, b.live);
    assert after == b.(handlers := b.handlers - {p}, live := b.live);
    assert ProcessOk(b, p);
    if !failed {
      RemoveProcessKeeps(after, k);
    }
  }

  lemma SocketSeenKeeps(s: State, k: Key, path: string)
    requires Sound(s.books)
    ensures Sound(SocketSeen(s, k, path).books)
  {
    if s.books.Has(k) {
      PutKeeps(s.books, k, s.books.At(k).(endpoint := Some(path)));
    }
  }

  lemma VerifiedKeeps(s: State, i: nat)
    requires Sound(s.books) && i < |s.checks|
    ensures Sound(Verified(s, i).books)
  {
    var k, b, after := s.checks[i].key, s.books, Verified(s, i);
    match s.checks[i]
    case Confirm(_) =>
      if b.Has(k) && b.At(k).addTimer.Some? {
        assert EntryOk(b, k);
        var put := b.Put(k, b.At(k).(confirmAdded := true));
        PutKeeps(b, k, b.At(k).(confirmAdded := true));
        forall j | 0 <= j < |after.books.waits|
          ensures WaitOk(put, after.books.waits[j])
        {
          assert WaitOk(put, put.waits[j]);
        }
        WaitsKeep(put, after.books.waits);
      }
    case Emplace(_, path) =>
      if !b.Has(k) {
        InsertKeeps(b, after.books, k, after.books.At(k));
      }
  }

  lemma ExpiryKeeps(b: Books, i: nat)
    requires Sound(b) && i < |b.waits| && b.waits[i].AddWait?
    ensures Sound(b.(waits := b.waits[i := b.waits[i].(phase := Expired)]))
  {
    var waits := b.waits[i := b.waits[i].(phase := Expired)];
    forall j | 0 <= j < |waits|
      ensures WaitOk(b, waits[j])
    {
      assert WaitOk(b, b.waits[j]);
    }
    WaitsKeep(b, waits);
  }

  lemma DispatchKeeps(s: State, command: Replies.Command, args: Args, w: World)
    requires Sound(s.books) && Dispatch(s, command, args, w).status.Running?
    ensures Sound(Dispatch(s, command, args, w).books)
  {
    match command
    case Single(op, kind) => ActKeeps(s.books, op, kind, args, Direct(|s.desk.asked|), w);
    case _ =>
  }

  lemma ContinueKeeps(s: State, i: nat, result: (Books, Verdict))
    requires Sound(s.books) && i < |s.books.waits| && Sound(result.0)
    ensures Sound(Continue(s, i, result).books)
  {
  }

  lemma AddContinuesKeeps(s: State, i: nat)
    requires Sound(s.books) && Enabled(s, AddContinues(i))
    ensures Sound(Step(s, AddContinues(i)).books)
  {
    var b, wait := s.books, s.books.waits[i];
    WithoutWaitKeeps(b, i);
    AddDoneKeeps(WithoutWait(b, i), wait.key, wait.phase.Cancelled?);
    ContinueKeeps(s, i, AddDone(WithoutWait(b, i), wait.key, wait.phase.Cancelled?));
  }

  lemma StopIsWrittenKeeps(s: State, i: nat, failure: Option<string>)
    requires Sound(s.books) && Enabled(s, StopIsWritten(i, failure))
    ensures Sound(Step(s, StopIsWritten(i, failure)).books)
  {
    var b, wait := s.books, s.books.waits[i];
    WithoutWaitKeeps(b, i);
    StopWrittenKeeps(WithoutWait(b, i), wait.key, wait.cb, failure);
    ContinueKeeps(s, i, StopWritten(WithoutWait(b, i), wait.key, wait.cb, failure));
  }

  /** One turn of the event loop keeps everything, for as long as the manager runs. */
  lemma StepKeepsSound(s: State, e: Event)
    requires Enabled(s, e) && Sound(s.books) && Step(s, e).status.Running?
    ensures Sound(Step(s, e).books)
  {
    var b := s.books;
    match e
    case Command(command, args, w) => DispatchKeeps(s, command, args, w);
    case PostedRuns(w) => ActKeeps(b, s.posted[0].op, KindOf(s.posted[0].cb), s.posted[0].args, s.posted[0].cb, w);
    case TimerExpires(i) => ExpiryKeeps(b, i);
    case AddContinues(i) => AddContinuesKeeps(s, i);
    case StopIsWritten(i, failure) => StopIsWrittenKeeps(s, i, failure);
    case StopIsAnswered(i, r) => WithoutWaitKeeps(b, i);
    case SocketCreated(k, path) => SocketSeenKeeps(s, k, path);
    case SocketDeleted(k) =>
      if b.Has(k) {
        RemoveSocketKeeps(b, k);
      }
    case SocketVerified(i) => VerifiedKeeps(s, i);
    case ProcessDies(p) =>
      FewerProcessesKeep(b, b.handlers, b.live - {p});
      assert b.(live := b.live - {p}) == b.(handlers := b.handlers, live := b.live - {p});
    case ProcessExits(p, failed) => ProcessExitKeeps(b, p, failed);
  }

  /** In every reachable state of a manager that runs. */
  lemma {:induction false} EveryRunSound(names: ErrorNames, events: seq<Event>)
    requires Run(names, events).status.Running?
    ensures Sound(Run(names, events).books)
  {
    if events != [] {
      var n := |events| - 1;
      var s := Run(names, events[..n]);
      if Enabled(s, events[n]) {
        EveryRunSound(names, events[..n]);
        StepKeepsSound(s, events[n]);
      } else {
        EveryRunSound(names, events[..n]);
      }
    }
  }

  lemma ReachableSound(s: State)
    requires Reachable(s) && s.status.Running?
    ensures Sound(s.books)
  {
    var names: ErrorNames, events: seq<Event> :| s == Run(names, events);
    EveryRunSound(names, events);
  }
}
