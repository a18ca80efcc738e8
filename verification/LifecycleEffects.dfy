/** What each event of the loop does, said of the states before and after it: which response goes
    to whom, which entry changes and how, what starts to wait and what is cancelled. */
module LifecycleEffects {
  import opened Options
  import opened Messages
  import opened Replies
  import opened Lifecycle
  import opened LifecycleFacts
  import opened LifecycleSound

  // ------------------------------------------------------------- the words

  /** The callback is invoked with this response, or the merging throws and ends the run; nothing
      else changes outside the books. */
  ghost predicate Tells(s: State, t: State, cb: Cb, r: Response) {
    && t.posted == s.posted && t.checks == s.checks
    && if MergeThrows(s.desk, cb, r) then t.desk == s.desk && t.status == Crashed
       else t.status == s.status && Answered(s.desk, t.desk, cb, r)
  }

  /** Nothing changes outside the books. */
  ghost predicate TellsNobody(s: State, t: State) {
    t.posted == s.posted && t.checks == s.checks && t.desk == s.desk && t.status == s.status
  }

  /** An exception that changes nothing else. */
  ghost predicate Ends(s: State, t: State) {
    t == s.(status := Crashed)
  }

  /** Every entry but that of `k` is as before. */
  ghost predicate OthersStay(b: Books, after: Books, k: Key) {
    forall j: Key :: j != k ==> after.Has(j) == b.Has(j) && (b.Has(j) ==> after.At(j) == b.At(j))
  }

  /** No process, timer, entry or STOP begins, and no process ends. */
  ghost predicate NothingBegins(b: Books, after: Books) {
    && after.handlers == b.handlers && after.live == b.live && after.owner == b.owner
    && after.armed == b.armed && after.born == b.born && after.stopsSent == b.stopsSent
  }

  /** What waits is what waited, in the same order, except that adds which wait on a timer in
      `released` that still runs are cancelled. */
  ghost predicate OnlyCancels(before: seq<Wait>, after: seq<Wait>, released: iset<Timer>) {
    && |after| == |before|
    && forall i :: 0 <= i < |before| ==>
         after[i] == if before[i].AddWait? && before[i].phase == Waiting && before[i].timer in released
                     then AddWait(before[i].timer, before[i].key, before[i].cb, Cancelled) else before[i]
  }

  /** The timer of the entry of `k`, if that is gone. */
  ghost function Released(b: Books, after: Books, k: Key): iset<Timer> {
    iset x | b.Has(k) && !after.Has(k) && b.At(k).addTimer == Some(x)
  }

  /** Position `i` is left out. */
  ghost predicate OneLess<T(!new)>(before: seq<T>, after: seq<T>, i: nat)
    requires i < |before|
  {
    after == before[..i] + before[i + 1..]
  }

  lemma SaysTells(s: State, cb: Cb, b: Books, r: Response)
    ensures Conclude(s, cb, (b, Says(r))).books == b && Tells(s, Conclude(s, cb, (b, Says(r))), cb, r)
  {
    RespondMeans(s.desk, cb, r);
  }

  // ------------------------------------------------------------- sockets and processes

  /** The socket of `k` is gone: its entry loses it, or goes when it has no process, and then the
      wait on its timer is cancelled. */
  ghost predicate LosesSocket(b: Books, after: Books, k: Key) {
    && OthersStay(b, after, k) && NothingBegins(b, after)
    && (after.Has(k) <==> b.Has(k) && b.At(k).process != None)
    && (after.Has(k) ==> after.At(k) == b.At(k).(endpoint := None))
    && OnlyCancels(b.waits, after.waits, Released(b, after, k))
  }

  /** The same for its process, whose exit handler has run. */
  ghost predicate LosesProcess(b: Books, after: Books, k: Key) {
    && OthersStay(b, after, k) && NothingBegins(b, after)
    && (after.Has(k) <==> b.Has(k) && b.At(k).endpoint != None)
    && (after.Has(k) ==> after.At(k) == b.At(k).(process := None))
    && OnlyCancels(b.waits, after.waits, Released(b, after, k))
  }

  lemma SocketIsLost(b: Books, k: Key)
    ensures LosesSocket(b, if b.Has(k) then RemoveSocket(b, k) else b, k)
  {
  }

  lemma ProcessIsLost(b: Books, k: Key)
    ensures LosesProcess(b, if b.Has(k) then RemoveProcess(b, k) else b, k)
  {
  }

  /** A socket file appeared: a stored class has that socket now and is looked at if it is being
      added; a class that is not stored is looked at and nothing is stored yet. */
  lemma SocketCreatedMeans(s: State, k: Key, path: string)
    requires Enabled(s, SocketCreated(k, path))
    ensures var b, t := s.books, Step(s, SocketCreated(k, path));
            && t.posted == s.posted && t.desk == s.desk && t.status == s.status
            && NothingBegins(b, t.books) && t.books.waits == b.waits && OthersStay(b, t.books, k)
            && t.books.Has(k) == b.Has(k)
            && (b.Has(k) ==> t.books.At(k) == b.At(k).(endpoint := Some(path)))
            && t.checks == s.checks + if !b.Has(k) then [Emplace(k, path)]
                                      else if b.At(k).isBeingAdded then [Confirm(k)] else []
  {
  }

  lemma SocketDeletedMeans(s: State, k: Key)
    requires Enabled(s, SocketDeleted(k))
    ensures var t := Step(s, SocketDeleted(k));
            TellsNobody(s, t) && LosesSocket(s.books, t.books, k)
  {
    SocketIsLost(s.books, k);
  }

  /** A socket proved to be alive. A class that is being added is confirmed and its running wait
      cancelled; a class that is not stored by now is stored, with the socket and no process; one
      that is stays as it is. The run ends if the class to be confirmed is gone or has no timer. */
  ghost predicate Verifies(s: State, t: State, check: Check) {
    var b, k := s.books, check.key;
    && t.posted == s.posted && t.desk == s.desk && OthersStay(b, t.books, k)
    && t.books.handlers == b.handlers && t.books.live == b.live && t.books.owner == b.owner
    && t.books.armed == b.armed && t.books.stopsSent == b.stopsSent
    && match check
       case Confirm(_) =>
         if b.Has(k) && b.At(k).addTimer != None then
           && t.status == s.status && t.books.Has(k) && t.books.At(k) == b.At(k).(confirmAdded := true)
           && t.books.born == b.born
           && OnlyCancels(b.waits, t.books.waits, iset{b.At(k).addTimer.value})
         else Ends(s, t)
       case Emplace(_, path) =>
         && t.status == s.status && t.books.waits == b.waits && t.books.Has(k)
         && t.books.born == (if b.Has(k) then b.born else b.born + [k])
         && t.books.At(k) == if b.Has(k) then b.At(k)
                             else Stored(k.name, None, Some(path), None, false, false, false, |b.born|)
  }

  lemma SocketVerifiedMeans(s: State, i: nat)
    requires Enabled(s, SocketVerified(i))
    ensures var t := Step(s, SocketVerified(i));
            Verifies(s, t, s.checks[i]) && (t.status == Crashed || OneLess(s.checks, t.checks, i))
  {
  }

  /** A timer runs out, and a process dies: only that is noted. */
  lemma NotedOnly(s: State, i: nat, p: Pid)
    ensures Enabled(s, TimerExpires(i)) ==>
              var w, t := s.books.waits[i], Step(s, TimerExpires(i));
              && TellsNobody(s, t) && t.books == s.books.(waits := t.books.waits)
              && t.books.waits == s.books.waits[i := AddWait(w.timer, w.key, w.cb, Expired)]
    ensures Enabled(s, ProcessDies(p)) ==>
              var t := Step(s, ProcessDies(p));
              && TellsNobody(s, t) && t.books == s.books.(live := t.books.live)
              && p !in t.books.live && t.books.live + {p} == s.books.live
  {
  }

  /** The exit of a process is handled: its class loses its process. An error only takes the
      handler away. */
  lemma ProcessExitsMeans(s: State, p: Pid, failed: bool)
    requires Enabled(s, ProcessExits(p, failed))
    ensures var b, t := s.books.(handlers := s.books.handlers - {p}), Step(s, ProcessExits(p, failed));
            TellsNobody(s, t) && if failed then t.books == b else LosesProcess(b, t.books, s.books.owner[p])
  {
    ProcessIsLost(s.books.(handlers := s.books.handlers - {p}), s.books.owner[p]);
  }

  // ------------------------------------------------------------- adding

  /** A new process of a new entry, with its handler and its timer, and a wait on that. */
  ghost predicate Starts(b: Books, after: Books, k: Key, cb: Cb) {
    var pid, timer := |b.owner|, |b.armed|;
    && !b.Has(k) && after.Has(k) && OthersStay(b, after, k)
    && after.At(k) == Stored(k.name, Some(pid), None, Some(timer), true, false, false, |b.born|)
    && after.waits == b.waits + [AddWait(timer, k, cb, Waiting)]
    && after.handlers == b.handlers + {pid} && after.live == b.live + {pid}
    && after.owner == b.owner + [k] && after.armed == b.armed + [k] && after.born == b.born + [k]
    && after.stopsSent == b.stopsSent
  }

  /** What is wrong with the payload of an add or a stop. */
  ghost predicate RejectsPayload(s: State, t: State, args: Args, cb: Cb) {
    && t.books == s.books
    && match args
       case NoPayload => Tells(s, t, cb, Response(MISSING_PAYLOAD, "", Nothing))
       case NoName => Tells(s, t, cb, Response(MISSING_PAYLOAD_ARGS, "Missing payload arg: \"name\".", Nothing))
       case NameNotString => Ends(s, t)
       case Name(_) => false
  }

  ghost predicate TellsKind(s: State, t: State, cb: Cb, kind: Kind, monitors: nat, scrapers: nat, info: string) {
    Tells(s, t, cb, Response(if kind == Monitor then monitors else scrapers, info, Nothing))
  }

  /** An add starts exactly if its class is not stored, a python is found, the class is registered
      and a process can be spawned. A class that is stored is refused, for the reason that its
      entry shows; what else is missing is told or ends the run; and nothing changes then. */
  ghost predicate Adds(s: State, t: State, kind: Kind, args: Args, cb: Cb, w: World) {
    if !args.Name? then RejectsPayload(s, t, args, cb)
    else
      var b, k, prefix := s.books, Key(kind, args.name), if kind == Monitor then "Monitor" else "Scraper";
      if !b.Has(k) && w.python.Some? && w.python.value != "" && w.register == Registered && w.spawns then
        TellsNobody(s, t) && Starts(b, t.books, k, cb)
      else
        && t.books == b
        && if b.Has(k) then
             TellsKind(s, t, cb, kind, MM_COULDNT_ADD_MONITOR, MM_COULDNT_ADD_SCRAPER,
                       prefix + if b.At(k).isBeingAdded then STILL_PROCESSED
                                else if b.At(k).process != None then ALREADY_STARTED else HAS_SOCKET)
           else if w.python == Some("") then
             TellsKind(s, t, cb, kind, MM_COULDNT_ADD_MONITOR, MM_COULDNT_ADD_SCRAPER, NO_PYTHON)
           else if w.python.Some? && w.register == NotRegistered then
             TellsKind(s, t, cb, kind, MONITOR_NOT_REGISTERED, SCRAPER_NOT_REGISTERED, "")
           else if w.python.Some? && w.register.QueryFails? then
             TellsKind(s, t, cb, kind, MM_COULDNT_ADD_MONITOR, MM_COULDNT_ADD_SCRAPER, QUERY_FAILED + w.register.what)
           else Ends(s, t)
  }

  lemma AddMeans(s: State, kind: Kind, args: Args, cb: Cb, w: World)
    requires Sound(s.books)
    ensures Adds(s, Conclude(s, cb, OnAdd(s.books, kind, args, cb, w)), kind, args, cb, w)
  {
    var (after, verdict) := OnAdd(s.books, kind, args, cb, w);
    if verdict.Says? {
      SaysTells(s, cb, after, verdict.response);
    }
    if args.Name? {
      NeverReused(s.books, Key(kind, args.name));
    }
  }

  /** The entry of an add that continues: it is no longer being added unless its wait has run out
      and its process is dead, and a confirmation is used up by the wait it cancelled. */
  ghost predicate SettlesEntry(b: Books, after: Books, k: Key, cancelled: bool, lives: bool) {
    && OthersStay(b, after, k) && NothingBegins(b, after) && after.Has(k) == b.Has(k)
    && (b.Has(k) ==>
          after.At(k) == b.At(k).(isBeingAdded := b.At(k).isBeingAdded && !cancelled && !lives,
                                  confirmAdded := b.At(k).confirmAdded && !cancelled))
  }

  /** An add continues. Its callback is invoked with OK exactly when the class is stored and its
      wait was cancelled by a confirmation, or has run out with the process alive; otherwise with
      the code for adds of its kind. It is let go in one case, a cancelled wait of a class that
      is stored but not confirmed, and an exception ends the run in one, a wait that has run out
      for an entry without a process. */
  ghost predicate ContinuesAdd(s: State, t: State, k: Key, cb: Cb, cancelled: bool) {
    var b := s.books;
    var lives := b.Has(k) && b.At(k).process.Some? && b.At(k).process.value in b.live;
    && SettlesEntry(b, t.books, k, cancelled, lives) && t.posted == s.posted && t.checks == s.checks
    && if b.Has(k) && !cancelled && b.At(k).process == None then
         t.status == Crashed && t.desk == s.desk
       else if b.Has(k) && cancelled && !b.At(k).confirmAdded then
         t.status == s.status && t.desk == s.desk.(dropped := s.desk.dropped + multiset{cb})
       else if b.Has(k) && (cancelled || lives) then
         Tells(s, t, cb, Response(OK, "", Nothing))
       else
         TellsKind(s, t, cb, k.kind, MM_COULDNT_ADD_MONITOR, MM_COULDNT_ADD_SCRAPER,
                   if cancelled then EXITED else if b.Has(k) then NOT_RUNNING else EXITED_EARLY)
  }

  lemma AddDoneMeans(s: State, i: nat)
    requires i < |s.books.waits| && s.books.waits[i].AddWait?
    ensures var wait := s.books.waits[i];
            var t := Continue(s, i, AddDone(WithoutWait(s.books, i), wait.key, wait.phase.Cancelled?));
            && OneLess(s.books.waits, t.books.waits, i)
            && ContinuesAdd(s, t, wait.key, wait.cb, wait.phase == Cancelled)
  {
    var wait := s.books.waits[i];
    var (after, verdict) := AddDone(WithoutWait(s.books, i), wait.key, wait.phase.Cancelled?);
    if verdict.Says? {
      SaysTells(s, wait.cb, after, verdict.response);
    }
  }

  lemma AddContinuesMeans(s: State, i: nat)
    requires Enabled(s, AddContinues(i))
    ensures var wait, t := s.books.waits[i], Step(s, AddContinues(i));
            && OneLess(s.books.waits, t.books.waits, i)
            && ContinuesAdd(s, t, wait.key, wait.cb, wait.phase == Cancelled)
  {
    AddDoneMeans(s, i);
  }

  // ------------------------------------------------------------- stopping

  /** A stop is initiated exactly for a stored class with a socket that is not being stopped, and
      marks its entry, also when connecting ends the run. Otherwise nothing changes. */
  ghost predicate Stops(s: State, t: State, kind: Kind, args: Args, cb: Cb, w: World) {
    if !args.Name? then RejectsPayload(s, t, args, cb)
    else
      var b, k, prefix := s.books, Key(kind, args.name), if kind == Monitor then "Monitor " else "Scraper ";
      if !b.Has(k) || b.At(k).endpoint == None then
        && t.books == b
        && Tells(s, t, cb, Response(SOCKET_DOESNT_EXIST, prefix + args.name + NOT_PRESENT, Nothing))
      else if b.At(k).isBeingStopped then
        && t.books == b
        && TellsKind(s, t, cb, kind, MM_COULDNT_STOP_MONITOR, MM_COULDNT_STOP_SCRAPER,
                     prefix + args.name + BEING_STOPPED)
      else
        && OthersStay(b, t.books, k) && t.books.Has(k) && t.books.At(k) == b.At(k).(isBeingStopped := true)
        && NothingBegins(b, t.books.(stopsSent := b.stopsSent))
        && if w.connects then
             && TellsNobody(s, t) && t.books.waits == b.waits + [StopWrite(k, cb)]
             && t.books.stopsSent == b.stopsSent + multiset{b.At(k).serial}
           else
             t.status == Crashed && t.desk == s.desk && t.books.waits == b.waits && t.books.stopsSent == b.stopsSent
  }

  lemma StopMeans(s: State, kind: Kind, args: Args, cb: Cb, w: World)
    ensures Stops(s, Conclude(s, cb, OnStop(s.books, kind, args, cb, w)), kind, args, cb, w)
  {
    assert KindName(kind) + " " == if kind == Monitor then "Monitor " else "Scraper ";
    var (after, verdict) := OnStop(s.books, kind, args, cb, w);
    if verdict.Says? {
      SaysTells(s, cb, after, verdict.response);
    }
  }

  /** Once the STOP is written, or could not be, the class has lost its socket in either case. A
      failure is answered; after a success the answer of the class is waited for. */
  ghost predicate WritesStop(s: State, t: State, k: Key, cb: Cb, i: nat, failure: Option<string>)
    requires i < |s.books.waits|
  {
    var b := s.books.(waits := s.books.waits[..i] + s.books.waits[i + 1..]);
    match failure
    case None =>
      && TellsNobody(s, t) && t.books.waits != [] && t.books.waits[|t.books.waits| - 1] == StopRead(k, cb)
      && LosesSocket(b, t.books.(waits := t.books.waits[..|t.books.waits| - 1]), k)
    case Some(what) =>
      && LosesSocket(b, t.books, k)
      && TellsKind(s, t, cb, k.kind, MM_COULDNT_STOP_MONITOR, MM_COULDNT_STOP_SCRAPER, STOP_NOT_SENT + what)
  }

  lemma StopIsWrittenMeans(s: State, i: nat, failure: Option<string>)
    requires Enabled(s, StopIsWritten(i, failure))
    ensures WritesStop(s, Step(s, StopIsWritten(i, failure)), s.books.waits[i].key, s.books.waits[i].cb, i, failure)
  {
    StopWrittenMeans(s, i, failure);
  }

  lemma StopWrittenMeans(s: State, i: nat, failure: Option<string>)
    requires i < |s.books.waits| && s.books.waits[i].StopWrite?
    ensures var wait := s.books.waits[i];
            WritesStop(s, Continue(s, i, StopWritten(WithoutWait(s.books, i), wait.key, wait.cb, failure)),
                       wait.key, wait.cb, i, failure)
  {
    var wait, b := s.books.waits[i], WithoutWait(s.books, i);
    SocketIsLost(b, wait.key);
    var (after, verdict) := StopWritten(b, wait.key, wait.cb, failure);
    if verdict.Says? {
      SaysTells(s, wait.cb, after, verdict.response);
    } else {
      assert after.waits[..|after.waits| - 1] == (if b.Has(wait.key) then RemoveSocket(b, wait.key) else b).waits;
    }
  }

  /** The answer of the class is passed on as it is. */
  lemma StopIsAnsweredMeans(s: State, i: nat, r: Response)
    requires Enabled(s, StopIsAnswered(i, r))
    ensures var t := Step(s, StopIsAnswered(i, r));
            && OneLess(s.books.waits, t.books.waits, i) && t.books == s.books.(waits := t.books.waits)
            && Tells(s, t, s.books.waits[i].cb, r)
  {
    SaysTells(s, s.books.waits[i].cb, WithoutWait(s.books, i), r);
  }

  // ------------------------------------------------------------- status

  /** A status is answered at once, with the two tables of its kind: each class with a process
      and that process, each with a socket and that socket, and nothing else. */
  ghost predicate TellsStatus(s: State, t: State, kind: Kind, cb: Cb, processes: map<string, Pid>,
                              sockets: map<string, string>) {
    && t.books == s.books && Tells(s, t, cb, Response(OK, "", Tables(processes, sockets)))
    && (forall name :: name in processes <==>
          s.books.Has(Key(kind, name)) && s.books.At(Key(kind, name)).process != None)
    && (forall name :: name in processes ==> s.books.At(Key(kind, name)).process == Some(processes[name]))
    && (forall name :: name in sockets <==>
          s.books.Has(Key(kind, name)) && s.books.At(Key(kind, name)).endpoint != None)
    && (forall name :: name in sockets ==> s.books.At(Key(kind, name)).endpoint == Some(sockets[name]))
  }

  lemma StatusMeans(s: State, kind: Kind, cb: Cb)
    ensures exists processes, sockets ::
              TellsStatus(s, Conclude(s, cb, OnGetStatus(s.books, kind)), kind, cb, processes, sockets)
  {
    var payload := Tabulated(s.books.Of(kind));
    SaysTells(s, cb, s.books, Response(OK, "", payload));
    OfKindFinds(s.books.stored, kind);
    assert TellsStatus(s, Conclude(s, cb, OnGetStatus(s.books, kind)), kind, cb, payload.processes, payload.sockets);
  }

  // ------------------------------------------------------------- commands

  ghost predicate Does(s: State, t: State, op: Op, kind: Kind, args: Args, cb: Cb, w: World) {
    match op
    case Add => Adds(s, t, kind, args, cb, w)
    case Stop => Stops(s, t, kind, args, cb, w)
    case Status => exists processes, sockets :: TellsStatus(s, t, kind, cb, processes, sockets)
  }

  lemma ActMeans(s: State, op: Op, kind: Kind, args: Args, cb: Cb, w: World)
    requires Sound(s.books)
    ensures Does(s, Conclude(s, cb, Act(s.books, op, kind, args, cb, w)), op, kind, args, cb, w)
  {
    match op
    case Add => AddMeans(s, kind, args, cb, w);
    case Stop => StopMeans(s, kind, args, cb, w);
    case Status => StatusMeans(s, kind, cb);
  }

  /** A client has come in with this command and has not been told anything. */
  function Heard(s: State, command: Replies.Command): State {
    s.(desk := s.desk.(asked := s.desk.asked + [command]))
  }

  /** A command for one kind does what it says for that kind, and its answer is the client's. */
  lemma SingleMeans(s: State, op: Op, kind: Kind, args: Args, w: World)
    requires Enabled(s, Command(Single(op, kind), args, w)) && Sound(s.books)
    ensures Does(Heard(s, Single(op, kind)), Step(s, Command(Single(op, kind), args, w)), op, kind, args,
                 Direct(|s.desk.asked|), w)
  {
    ActMeans(Heard(s, Single(op, kind)), op, kind, args, Direct(|s.desk.asked|), w);
  }

  /** A combined command does nothing yet: a join is made, and the half for monitors and then the
      one for scrapers are posted behind all others. */
  lemma CombinedMeans(s: State, op: Op, args: Args, w: World)
    requires Enabled(s, Command(Combined(op), args, w))
    ensures var t, token := Step(s, Command(Combined(op), args, w)), |s.desk.asked|;
            && t.books == s.books && t.checks == s.checks && t.status == s.status
            && t.posted == s.posted + [Posted(op, args, Half(token, Monitor))]
                                    + [Posted(op, args, Half(token, Scraper))]
            && t.desk.asked == s.desk.asked + [Combined(op)]
            && t.desk.joins.Keys == s.desk.joins.Keys + {token}
            && t.desk.joins[token].op == op && !t.desk.joins[token].bothCompleted
            && (forall x :: x in s.desk.joins && x != token ==> t.desk.joins[x] == s.desk.joins[x])
            && t.desk.answers == s.desk.answers && t.desk.replies == s.desk.replies
  {
  }

  /** The oldest posted half does what a command for its kind does, and its answer goes to its join. */
  lemma PostedMeans(s: State, w: World)
    requires Enabled(s, PostedRuns(w)) && Sound(s.books) && s.posted[0].cb.Half?
    ensures var half := s.posted[0];
            Does(s.(posted := s.posted[1..]), Step(s, PostedRuns(w)), half.op, half.cb.kind, half.args, half.cb, w)
  {
    var half := s.posted[0];
    ActMeans(s.(posted := s.posted[1..]), half.op, half.cb.kind, half.args, half.cb, w);
  }

  /** A ping, and a command that nobody handles. */
  lemma PlainMeans(s: State, args: Args, w: World)
    requires s.status.Running?
    ensures var t := Step(s, Command(Ping, args, w));
            t.books == s.books && Tells(Heard(s, Ping), t, Direct(|s.desk.asked|), Response(OK, "Pong", Nothing))
    ensures var t := Step(s, Command(Unregistered, args, w));
            && t.books == s.books
            && Tells(Heard(s, Unregistered), t, Direct(|s.desk.asked|), Response(UNRECOGNIZED_COMMAND, "", Nothing))
  {
    SaysTells(Heard(s, Ping), Direct(|s.desk.asked|), s.books, Response(OK, "Pong", Nothing));
    SaysTells(Heard(s, Unregistered), Direct(|s.desk.asked|), s.books, Response(UNRECOGNIZED_COMMAND, "", Nothing));
  }

  /** The timer belongs to an entry without a socket. */
  ghost predicate TimerGoes(b: Books, x: Timer) {
    exists k: Key :: b.Has(k) && b.At(k).endpoint == None && b.At(k).addTimer == Some(x)
  }

  lemma TerminatedWaits(b: Books)
    requires Sound(b)
    ensures OnlyCancels(b.waits, TerminateAll(b).waits, iset x | TimerGoes(b, x))
  {
    forall x
      ensures x in TimersReleased(b.stored) <==> TimerGoes(b, x)
    {
      if TimerGoes(b, x) {
        var k: Key :| b.Has(k) && b.At(k).endpoint == None && b.At(k).addTimer == Some(x);
        assert EntryOk(b, k);
        assert k in b.stored && b.stored[k].process.Some? && b.stored[k].addTimer.value == x;
      }
      if x in TimersReleased(b.stored) {
        var k: Key :| k in b.stored && b.stored[k].process.Some? && b.stored[k].endpoint.None?
          && b.stored[k].addTimer.Some? && b.stored[k].addTimer.value == x;
        assert b.Has(k) && b.At(k).endpoint == None && b.At(k).addTimer == Some(x);
      }
    }
  }

  /** Shutting down answers OK, leaves exactly the entries with a socket, without their processes,
      stops all of these, cancels the waits on the timers of the entries that go, and ends. */
  lemma ShutdownMeans(s: State, args: Args, w: World)
    requires Enabled(s, Command(Shutdown, args, w)) && Sound(s.books)
    ensures var b, t := s.books, Step(s, Command(Shutdown, args, w));
            && t.status == ShutDown && t.posted == s.posted && t.checks == s.checks
            && Answered(Heard(s, Shutdown).desk, t.desk, Direct(|s.desk.asked|), Response(OK, "", Nothing))
            && t.books.live == {} && NothingBegins(b, t.books.(live := b.live))
            && (forall k: Key :: t.books.Has(k) <==> b.Has(k) && b.At(k).endpoint != None)
            && (forall k: Key :: t.books.Has(k) ==> t.books.At(k) == b.At(k).(process := None))
            && OnlyCancels(b.waits, t.books.waits, iset x | TimerGoes(b, x))
  {
    TerminatesEverything(s.books);
    SaysTells(Heard(s, Shutdown), Direct(|s.desk.asked|), TerminateAll(s.books), Response(OK, "", Nothing));
    TerminatedWaits(s.books);
  }
}
