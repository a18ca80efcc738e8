/** The monitor manager as an event loop: every callback is one atomic step, and everything
    that is still to be called back is part of the state. */
module Lifecycle {
  import opened Options
  import opened Messages
  import opened Replies

  type Pid = nat
  type Timer = nat

  /** A stored monitor or scraper. `serial` numbers the insertions into the two tables. */
  datatype Stored = Stored(
    className: string,
    process: Option<Pid>,
    endpoint: Option<string>,
    addTimer: Option<Timer>,
    isBeingAdded: bool,
    isBeingStopped: bool,
    confirmAdded: bool,
    serial: nat)

  datatype Key = Key(kind: Kind, name: string)

  /** The payload of a command as far as it is looked at. */
  datatype Args = NoPayload | NoName | NameNotString | Name(name: string)

  /** A posted half of a combined command. */
  datatype Posted = Posted(op: Op, args: Args, cb: Cb)

  datatype Phase = Waiting | Expired | Cancelled

  /** A continuation that is waiting for its completion. */
  datatype Wait =
    | AddWait(timer: Timer, key: Key, cb: Cb, phase: Phase)
    | StopWrite(key: Key, cb: Cb)
    | StopRead(key: Key, cb: Cb)

  /** A socket that is being looked at, with what follows when it proves to be alive. */
  datatype Check = Confirm(key: Key) | Emplace(key: Key, path: string)

  datatype Register = Registered | NotRegistered | QueryFails(what: string) | QueryThrows

  /** What a callback meets outside: the python executable (None: looking for it throws), the
      register of classes, whether a process can be spawned and a socket be connected to. */
  datatype World = World(python: Option<string>, register: Register, spawns: bool, connects: bool)

  /** What becomes of the callback that an operation was given: it is invoked, it moves into a
      continuation, it is let go, or an exception ends the run. */
  datatype Verdict = Says(response: Response) | Waits | Drops | Throws

  /** The tables of monitors and of scrapers, told apart by the kind in the key; the
      continuations; the processes outside; and, from `owner` on, a record of the run. */
  datatype Books = Books(
    stored: map<Key, Stored>,
    waits: seq<Wait>,
    handlers: set<Pid>,  // the processes whose exit handler is still to run
    live: set<Pid>,
    owner: seq<Key>,  // for what each process was spawned
    armed: seq<Key>,  // for what each add timer was started
    born: seq<Key>,  // what each insertion inserted
    stopsSent: multiset<nat>)  // the entries, by serial, for which a STOP was initiated
  {
    predicate Has(k: Key) {
      k in stored
    }

    function At(k: Key): Stored
      requires Has(k)
    {
      stored[k]
    }

    function Put(k: Key, e: Stored): Books {
      this.(stored := stored[k := e])
    }

    /** Erasing an entry releases its timer, which cancels a wait on it. */
    function Erase(k: Key): Books
      requires Has(k)
    {
      this.(stored := stored - {k}, waits := Cancel(waits, TimerOf(At(k))))
    }

    /** The table of one kind. */
    function Of(kind: Kind): map<string, Stored> {
      OfKind(stored, kind)
    }

    predicate Runs(k: Key, p: Pid) {
      Has(k) && At(k).process == Some(p)
    }
  }

  function OfKind(stored: map<Key, Stored>, kind: Kind): map<string, Stored> {
    map k: Key | k in stored && k.kind == kind :: k.name := stored[k]
  }

  lemma OfKindFinds(stored: map<Key, Stored>, kind: Kind)
    ensures forall name :: name in OfKind(stored, kind) <==> Key(kind, name) in stored
    ensures forall name :: name in OfKind(stored, kind) ==> OfKind(stored, kind)[name] == stored[Key(kind, name)]
  {
    forall name
      ensures name in OfKind(stored, kind) <==> Key(kind, name) in stored
      ensures name in OfKind(stored, kind) ==> OfKind(stored, kind)[name] == stored[Key(kind, name)]
    {
      if Key(kind, name) in stored {
        assert Key(kind, name).name in OfKind(stored, kind);
      }
      if name in OfKind(stored, kind) {
        var k: Key :| k in stored && k.kind == kind && k.name == name;
        assert k == Key(kind, name);
      }
    }
  }

  function TimerOf(e: Stored): set<Timer> {
    if e.addTimer.Some? then {e.addTimer.value} else {}
  }

  function CancelOne(w: Wait, timers: set<Timer>): Wait {
    if w.AddWait? && w.phase.Waiting? && w.timer in timers then w.(phase := Cancelled) else w
  }

  /** Cancelling timers: what has expired already is not affected. */
  function Cancel(waits: seq<Wait>, timers: set<Timer>): seq<Wait> {
    seq(|waits|, i requires 0 <= i < |waits| => CancelOne(waits[i], timers))
  }

  function Without<T>(s: seq<T>, i: nat): seq<T>
    requires i < |s|
  {
    s[..i] + s[i + 1..]
  }

  function KindName(kind: Kind): string {
    if kind.Monitor? then "Monitor" else "Scraper"
  }

  function CouldntAdd(kind: Kind): nat {
    if kind.Monitor? then MM_COULDNT_ADD_MONITOR else MM_COULDNT_ADD_SCRAPER
  }

  function CouldntStop(kind: Kind): nat {
    if kind.Monitor? then MM_COULDNT_STOP_MONITOR else MM_COULDNT_STOP_SCRAPER
  }

  function NotInRegister(kind: Kind): nat {
    if kind.Monitor? then MONITOR_NOT_REGISTERED else SCRAPER_NOT_REGISTERED
  }

  const EXITED: string := "Process exited sooner than expected."
  const EXITED_EARLY: string := EXITED + " (WARNING: THIS CASE (1) SHOULD NOT HAVE HAPPENED -- NEED TO DEBUG!!!)"
  const NOT_RUNNING: string := EXITED + " (WARNING: THIS CASE (2) SHOULD NOT HAVE HAPPENED -- NEED TO DEBUG!!!)"
  const STILL_PROCESSED: string := " still being processed."
  const ALREADY_STARTED: string := " already started."
  const HAS_SOCKET: string := " already has a socket available."
  const NO_PYTHON: string := "Could not find a correct python version."
  const QUERY_FAILED: string := "Failed to query the database (is it up and running?)\n"
  const NOT_PRESENT: string := " not present in available sockets."
  const BEING_STOPPED: string := " is already being stopped."
  const STOP_NOT_SENT: string := "Failed to send the STOP command: "
  const MISSING_NAME: string := "Missing payload arg: \"name\"."

  /** The socket is gone; so is the entry when it has no process either. */
  function RemoveSocket(b: Books, k: Key): Books
    requires b.Has(k)
  {
    if b.At(k).process.None? then b.Erase(k) else b.Put(k, b.At(k).(endpoint := None))
  }

  /** The process is gone; so is the entry when it has no socket either. */
  function RemoveProcess(b: Books, k: Key): Books
    requires b.Has(k)
  {
    if b.At(k).endpoint.None? then b.Erase(k) else b.Put(k, b.At(k).(process := None))
  }

  // ------------------------------------------------------------- adding

  function OnAdd(b: Books, kind: Kind, args: Args, cb: Cb, w: World): (Books, Verdict) {
    match args
    case NoPayload => (b, Says(Failed(MISSING_PAYLOAD, "")))
    case NoName => (b, Says(Failed(MISSING_PAYLOAD_ARGS, MISSING_NAME)))
    case NameNotString => (b, Throws)
    case Name(name) => AddNamed(b, Key(kind, name), cb, w)
  }

  /** Why an existing entry is not added again. */
  function Refusal(b: Books, k: Key): Option<string> {
    if !b.Has(k) then None
    else if b.At(k).isBeingAdded then Some(KindName(k.kind) + STILL_PROCESSED)
    else if b.At(k).process.Some? then Some(KindName(k.kind) + ALREADY_STARTED)
    else if b.At(k).endpoint.Some? then Some(KindName(k.kind) + HAS_SOCKET)
    else None
  }

  function AddNamed(b: Books, k: Key, cb: Cb, w: World): (Books, Verdict) {
    var refusal := Refusal(b, k);
    if refusal.Some? then (b, Says(Failed(CouldntAdd(k.kind), refusal.value)))
    else if w.python.None? then (b, Throws)
    else if w.python.value == "" then (b, Says(Failed(CouldntAdd(k.kind), NO_PYTHON)))
    else
      match w.register
      case QueryThrows => (b, Throws)
      case QueryFails(what) => (b, Says(Failed(CouldntAdd(k.kind), QUERY_FAILED + what)))
      case NotRegistered => (b, Says(Failed(NotInRegister(k.kind), "")))
      case Registered => if w.spawns then (Spawn(b, k, cb), Waits) else (b, Throws)
  }

  /** Starts the process, stores it and starts its timer. An entry that is reused gives up the
      timer it had. */
  function Spawn(b: Books, k: Key, cb: Cb): Books {
    var pid, timer := |b.owner|, |b.armed|;
    var e := if b.Has(k) then b.At(k).(process := Some(pid), isBeingAdded := true, addTimer := Some(timer))
             else Stored(k.name, Some(pid), None, Some(timer), true, false, false, |b.born|);
    b.Put(k, e).(
      waits := (if b.Has(k) then Cancel(b.waits, TimerOf(b.At(k))) else b.waits) + [AddWait(timer, k, cb, Waiting)],
      handlers := b.handlers + {pid},
      live := b.live + {pid},
      owner := b.owner + [k],
      armed := b.armed + [k],
      born := if b.Has(k) then b.born else b.born + [k])
  }

  /** The continuation of an add, once its timer has expired or was cancelled. */
  function AddDone(b: Books, k: Key, cancelled: bool): (Books, Verdict) {
    if cancelled then
      if !b.Has(k) then (b, Says(Failed(CouldntAdd(k.kind), EXITED)))
      else
        var e := b.At(k).(isBeingAdded := false);
        if e.confirmAdded then (b.Put(k, e.(confirmAdded := false)), Says(Ok())) else (b.Put(k, e), Drops)
    else if !b.Has(k) then
      (b, Says(Failed(CouldntAdd(k.kind), EXITED_EARLY)))
    else if b.At(k).process.None? then (b, Throws)
    else if b.At(k).process.value in b.live then (b.Put(k, b.At(k).(isBeingAdded := false)), Says(Ok()))
    else (b, Says(Failed(CouldntAdd(k.kind), NOT_RUNNING)))
  }

  // ------------------------------------------------------------- status

  /** The two status tables: the classes with a process and those with a socket. */
  function Tabulated(table: map<string, Stored>): Payload {
    Tables(map name | name in table && table[name].process.Some? :: table[name].process.value,
           map name | name in table && table[name].endpoint.Some? :: table[name].endpoint.value)
  }

  function OnGetStatus(b: Books, kind: Kind): (Books, Verdict) {
    (b, Says(Response(OK, "", Tabulated(b.Of(kind)))))
  }

  // ------------------------------------------------------------- stopping

  function OnStop(b: Books, kind: Kind, args: Args, cb: Cb, w: World): (Books, Verdict) {
    match args
    case NoPayload => (b, Says(Failed(MISSING_PAYLOAD, "")))
    case NoName => (b, Says(Failed(MISSING_PAYLOAD_ARGS, MISSING_NAME)))
    case NameNotString => (b, Throws)
    case Name(name) => StopNamed(b, Key(kind, name), cb, w)
  }

  function StopNamed(b: Books, k: Key, cb: Cb, w: World): (Books, Verdict) {
    if !b.Has(k) || b.At(k).endpoint.None? then
      (b, Says(Failed(SOCKET_DOESNT_EXIST, KindName(k.kind) + " " + k.name + NOT_PRESENT)))
    else if b.At(k).isBeingStopped then
      (b, Says(Failed(CouldntStop(k.kind), KindName(k.kind) + " " + k.name + BEING_STOPPED)))
    else if !w.connects then (b.Put(k, b.At(k).(isBeingStopped := true)), Throws)
    else
      (b.Put(k, b.At(k).(isBeingStopped := true)).(
         waits := b.waits + [StopWrite(k, cb)],
         stopsSent := b.stopsSent + multiset{b.At(k).serial}),
       Waits)
  }

  /** The STOP command was written, or could not be. */
  function StopWritten(b: Books, k: Key, cb: Cb, failure: Option<string>): (Books, Verdict) {
    var after := if b.Has(k) then RemoveSocket(b, k) else b;
    match failure
    case None => (after.(waits := after.waits + [StopRead(k, cb)]), Waits)
    case Some(what) => (after, Says(Failed(CouldntStop(k.kind), STOP_NOT_SENT + what)))
  }

  // ------------------------------------------------------------- processes and shutting down

  /** The exit handler of a process; it only logs when it is handed an error. */
  function ProcessExit(b: Books, p: Pid, failed: bool): Books
    requires p < |b.owner|
  {
    var k, after := b.owner[p], b.(handlers := b.handlers - {p});
    if !failed && b.Has(k) then RemoveProcess(after, k) else after
  }

  /** What is left of a table: the entries with a socket, without their processes. */
  function Terminated<K>(table: map<K, Stored>): map<K, Stored> {
    map k | k in table && (table[k].process.None? || table[k].endpoint.Some?) :: table[k].(process := None)
  }

  function ProcessesOf<K>(table: map<K, Stored>): set<Pid> {
    set k | k in table && table[k].process.Some? :: table[k].process.value
  }

  /** The timers of the entries that are not left. */
  function TimersReleased<K>(table: map<K, Stored>): set<Timer> {
    set k | k in table && table[k].process.Some? && table[k].endpoint.None?
      && table[k].addTimer.Some? :: table[k].addTimer.value
  }

  function TerminateAll(b: Books): Books {
    b.(stored := Terminated(b.stored),
       waits := Cancel(b.waits, TimersReleased(b.stored)),
       live := b.live - ProcessesOf(b.stored))
  }

  // ------------------------------------------------------------- the event loop

  datatype Status = Running | ShutDown | Crashed

  datatype State = State(
    books: Books,
    posted: seq<Posted>,  // oldest first
    checks: seq<Check>,
    desk: Desk,
    status: Status)

  function Empty(names: ErrorNames): State {
    State(Books(map[], [], {}, {}, [], [], [], multiset{}), [], [], Desk([], map[], [], [], multiset{}, names), Running)
  }

  /** Carries out what an operation decided about the callback it was given. */
  function Conclude(s: State, cb: Cb, result: (Books, Verdict)): State {
    match result.1
    case Waits => s.(books := result.0)
    case Drops => s.(books := result.0, desk := Drop(s.desk, cb))
    case Throws => s.(books := result.0, status := Crashed)
    case Says(r) =>
      match Respond(s.desk, cb, r)
      case None => s.(books := result.0, status := Crashed)
      case Some(desk) => s.(books := result.0, desk := desk)
  }

  function Act(b: Books, op: Op, kind: Kind, args: Args, cb: Cb, w: World): (Books, Verdict) {
    match op
    case Add => OnAdd(b, kind, args, cb, w)
    case Status => OnGetStatus(b, kind)
    case Stop => OnStop(b, kind, args, cb, w)
  }

  /** Dispatches a command that was read from a client. */
  function Dispatch(s: State, command: Replies.Command, args: Args, w: World): State {
    var cb, asked := Direct(|s.desk.asked|), s.(desk := Ask(s.desk, command));
    match command
    case Unregistered => Conclude(asked, cb, (s.books, Says(Failed(UNRECOGNIZED_COMMAND, ""))))
    case Ping => Conclude(asked, cb, (s.books, Says(Response(OK, "Pong", Nothing))))
    case Shutdown => Conclude(asked, cb, (TerminateAll(s.books), Says(Ok()))).(status := ShutDown)
    case Single(op, kind) => Conclude(asked, cb, Act(s.books, op, kind, args, cb, w))
    case Combined(op) =>
      asked.(posted := s.posted
        + [Posted(op, args, Half(cb.token, Monitor)), Posted(op, args, Half(cb.token, Scraper))])
  }

  function KindOf(cb: Cb): Kind {
    if cb.Half? then cb.kind else Monitor
  }

  /** Runs the posted half that has waited longest. */
  function RunPosted(s: State, w: World): State
    requires s.posted != []
  {
    var half := s.posted[0];
    Conclude(s.(posted := s.posted[1..]), half.cb, Act(s.books, half.op, KindOf(half.cb), half.args, half.cb, w))
  }

  function WithoutWait(b: Books, i: nat): Books
    requires i < |b.waits|
  {
    b.(waits := Without(b.waits, i))
  }

  /** Runs a continuation. */
  function Continue(s: State, i: nat, result: (Books, Verdict)): State
    requires i < |s.books.waits|
  {
    Conclude(s, s.books.waits[i].cb, result)
  }

  function SocketSeen(s: State, k: Key, path: string): State {
    if !s.books.Has(k) then s.(checks := s.checks + [Emplace(k, path)])
    else
      var e := s.books.At(k);
      var after := s.(books := s.books.Put(k, e.(endpoint := Some(path))));
      if e.isBeingAdded then after.(checks := s.checks + [Confirm(k)]) else after
  }

  function SocketGone(s: State, k: Key): State {
    if s.books.Has(k) then s.(books := RemoveSocket(s.books, k)) else s
  }

  /** An add is confirmed, which cancels its wait. */
  function Confirmed(b: Books, k: Key): Books
    requires b.Has(k)
  {
    b.Put(k, b.At(k).(confirmAdded := true)).(waits := Cancel(b.waits, TimerOf(b.At(k))))
  }

  /** A class is stored that was found by its socket. */
  function Found(b: Books, k: Key, path: string): Books {
    b.Put(k, Stored(k.name, None, Some(path), None, false, false, false, |b.born|)).(born := b.born + [k])
  }

  /** A socket has proved to be alive. */
  function Verified(s: State, i: nat): State
    requires i < |s.checks|
  {
    var k, b, after := s.checks[i].key, s.books, s.(checks := Without(s.checks, i));
    match s.checks[i]
    case Confirm(_) =>
      if !b.Has(k) || b.At(k).addTimer.None? then s.(status := Crashed) else after.(books := Confirmed(b, k))
    case Emplace(_, path) => if b.Has(k) then after else after.(books := Found(b, k, path))
  }

  datatype Event =
    | Command(command: Replies.Command, args: Args, world: World)
    | PostedRuns(world: World)
    | TimerExpires(i: nat)
    | AddContinues(i: nat)
    | StopIsWritten(i: nat, failure: Option<string>)
    | StopIsAnswered(i: nat, response: Response)
    | SocketCreated(key: Key, path: string)
    | SocketDeleted(key: Key)
    | SocketVerified(i: nat)
    | ProcessDies(pid: Pid)
    | ProcessExits(pid: Pid, failed: bool)

  /** Something happens to a timer, a socket or a process; no callback is invoked. */
  predicate HappensOutside(e: Event) {
    || e.TimerExpires? || e.SocketCreated? || e.SocketDeleted? || e.SocketVerified?
    || e.ProcessDies? || e.ProcessExits?
  }

  /** The events that can happen in a state. */
  predicate Enabled(s: State, e: Event) {
    var waits := s.books.waits;
    && s.status.Running?
    && match e
       case PostedRuns(_) => s.posted != []
       case TimerExpires(i) => i < |waits| && waits[i].AddWait? && waits[i].phase.Waiting?
       case AddContinues(i) => i < |waits| && waits[i].AddWait? && !waits[i].phase.Waiting?
       case StopIsWritten(i, _) => i < |waits| && waits[i].StopWrite?
       case StopIsAnswered(i, _) => i < |waits| && waits[i].StopRead?
       case SocketVerified(i) => i < |s.checks|
       case ProcessDies(p) => p in s.books.live
       case ProcessExits(p, failed) => p < |s.books.owner| && p in s.books.handlers && (failed || p !in s.books.live)
       case _ => true
  }

  /** One turn of the event loop. */
  function Step(s: State, e: Event): State
    requires Enabled(s, e)
  {
    var b, waits := s.books, s.books.waits;
    match e
    case Command(command, args, w) => Dispatch(s, command, args, w)
    case PostedRuns(w) => RunPosted(s, w)
    case TimerExpires(i) => s.(books := b.(waits := waits[i := waits[i].(phase := Expired)]))
    case AddContinues(i) => Continue(s, i, AddDone(WithoutWait(b, i), waits[i].key, waits[i].phase.Cancelled?))
    case StopIsWritten(i, failure) => Continue(s, i, StopWritten(WithoutWait(b, i), waits[i].key, waits[i].cb, failure))
    case StopIsAnswered(i, r) => Continue(s, i, (WithoutWait(b, i), Says(r)))
    case SocketCreated(k, path) => SocketSeen(s, k, path)
    case SocketDeleted(k) => SocketGone(s, k)
    case SocketVerified(i) => Verified(s, i)
    case ProcessDies(p) => s.(books := b.(live := b.live - {p}))
    case ProcessExits(p, failed) => s.(books := ProcessExit(b, p, failed))
  }

  /** A run from the start; events that cannot happen are passed over. */
  function Run(names: ErrorNames, events: seq<Event>): State {
    if events == [] then Empty(names)
    else
      var n := |events| - 1;
      var s := Run(names, events[..n]);
      if Enabled(s, events[n]) then Step(s, events[n]) else s
  }

  /** The states that some run leads to. */
  ghost predicate Reachable(s: State) {
    exists names: ErrorNames, events: seq<Event> :: s == Run(names, events)
  }
}
