/** The monitor manager as an object that its callbacks change in place. Every method is proved
    to do what the event loop of module Lifecycle does, so that the theorems about its runs are
    theorems about this object and its two tables. */
module MonitorManagerObject {
  import opened Options
  import opened Messages
  import opened Replies
  import opened Lifecycle
  import opened LifecycleEffects
  import opened LifecycleSound
  import opened SocketNames
  import opened StoredObjects
  import opened Termination
  import opened EventMask

  /** The effect of an event in the socket directory. */
  function SocketEvent(s: State, socketFullPath: string, name: string, mask: bv32): State {
    var k := KeyOf(if name == "" then FileName(socketFullPath) else name);
    if k.None? then s
    else if mask == IN_CREATE then SocketSeen(s, k.value, socketFullPath)
    else if mask == IN_DELETE then SocketGone(s, k.value)
    else s
  }

  /** A socket name is ours exactly if it is the kind, a dot and a class name without one; creating
      such a file is that event for its class, deleting it is the other, and whatever else happens
      to it, or to another file, is passed over. */
  lemma SocketEventMeans(s: State, socketFullPath: string, name: string, mask: bv32, className: string)
    requires s.status.Running?
    ensures var socketName := if name == "" then FileName(socketFullPath) else name;
            var t := SocketEvent(s, socketFullPath, name, mask);
            && (socketName == "Monitor." + className && '.' !in className ==>
                  && (mask == IN_CREATE ==> t == Step(s, SocketCreated(Key(Monitor, className), socketFullPath)))
                  && (mask == IN_DELETE ==> t == Step(s, SocketDeleted(Key(Monitor, className)))))
            && (socketName == "Scraper." + className && '.' !in className ==>
                  && (mask == IN_CREATE ==> t == Step(s, SocketCreated(Key(Scraper, className), socketFullPath)))
                  && (mask == IN_DELETE ==> t == Step(s, SocketDeleted(Key(Scraper, className)))))
            && (mask != IN_CREATE && mask != IN_DELETE ==> t == s)
  {
    var socketName := if name == "" then FileName(socketFullPath) else name;
    assert KindName(Monitor) + "." == "Monitor." && KindName(Scraper) + "." == "Scraper.";
    KeyOfExactly(socketName, Key(Monitor, className));
    KeyOfExactly(socketName, Key(Scraper, className));
  }

  /** What changes anything is the creation or deletion of such a file. */
  lemma OnlyOurNames(s: State, socketFullPath: string, name: string, mask: bv32) returns (k: Key)
    requires SocketEvent(s, socketFullPath, name, mask) != s
    ensures (if name == "" then FileName(socketFullPath) else name)
            == (if k.kind == Monitor then "Monitor." else "Scraper.") + k.name
    ensures '.' !in k.name && (mask == IN_CREATE || mask == IN_DELETE)
  {
    k := KeyOf(if name == "" then FileName(socketFullPath) else name).value;
    assert KindName(Monitor) + "." == "Monitor." && KindName(Scraper) + "." == "Scraper.";
    KeyOfExactly(if name == "" then FileName(socketFullPath) else name, k);
  }

  /** How a callback is concluded does not depend on the books before. */
  lemma ConcludeOverwrites(s: State, b: Books, cb: Cb, result: (Books, Verdict))
    ensures Conclude(s.(books := b), cb, result) == Conclude(s, cb, result)
  {
  }

  lemma CancelNothing(waits: seq<Wait>)
    ensures Cancel(waits, {}) == waits
  {
  }

  lemma OwnNames(b: Books)
    requires Sound(b)
    ensures forall k: Key :: k in b.stored ==> b.stored[k].className == k.name
  {
    forall k: Key | k in b.stored
      ensures b.stored[k].className == k.name
    {
      assert b.Has(k) && EntryOk(b, k);
    }
  }

  class MonitorManager {
    const tables: StoredTables
    var posted: seq<Posted>
    var waits: seq<Wait>
    var checks: seq<Check>
    var desk: Desk
    var handlers: set<Pid>
    var live: set<Pid>
    var owner: seq<Key>
    var armed: seq<Key>
    var born: seq<Key>
    var stopsSent: multiset<nat>
    var status: Status

    constructor (names: ErrorNames)
      ensures tables.Linked() && fresh(tables) && tables.repr == {} && Machine() == Empty(names)
    {
      tables := new StoredTables();
      posted, waits, checks := [], [], [];
      desk := Desk([], map[], [], [], multiset{}, names);
      handlers, live, owner, armed, born, stopsSent, status := {}, {}, [], [], [], multiset{}, Running;
    }

    ghost function TheBooks(): Books
      reads this, tables
    {
      Books(tables.stored, waits, handlers, live, owner, armed, born, stopsSent)
    }

    /** The state of the event loop that the fields and the tables represent. */
    ghost function Machine(): State
      reads this, tables
    {
      State(TheBooks(), posted, checks, desk, status)
    }

    // ------------------------------------------------------------- the tables

    method RemoveSocketOf(k: Key)
      requires tables.Linked() && k in tables.stored
      modifies this`waits, tables, tables.repr
      ensures tables.Linked() && tables.repr == old(tables.repr)
      ensures TheBooks() == RemoveSocket(old(TheBooks()), k)
    {
      var released := tables.RemoveStoredSocket(k);
      CancelNothing(waits);
      waits := Cancel(waits, released);
    }

    method RemoveProcessOf(k: Key)
      requires tables.Linked() && k in tables.stored
      modifies this`waits, tables, tables.repr
      ensures tables.Linked() && tables.repr == old(tables.repr)
      ensures TheBooks() == RemoveProcess(old(TheBooks()), k)
    {
      var released := tables.RemoveStoredProcess(k);
      CancelNothing(waits);
      waits := Cancel(waits, released);
    }

    // ------------------------------------------------------------- replies

    /** Carries out what an operation has decided about its callback; an exception, also one out of
        the callback, ends the run. */
    method Settle(cb: Cb, verdict: Verdict)
      modifies this`desk, this`status
      ensures Machine() == Conclude(old(Machine()), cb, (old(TheBooks()), verdict))
    {
      match verdict
      case Waits =>
      case Drops => desk := Drop(desk, cb);
      case Throws => status := Crashed;
      case Says(r) =>
        match Respond(desk, cb, r)
        case None => status := Crashed;
        case Some(after) => desk := after;
    }

    /** The same at the end of a callback that began in the state `start` and changed the books only. */
    method Finish(cb: Cb, verdict: Verdict, ghost start: State)
      requires Machine() == start.(books := TheBooks())
      modifies this`desk, this`status
      ensures Machine() == Conclude(start, cb, (old(TheBooks()), verdict))
    {
      ConcludeOverwrites(start, TheBooks(), cb, (TheBooks(), verdict));
      Settle(cb, verdict);
    }

    // ------------------------------------------------------------- adding

    method OnAdd(kind: Kind, args: Args, cb: Cb, w: World) returns (verdict: Verdict)
      requires tables.Linked()
      modifies this`waits, this`handlers, this`live, this`owner, this`armed, this`born, this`stopsSent, tables,
               tables.repr
      ensures tables.Linked() && fresh(tables.repr - old(tables.repr))
      ensures (TheBooks(), verdict) == Lifecycle.OnAdd(old(TheBooks()), kind, args, cb, w)
    {
      match args
      case NoPayload => verdict := Says(Failed(MISSING_PAYLOAD, ""));
      case NoName => verdict := Says(Failed(MISSING_PAYLOAD_ARGS, MISSING_NAME));
      case NameNotString => verdict := Throws;
      case Name(className) => verdict := AddClass(Key(kind, className), cb, w);
    }

    method AddClass(k: Key, cb: Cb, w: World) returns (verdict: Verdict)
      requires tables.Linked()
      modifies this`waits, this`handlers, this`live, this`owner, this`armed, this`born, this`stopsSent, tables,
               tables.repr
      ensures tables.Linked() && fresh(tables.repr - old(tables.repr))
      ensures (TheBooks(), verdict) == AddNamed(old(TheBooks()), k, cb, w)
    {
      var it := tables.Look(k);
      if it.Some? {
        if it.value.isBeingAdded {
          return Says(Failed(CouldntAdd(k.kind), KindName(k.kind) + STILL_PROCESSED));
        }
        if it.value.process.Some? {
          return Says(Failed(CouldntAdd(k.kind), KindName(k.kind) + ALREADY_STARTED));
        }
        if it.value.endpoint.Some? {
          return Says(Failed(CouldntAdd(k.kind), KindName(k.kind) + HAS_SOCKET));
        }
      }
      if w.python.None? {
        return Throws;
      }
      if w.python.value == "" {
        return Says(Failed(CouldntAdd(k.kind), NO_PYTHON));
      }
      match w.register
      case QueryThrows => verdict := Throws;
      case QueryFails(what) => verdict := Says(Failed(CouldntAdd(k.kind), QUERY_FAILED + what));
      case NotRegistered => verdict := Says(Failed(NotInRegister(k.kind), ""));
      case Registered =>
        if w.spawns {
          Start(k, cb);
          verdict := Waits;
        } else {
          verdict := Throws;
        }
    }

    /** Spawns the process, stores it in the entry or in a new one, and starts the timer. */
    method Start(k: Key, cb: Cb)
      requires tables.Linked()
      modifies this`waits, this`handlers, this`live, this`owner, this`armed, this`born, tables, tables.repr
      ensures tables.Linked() && fresh(tables.repr - old(tables.repr))
      ensures TheBooks() == Spawn(old(TheBooks()), k, cb)
    {
      var pid, delayTimer := |owner|, |armed|;
      var it := tables.Look(k);
      if it.Some? {
        tables.Change(k, it.value.(process := Some(pid), isBeingAdded := true, addTimer := Some(delayTimer)));
      } else {
        tables.Store(k, Stored(k.name, Some(pid), None, Some(delayTimer), true, false, false, |born|));
      }
      Await(k, cb, if it.Some? then TimerOf(it.value) else {}, it.None?);
    }

    /** The process runs and its timer too; a timer that the entry had before is cancelled. */
    method Await(k: Key, cb: Cb, released: set<Timer>, isNew: bool)
      modifies this`waits, this`handlers, this`live, this`owner, this`armed, this`born
      ensures waits == Cancel(old(waits), released) + [AddWait(|old(armed)|, k, cb, Waiting)]
      ensures handlers == old(handlers) + {|old(owner)|} && live == old(live) + {|old(owner)|}
      ensures owner == old(owner) + [k] && armed == old(armed) + [k]
              && born == if isNew then old(born) + [k] else old(born)
    {
      waits := Cancel(waits, released) + [AddWait(|armed|, k, cb, Waiting)];
      handlers, live := handlers + {|owner|}, live + {|owner|};
      owner, armed := owner + [k], armed + [k];
      if isNew {
        born := born + [k];
      }
    }

    /** A continuation leaves the pending ones. */
    method TakeWait(i: nat) returns (wait: Wait)
      requires i < |waits|
      modifies this`waits
      ensures wait == old(waits)[i] && waits == Without(old(waits), i)
    {
      wait := waits[i];
      waits := Without(waits, i);
    }

    method AddDecides(k: Key, cancelled: bool) returns (verdict: Verdict)
      requires tables.Linked()
      modifies tables, tables.repr
      ensures tables.Linked() && fresh(tables.repr - old(tables.repr))
      ensures (TheBooks(), verdict) == AddDone(old(TheBooks()), k, cancelled)
    {
      if cancelled {
        verdict := AddCancelled(k);
      } else {
        verdict := AddExpired(k);
      }
    }

    /** The continuation of an add. */
    method AddContinuation(i: nat)
      requires i < |waits| && waits[i].AddWait?
      requires tables.Linked()
      modifies this`waits, this`desk, this`status, tables, tables.repr
      ensures tables.Linked() && fresh(tables.repr - old(tables.repr))
      ensures Machine() == Continue(old(Machine()), i,
                                    AddDone(WithoutWait(old(TheBooks()), i), old(waits[i]).key,
                                            old(waits[i]).phase.Cancelled?))
      ensures ContinuesAdd(old(Machine()), Machine(), old(waits[i]).key, old(waits[i]).cb,
                           old(waits[i]).phase == Cancelled)
    {
      AddDoneMeans(Machine(), i);
      var wait := TakeWait(i);
      var verdict := AddDecides(wait.key, wait.phase.Cancelled?);
      Finish(wait.cb, verdict, old(Machine()));
    }

    method AddCancelled(k: Key) returns (verdict: Verdict)
      requires tables.Linked()
      modifies tables, tables.repr
      ensures tables.Linked() && fresh(tables.repr - old(tables.repr))
      ensures (TheBooks(), verdict) == AddDone(old(TheBooks()), k, true)
    {
      var it := tables.Look(k);
      if it.None? {
        return Says(Failed(CouldntAdd(k.kind), EXITED));
      }
      if it.value.confirmAdded {
        tables.Change(k, it.value.(isBeingAdded := false, confirmAdded := false));
        return Says(Ok());
      }
      tables.Change(k, it.value.(isBeingAdded := false));
      return Drops;
    }

    method AddExpired(k: Key) returns (verdict: Verdict)
      requires tables.Linked()
      modifies tables, tables.repr
      ensures tables.Linked() && fresh(tables.repr - old(tables.repr))
      ensures (TheBooks(), verdict) == AddDone(old(TheBooks()), k, false)
    {
      var it := tables.Look(k);
      if it.None? {
        return Says(Failed(CouldntAdd(k.kind), EXITED_EARLY));
      }
      if it.value.process.None? {
        return Throws;
      }
      if it.value.process.value in live {
        tables.Change(k, it.value.(isBeingAdded := false));
        return Says(Ok());
      }
      return Says(Failed(CouldntAdd(k.kind), NOT_RUNNING));
    }

    // ------------------------------------------------------------- status

    method OnGetStatus(kind: Kind) returns (verdict: Verdict)
      requires tables.Linked() && Sound(TheBooks())
      ensures (TheBooks(), verdict) == Lifecycle.OnGetStatus(TheBooks(), kind)
    {
      OwnNames(TheBooks());
      var payload := tables.Tabulate(kind);
      verdict := Says(Response(OK, "", payload));
    }

    // ------------------------------------------------------------- stopping

    method OnStop(kind: Kind, args: Args, cb: Cb, w: World) returns (verdict: Verdict)
      requires tables.Linked()
      modifies this`waits, this`handlers, this`live, this`owner, this`armed, this`born, this`stopsSent, tables,
               tables.repr
      ensures tables.Linked() && fresh(tables.repr - old(tables.repr))
      ensures (TheBooks(), verdict) == Lifecycle.OnStop(old(TheBooks()), kind, args, cb, w)
    {
      match args
      case NoPayload => verdict := Says(Failed(MISSING_PAYLOAD, ""));
      case NoName => verdict := Says(Failed(MISSING_PAYLOAD_ARGS, MISSING_NAME));
      case NameNotString => verdict := Throws;
      case Name(className) => verdict := StopClass(Key(kind, className), cb, w);
    }

    method StopClass(k: Key, cb: Cb, w: World) returns (verdict: Verdict)
      requires tables.Linked()
      modifies this`waits, this`handlers, this`live, this`owner, this`armed, this`born, this`stopsSent, tables,
               tables.repr
      ensures tables.Linked() && fresh(tables.repr - old(tables.repr))
      ensures (TheBooks(), verdict) == StopNamed(old(TheBooks()), k, cb, w)
    {
      var it := tables.Look(k);
      if it.None? || it.value.endpoint.None? {
        return Says(Failed(SOCKET_DOESNT_EXIST, KindName(k.kind) + " " + k.name + NOT_PRESENT));
      }
      if it.value.isBeingStopped {
        return Says(Failed(CouldntStop(k.kind), KindName(k.kind) + " " + k.name + BEING_STOPPED));
      }
      tables.Change(k, it.value.(isBeingStopped := true));
      if !w.connects {
        return Throws;
      }
      waits, stopsSent := waits + [StopWrite(k, cb)], stopsSent + multiset{it.value.serial};
      return Waits;
    }

    /** The continuation of a stop, once the command is written or could not be. */
    method StopContinuation(i: nat, failure: Option<string>)
      requires i < |waits| && waits[i].StopWrite?
      requires tables.Linked()
      modifies this`waits, this`desk, this`status, tables, tables.repr
      ensures tables.Linked() && fresh(tables.repr - old(tables.repr))
      ensures Machine() == Continue(old(Machine()), i,
                                    StopWritten(WithoutWait(old(TheBooks()), i), old(waits[i]).key, old(waits[i]).cb,
                                                failure))
      ensures WritesStop(old(Machine()), Machine(), old(waits[i]).key, old(waits[i]).cb, i, failure)
    {
      StopWrittenMeans(Machine(), i, failure);
      var wait := TakeWait(i);
      assert TheBooks() == WithoutWait(old(TheBooks()), i);
      var verdict := StopSent(wait.key, wait.cb, failure);
      Finish(wait.cb, verdict, old(Machine()));
    }

    method StopSent(k: Key, cb: Cb, failure: Option<string>) returns (verdict: Verdict)
      requires tables.Linked()
      modifies this`waits, tables, tables.repr
      ensures tables.Linked() && fresh(tables.repr - old(tables.repr))
      ensures (TheBooks(), verdict) == StopWritten(old(TheBooks()), k, cb, failure)
    {
      SocketWasDeleted(k);
      match failure
      case None =>
        waits := waits + [StopRead(k, cb)];
        verdict := Waits;
      case Some(what) => verdict := Says(Failed(CouldntStop(k.kind), STOP_NOT_SENT + what));
    }

    method StopResponse(i: nat, r: Response)
      requires i < |waits| && waits[i].StopRead?
      modifies this
      ensures Machine() == Continue(old(Machine()), i, (WithoutWait(old(TheBooks()), i), Says(r)))
    {
      var cb := waits[i].cb;
      waits := Without(waits, i);
      Settle(cb, Says(r));
    }

    // ------------------------------------------------------------- sockets and processes

    /** A socket file was created or deleted; names that are not ours are passed over, and so
        is every other kind of event. */
    method CheckSocketAndUpdateList(socketFullPath: string, name: string, mask: bv32)
      requires tables.Linked()
      modifies this, tables, tables.repr
      ensures tables.Linked() && fresh(tables.repr - old(tables.repr))
      ensures Machine() == SocketEvent(old(Machine()), socketFullPath, name, mask)
    {
      var socketName := if name == "" then FileName(socketFullPath) else name;
      var dotIndex := LastIndexOf(socketName, '.');
      if dotIndex.None? {
        return;
      }
      var socketPrefix := socketName[..dotIndex.value];
      var kind;
      if socketPrefix == "Monitor" {
        kind := Monitor;
      } else if socketPrefix == "Scraper" {
        kind := Scraper;
      } else {
        return;
      }
      var k := Key(kind, socketName[dotIndex.value + 1..]);
      if mask == IN_CREATE {
        SocketWasCreated(k, socketFullPath);
      } else if mask == IN_DELETE {
        SocketWasDeleted(k);
      }
    }

    method SocketWasCreated(k: Key, socketFullPath: string)
      requires tables.Linked()
      modifies this`checks, tables, tables.repr
      ensures tables.Linked() && fresh(tables.repr - old(tables.repr))
      ensures Machine() == SocketSeen(old(Machine()), k, socketFullPath)
    {
      var it := tables.Look(k);
      if it.Some? {
        tables.Change(k, it.value.(endpoint := Some(socketFullPath)));
        if it.value.isBeingAdded {
          checks := checks + [Confirm(k)];
        }
      } else {
        checks := checks + [Emplace(k, socketFullPath)];
      }
    }

    method SocketWasDeleted(k: Key)
      requires tables.Linked()
      modifies this`waits, tables, tables.repr
      ensures tables.Linked() && fresh(tables.repr - old(tables.repr))
      ensures TheBooks() == if old(TheBooks()).Has(k) then RemoveSocket(old(TheBooks()), k) else old(TheBooks())
    {
      var it := tables.Look(k);
      if it.Some? {
        RemoveSocketOf(k);
      }
    }

    /** What follows when a socket has proved to be alive. */
    method SocketIsAlive(i: nat)
      requires i < |checks|
      requires tables.Linked()
      modifies this, tables, tables.repr
      ensures tables.Linked() && fresh(tables.repr - old(tables.repr))
      ensures Machine() == Verified(old(Machine()), i)
    {
      if checks[i].Confirm? {
        ConfirmIsAlive(i);
      } else {
        EmplaceIsAlive(i);
      }
    }

    method ConfirmIsAlive(i: nat)
      requires tables.Linked() && i < |checks| && checks[i].Confirm?
      modifies this`checks, this`waits, this`status, tables, tables.repr
      ensures tables.Linked() && fresh(tables.repr - old(tables.repr))
      ensures Machine() == Verified(old(Machine()), i)
    {
      var confirmed := ConfirmAdded(checks[i].key);
      if confirmed {
        checks := Without(checks, i);
      } else {
        status := Crashed;
      }
    }

    method EmplaceIsAlive(i: nat)
      requires tables.Linked() && i < |checks| && checks[i].Emplace?
      modifies this`checks, this`born, tables, tables.repr
      ensures tables.Linked() && fresh(tables.repr - old(tables.repr))
      ensures Machine() == Verified(old(Machine()), i)
    {
      var check := checks[i];
      checks := Without(checks, i);
      EmplaceFound(check.key, check.path);
    }

    /** Notes that an add is confirmed and cancels its wait, if there is one to cancel. */
    method ConfirmAdded(k: Key) returns (confirmed: bool)
      requires tables.Linked()
      modifies this`waits, tables, tables.repr
      ensures tables.Linked() && fresh(tables.repr - old(tables.repr))
      ensures confirmed == (k in old(tables.stored) && old(tables.stored)[k].addTimer.Some?)
      ensures TheBooks() == if confirmed then Confirmed(old(TheBooks()), k) else old(TheBooks())
    {
      var it := tables.Look(k);
      confirmed := it.Some? && it.value.addTimer.Some?;
      if confirmed {
        tables.Change(k, it.value.(confirmAdded := true));
        waits := Cancel(waits, TimerOf(it.value));
      }
    }

    /** Stores a class that was found by its socket, unless it is stored by now. */
    method EmplaceFound(k: Key, socketFullPath: string)
      requires tables.Linked()
      modifies this`born, tables, tables.repr
      ensures tables.Linked() && fresh(tables.repr - old(tables.repr))
      ensures TheBooks() == if old(TheBooks()).Has(k) then old(TheBooks())
              else Found(old(TheBooks()), k, socketFullPath)
    {
      var it := tables.Look(k);
      if it.None? {
        tables.Store(k, Stored(k.name, None, Some(socketFullPath), None, false, false, false, |born|));
        born := born + [k];
      }
    }

    method OnProcessExit(p: Pid, failed: bool)
      requires tables.Linked() && p < |owner|
      modifies this`waits, this`handlers, tables, tables.repr
      ensures tables.Linked() && fresh(tables.repr - old(tables.repr))
      ensures TheBooks() == ProcessExit(old(TheBooks()), p, failed)
    {
      handlers := handlers - {p};
      if !failed {
        var it := tables.Look(owner[p]);
        if it.Some? {
          RemoveProcessOf(owner[p]);
        }
      }
    }

    // ------------------------------------------------------------- shutting down

    /** Erases objects while it walks through a table, and does not always move on: it ends because
        each round leaves fewer objects ahead or the same ones with fewer processes. */
    method TerminateProcesses(kind: Kind) returns (ghost walked: seq<Key>)
      requires tables.Linked()
      modifies this`waits, this`live, tables, tables.repr
      ensures tables.Linked() && fresh(tables.repr - old(tables.repr))
      ensures Distinct(walked) && forall k: Key :: k in walked <==> k in old(tables.stored) && k.kind == kind
      ensures TheBooks() == TerminateEach(old(TheBooks()), walked)
    {
      var names := tables.Iterate(kind);
      var ahead := KeysOf(kind, names);
      KeysAreDistinct(kind, names);
      walked := ahead;
      while ahead != []
        invariant tables.Linked() && tables.repr == old(tables.repr) && AllStored(ahead)
        invariant TerminateEach(TheBooks(), ahead) == TerminateEach(old(TheBooks()), walked)
        decreases |ahead|, RunsFirst(ahead)
      {
        ahead := TerminateNext(ahead);
      }
    }

    ghost predicate AllStored(keys: seq<Key>)
      reads tables
    {
      Distinct(keys) && forall k: Key :: k in keys ==> k in tables.stored
    }

    ghost predicate RunsFirst(keys: seq<Key>)
      reads tables
    {
      keys != [] && keys[0] in tables.stored && tables.stored[keys[0]].process.Some?
    }

    method TerminateNext(ahead: seq<Key>) returns (rest: seq<Key>)
      requires tables.Linked() && ahead != [] && AllStored(ahead)
      modifies this`waits, this`live, tables, tables.repr
      ensures tables.Linked() && tables.repr == old(tables.repr) && AllStored(rest)
      ensures TerminateEach(TheBooks(), rest) == TerminateEach(old(TheBooks()), ahead)
      ensures rest == ahead[1..] || (rest == ahead && old(RunsFirst(ahead)) && !RunsFirst(ahead))
    {
      RoundAdvances(TheBooks(), ahead);
      var stays := Terminate(ahead[0]);
      rest := if stays then ahead else ahead[1..];
    }

    /** One round: it moves on when the entry had no process, or is erased. */
    method Terminate(k: Key) returns (stays: bool)
      requires tables.Linked() && k in tables.stored
      modifies this`waits, this`live, tables, tables.repr
      ensures tables.Linked() && tables.repr == old(tables.repr)
      ensures TheBooks() == TerminateOne(old(TheBooks()), k)
      ensures stays <==> old(tables.stored)[k].process.Some? && k in tables.stored
      ensures forall j: Key :: j != k ==> (j in tables.stored <==> j in old(tables.stored))
      ensures k in tables.stored ==> tables.stored[k].process.None?
    {
      var it := tables.Look(k);
      stays := it.value.process.Some?;
      if stays {
        var process := it.value.process.value;
        stays := it.value.endpoint.Some?;
        if process in live {
          live := live - {process};
        }
        assert live == old(live) - {process};
        RemoveProcessOf(k);
      }
    }

    method TerminateBoth()
      requires tables.Linked()
      modifies this`waits, this`live, tables, tables.repr
      ensures tables.Linked() && fresh(tables.repr - old(tables.repr))
      ensures TheBooks() == TerminateAll(old(TheBooks()))
    {
      ghost var monitors := TerminateProcesses(Monitor);
      ghost var scrapers := TerminateProcesses(Scraper);
      InAnyOrder(old(TheBooks()), monitors, scrapers);
    }

    method Shutdown(cb: Cb)
      requires tables.Linked()
      modifies this, tables, tables.repr
      ensures tables.Linked() && fresh(tables.repr - old(tables.repr))
      ensures Machine() == Conclude(old(Machine()), cb,
                                    (TerminateAll(old(TheBooks())), Says(Ok()))).(status := ShutDown)
    {
      TerminateBoth();
      Finish(cb, Says(Ok()), old(Machine()));
      status := ShutDown;
    }

    // ------------------------------------------------------------- the event loop

    /** Dispatches a command to its callback. */
    method HandleCallback(command: Replies.Command, args: Args, w: World)
      requires Sound(TheBooks())
      requires tables.Linked()
      modifies this, tables, tables.repr
      ensures tables.Linked() && fresh(tables.repr - old(tables.repr))
      ensures Machine() == Dispatch(old(Machine()), command, args, w)
    {
      match command
      case Single(op, kind) =>
        var token := Register(command);
        Perform(op, kind, args, Direct(token), w);
      case Combined(op) =>
        var token := Register(command);
        PostHalves(op, args, token);
      case _ => HandleAtOnce(command, args, w);
    }

    /** The commands that touch no entry, or all of them. */
    method HandleAtOnce(command: Replies.Command, args: Args, w: World)
      requires !command.Single? && !command.Combined?
      requires tables.Linked()
      modifies this, tables, tables.repr
      ensures tables.Linked() && fresh(tables.repr - old(tables.repr))
      ensures Machine() == Dispatch(old(Machine()), command, args, w)
    {
      var token := Register(command);
      match command
      case Unregistered => Settle(Direct(token), Says(Failed(UNRECOGNIZED_COMMAND, "")));
      case Ping => Settle(Direct(token), Says(Response(OK, "Pong", Nothing)));
      case Shutdown => Shutdown(Direct(token));
    }

    method Register(command: Replies.Command) returns (token: Token)
      modifies this`desk
      ensures token == |old(desk).asked| && desk == Ask(old(desk), command)
    {
      token := |desk.asked|;
      desk := Ask(desk, command);
    }

    method PostHalves(op: Op, args: Args, token: Token)
      modifies this`posted
      ensures posted == old(posted) + [Posted(op, args, Half(token, Monitor)), Posted(op, args, Half(token, Scraper))]
    {
      posted := posted + [Posted(op, args, Half(token, Monitor))];
      posted := posted + [Posted(op, args, Half(token, Scraper))];
    }

    method Perform(op: Op, kind: Kind, args: Args, cb: Cb, w: World)
      requires Sound(TheBooks())
      requires tables.Linked()
      modifies this, tables, tables.repr
      ensures tables.Linked() && fresh(tables.repr - old(tables.repr))
      ensures Machine() == Conclude(old(Machine()), cb, Act(old(TheBooks()), op, kind, args, cb, w))
    {
      var verdict := Operate(op, kind, args, cb, w);
      Finish(cb, verdict, old(Machine()));
    }

    method Operate(op: Op, kind: Kind, args: Args, cb: Cb, w: World) returns (verdict: Verdict)
      requires Sound(TheBooks())
      requires tables.Linked()
      modifies this`waits, this`handlers, this`live, this`owner, this`armed, this`born, this`stopsSent, tables,
               tables.repr
      ensures tables.Linked() && fresh(tables.repr - old(tables.repr))
      ensures (TheBooks(), verdict) == Act(old(TheBooks()), op, kind, args, cb, w)
    {
      match op
      case Add => verdict := OnAdd(kind, args, cb, w);
      case Status => verdict := OnGetStatus(kind);
      case Stop => verdict := OnStop(kind, args, cb, w);
    }

    method RunOldestPosted(w: World)
      requires posted != [] && Sound(TheBooks())
      requires tables.Linked()
      modifies this, tables, tables.repr
      ensures tables.Linked() && fresh(tables.repr - old(tables.repr))
      ensures Machine() == RunPosted(old(Machine()), w)
    {
      var half := posted[0];
      posted := posted[1..];
      Perform(half.op, KindOf(half.cb), half.args, half.cb, w);
    }

    /** Whether an event can happen; that does not depend on what is stored. */
    predicate CanHappen(e: Event)
      reads this
    {
      Enabled(State(Books(map[], waits, handlers, live, owner, armed, born, stopsSent), posted, checks, desk, status),
              e)
    }

    /** The next event, if it can happen. */
    method TurnIfPossible(e: Event)
      requires tables.Linked() && (Enabled(Machine(), e) ==> Sound(TheBooks()))
      modifies this, tables, tables.repr
      ensures tables.Linked() && fresh(tables.repr - old(tables.repr))
      ensures Machine() == if Enabled(old(Machine()), e) then Step(old(Machine()), e) else old(Machine())
    {
      if CanHappen(e) {
        Turn(e);
      }
    }

    /** One turn of the event loop. */
    method Turn(e: Event)
      requires Enabled(Machine(), e) && Sound(TheBooks())
      requires tables.Linked()
      modifies this, tables, tables.repr
      ensures tables.Linked() && fresh(tables.repr - old(tables.repr))
      ensures Machine() == Step(old(Machine()), e)
    {
      match e
      case Command(command, args, w) => HandleCallback(command, args, w);
      case PostedRuns(w) => RunOldestPosted(w);
      case AddContinues(i) => AddContinuation(i);
      case StopIsWritten(i, failure) => StopContinuation(i, failure);
      case StopIsAnswered(i, r) => StopResponse(i, r);
      case _ => TurnOutside(e);
    }

    /** Something happened outside: to a timer, a socket or a process. */
    method TurnOutside(e: Event)
      requires Enabled(Machine(), e)
      requires HappensOutside(e)
      requires tables.Linked()
      modifies this, tables, tables.repr
      ensures tables.Linked() && fresh(tables.repr - old(tables.repr))
      ensures Machine() == Step(old(Machine()), e)
    {
      match e
      case TimerExpires(i) => waits := waits[i := waits[i].(phase := Expired)];
      case SocketCreated(k, path) => SocketWasCreated(k, path);
      case SocketDeleted(k) => SocketWasDeleted(k);
      case SocketVerified(i) => SocketIsAlive(i);
      case ProcessDies(p) => live := live - {p};
      case ProcessExits(p, failed) => OnProcessExit(p, failed);
    }
  }

  function KeysOf(kind: Kind, names: seq<string>): (keys: seq<Key>)
    ensures |keys| == |names| && forall i :: 0 <= i < |names| ==> keys[i] == Key(kind, names[i])
  {
    seq(|names|, i requires 0 <= i < |names| => Key(kind, names[i]))
  }

  lemma KeysAreDistinct(kind: Kind, names: seq<string>)
    requires Distinct(names)
    ensures Distinct(KeysOf(kind, names))
    ensures forall k: Key :: k in KeysOf(kind, names) <==> k.kind == kind && k.name in names
  {
    forall k: Key
      ensures k in KeysOf(kind, names) <==> k.kind == kind && k.name in names
    {
      if k.kind == kind && k.name in names {
        var i :| 0 <= i < |names| && names[i] == k.name;
        assert KeysOf(kind, names)[i] == k;
      }
    }
  }

  /** The event loop over a manager: it goes through exactly the runs of module Lifecycle. */
  method RunLoop(names: ErrorNames, events: seq<Event>) returns (manager: MonitorManager)
    ensures fresh(manager) && manager.tables.Linked() && manager.Machine() == Run(names, events)
  {
    manager := new MonitorManager(names);
    assert events[..0] == [];
    for i := 0 to |events|
      invariant fresh(manager) && fresh(manager.tables) && fresh(manager.tables.repr)
      invariant manager.tables.Linked() && manager.Machine() == Run(names, events[..i])
    {
      assert events[..i + 1][..i] == events[..i];
      if manager.status.Running? {
        EveryRunSound(names, events[..i]);
      }
      manager.TurnIfPossible(events[i]);
    }
    assert events[..|events|] == events;
  }
}
