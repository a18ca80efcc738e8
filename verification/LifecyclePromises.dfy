/** What a client may conclude from being told that its add succeeded. */
module LifecyclePromises {
  import opened Options
  import opened Messages
  import opened Replies
  import opened Lifecycle
  import opened LifecycleEffects
  import opened LifecycleLedger
  import opened LifecycleLosses
  import opened LifecycleSound
  import opened LifecycleStatus

  /** The kind that a callback of an add is about. */
  function KindAsked(d: Desk, cb: Cb): Kind {
    if cb.token < |d.asked| && d.asked[cb.token].Single? then d.asked[cb.token].kind else KindOf(cb)
  }

  /** This step stores a new class of the kind that was asked for, with a new process, and makes the
      callback wait for it. */
  ghost predicate StartsFor(s: State, t: State, cb: Cb) {
    exists k :: Starts(s.books, t.books, k, cb) && k.kind == KindAsked(t.desk, cb)
  }

  /** Some step of the run did that. */
  ghost predicate WasStarted(names: ErrorNames, events: seq<Event>, cb: Cb) {
    exists j :: 0 <= j < |events| && StartsFor(Run(names, events[..j]), Run(names, events[..j + 1]), cb)
  }

  lemma LongerRun(names: ErrorNames, events: seq<Event>, n: nat, cb: Cb)
    requires n <= |events| && WasStarted(names, events[..n], cb)
    ensures WasStarted(names, events, cb)
  {
    var j :| 0 <= j < n && StartsFor(Run(names, events[..n][..j]), Run(names, events[..n][..j + 1]), cb);
    assert events[..n][..j] == events[..j] && events[..n][..j + 1] == events[..j + 1];
  }

  // ------------------------------------------------------------- who begins to wait for a timer

  lemma DoesStart(s: State, t: State, op: Op, kind: Kind, args: Args, cb: Cb, w: World)
    requires Does(s, t, op, kind, args, cb, w) && KindAsked(s.desk, cb) == kind
    requires Held(t.books, true) <= Held(s.books, true) + if op.Add? then {cb} else {}
    ensures forall c :: c in Held(t.books, true) && c !in Held(s.books, true) ==> c == cb && StartsFor(s, t, cb)
  {
    if c :| c in Held(t.books, true) && c !in Held(s.books, true) {
      assert c == cb && op == Add && t.books != s.books;
      assert args.Name? && Starts(s.books, t.books, Key(kind, args.name), cb);
    }
  }

  lemma SingleStarts(s: State, op: Op, kind: Kind, args: Args, w: World)
    requires Enabled(s, Command(Single(op, kind), args, w)) && Sound(s.books)
    ensures var t := Step(s, Command(Single(op, kind), args, w));
            forall c :: c in Held(t.books, true) && c !in Held(s.books, true) ==> StartsFor(s, t, c)
  {
    var heard, t, cb := Heard(s, Single(op, kind)), Step(s, Command(Single(op, kind), args, w)), Direct(|s.desk.asked|);
    SingleMeans(s, op, kind, args, w);
    ActHolds(s.books, op, kind, args, cb, w, true);
    DoesStart(heard, t, op, kind, args, cb, w);
  }

  lemma PostedStarts(s: State, w: World)
    requires Enabled(s, PostedRuns(w)) && Sound(s.books) && Queued(s)
    ensures var t := Step(s, PostedRuns(w));
            forall c :: c in Held(t.books, true) && c !in Held(s.books, true) ==> StartsFor(s, t, c)
  {
    var half, later, t := s.posted[0], s.(posted := s.posted[1..]), Step(s, PostedRuns(w));
    assert QueuedOk(s, 0);
    PostedMeans(s, w);
    ActHolds(s.books, half.op, half.cb.kind, half.args, half.cb, w, true);
    DoesStart(later, t, half.op, half.cb.kind, half.args, half.cb, w);
  }

  /** Whoever begins to wait for a timer got a process with this very step. */
  lemma StepStarts(s: State, e: Event)
    requires Enabled(s, e) && Sound(s.books) && Queued(s)
    ensures var t := Step(s, e);
            forall c :: c in Held(t.books, true) && c !in Held(s.books, true) ==> StartsFor(s, t, c)
  {
    match e
    case Command(Single(op, kind), args, w) => SingleStarts(s, op, kind, args, w);
    case Command(_, _, _) => TerminateHolds(s.books, true);
    case PostedRuns(w) => PostedStarts(s, w);
    case AddContinues(i) =>
      WithoutHolds(s.books, i, true);
      AddDoneHolds(WithoutWait(s.books, i), s.books.waits[i].key, s.books.waits[i].phase.Cancelled?, true);
    case StopIsWritten(i, failure) =>
      WithoutHolds(s.books, i, true);
      StopWrittenHolds(WithoutWait(s.books, i), s.books.waits[i].key, s.books.waits[i].cb, failure, true);
    case StopIsAnswered(i, r) => WithoutHolds(s.books, i, true);
    case _ => OutsideHolds(s, e, true);
  }

  // ------------------------------------------------------------- who is told OK

  /** A step invokes at most one callback, and with OK that of an add only if it waited for a timer. */
  ghost predicate TellsTruly(s: State, t: State) {
    || t.desk.answers == s.desk.answers
    || exists a :: t.desk.answers == s.desk.answers + [a]
                   && (a.response.error == OK && AsksToAdd(t.desk, a.cb.token) ==> a.cb in Held(s.books, true))
  }

  lemma ToldTruly(before: State, s: State, t: State, cb: Cb, r: Response)
    requires Tells(s, t, cb, r) && before.desk.answers == s.desk.answers
    requires r.error == OK && AsksToAdd(s.desk, cb.token) ==> cb in Held(before.books, true)
    ensures TellsTruly(before, t)
  {
    if t.desk.answers != s.desk.answers {
      assert t.desk.answers == before.desk.answers + [Answer(cb, r)] && t.desk.asked == s.desk.asked;
    }
  }

  /** The callback is told something, and not OK if it is one of an add. */
  ghost predicate TellsSomething(s: State, t: State, cb: Cb, adds: bool) {
    exists r :: Tells(s, t, cb, r) && (adds ==> r.error != OK)
  }

  lemma KindTells(s: State, t: State, cb: Cb, kind: Kind, monitors: nat, scrapers: nat, info: string, adds: bool)
    requires TellsKind(s, t, cb, kind, monitors, scrapers, info) && monitors != OK && scrapers != OK
    ensures TellsSomething(s, t, cb, adds)
  {
    assert Tells(s, t, cb, Response(if kind == Monitor then monitors else scrapers, info, Nothing));
  }

  lemma PayloadTells(s: State, t: State, args: Args, cb: Cb, adds: bool)
    requires RejectsPayload(s, t, args, cb)
    ensures t.desk == s.desk || TellsSomething(s, t, cb, adds)
  {
    match args
    case NoPayload => assert Tells(s, t, cb, Response(MISSING_PAYLOAD, "", Nothing));
    case NoName =>
      assert Tells(s, t, cb, Response(MISSING_PAYLOAD_ARGS, "Missing payload arg: \"name\".", Nothing));
    case _ =>
  }

  lemma AddTells(s: State, t: State, kind: Kind, args: Args, cb: Cb, w: World)
    requires Adds(s, t, kind, args, cb, w)
    ensures t.desk == s.desk || TellsSomething(s, t, cb, true)
  {
    if !args.Name? {
      PayloadTells(s, t, args, cb, true);
    } else if t.desk != s.desk {
      var monitors, scrapers, info :|
        TellsKind(s, t, cb, kind, monitors, scrapers, info) && monitors != OK && scrapers != OK;
      KindTells(s, t, cb, kind, monitors, scrapers, info, true);
    }
  }

  lemma StopTells(s: State, t: State, kind: Kind, args: Args, cb: Cb, w: World)
    requires Stops(s, t, kind, args, cb, w)
    ensures t.desk == s.desk || TellsSomething(s, t, cb, false)
  {
    if !args.Name? {
      PayloadTells(s, t, args, cb, false);
    } else if t.desk != s.desk {
      var r :| Tells(s, t, cb, r);
    }
  }

  lemma DoesTell(s: State, t: State, op: Op, kind: Kind, args: Args, cb: Cb, w: World)
    requires Does(s, t, op, kind, args, cb, w)
    ensures t.desk == s.desk || TellsSomething(s, t, cb, op == Add)
  {
    match op
    case Add => AddTells(s, t, kind, args, cb, w);
    case Stop => StopTells(s, t, kind, args, cb, w);
    case Status =>
      var processes, sockets :| TellsStatus(s, t, kind, cb, processes, sockets);
      assert Tells(s, t, cb, Response(OK, "", Tables(processes, sockets)));
  }

  lemma DoesTellTruly(before: State, s: State, t: State, op: Op, kind: Kind, args: Args, cb: Cb, w: World)
    requires Does(s, t, op, kind, args, cb, w) && before.desk.answers == s.desk.answers
    requires AsksToAdd(s.desk, cb.token) ==> op == Add
    ensures TellsTruly(before, t)
  {
    DoesTell(s, t, op, kind, args, cb, w);
    if t.desk != s.desk {
      var r :| Tells(s, t, cb, r) && (op == Add ==> r.error != OK);
      ToldTruly(before, s, t, cb, r);
    }
  }

  lemma SingleTruly(s: State, op: Op, kind: Kind, args: Args, w: World)
    requires Enabled(s, Command(Single(op, kind), args, w)) && Sound(s.books)
    ensures TellsTruly(s, Step(s, Command(Single(op, kind), args, w)))
  {
    SingleMeans(s, op, kind, args, w);
    DoesTellTruly(s, Heard(s, Single(op, kind)), Step(s, Command(Single(op, kind), args, w)), op, kind, args,
                  Direct(|s.desk.asked|), w);
  }

  lemma PostedTruly(s: State, w: World)
    requires Enabled(s, PostedRuns(w)) && Sound(s.books) && Queued(s)
    ensures TellsTruly(s, Step(s, PostedRuns(w)))
  {
    var half := s.posted[0];
    assert QueuedOk(s, 0);
    PostedMeans(s, w);
    DoesTellTruly(s, s.(posted := s.posted[1..]), Step(s, PostedRuns(w)), half.op, half.cb.kind, half.args, half.cb, w);
  }

  lemma OthersTruly(s: State, command: Replies.Command, args: Args, w: World)
    requires Enabled(s, Command(command, args, w)) && Sound(s.books) && !command.Single?
    ensures TellsTruly(s, Step(s, Command(command, args, w)))
  {
    var t, cb := Step(s, Command(command, args, w)), Direct(|s.desk.asked|);
    match command
    case Shutdown =>
      ShutdownMeans(s, args, w);
      assert t.desk.answers == s.desk.answers + [Answer(cb, Response(OK, "", Nothing))];
    case Combined(op) => CombinedMeans(s, op, args, w);
    case Ping =>
      PlainMeans(s, args, w);
      ToldTruly(s, Heard(s, Ping), t, cb, Response(OK, "Pong", Nothing));
    case Unregistered =>
      PlainMeans(s, args, w);
      ToldTruly(s, Heard(s, Unregistered), t, cb, Response(UNRECOGNIZED_COMMAND, "", Nothing));
  }

  lemma AddContinuesTruly(s: State, i: nat)
    requires Enabled(s, AddContinues(i))
    ensures TellsTruly(s, Step(s, AddContinues(i)))
  {
    var wait, t := s.books.waits[i], Step(s, AddContinues(i));
    AddContinuesMeans(s, i);
    assert wait.cb in Held(s.books, true);
    if t.desk.answers != s.desk.answers {
      var r :| Tells(s, t, wait.cb, r);
      ToldTruly(s, s, t, wait.cb, r);
    }
  }

  lemma StopTruly(s: State, e: Event)
    requires Enabled(s, e) && OnlyAdds(s) && (e.StopIsWritten? || e.StopIsAnswered?)
    ensures TellsTruly(s, Step(s, e))
  {
    var i := e.i;
    assert s.books.waits[i].cb in Held(s.books, false);
    match e
    case StopIsWritten(_, failure) => StopIsWrittenMeans(s, i, failure);
    case StopIsAnswered(_, r) => StopIsAnsweredMeans(s, i, r);
    if Step(s, e).desk.answers != s.desk.answers {
      var r :| Tells(s, Step(s, e), s.books.waits[i].cb, r);
      ToldTruly(s, s, Step(s, e), s.books.waits[i].cb, r);
    }
  }

  lemma StepTellsTruly(s: State, e: Event)
    requires Enabled(s, e) && Sound(s.books) && Queued(s) && OnlyAdds(s)
    ensures TellsTruly(s, Step(s, e))
  {
    match e
    case Command(Single(op, kind), args, w) => SingleTruly(s, op, kind, args, w);
    case Command(command, args, w) => OthersTruly(s, command, args, w);
    case PostedRuns(w) => PostedTruly(s, w);
    case AddContinues(i) => AddContinuesTruly(s, i);
    case StopIsWritten(_, _) => StopTruly(s, e);
    case StopIsAnswered(_, _) => StopTruly(s, e);
    case _ => OutsideHolds(s, e, true);
  }

  // ------------------------------------------------------------- over whole runs

  /** Whoever waits for a timer, and whoever asked for an add and was told OK, was started. */
  ghost predicate Earned(names: ErrorNames, events: seq<Event>, s: State) {
    && (forall cb :: cb in Held(s.books, true) ==> WasStarted(names, events, cb))
    && (forall i :: 0 <= i < |s.desk.answers| ==> EarnedOk(names, events, s, i))
  }

  ghost predicate EarnedOk(names: ErrorNames, events: seq<Event>, s: State, i: nat)
    requires i < |s.desk.answers|
  {
    var a := s.desk.answers[i];
    a.response.error == OK && AsksToAdd(s.desk, a.cb.token) ==> WasStarted(names, events, a.cb)
  }

  lemma StepEarns(names: ErrorNames, events: seq<Event>, s: State, t: State)
    requires events != [] && s == Run(names, events[..|events| - 1]) && t == Run(names, events)
    requires Earned(names, events[..|events| - 1], s) && TellsTruly(s, t)
    requires forall c :: c in Held(t.books, true) && c !in Held(s.books, true) ==> StartsFor(s, t, c)
    requires s.desk.asked <= t.desk.asked
    requires forall i :: 0 <= i < |s.desk.answers| ==> s.desk.answers[i].cb.token < |s.desk.asked|
    ensures Earned(names, events, t)
  {
    var n := |events| - 1;
    assert events[..n + 1] == events;
    forall cb | cb in Held(s.books, true)
      ensures WasStarted(names, events, cb)
    {
      LongerRun(names, events, n, cb);
    }
    forall cb | cb in Held(t.books, true)
      ensures WasStarted(names, events, cb)
    {
      if cb !in Held(s.books, true) {
        assert StartsFor(Run(names, events[..n]), Run(names, events[..n + 1]), cb);
      }
    }
    forall i | 0 <= i < |t.desk.answers|
      ensures EarnedOk(names, events, t, i)
    {
      if i < |s.desk.answers| {
        assert EarnedOk(names, events[..n], s, i) && t.desk.answers[i] == s.desk.answers[i];
        var a := s.desk.answers[i];
        assert AsksToAdd(t.desk, a.cb.token) == AsksToAdd(s.desk, a.cb.token);
        if a.response.error == OK && AsksToAdd(s.desk, a.cb.token) {
          LongerRun(names, events, n, a.cb);
        }
      }
    }
  }

  lemma StayEarned(names: ErrorNames, events: seq<Event>, n: nat, s: State)
    requires n <= |events| && Earned(names, events[..n], s)
    ensures Earned(names, events, s)
  {
    forall cb | cb in Held(s.books, true)
      ensures WasStarted(names, events, cb)
    {
      LongerRun(names, events, n, cb);
    }
    forall i | 0 <= i < |s.desk.answers|
      ensures EarnedOk(names, events, s, i)
    {
      assert EarnedOk(names, events[..n], s, i);
      if s.desk.answers[i].response.error == OK && AsksToAdd(s.desk, s.desk.answers[i].cb.token) {
        LongerRun(names, events, n, s.desk.answers[i].cb);
      }
    }
  }

  lemma {:induction false} EveryRunEarned(names: ErrorNames, events: seq<Event>)
    requires !Run(names, events).status.Crashed?
    ensures Earned(names, events, Run(names, events))
  {
    if events != [] {
      var n := |events| - 1;
      var s := Run(names, events[..n]);
      EveryRunEarned(names, events[..n]);
      if Enabled(s, events[n]) {
        EveryRunSound(names, events[..n]);
        EveryRunOrderly(names, events[..n]);
        EveryRunOnlyAdds(names, events[..n]);
        EveryRunAccounted(names, events[..n]);
        StepStarts(s, events[n]);
        StepTellsTruly(s, events[n]);
        AskedGrows(s, events[n]);
        StepEarns(names, events, s, Run(names, events));
      } else {
        StayEarned(names, events, n, s);
      }
    }
  }

  /** On every run that does not fail: whenever a callback of an add was invoked with OK, some step
      of the run had stored its class as a new one of the kind that was asked for, with a new
      process, and made that very callback wait. No add is ever said to have succeeded that did not
      start a process of its own. */
  lemma OkIsEarned(names: ErrorNames, events: seq<Event>, a: Answer)
    requires !Run(names, events).status.Crashed? && a in Run(names, events).desk.answers
    requires a.response.error == OK && AsksToAdd(Run(names, events).desk, a.cb.token)
    ensures exists j :: 0 <= j < |events| && StartsFor(Run(names, events[..j]), Run(names, events[..j + 1]), a.cb)
  {
    var s := Run(names, events);
    EveryRunEarned(names, events);
    var i :| 0 <= i < |s.desk.answers| && s.desk.answers[i] == a;
    assert EarnedOk(names, events, s, i);
    assert WasStarted(names, events, a.cb);
  }
}
