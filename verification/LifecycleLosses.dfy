/** Whose replies can be lost on a run that does not fail: those to an add, and no others. */
module LifecycleLosses {
  import opened Options
  import opened Messages
  import opened Replies
  import opened Lifecycle
  import opened LifecycleLedger
  import opened LifecycleStatus

  predicate AsksToAdd(d: Desk, t: Token) {
    t < |d.asked| && (d.asked[t].Single? || d.asked[t].Combined?) && d.asked[t].op.Add?
  }

  predicate AsksToStop(d: Desk, t: Token) {
    t < |d.asked| && (d.asked[t].Single? || d.asked[t].Combined?) && d.asked[t].op.Stop?
  }

  /** The callbacks that waiting adds, or else waiting stops, hold. */
  ghost function Held(b: Books, adds: bool): set<Cb> {
    set i | 0 <= i < |b.waits| && b.waits[i].AddWait? == adds :: b.waits[i].cb
  }

  /** Callbacks of adds wait for a timer and those of stops for a class, no others wait, and only
      callbacks of adds were ever dropped. */
  ghost predicate OnlyAdds(s: State) {
    && (forall cb :: cb in Held(s.books, true) ==> AsksToAdd(s.desk, cb.token))
    && (forall cb :: cb in Held(s.books, false) ==> AsksToStop(s.desk, cb.token))
    && (forall cb :: cb in s.desk.dropped ==> AsksToAdd(s.desk, cb.token))
  }

  lemma CancelHolds(b: Books, timers: set<Timer>, adds: bool)
    ensures Held(b.(waits := Cancel(b.waits, timers)), adds) == Held(b, adds)
  {
    var after := b.(waits := Cancel(b.waits, timers));
    forall cb
      ensures cb in Held(after, adds) <==> cb in Held(b, adds)
    {
      if cb in Held(b, adds) {
        var i :| 0 <= i < |b.waits| && b.waits[i].AddWait? == adds && b.waits[i].cb == cb;
        assert after.waits[i].AddWait? == adds && after.waits[i].cb == cb;
      }
      if cb in Held(after, adds) {
        var i :| 0 <= i < |after.waits| && after.waits[i].AddWait? == adds && after.waits[i].cb == cb;
        assert b.waits[i].AddWait? == adds && b.waits[i].cb == cb;
      }
    }
  }

  /** Appending a continuation, and dropping one. */
  lemma AppendHolds(b: Books, w: Wait, adds: bool)
    ensures Held(b.(waits := b.waits + [w]), adds) <= Held(b, adds) + if w.AddWait? == adds then {w.cb} else {}
  {
  }

  lemma WithoutHolds(b: Books, i: nat, adds: bool)
    requires i < |b.waits|
    ensures Held(WithoutWait(b, i), adds) <= Held(b, adds)
  {
  }

  lemma RemoveHolds(b: Books, k: Key, adds: bool)
    requires b.Has(k)
    ensures Held(RemoveSocket(b, k), adds) <= Held(b, adds) && Held(RemoveProcess(b, k), adds) <= Held(b, adds)
  {
    CancelHolds(b, TimerOf(b.At(k)), adds);
    assert Held(b.Erase(k), adds) == Held(b.(waits := Cancel(b.waits, TimerOf(b.At(k)))), adds);
  }

  lemma SpawnHolds(b: Books, k: Key, cb: Cb, adds: bool)
    ensures Held(Spawn(b, k, cb), adds) <= Held(b, adds) + if adds then {cb} else {}
  {
    var cancelled := if b.Has(k) then b.(waits := Cancel(b.waits, TimerOf(b.At(k)))) else b;
    if b.Has(k) {
      CancelHolds(b, TimerOf(b.At(k)), adds);
    }
    var wait := AddWait(|b.armed|, k, cb, Waiting);
    AppendHolds(cancelled, wait, adds);
    assert Held(Spawn(b, k, cb), adds) == Held(cancelled.(waits := cancelled.waits + [wait]), adds);
  }

  /** Only an add makes its callback wait for a timer and only a stop for a class, and nothing drops
      one at once. */
  lemma ActHolds(b: Books, op: Op, kind: Kind, args: Args, cb: Cb, w: World, adds: bool)
    ensures Held(Act(b, op, kind, args, cb, w).0, adds)
            <= Held(b, adds) + if op == (if adds then Add else Stop) then {cb} else {}
    ensures !Act(b, op, kind, args, cb, w).1.Drops?
  {
    if args.Name? {
      var k := Key(kind, args.name);
      SpawnHolds(b, k, cb, adds);
      AppendHolds(b, StopWrite(k, cb), adds);
      assert Held(StopNamed(b, k, cb, w).0, adds) == Held(b.(waits := StopNamed(b, k, cb, w).0.waits), adds);
    }
  }

  lemma StopWrittenHolds(b: Books, k: Key, cb: Cb, failure: Option<string>, adds: bool)
    ensures Held(StopWritten(b, k, cb, failure).0, adds) <= Held(b, adds) + if adds then {} else {cb}
    ensures !StopWritten(b, k, cb, failure).1.Drops?
  {
    var after := if b.Has(k) then RemoveSocket(b, k) else b;
    if b.Has(k) {
      RemoveHolds(b, k, adds);
    }
    AppendHolds(after, StopRead(k, cb), adds);
  }

  /** What may be held after an operation that was given the callback `cb`. */
  ghost predicate HoldsNoMore(s: State, b: Books, cb: Cb, after: Books) {
    && Held(after, true) <= Held(b, true) + (if AsksToAdd(s.desk, cb.token) then {cb} else {})
    && Held(after, false) <= Held(b, false) + (if AsksToStop(s.desk, cb.token) then {cb} else {})
  }

  lemma ConcludeHolds(s: State, b: Books, cb: Cb, result: (Books, Verdict))
    requires OnlyAdds(s.(books := b)) && !Conclude(s, cb, result).status.Crashed?
    requires HoldsNoMore(s, b, cb, result.0)
    requires result.1.Drops? ==> AsksToAdd(s.desk, cb.token)
    ensures OnlyAdds(Conclude(s, cb, result))
  {
    var after := Conclude(s, cb, result);
    assert after.desk.asked == s.desk.asked && after.books == result.0;
    assert forall c: Cb :: AsksToAdd(after.desk, c.token) == AsksToAdd(s.desk, c.token);
    assert forall c: Cb :: AsksToStop(after.desk, c.token) == AsksToStop(s.desk, c.token);
    ConcludeDrops(s, cb, result);
  }

  lemma AskHolds(s: State, command: Replies.Command)
    requires OnlyAdds(s)
    ensures OnlyAdds(s.(desk := Ask(s.desk, command)))
  {
  }

  lemma TerminateHolds(b: Books, adds: bool)
    ensures Held(TerminateAll(b), adds) == Held(b, adds)
  {
    CancelHolds(b, TimersReleased(b.stored), adds);
    assert Held(TerminateAll(b), adds) == Held(b.(waits := TerminateAll(b).waits), adds);
  }

  lemma DispatchHolds(s: State, command: Replies.Command, args: Args, w: World)
    requires OnlyAdds(s) && s.status.Running? && !Dispatch(s, command, args, w).status.Crashed?
    ensures OnlyAdds(Dispatch(s, command, args, w))
  {
    var asked, cb := s.(desk := Ask(s.desk, command)), Direct(|s.desk.asked|);
    AskHolds(s, command);
    assert asked == asked.(books := s.books);
    match command
    case Unregistered => ConcludeHolds(asked, s.books, cb, (s.books, Says(Failed(UNRECOGNIZED_COMMAND, ""))));
    case Ping => ConcludeHolds(asked, s.books, cb, (s.books, Says(Response(OK, "Pong", Nothing))));
    case Shutdown =>
      TerminateHolds(s.books, true);
      TerminateHolds(s.books, false);
      ConcludeHolds(asked, s.books, cb, (TerminateAll(s.books), Says(Ok())));
    case Single(op, kind) =>
      ActHolds(s.books, op, kind, args, cb, w, true);
      ActHolds(s.books, op, kind, args, cb, w, false);
      ConcludeHolds(asked, s.books, cb, Act(s.books, op, kind, args, cb, w));
    case Combined(op) =>
  }

  lemma PostedHolds(s: State, w: World)
    requires OnlyAdds(s) && Queued(s) && s.posted != [] && !RunPosted(s, w).status.Crashed?
    ensures OnlyAdds(RunPosted(s, w))
  {
    var half, later := s.posted[0], s.(posted := s.posted[1..]);
    assert QueuedOk(s, 0);
    assert later == later.(books := s.books);
    ActHolds(s.books, half.op, KindOf(half.cb), half.args, half.cb, w, true);
    ActHolds(s.books, half.op, KindOf(half.cb), half.args, half.cb, w, false);
    ConcludeHolds(later, s.books, half.cb, Act(s.books, half.op, KindOf(half.cb), half.args, half.cb, w));
  }

  lemma AddDoneHolds(b: Books, k: Key, cancelled: bool, adds: bool)
    ensures Held(AddDone(b, k, cancelled).0, adds) == Held(b, adds)
  {
    assert AddDone(b, k, cancelled).0.waits == b.waits;
  }

  lemma AddContinuesHolds(s: State, i: nat)
    requires OnlyAdds(s) && Enabled(s, AddContinues(i)) && !Step(s, AddContinues(i)).status.Crashed?
    ensures OnlyAdds(Step(s, AddContinues(i)))
  {
    var b, wait := WithoutWait(s.books, i), s.books.waits[i];
    WithoutHolds(s.books, i, true);
    WithoutHolds(s.books, i, false);
    assert wait.cb in Held(s.books, true);
    AddDoneHolds(b, wait.key, wait.phase.Cancelled?, true);
    AddDoneHolds(b, wait.key, wait.phase.Cancelled?, false);
    ConcludeHolds(s, b, wait.cb, AddDone(b, wait.key, wait.phase.Cancelled?));
  }

  lemma StopIsWrittenHolds(s: State, i: nat, failure: Option<string>)
    requires OnlyAdds(s) && Enabled(s, StopIsWritten(i, failure)) && !Step(s, StopIsWritten(i, failure)).status.Crashed?
    ensures OnlyAdds(Step(s, StopIsWritten(i, failure)))
  {
    var b, wait := WithoutWait(s.books, i), s.books.waits[i];
    WithoutHolds(s.books, i, true);
    WithoutHolds(s.books, i, false);
    assert wait.cb in Held(s.books, false);
    StopWrittenHolds(b, wait.key, wait.cb, failure, true);
    StopWrittenHolds(b, wait.key, wait.cb, failure, false);
    ConcludeHolds(s, b, wait.cb, StopWritten(b, wait.key, wait.cb, failure));
  }

  lemma StopIsAnsweredHolds(s: State, i: nat, r: Response)
    requires OnlyAdds(s) && Enabled(s, StopIsAnswered(i, r)) && !Step(s, StopIsAnswered(i, r)).status.Crashed?
    ensures OnlyAdds(Step(s, StopIsAnswered(i, r)))
  {
    WithoutHolds(s.books, i, true);
    WithoutHolds(s.books, i, false);
    ConcludeHolds(s, WithoutWait(s.books, i), s.books.waits[i].cb, (WithoutWait(s.books, i), Says(r)));
  }

  lemma OutsideHolds(s: State, e: Event, adds: bool)
    requires Enabled(s, e) && HappensOutside(e)
    ensures Held(Step(s, e).books, adds) <= Held(s.books, adds) && Step(s, e).desk == s.desk
  {
    var b, after := s.books, Step(s, e);
    match e
    case TimerExpires(i) => assert Held(after.books, adds) <= Held(b, adds);
    case SocketVerified(i) =>
      if s.checks[i].Confirm? && b.Has(s.checks[i].key) {
        CancelHolds(b, TimerOf(b.At(s.checks[i].key)), adds);
        assert Held(after.books, adds) <= Held(b, adds);
      }
    case SocketDeleted(k) =>
      if b.Has(k) {
        RemoveHolds(b, k, adds);
      }
    case ProcessExits(p, _) =>
      if b.Has(b.owner[p]) {
        RemoveHolds(b.(handlers := b.handlers - {p}), b.owner[p], adds);
      }
      assert Held(b.(handlers := b.handlers - {p}), adds) == Held(b, adds);
    case _ =>
  }

  lemma StepKeepsOnlyAdds(s: State, e: Event)
    requires OnlyAdds(s) && Queued(s) && Enabled(s, e) && !Step(s, e).status.Crashed?
    ensures OnlyAdds(Step(s, e))
  {
    match e
    case Command(command, args, w) => DispatchHolds(s, command, args, w);
    case PostedRuns(w) => PostedHolds(s, w);
    case AddContinues(i) => AddContinuesHolds(s, i);
    case StopIsWritten(i, failure) => StopIsWrittenHolds(s, i, failure);
    case StopIsAnswered(i, r) => StopIsAnsweredHolds(s, i, r);
    case _ =>
      OutsideHolds(s, e, true);
      OutsideHolds(s, e, false);
  }

  lemma {:induction false} EveryRunOnlyAdds(names: ErrorNames, events: seq<Event>)
    requires !Run(names, events).status.Crashed?
    ensures OnlyAdds(Run(names, events))
  {
    if events != [] {
      var n := |events| - 1;
      var s := Run(names, events[..n]);
      if Enabled(s, events[n]) {
        EveryRunOnlyAdds(names, events[..n]);
        EveryRunOrderly(names, events[..n]);
        StepKeepsOnlyAdds(s, events[n]);
      } else {
        EveryRunOnlyAdds(names, events[..n]);
      }
    }
  }

  /** On every run that does not fail, a client that did not ask for an add has had its reply as
      soon as nothing pending holds a callback of its command: only adds can lose theirs. */
  lemma OthersAreAnswered(s: State, t: Token)
    requires Reachable(s) && !s.status.Crashed? && t < |s.desk.asked| && !AsksToAdd(s.desk, t)
    requires forall cb :: cb in CbsOf(t, s.desk.asked[t]) ==> cb !in Owed(s)
    ensures |RepliesTo(s.desk.replies, t)| == 1
  {
    var names: ErrorNames, events: seq<Event> :| s == Run(names, events);
    EveryRunOnlyAdds(names, events);
    EveryClient(s, t);
    forall cb | cb in CbsOf(t, s.desk.asked[t])
      ensures cb !in s.desk.dropped
    {
      assert cb.token == t;
    }
  }
}
