/** Reply obligations over whole runs: none is lost unnoticed, none is met twice. */
module LifecycleLedger {
  import opened Options
  import opened Messages
  import opened Replies
  import opened Lifecycle

  ghost function CbsPosted(posted: seq<Posted>): seq<Cb> {
    seq(|posted|, i requires 0 <= i < |posted| => posted[i].cb)
  }

  ghost function CbsWaiting(waits: seq<Wait>): seq<Cb> {
    seq(|waits|, i requires 0 <= i < |waits| => waits[i].cb)
  }

  ghost function OwedBy(b: Books): multiset<Cb> {
    multiset(CbsWaiting(b.waits))
  }

  /** The callbacks that something pending still holds: a posted half or a continuation. */
  ghost function Owed(s: State): multiset<Cb> {
    multiset(CbsPosted(s.posted)) + OwedBy(s.books)
  }

  ghost predicate Accounted(s: State) {
    Balanced(s.desk, Owed(s)) && Faithful(s.desk)
  }

  /** An operation puts its callback into a continuation exactly when its verdict says so, and
      leaves the other continuations' callbacks alone. */
  ghost predicate Settled(b: Books, cb: Cb, result: (Books, Verdict)) {
    OwedBy(result.0) == OwedBy(b) + if result.1.Waits? then multiset{cb} else multiset{}
  }

  lemma CancelOwes(waits: seq<Wait>, timers: set<Timer>)
    ensures CbsWaiting(Cancel(waits, timers)) == CbsWaiting(waits)
  {
  }

  lemma AppendOwes(waits: seq<Wait>, w: Wait)
    ensures multiset(CbsWaiting(waits + [w])) == multiset(CbsWaiting(waits)) + multiset{w.cb}
  {
    assert CbsWaiting(waits + [w]) == CbsWaiting(waits) + [w.cb];
  }

  lemma WithoutOwes(waits: seq<Wait>, i: nat)
    requires i < |waits|
    ensures multiset(CbsWaiting(waits)) == multiset(CbsWaiting(Without(waits, i))) + multiset{waits[i].cb}
  {
    var cbs := CbsWaiting(waits);
    assert cbs == cbs[..i] + ([waits[i].cb] + cbs[i + 1..]);
    assert CbsWaiting(Without(waits, i)) == cbs[..i] + cbs[i + 1..];
  }

  lemma RemoveOwes(b: Books, k: Key)
    requires b.Has(k)
    ensures OwedBy(RemoveSocket(b, k)) == OwedBy(b) && OwedBy(RemoveProcess(b, k)) == OwedBy(b)
  {
    CancelOwes(b.waits, TimerOf(b.At(k)));
  }

  lemma SpawnOwes(b: Books, k: Key, cb: Cb)
    ensures OwedBy(Spawn(b, k, cb)) == OwedBy(b) + multiset{cb}
  {
    var waits := if b.Has(k) then Cancel(b.waits, TimerOf(b.At(k))) else b.waits;
    if b.Has(k) {
      CancelOwes(b.waits, TimerOf(b.At(k)));
    }
    AppendOwes(waits, AddWait(|b.armed|, k, cb, Waiting));
  }

  lemma ActSettles(b: Books, op: Op, kind: Kind, args: Args, cb: Cb, w: World)
    ensures Settled(b, cb, Act(b, op, kind, args, cb, w))
  {
    if args.Name? {
      var k := Key(kind, args.name);
      SpawnOwes(b, k, cb);
      AppendOwes(b.waits, StopWrite(k, cb));
    }
  }

  lemma StopWrittenSettles(b: Books, k: Key, cb: Cb, failure: Option<string>)
    ensures Settled(b, cb, StopWritten(b, k, cb, failure))
  {
    var after := if b.Has(k) then RemoveSocket(b, k) else b;
    if b.Has(k) {
      RemoveOwes(b, k);
    }
    AppendOwes(after.waits, StopRead(k, cb));
  }

  lemma AddDoneSettles(b: Books, k: Key, cb: Cb, cancelled: bool)
    ensures Settled(b, cb, AddDone(b, k, cancelled)) && !AddDone(b, k, cancelled).1.Waits?
  {
  }

  /** Where the callbacks of a state are once its operation has been concluded. */
  lemma ConcludeOwes(s: State, b: Books, cb: Cb, result: (Books, Verdict))
    requires Settled(b, cb, result)
    ensures var owed := multiset(CbsPosted(s.posted)) + OwedBy(b) + multiset{cb};
            Owed(s.(books := result.0)) == if result.1.Waits? then owed else owed - multiset{cb}
  {
  }

  lemma AccountedBy(s: State, owed: multiset<Cb>)
    requires Owed(s) == owed && Balanced(s.desk, owed) && Faithful(s.desk)
    ensures Accounted(s)
  {
  }

  /** Whatever is decided about a callback, the books balance again afterwards. */
  lemma ConcludeKeeps(s: State, b: Books, cb: Cb, result: (Books, Verdict))
    requires Balanced(s.desk, multiset(CbsPosted(s.posted)) + OwedBy(b) + multiset{cb}) && Faithful(s.desk)
    requires Settled(b, cb, result) && !Conclude(s, cb, result).status.Crashed?
    ensures Accounted(Conclude(s, cb, result))
  {
    var owed := multiset(CbsPosted(s.posted)) + OwedBy(b) + multiset{cb};
    ConcludeOwes(s, b, cb, result);
    match result.1
    case Waits => AccountedBy(s.(books := result.0), owed);
    case Drops =>
      DropKeeps(s.desk, owed, cb);
      AccountedBy(s.(books := result.0, desk := Drop(s.desk, cb)), owed - multiset{cb});
    case Throws =>
    case Says(r) =>
      RespondKeeps(s.desk, owed, cb, r);
      AccountedBy(s.(books := result.0, desk := Respond(s.desk, cb, r).value), owed - multiset{cb});
  }

  lemma DispatchKeeps(s: State, command: Replies.Command, args: Args, w: World)
    requires s.status.Running? && Accounted(s) && !Dispatch(s, command, args, w).status.Crashed?
    ensures Accounted(Dispatch(s, command, args, w))
  {
    var asked, cb := s.(desk := Ask(s.desk, command)), Direct(|s.desk.asked|);
    AskKeeps(s.desk, Owed(s), command);
    match command
    case Unregistered => ConcludeKeeps(asked, s.books, cb, (s.books, Says(Failed(UNRECOGNIZED_COMMAND, ""))));
    case Ping => ConcludeKeeps(asked, s.books, cb, (s.books, Says(Response(OK, "Pong", Nothing))));
    case Shutdown =>
      CancelOwes(s.books.waits, TimersReleased(s.books.stored));
      ConcludeKeeps(asked, s.books, cb, (TerminateAll(s.books), Says(Ok())));
      ShutDownAccounted(Conclude(asked, cb, (TerminateAll(s.books), Says(Ok()))));
    case Single(op, kind) =>
      ActSettles(s.books, op, kind, args, cb, w);
      ConcludeKeeps(asked, s.books, cb, Act(s.books, op, kind, args, cb, w));
    case Combined(op) => CombinedKeeps(s, op, args, w);
  }

  lemma ShutDownAccounted(s: State)
    requires Accounted(s)
    ensures Accounted(s.(status := ShutDown))
  {
  }

  lemma CombinedKeeps(s: State, op: Op, args: Args, w: World)
    requires Accounted(s)
    ensures Accounted(Dispatch(s, Combined(op), args, w))
  {
    var t, after := |s.desk.asked|, Dispatch(s, Combined(op), args, w);
    AskKeeps(s.desk, Owed(s), Combined(op));
    assert CbsPosted(after.posted) == CbsPosted(s.posted) + [Half(t, Monitor), Half(t, Scraper)];
    assert Owed(after) == Owed(s) + CbsOf(t, Combined(op));
  }

  lemma OldestOwes(s: State)
    requires s.posted != []
    ensures Owed(s) == multiset(CbsPosted(s.posted[1..])) + OwedBy(s.books) + multiset{s.posted[0].cb}
  {
    assert CbsPosted(s.posted) == [s.posted[0].cb] + CbsPosted(s.posted[1..]);
  }

  lemma RunPostedKeeps(s: State, w: World)
    requires Accounted(s) && s.posted != [] && !RunPosted(s, w).status.Crashed?
    ensures Accounted(RunPosted(s, w))
  {
    var half, later := s.posted[0], s.(posted := s.posted[1..]);
    OldestOwes(s);
    var result := Act(s.books, half.op, KindOf(half.cb), half.args, half.cb, w);
    ActSettles(s.books, half.op, KindOf(half.cb), half.args, half.cb, w);
    ConcludeKeeps(later, s.books, half.cb, result);
  }

  lemma ContinueKeeps(s: State, i: nat, result: (Books, Verdict))
    requires Accounted(s) && i < |s.books.waits|
    requires Settled(WithoutWait(s.books, i), s.books.waits[i].cb, result) && !Continue(s, i, result).status.Crashed?
    ensures Accounted(Continue(s, i, result))
  {
    var cb := s.books.waits[i].cb;
    WithoutOwes(s.books.waits, i);
    assert Owed(s) == multiset(CbsPosted(s.posted)) + OwedBy(WithoutWait(s.books, i)) + multiset{cb};
    ConcludeKeeps(s, WithoutWait(s.books, i), cb, result);
  }

  /** The steps that involve no callback: none is created, met or lost. */
  lemma QuietKeeps(s: State, after: State)
    requires Accounted(s) && after.desk == s.desk && after.posted == s.posted
    requires CbsWaiting(after.books.waits) == CbsWaiting(s.books.waits)
    ensures Accounted(after)
  {
  }

  lemma VerifiedOwes(s: State, i: nat)
    requires i < |s.checks|
    ensures CbsWaiting(Verified(s, i).books.waits) == CbsWaiting(s.books.waits)
  {
    var b, k := s.books, s.checks[i].key;
    if s.checks[i].Confirm? && b.Has(k) {
      CancelOwes(b.waits, TimerOf(b.At(k)));
    }
  }

  lemma OutsideOwes(s: State, e: Event)
    requires Enabled(s, e)
    requires HappensOutside(e)
    ensures var after := Step(s, e);
            after.desk == s.desk && after.posted == s.posted
              && CbsWaiting(after.books.waits) == CbsWaiting(s.books.waits)
  {
    var b := s.books;
    match e
    case TimerExpires(i) =>
    case SocketVerified(i) => VerifiedOwes(s, i);
    case SocketDeleted(k) =>
      if b.Has(k) {
        CancelOwes(b.waits, TimerOf(b.At(k)));
      }
    case ProcessExits(p, _) =>
      if b.Has(b.owner[p]) {
        CancelOwes(b.waits, TimerOf(b.At(b.owner[p])));
      }
    case _ =>
  }

  lemma AddContinuesKeeps(s: State, i: nat)
    requires Enabled(s, AddContinues(i)) && Accounted(s) && !Step(s, AddContinues(i)).status.Crashed?
    ensures Accounted(Step(s, AddContinues(i)))
  {
    var b, wait := WithoutWait(s.books, i), s.books.waits[i];
    AddDoneSettles(b, wait.key, wait.cb, wait.phase.Cancelled?);
    ContinueKeeps(s, i, AddDone(b, wait.key, wait.phase.Cancelled?));
  }

  lemma StopIsWrittenKeeps(s: State, i: nat, failure: Option<string>)
    requires Enabled(s, StopIsWritten(i, failure)) && Accounted(s)
             && !Step(s, StopIsWritten(i, failure)).status.Crashed?
    ensures Accounted(Step(s, StopIsWritten(i, failure)))
  {
    var b, wait := WithoutWait(s.books, i), s.books.waits[i];
    StopWrittenSettles(b, wait.key, wait.cb, failure);
    ContinueKeeps(s, i, StopWritten(b, wait.key, wait.cb, failure));
  }

  lemma StepKeepsAccounted(s: State, e: Event)
    requires Enabled(s, e) && Accounted(s) && !Step(s, e).status.Crashed?
    ensures Accounted(Step(s, e))
  {
    match e
    case Command(command, args, w) => DispatchKeeps(s, command, args, w);
    case PostedRuns(w) => RunPostedKeeps(s, w);
    case AddContinues(i) => AddContinuesKeeps(s, i);
    case StopIsWritten(i, failure) => StopIsWrittenKeeps(s, i, failure);
    case StopIsAnswered(i, r) => ContinueKeeps(s, i, (WithoutWait(s.books, i), Says(r)));
    case _ =>
      OutsideOwes(s, e);
      QuietKeeps(s, Step(s, e));
  }

  lemma {:induction false} EveryRunAccounted(names: ErrorNames, events: seq<Event>)
    requires !Run(names, events).status.Crashed?
    ensures Accounted(Run(names, events))
  {
    if events != [] {
      var n := |events| - 1;
      var s := Run(names, events[..n]);
      if Enabled(s, events[n]) {
        EveryRunAccounted(names, events[..n]);
        StepKeepsAccounted(s, events[n]);
      } else {
        EveryRunAccounted(names, events[..n]);
      }
    }
  }

  lemma ConcludeDrops(s: State, cb: Cb, result: (Books, Verdict))
    ensures Conclude(s, cb, result).desk.dropped == s.desk.dropped + if result.1.Drops? then multiset{cb}
            else multiset{}
  {
  }

  /** The situation in which an add lets its callback go: its wait was cancelled, and when it
      runs its class is stored and not confirmed. */
  ghost predicate LosesItsClient(s: State, e: Event)
    requires Enabled(s, e)
  {
    e.AddContinues? &&
    var wait := s.books.waits[e.i];
    wait.phase.Cancelled? && s.books.Has(wait.key) && !s.books.At(wait.key).confirmAdded
  }

  lemma AddLosesExactly(s: State, i: nat)
    requires Enabled(s, AddContinues(i))
    ensures Step(s, AddContinues(i)).desk.dropped ==
            s.desk.dropped + if LosesItsClient(s, AddContinues(i)) then multiset{s.books.waits[i].cb} else multiset{}
  {
    var b, wait := WithoutWait(s.books, i), s.books.waits[i];
    ConcludeDrops(s, wait.cb, AddDone(b, wait.key, wait.phase.Cancelled?));
  }

  lemma DispatchLosesNothing(s: State, command: Replies.Command, args: Args, w: World)
    ensures Dispatch(s, command, args, w).desk.dropped == s.desk.dropped
  {
    var asked, cb := s.(desk := Ask(s.desk, command)), Direct(|s.desk.asked|);
    if command.Single? {
      ConcludeDrops(asked, cb, Act(s.books, command.op, command.kind, args, cb, w));
    }
  }

  lemma PostedLosesNothing(s: State, w: World)
    requires s.posted != []
    ensures RunPosted(s, w).desk.dropped == s.desk.dropped
  {
    var half := s.posted[0];
    ConcludeDrops(s.(posted := s.posted[1..]), half.cb, Act(s.books, half.op, KindOf(half.cb), half.args, half.cb, w));
  }

  /** Every step drops either nothing or, in that one situation, that one callback. */
  lemma LossesExactly(s: State, e: Event)
    requires Enabled(s, e)
    ensures Step(s, e).desk.dropped ==
            s.desk.dropped + if LosesItsClient(s, e) then multiset{s.books.waits[e.i].cb} else multiset{}
  {
    match e
    case Command(command, args, w) => DispatchLosesNothing(s, command, args, w);
    case PostedRuns(w) => PostedLosesNothing(s, w);
    case AddContinues(i) => AddLosesExactly(s, i);
    case StopIsWritten(i, failure) =>
      var wait := s.books.waits[i];
      ConcludeDrops(s, wait.cb, StopWritten(WithoutWait(s.books, i), wait.key, wait.cb, failure));
    case StopIsAnswered(i, r) => ConcludeDrops(s, s.books.waits[i].cb, (WithoutWait(s.books, i), Says(r)));
    case _ =>
  }

  // ------------------------------------------------------------- for the clients

  /** On every run that does not fail, every client is told the right thing at most once; it has
      not been told anything exactly while something pending still holds a callback of its
      command, or once such a callback was let go. */
  lemma EveryClient(s: State, t: Token)
    requires Reachable(s) && !s.status.Crashed? && t < |s.desk.asked|
    ensures ToldRight(s.desk, t) && |RepliesTo(s.desk.replies, t)| <= 1
    ensures RepliesTo(s.desk.replies, t) == [] <==>
            exists cb :: cb in CbsOf(t, s.desk.asked[t]) && (cb in Owed(s) || cb in s.desk.dropped)
  {
    ReachableAccounted(s);
    AtMostOneReply(s.desk, t);
    UnansweredExactly(s.desk, Owed(s), t);
  }

  lemma ReachableAccounted(s: State)
    requires Reachable(s) && !s.status.Crashed?
    ensures Accounted(s)
  {
    var names: ErrorNames, events: seq<Event> :| s == Run(names, events);
    EveryRunAccounted(names, events);
  }

  /** A callback is never in two places: with two holders, met twice, or met and still held. */
  lemma OnePlace(s: State, cb: Cb)
    requires Reachable(s) && !s.status.Crashed?
    ensures Owed(s)[cb] + Invoked(s.desk.answers)[cb] + s.desk.dropped[cb]
            == if cb.token < |s.desk.asked| && cb.Half? == s.desk.asked[cb.token].Combined? then 1 else 0
  {
    ReachableAccounted(s);
    assert Issued(s.desk.asked)[cb] == Owed(s)[cb] + Invoked(s.desk.answers)[cb] + s.desk.dropped[cb];
    IssuedOnce(s.desk.asked, cb);
  }
}
