/** The combined status command: the half that asks about monitors always answers before the
    half that asks about scrapers, so that neither table ends up under the other's name. */
module LifecycleStatus {
  import opened Options
  import opened Messages
  import opened Replies
  import opened Lifecycle
  import opened LifecycleLedger

  /** Which callbacks of a client were invoked, in order. */
  ghost function AnswerersOf(answers: seq<Answer>, t: Token): seq<Cb> {
    if answers == [] then []
    else
      var n := |answers| - 1;
      AnswerersOf(answers[..n], t) + if answers[n].cb.token == t then [answers[n].cb] else []
  }

  /** `x` was posted before `y`: for an earlier client, or for the same one as the first half. */
  predicate Before(x: Cb, y: Cb) {
    x.token < y.token || (x == Half(x.token, Monitor) && y == Half(x.token, Scraper))
  }

  /** Posted halves are queued in order and in pairs, of which the first may be gone. */
  ghost predicate Queued(s: State) {
    && (forall i :: 0 <= i < |s.posted| ==> QueuedOk(s, i))
    && (forall i, j :: 0 <= i < j < |s.posted| ==> Before(s.posted[i].cb, s.posted[j].cb))
  }

  ghost predicate QueuedOk(s: State, i: nat)
    requires i < |s.posted|
  {
    var half := s.posted[i];
    && half.cb.Half? && half.cb.token < |s.desk.asked| && s.desk.asked[half.cb.token] == Combined(half.op)
    && (half.cb.kind.Monitor? ==> i + 1 < |s.posted| && s.posted[i + 1].cb == Half(half.cb.token, Scraper))
    && (half.cb.kind.Scraper? && i > 0 ==> s.posted[i - 1].cb == Half(half.cb.token, Monitor))
  }

  ghost predicate AsksBoth(d: Desk, t: Token) {
    t < |d.asked| && d.asked[t] == Combined(Status)
  }

  /** No continuation ever holds half of a combined status command. */
  ghost predicate NeverWaits(s: State) {
    forall cb :: cb in OwedBy(s.books) ==> cb.token < |s.desk.asked| && !AsksBoth(s.desk, cb.token)
  }

  /** How far a combined status command has come, and that this agrees with what is queued. */
  ghost predicate InOrder(s: State, t: Token) {
    var done := AnswerersOf(s.desk.answers, t);
    && (done == [] || done == [Half(t, Monitor)] || done == [Half(t, Monitor), Half(t, Scraper)])
    && (forall i :: 0 <= i < |s.posted| && s.posted[i].cb == Half(t, Monitor) ==> done == [])
    && (s.posted != [] && s.posted[0].cb == Half(t, Scraper) ==> done == [Half(t, Monitor)])
  }

  /** Every answer to a combined status command is a pair of tables. */
  ghost predicate TablesOnly(d: Desk) {
    forall i :: 0 <= i < |d.answers| && AsksBoth(d, d.answers[i].cb.token) ==>
                  d.answers[i].response.error == OK && d.answers[i].response.payload.Tables?
  }

  ghost predicate Orderly(s: State) {
    Queued(s) && NeverWaits(s) && TablesOnly(s.desk) && forall t: Token :: AsksBoth(s.desk, t) ==> InOrder(s, t)
  }

  lemma {:induction false} NoAnswerersOf(answers: seq<Answer>, t: Token)
    requires forall i :: 0 <= i < |answers| ==> answers[i].cb.token < t
    ensures AnswerersOf(answers, t) == []
  {
    if answers != [] {
      NoAnswerersOf(answers[..|answers| - 1], t);
    }
  }

  /** A step that answers nobody who asked for both, and queues nothing. */
  lemma AsideKeeps(s: State, after: State)
    requires Orderly(s) && after.posted == s.posted && after.desk.asked == s.desk.asked
    requires after.desk.answers == s.desk.answers
             || exists a: Answer :: after.desk.answers == s.desk.answers + [a] && !AsksBoth(s.desk, a.cb.token)
    requires NeverWaits(after)
    ensures Orderly(after)
  {
    forall i | 0 <= i < |after.posted|
      ensures QueuedOk(after, i)
    {
      assert QueuedOk(s, i);
    }
    if after.desk.answers != s.desk.answers {
      assert after.desk.answers[..|s.desk.answers|] == s.desk.answers;
    }
    forall t: Token | AsksBoth(after.desk, t)
      ensures InOrder(after, t)
    {
      assert AsksBoth(s.desk, t) && InOrder(s, t);
    }
  }

  lemma QueuedTokens(s: State)
    requires Queued(s)
    ensures forall i :: 0 <= i < |s.posted| ==> s.posted[i].cb.token < |s.desk.asked|
  {
    forall i | 0 <= i < |s.posted|
      ensures s.posted[i].cb.token < |s.desk.asked|
    {
      assert QueuedOk(s, i);
    }
  }

  /** A client that is new has no answer yet and nothing queued. */
  lemma NewInOrder(s: State, after: State, t: Token)
    requires Queued(s) && Faithful(s.desk) && t == |s.desk.asked|
    requires after.posted == s.posted && after.desk.answers == s.desk.answers
    ensures InOrder(after, t) && AnswerersOf(after.desk.answers, t) == []
  {
    QueuedTokens(s);
    NoAnswerersOf(s.desk.answers, t);
  }

  lemma AskOrderly(s: State, command: Replies.Command)
    requires Orderly(s) && Accounted(s)
    ensures Orderly(s.(desk := Ask(s.desk, command)))
  {
    var n, after := |s.desk.asked|, s.(desk := Ask(s.desk, command));
    forall i | 0 <= i < |after.posted|
      ensures QueuedOk(after, i)
    {
      assert QueuedOk(s, i);
    }
    forall t: Token | AsksBoth(after.desk, t)
      ensures InOrder(after, t)
    {
      if t == n {
        NewInOrder(s, after, t);
      } else {
        assert AsksBoth(s.desk, t) && InOrder(s, t);
      }
    }
  }

  lemma PairQueued(s: State, after: State, op: Op, args: Args, t: Token)
    requires Queued(s) && after.desk.asked == s.desk.asked && t + 1 == |s.desk.asked| && s.desk.asked[t] == Combined(op)
    requires forall i :: 0 <= i < |s.posted| ==> s.posted[i].cb.token < t
    requires after.posted == s.posted + [Posted(op, args, Half(t, Monitor)), Posted(op, args, Half(t, Scraper))]
    ensures Queued(after)
  {
    var m := |s.posted|;
    assert after.posted[..m] == s.posted && after.posted[m].cb == Half(t, Monitor)
           && after.posted[m + 1].cb == Half(t, Scraper);
    forall i | 0 <= i < |after.posted|
      ensures QueuedOk(after, i)
    {
      assert i < m ==> QueuedOk(s, i);
    }
  }

  lemma PairInOrder(s: State, after: State, op: Op, args: Args, n: Token, t: Token)
    requires InOrder(s, t) && (t == n ==> AnswerersOf(s.desk.answers, t) == [])
    requires after.desk == s.desk
    requires after.posted == s.posted + [Posted(op, args, Half(n, Monitor)), Posted(op, args, Half(n, Scraper))]
    ensures InOrder(after, t)
  {
    assert after.posted[0] == if s.posted == [] then Posted(op, args, Half(n, Monitor)) else s.posted[0];
    assert after.posted[..|s.posted|] == s.posted;
  }

  lemma CombinedOrderly(s: State, op: Op, args: Args, w: World)
    requires Orderly(s) && Accounted(s)
    ensures Orderly(Dispatch(s, Combined(op), args, w))
  {
    var n := |s.desk.asked|;
    var asked, after := s.(desk := Ask(s.desk, Combined(op))), Dispatch(s, Combined(op), args, w);
    AskOrderly(s, Combined(op));
    QueuedTokens(s);
    PairQueued(asked, after, op, args, n);
    NewInOrder(s, asked, n);
    forall t: Token | AsksBoth(after.desk, t)
      ensures InOrder(after, t)
    {
      PairInOrder(asked, after, op, args, n, t);
    }
  }

  /** Concluding a callback that is no half of a combined status command. */
  lemma ConcludeAside(s: State, b: Books, cb: Cb, result: (Books, Verdict))
    requires Orderly(s.(books := b)) && Settled(b, cb, result) && cb.token < |s.desk.asked|
             && !AsksBoth(s.desk, cb.token)
    requires !Conclude(s, cb, result).status.Crashed?
    ensures Orderly(Conclude(s, cb, result))
  {
    var before, after := s.(books := b), Conclude(s, cb, result);
    if result.1.Says? {
      assert after.desk.answers == s.desk.answers + [Answer(cb, result.1.response)];
    }
    AsideKeeps(before, after);
  }

  /** The oldest half leaves the queue, if it is no half of a combined status command. */
  lemma PopOrderly(s: State)
    requires Orderly(s) && s.posted != [] && !s.posted[0].op.Status?
    ensures Orderly(s.(posted := s.posted[1..]))
  {
    var after := s.(posted := s.posted[1..]);
    forall i | 0 <= i < |after.posted|
      ensures QueuedOk(after, i)
    {
      assert QueuedOk(s, i + 1);
    }
    assert QueuedOk(s, 0) && (after.posted != [] ==> QueuedOk(s, 1));
    forall t: Token | AsksBoth(after.desk, t)
      ensures InOrder(after, t)
    {
      assert InOrder(s, t);
    }
  }

  lemma OtherHalfOrderly(s: State, w: World)
    requires Orderly(s) && s.posted != [] && !s.posted[0].op.Status? && !RunPosted(s, w).status.Crashed?
    ensures Orderly(RunPosted(s, w))
  {
    var half, later := s.posted[0], s.(posted := s.posted[1..]);
    assert QueuedOk(s, 0);
    PopOrderly(s);
    assert later == later.(books := s.books);
    ActSettles(s.books, half.op, KindOf(half.cb), half.args, half.cb, w);
    ConcludeAside(later, s.books, half.cb, Act(s.books, half.op, KindOf(half.cb), half.args, half.cb, w));
  }

  /** A status half answers at once, with the tables of its kind as they are now. */
  lemma StatusHalfAnswers(s: State, w: World)
    requires s.posted != [] && s.posted[0].op.Status? && s.status.Running? && !RunPosted(s, w).status.Crashed?
    ensures var cb := s.posted[0].cb;
            && RunPosted(s, w).desk.answers
               == s.desk.answers + [Answer(cb, Response(OK, "", Tabulated(s.books.Of(KindOf(cb)))))]
            && RunPosted(s, w).books == s.books && RunPosted(s, w).posted == s.posted[1..]
            && RunPosted(s, w).desk.asked == s.desk.asked
  {
  }

  lemma StatusHalfQueue(s: State, after: State)
    requires Queued(s) && s.posted != [] && after.posted == s.posted[1..] && after.desk.asked == s.desk.asked
    ensures Queued(after)
    ensures after.posted != [] ==> QueuedOk(s, 1)
    ensures forall i :: 0 <= i < |after.posted| ==> Before(s.posted[0].cb, after.posted[i].cb)
  {
    forall i | 0 <= i < |after.posted|
      ensures QueuedOk(after, i)
    {
      assert QueuedOk(s, i + 1);
    }
  }

  lemma StatusHalfInOrder(s: State, after: State, r: Response, t: Token)
    requires s.posted != [] && QueuedOk(s, 0) && InOrder(s, t)
    requires after.posted == s.posted[1..] && (after.posted != [] ==> QueuedOk(s, 1))
    requires forall i :: 0 <= i < |after.posted| ==> Before(s.posted[0].cb, after.posted[i].cb)
    requires after.desk.answers == s.desk.answers + [Answer(s.posted[0].cb, r)]
    ensures InOrder(after, t)
  {
    assert after.desk.answers[..|s.desk.answers|] == s.desk.answers;
  }

  lemma StatusHalfKeeps(s: State, after: State, r: Response)
    requires Orderly(s) && s.posted != [] && s.posted[0].op.Status?
    requires after.posted == s.posted[1..] && after.books == s.books && after.desk.asked == s.desk.asked
    requires after.desk.answers == s.desk.answers + [Answer(s.posted[0].cb, r)] && r.error == OK && r.payload.Tables?
    ensures Orderly(after)
  {
    StatusHalfQueue(s, after);
    assert QueuedOk(s, 0);
    forall t: Token | AsksBoth(after.desk, t)
      ensures InOrder(after, t)
    {
      assert AsksBoth(s.desk, t);
      StatusHalfInOrder(s, after, r, t);
    }
  }

  /** ... and it does so in its turn. */
  lemma StatusHalfOrderly(s: State, w: World)
    requires Orderly(s) && s.posted != [] && s.posted[0].op.Status? && s.status.Running?
             && !RunPosted(s, w).status.Crashed?
    ensures Orderly(RunPosted(s, w))
  {
    StatusHalfAnswers(s, w);
    StatusHalfKeeps(s, RunPosted(s, w), Response(OK, "", Tabulated(s.books.Of(KindOf(s.posted[0].cb)))));
  }

  lemma ContinueOrderly(s: State, i: nat, result: (Books, Verdict))
    requires Orderly(s) && i < |s.books.waits|
    requires Settled(WithoutWait(s.books, i), s.books.waits[i].cb, result) && !Continue(s, i, result).status.Crashed?
    ensures Orderly(Continue(s, i, result))
  {
    var cb, b := s.books.waits[i].cb, WithoutWait(s.books, i);
    WithoutOwes(s.books.waits, i);
    assert cb in OwedBy(s.books);
    AsideKeeps(s, s.(books := b));
    ConcludeAside(s, b, cb, result);
  }

  lemma DispatchOrderly(s: State, command: Replies.Command, args: Args, w: World)
    requires Orderly(s) && Accounted(s) && s.status.Running? && !Dispatch(s, command, args, w).status.Crashed?
    ensures Orderly(Dispatch(s, command, args, w))
  {
    var asked, cb := s.(desk := Ask(s.desk, command)), Direct(|s.desk.asked|);
    AskOrderly(s, command);
    assert asked == asked.(books := s.books);
    match command
    case Unregistered => ConcludeAside(asked, s.books, cb, (s.books, Says(Failed(UNRECOGNIZED_COMMAND, ""))));
    case Ping => ConcludeAside(asked, s.books, cb, (s.books, Says(Response(OK, "Pong", Nothing))));
    case Shutdown =>
      CancelOwes(s.books.waits, TimersReleased(s.books.stored));
      ConcludeAside(asked, s.books, cb, (TerminateAll(s.books), Says(Ok())));
      var concluded := Conclude(asked, cb, (TerminateAll(s.books), Says(Ok())));
      AsideKeeps(concluded, concluded.(status := ShutDown));
    case Single(op, kind) =>
      ActSettles(s.books, op, kind, args, cb, w);
      ConcludeAside(asked, s.books, cb, Act(s.books, op, kind, args, cb, w));
    case Combined(op) => CombinedOrderly(s, op, args, w);
  }

  lemma AddContinuesOrderly(s: State, i: nat)
    requires Orderly(s) && Enabled(s, AddContinues(i)) && !Step(s, AddContinues(i)).status.Crashed?
    ensures Orderly(Step(s, AddContinues(i)))
  {
    var b, wait := WithoutWait(s.books, i), s.books.waits[i];
    AddDoneSettles(b, wait.key, wait.cb, wait.phase.Cancelled?);
    ContinueOrderly(s, i, AddDone(b, wait.key, wait.phase.Cancelled?));
  }

  lemma StopIsWrittenOrderly(s: State, i: nat, failure: Option<string>)
    requires Orderly(s) && Enabled(s, StopIsWritten(i, failure)) && !Step(s, StopIsWritten(i, failure)).status.Crashed?
    ensures Orderly(Step(s, StopIsWritten(i, failure)))
  {
    var b, wait := WithoutWait(s.books, i), s.books.waits[i];
    StopWrittenSettles(b, wait.key, wait.cb, failure);
    ContinueOrderly(s, i, StopWritten(b, wait.key, wait.cb, failure));
  }

  lemma OutsideOrderly(s: State, e: Event)
    requires Enabled(s, e) && Orderly(s)
    requires HappensOutside(e)
    ensures Orderly(Step(s, e))
  {
    OutsideOwes(s, e);
    AsideKeeps(s, Step(s, e));
  }

  lemma StepKeepsOrderly(s: State, e: Event)
    requires Enabled(s, e) && Orderly(s) && Accounted(s) && !Step(s, e).status.Crashed?
    ensures Orderly(Step(s, e))
  {
    match e
    case Command(command, args, w) => DispatchOrderly(s, command, args, w);
    case PostedRuns(w) =>
      if s.posted[0].op.Status? {
        StatusHalfOrderly(s, w);
      } else {
        OtherHalfOrderly(s, w);
      }
    case AddContinues(i) => AddContinuesOrderly(s, i);
    case StopIsWritten(i, failure) => StopIsWrittenOrderly(s, i, failure);
    case StopIsAnswered(i, r) => ContinueOrderly(s, i, (WithoutWait(s.books, i), Says(r)));
    case _ => OutsideOrderly(s, e);
  }

  lemma {:induction false} EveryRunOrderly(names: ErrorNames, events: seq<Event>)
    requires !Run(names, events).status.Crashed?
    ensures Orderly(Run(names, events))
  {
    if events != [] {
      var n := |events| - 1;
      var s := Run(names, events[..n]);
      if Enabled(s, events[n]) {
        EveryRunOrderly(names, events[..n]);
        EveryRunAccounted(names, events[..n]);
        StepKeepsOrderly(s, events[n]);
      } else {
        EveryRunOrderly(names, events[..n]);
      }
    }
  }

  lemma {:induction false} AsManyAnswerers(answers: seq<Answer>, t: Token)
    ensures |AnswerersOf(answers, t)| == |AnswersTo(answers, t)|
    ensures forall r :: r in AnswersTo(answers, t) ==>
                          exists i :: 0 <= i < |answers| && answers[i].cb.token == t && answers[i].response == r
  {
    if answers != [] {
      var n := |answers| - 1;
      AsManyAnswerers(answers[..n], t);
      forall r | r in AnswersTo(answers, t)
        ensures exists i :: 0 <= i < |answers| && answers[i].cb.token == t && answers[i].response == r
      {
        if r in AnswersTo(answers[..n], t) {
          var i :| 0 <= i < n && answers[..n][i].cb.token == t && answers[..n][i].response == r;
          assert answers[i].cb.token == t && answers[i].response == r;
        } else {
          assert answers[n].cb.token == t && answers[n].response == r;
        }
      }
    }
  }

  // ------------------------------------------------------------- whose tables they are

  /** The status of one kind, as it was after the first `n` events of a run. */
  ghost function StatusAfter(names: ErrorNames, events: seq<Event>, n: nat, kind: Kind): Response
    requires n <= |events|
  {
    Response(OK, "", Tabulated(Run(names, events[..n]).books.Of(kind)))
  }

  lemma ConcludeElsewhere(s: State, cb: Cb, result: (Books, Verdict), t: Token)
    requires cb.token != t
    ensures AnswersTo(Conclude(s, cb, result).desk.answers, t) == AnswersTo(s.desk.answers, t)
  {
    if result.1.Says? {
      AnswersElsewhere(s.desk.answers, Answer(cb, result.1.response), t);
    }
  }

  /** The step that runs the oldest posted half, if that is a status half of this client. */
  ghost predicate RunsStatusOf(s: State, e: Event, t: Token)
    requires Enabled(s, e)
  {
    e.PostedRuns? && s.posted[0].op.Status? && s.posted[0].cb.token == t
  }

  lemma WaiterElsewhere(s: State, i: nat, t: Token)
    requires NeverWaits(s) && i < |s.books.waits| && AsksBoth(s.desk, t)
    ensures s.books.waits[i].cb.token != t
  {
    WithoutOwes(s.books.waits, i);
    assert s.books.waits[i].cb in OwedBy(s.books);
  }

  lemma AddAnswersElsewhere(s: State, i: nat, t: Token)
    requires NeverWaits(s) && AsksBoth(s.desk, t) && Enabled(s, AddContinues(i))
    ensures AnswersTo(Step(s, AddContinues(i)).desk.answers, t) == AnswersTo(s.desk.answers, t)
  {
    var wait := s.books.waits[i];
    WaiterElsewhere(s, i, t);
    ConcludeElsewhere(s, wait.cb, AddDone(WithoutWait(s.books, i), wait.key, wait.phase.Cancelled?), t);
  }

  /** Every other step leaves the answers to a client that asked for both statuses alone. */
  lemma AnswersStay(s: State, e: Event, t: Token)
    requires Enabled(s, e) && Orderly(s) && AsksBoth(s.desk, t) && !RunsStatusOf(s, e, t)
    ensures AnswersTo(Step(s, e).desk.answers, t) == AnswersTo(s.desk.answers, t)
  {
    match e
    case Command(Single(op, kind), args, w) =>
      var cb := Direct(|s.desk.asked|);
      ConcludeElsewhere(s.(desk := Ask(s.desk, e.command)), cb, Act(s.books, op, kind, args, cb, w), t);
    case Command(command, _, _) =>
      if !command.Combined? {
        DispatchElsewhere(s, e, t);
      }
    case PostedRuns(w) =>
      var half := s.posted[0];
      assert QueuedOk(s, 0);
      ConcludeElsewhere(s.(posted := s.posted[1..]), half.cb,
                        Act(s.books, half.op, KindOf(half.cb), half.args, half.cb, w), t);
    case AddContinues(i) => AddAnswersElsewhere(s, i, t);
    case StopIsWritten(i, failure) =>
      var wait := s.books.waits[i];
      WaiterElsewhere(s, i, t);
      ConcludeElsewhere(s, wait.cb, StopWritten(WithoutWait(s.books, i), wait.key, wait.cb, failure), t);
    case StopIsAnswered(i, r) =>
      WaiterElsewhere(s, i, t);
      ConcludeElsewhere(s, s.books.waits[i].cb, (WithoutWait(s.books, i), Says(r)), t);
    case _ =>
  }

  lemma DispatchElsewhere(s: State, e: Event, t: Token)
    requires Enabled(s, e) && e.Command? && !e.command.Combined? && !e.command.Single? && t < |s.desk.asked|
    ensures AnswersTo(Step(s, e).desk.answers, t) == AnswersTo(s.desk.answers, t)
  {
    var asked, cb := s.(desk := Ask(s.desk, e.command)), Direct(|s.desk.asked|);
    match e.command
    case Unregistered => ConcludeElsewhere(asked, cb, (s.books, Says(Failed(UNRECOGNIZED_COMMAND, ""))), t);
    case Ping => ConcludeElsewhere(asked, cb, (s.books, Says(Response(OK, "Pong", Nothing))), t);
    case Shutdown => ConcludeElsewhere(asked, cb, (TerminateAll(s.books), Says(Ok())), t);
  }

  /** A client has asked for both statuses with this very step or before it. */
  lemma AskedBefore(s: State, e: Event, t: Token)
    requires Enabled(s, e) && Accounted(s) && AsksBoth(Step(s, e).desk, t) && !AsksBoth(s.desk, t)
    ensures e.Command? && e.command == Combined(Status) && AnswersTo(Step(s, e).desk.answers, t) == []
  {
    AskedGrows(s, e);
    AskedNow(s.desk, Step(s, e).desk, e, t);
    HalvesWait(s, e);
    NoAnswersTo(s.desk.answers, t);
  }

  /** Only the command that is dispatched can be new. */
  lemma AskedNow(before: Desk, after: Desk, e: Event, t: Token)
    requires after.asked == if e.Command? then before.asked + [e.command] else before.asked
    requires AsksBoth(after, t) && !AsksBoth(before, t)
    ensures e.Command? && e.command == Combined(Status) && t == |before.asked|
  {
  }

  /** Dispatching a combined command answers nothing yet. */
  lemma HalvesWait(s: State, e: Event)
    requires Enabled(s, e) && e.Command? && e.command.Combined?
    ensures Step(s, e).desk.answers == s.desk.answers
  {
  }

  lemma AskedGrows(s: State, e: Event)
    requires Enabled(s, e)
    ensures Step(s, e).desk.asked == if e.Command? then s.desk.asked + [e.command] else s.desk.asked
  {
    match e
    case Command(_, _, _) =>
    case PostedRuns(w) =>
      var half := s.posted[0];
      ConcludeAsks(s.(posted := s.posted[1..]), half.cb, Act(s.books, half.op, KindOf(half.cb), half.args, half.cb, w));
    case AddContinues(i) =>
      var wait := s.books.waits[i];
      ConcludeAsks(s, wait.cb, AddDone(WithoutWait(s.books, i), wait.key, wait.phase.Cancelled?));
    case StopIsWritten(i, failure) =>
      var wait := s.books.waits[i];
      ConcludeAsks(s, wait.cb, StopWritten(WithoutWait(s.books, i), wait.key, wait.cb, failure));
    case _ =>
  }

  lemma ConcludeAsks(s: State, cb: Cb, result: (Books, Verdict))
    ensures Conclude(s, cb, result).desk.asked == s.desk.asked
  {
  }

  /** The half whose turn it is: the one about monitors when nothing was answered yet. */
  lemma WhoseTurn(s: State, t: Token)
    requires s.posted != [] && QueuedOk(s, 0) && InOrder(s, t) && s.posted[0].cb.token == t
    ensures |AnswersTo(s.desk.answers, t)| == if KindOf(s.posted[0].cb).Monitor? then 0 else 1
  {
    var cb := s.posted[0].cb;
    assert cb == Half(t, cb.kind);
    AsManyAnswerers(s.desk.answers, t);
  }

  /** It adds the status of its own kind. */
  lemma HalfInTurn(s: State, e: Event, t: Token)
    requires Enabled(s, e) && RunsStatusOf(s, e, t) && !Step(s, e).status.Crashed?
    ensures AnswersTo(Step(s, e).desk.answers, t)
            == AnswersTo(s.desk.answers, t) + [Response(OK, "", Tabulated(s.books.Of(KindOf(s.posted[0].cb))))]
  {
    var cb := s.posted[0].cb;
    StatusHalfAnswers(s, e.world);
    AnswersElsewhere(s.desk.answers, Answer(cb, Response(OK, "", Tabulated(s.books.Of(KindOf(cb))))), t);
  }

  /** How often a client has been answered, and when: `m` and `n` are the numbers of events after
      which the tables of the first and of the second answer were taken. */
  ghost predicate Dated(names: ErrorNames, events: seq<Event>, answers: seq<Response>, m: nat, n: nat) {
    && |answers| <= 2
    && (|answers| >= 1 ==> m < |events| && answers[0] == StatusAfter(names, events, m, Monitor))
    && (|answers| == 2 ==> m < n < |events| && answers[1] == StatusAfter(names, events, n, Scraper))
  }

  lemma DatedLater(names: ErrorNames, events: seq<Event>, e: Event, answers: seq<Response>, m: nat, n: nat)
    requires Dated(names, events, answers, m, n)
    ensures Dated(names, events + [e], answers, m, n)
  {
    if |answers| >= 1 {
      assert (events + [e])[..m] == events[..m];
    }
    if |answers| == 2 {
      assert (events + [e])[..n] == events[..n];
    }
  }

  lemma DatedNow(names: ErrorNames, events: seq<Event>, e: Event, answers: seq<Response>, kind: Kind, m: nat, n: nat)
    returns (m2: nat, n2: nat)
    requires Dated(names, events, answers, m, n) && |answers| == if kind.Monitor? then 0 else 1
    ensures Dated(names, events + [e], answers + [Response(OK, "", Tabulated(Run(names, events).books.Of(kind)))], m2,
                  n2)
  {
    DatedLater(names, events, e, answers, m, n);
    assert (events + [e])[..|events|] == events;
    m2, n2 := if kind.Monitor? then |events| else m, |events|;
  }

  lemma DatedStep(names: ErrorNames, events: seq<Event>, s: State, e: Event, t: Token, m: nat, n: nat)
    returns (m2: nat, n2: nat)
    requires s == Run(names, events) && Enabled(s, e) && !Step(s, e).status.Crashed? && Orderly(s)
             && AsksBoth(s.desk, t)
    requires Dated(names, events, AnswersTo(s.desk.answers, t), m, n)
    ensures Dated(names, events + [e], AnswersTo(Step(s, e).desk.answers, t), m2, n2)
  {
    if RunsStatusOf(s, e, t) {
      assert QueuedOk(s, 0) && InOrder(s, t);
      WhoseTurn(s, t);
      HalfInTurn(s, e, t);
      m2, n2 := DatedNow(names, events, e, AnswersTo(s.desk.answers, t), KindOf(s.posted[0].cb), m, n);
    } else {
      AnswersStay(s, e, t);
      DatedLater(names, events, e, AnswersTo(s.desk.answers, t), m, n);
      m2, n2 := m, n;
    }
  }

  /** An answer after the last step, given when the answers before it were taken. */
  lemma DatedNext(names: ErrorNames, events: seq<Event>, s: State, e: Event, t: Token, m: nat, n: nat)
    returns (m2: nat, n2: nat)
    requires s == Run(names, events) && Enabled(s, e) && !Step(s, e).status.Crashed? && AsksBoth(Step(s, e).desk, t)
    requires Orderly(s) && Accounted(s)
    requires AsksBoth(s.desk, t) ==> Dated(names, events, AnswersTo(s.desk.answers, t), m, n)
    ensures Dated(names, events + [e], AnswersTo(Step(s, e).desk.answers, t), m2, n2)
  {
    m2, n2 := 0, 0;
    if AsksBoth(s.desk, t) {
      m2, n2 := DatedStep(names, events, s, e, t, m, n);
    } else {
      AskedBefore(s, e, t);
    }
  }

  lemma {:induction false} AnswersAreDated(names: ErrorNames, events: seq<Event>, t: Token) returns (m: nat, n: nat)
    requires !Run(names, events).status.Crashed? && AsksBoth(Run(names, events).desk, t)
    ensures Dated(names, events, AnswersTo(Run(names, events).desk.answers, t), m, n)
    decreases |events|
  {
    m, n := 0, 0;
    if events != [] {
      var init, e := events[..|events| - 1], events[|events| - 1];
      assert events == init + [e];
      var s := Run(names, init);
      if AsksBoth(s.desk, t) {
        m, n := AnswersAreDated(names, init, t);
      }
      if Enabled(s, e) {
        EveryRunOrderly(names, init);
        EveryRunAccounted(names, init);
        m, n := DatedNext(names, init, s, e, t, m, n);
      } else {
        DatedLater(names, init, e, AnswersTo(s.desk.answers, t), m, n);
      }
    }
  }

  /** On every run that does not fail, a client that asked for both statuses and has its reply got,
      under the monitors, the table of the monitors as it was after some number of events and,
      under the scrapers, the table of the scrapers as it was after some later number. */
  lemma MonitorsBeforeScrapers(names: ErrorNames, events: seq<Event>, t: Token) returns (m: nat, n: nat)
    requires !Run(names, events).status.Crashed? && AsksBoth(Run(names, events).desk, t)
    requires RepliesTo(Run(names, events).desk.replies, t) != []
    ensures m < n < |events|
    ensures RepliesTo(Run(names, events).desk.replies, t)
            == [Response(OK, "", Payload.Both(Tabulated(Run(names, events[..m]).books.Of(Monitor)),
                                              Tabulated(Run(names, events[..n]).books.Of(Scraper))))]
  {
    m, n := AnswersAreDated(names, events, t);
    EveryRunAccounted(names, events);
    assert ToldRight(Run(names, events).desk, t);
  }
}
