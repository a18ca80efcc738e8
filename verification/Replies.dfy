/** Who is owed a reply, who has had one, and the two-way join in front of combined commands. */
module Replies {
  import opened Options
  import opened Messages

  /** The clients, numbered in the order in which their commands were dispatched. */
  type Token = nat

  datatype Op = Add | Status | Stop

  datatype Command =
    | Ping
    | Shutdown
    | Single(op: Op, kind: Kind)
    | Combined(op: Op)
    | Unregistered

  /** A reply obligation: the callback of a client's connection, or one half of a join. */
  datatype Cb = Direct(token: Token) | Half(token: Token, kind: Kind)

  /** The fields of a completion object. */
  datatype Join = Join(op: Op, bothCompleted: bool, firstResponse: Response)

  /** A callback was invoked. */
  datatype Answer = Answer(cb: Cb, response: Response)

  /** A response was written to a client. */
  datatype Reply = Reply(token: Token, response: Response)

  datatype Desk = Desk(
    asked: seq<Command>,
    joins: map<Token, Join>,
    answers: seq<Answer>,
    replies: seq<Reply>,
    dropped: multiset<Cb>,  // obligations that a continuation let go without invoking them
    names: ErrorNames)

  /** The callbacks that dispatching a command creates. */
  function CbsOf(t: Token, command: Command): multiset<Cb> {
    if command.Combined? then multiset{Half(t, Monitor), Half(t, Scraper)} else multiset{Direct(t)}
  }

  /** Dispatching registers the client and, for a combined command, builds its join. */
  function Ask(d: Desk, command: Command): Desk {
    d.(asked := d.asked + [command],
       joins := if command.Combined? then d.joins[|d.asked| := Join(command.op, false, Ok())] else d.joins)
  }

  function OrEmpty(p: Payload): Payload {
    if p.Nothing? then EmptyObject else p
  }

  /** What a completion answers its client once both halves are in. */
  function Merged(op: Op, first: Response, second: Response, names: ErrorNames): Option<Response> {
    match op
    case Add => CommonResponse(first, second, MM_COULDNT_ADD_MONITOR_SCRAPER, names)
    case Stop => CommonResponse(first, second, MM_COULDNT_STOP_MONITOR_SCRAPER, names)
    case Status =>
      match CommonResponse(first, second, UNKNOWN_ERROR, names)
      case None => None
      case Some(r) => Some(r.(payload := Payload.Both(OrEmpty(first.payload), OrEmpty(second.payload))))
  }

  /** What arrives at a completion: its new fields, and the two responses its callback is
      invoked with, if it is. */
  function Arrive(j: Join, r: Response): (Join, Option<(Response, Response)>) {
    if !j.bothCompleted then (j.(bothCompleted := true, firstResponse := r), None)
    else (j, Some((j.firstResponse, r)))
  }

  /** Invoking a callback. None stands for an exception out of the merging. */
  function Respond(d: Desk, cb: Cb, r: Response): Option<Desk> {
    var t, logged := cb.token, d.(answers := d.answers + [Answer(cb, r)]);
    if cb.Direct? then Some(logged.(replies := d.replies + [Reply(t, r)]))
    else if t !in d.joins then None
    else
      var (join, fires) := Arrive(d.joins[t], r);
      var arrived := logged.(joins := d.joins[t := join]);
      if fires.None? then Some(arrived)
      else
        match Merged(join.op, fires.value.0, fires.value.1, d.names)
        case None => None
        case Some(merged) => Some(arrived.(replies := d.replies + [Reply(t, merged)]))
  }

  function Drop(d: Desk, cb: Cb): Desk {
    d.(dropped := d.dropped + multiset{cb})
  }

  // ------------------------------------------------------------- the ledger

  /** Every callback that was ever created. */
  ghost function Issued(asked: seq<Command>): multiset<Cb> {
    if asked == [] then multiset{}
    else
      var t := |asked| - 1;
      Issued(asked[..t]) + CbsOf(t, asked[t])
  }

  /** Every callback that was invoked, as often as it was. */
  ghost function Invoked(answers: seq<Answer>): multiset<Cb> {
    if answers == [] then multiset{}
    else
      var n := |answers| - 1;
      Invoked(answers[..n]) + multiset{answers[n].cb}
  }

  /** Conservation: every obligation ever created is owed by someone, was met, or was dropped,
      and is in no two of these places. */
  ghost predicate Balanced(d: Desk, owed: multiset<Cb>) {
    owed + Invoked(d.answers) + d.dropped == Issued(d.asked)
  }

  ghost function AnswersTo(answers: seq<Answer>, t: Token): seq<Response> {
    if answers == [] then []
    else
      var n := |answers| - 1;
      AnswersTo(answers[..n], t) + if answers[n].cb.token == t then [answers[n].response] else []
  }

  ghost function RepliesTo(replies: seq<Reply>, t: Token): seq<Response> {
    if replies == [] then []
    else
      var n := |replies| - 1;
      RepliesTo(replies[..n], t) + if replies[n].token == t then [replies[n].response] else []
  }

  /** What client `t` has been told, given how its callbacks were invoked: a plain command is
      answered as its callback was; a combined one is answered once, with both halves merged,
      when the second half is in, and not before. */
  ghost predicate ToldRight(d: Desk, t: Token)
    requires t < |d.asked|
  {
    var answers, replies := AnswersTo(d.answers, t), RepliesTo(d.replies, t);
    if d.asked[t].Combined? then
      && t in d.joins && d.joins[t].op == d.asked[t].op
      && |answers| <= 2
      && d.joins[t].bothCompleted == (answers != [])
      && (answers != [] ==> d.joins[t].firstResponse == answers[0])
      && (if |answers| < 2 then replies == []
          else |replies| == 1 && Merged(d.asked[t].op, answers[0], answers[1], d.names) == Some(replies[0]))
    else
      |answers| <= 1 && replies == answers
  }

  ghost predicate Faithful(d: Desk) {
    && (forall t :: 0 <= t < |d.asked| ==> ToldRight(d, t))
    && (forall i :: 0 <= i < |d.replies| ==> d.replies[i].token < |d.asked|)
    && (forall i :: 0 <= i < |d.answers| ==> d.answers[i].cb.token < |d.asked|)
  }

  lemma CbsOfOnce(t: Token, command: Command, cb: Cb)
    ensures CbsOf(t, command)[cb] == if cb.token == t && cb.Half? == command.Combined? then 1 else 0
  {
    match cb
    case Direct(_) =>
    case Half(_, Monitor) =>
    case Half(_, Scraper) =>
  }

  /** Which callbacks exist, and that each exists once. */
  lemma {:induction false} IssuedOnce(asked: seq<Command>, cb: Cb)
    ensures Issued(asked)[cb] == if cb.token < |asked| && cb.Half? == asked[cb.token].Combined? then 1 else 0
  {
    if asked != [] {
      var t := |asked| - 1;
      IssuedOnce(asked[..t], cb);
      CbsOfOnce(t, asked[t], cb);
    }
  }

  /** Counting the answers to a client by callback. */
  lemma {:induction false} AnswersCounted(answers: seq<Answer>, t: Token)
    ensures |AnswersTo(answers, t)|
            == Invoked(answers)[Direct(t)] + Invoked(answers)[Half(t, Monitor)] + Invoked(answers)[Half(t, Scraper)]
  {
    if answers != [] {
      var n := |answers| - 1;
      AnswersCounted(answers[..n], t);
      match answers[n].cb
      case Direct(_) =>
      case Half(_, Monitor) =>
      case Half(_, Scraper) =>
    }
  }

  lemma {:induction false} NoAnswersTo(answers: seq<Answer>, t: Token)
    requires forall i :: 0 <= i < |answers| ==> answers[i].cb.token < t
    ensures AnswersTo(answers, t) == []
  {
    if answers != [] {
      NoAnswersTo(answers[..|answers| - 1], t);
    }
  }

  lemma {:induction false} NoRepliesTo(replies: seq<Reply>, t: Token)
    requires forall i :: 0 <= i < |replies| ==> replies[i].token < t
    ensures RepliesTo(replies, t) == []
  {
    if replies != [] {
      NoRepliesTo(replies[..|replies| - 1], t);
    }
  }

  /** An owed callback belongs to a client, fits its command and was not invoked before; of its
      client's other half at most one answer is in. */
  lemma OwedIsFresh(d: Desk, owed: multiset<Cb>, cb: Cb)
    requires Balanced(d, owed) && cb in owed
    ensures cb.token < |d.asked| && cb.Half? == d.asked[cb.token].Combined?
    ensures owed[cb] == 1 && Invoked(d.answers)[cb] == 0 && d.dropped[cb] == 0
    ensures |AnswersTo(d.answers, cb.token)| <= if cb.Half? then 1 else 0
  {
    var t := cb.token;
    assert Issued(d.asked)[cb] == owed[cb] + Invoked(d.answers)[cb] + d.dropped[cb];
    IssuedOnce(d.asked, cb);
    AnswersCounted(d.answers, t);
    Bounded(d, owed, Direct(t));
    Bounded(d, owed, Half(t, Monitor));
    Bounded(d, owed, Half(t, Scraper));
    match cb
    case Direct(_) =>
    case Half(_, Monitor) =>
    case Half(_, Scraper) =>
  }

  lemma Bounded(d: Desk, owed: multiset<Cb>, cb: Cb)
    requires Balanced(d, owed)
    ensures Invoked(d.answers)[cb] <= if cb.token < |d.asked| && cb.Half? == d.asked[cb.token].Combined? then 1 else 0
  {
    assert Issued(d.asked)[cb] == owed[cb] + Invoked(d.answers)[cb] + d.dropped[cb];
    IssuedOnce(d.asked, cb);
  }

  lemma AskKeeps(d: Desk, owed: multiset<Cb>, command: Command)
    requires Balanced(d, owed) && Faithful(d)
    ensures Balanced(Ask(d, command), owed + CbsOf(|d.asked|, command)) && Faithful(Ask(d, command))
  {
    assert Ask(d, command).asked[..|d.asked|] == d.asked;
    AskTells(d, command);
  }

  lemma AskTells(d: Desk, command: Command)
    requires Faithful(d)
    ensures Faithful(Ask(d, command))
  {
    var n, after := |d.asked|, Ask(d, command);
    NoAnswersTo(d.answers, n);
    NoRepliesTo(d.replies, n);
    forall t | 0 <= t < |after.asked|
      ensures ToldRight(after, t)
    {
      if t < n {
        assert ToldRight(d, t);
      }
    }
  }

  lemma AnswersElsewhere(answers: seq<Answer>, a: Answer, t: Token)
    ensures AnswersTo(answers + [a], t) == AnswersTo(answers, t) + if a.cb.token == t then [a.response] else []
  {
    assert (answers + [a])[..|answers|] == answers;
  }

  lemma RepliesElsewhere(replies: seq<Reply>, r: Reply, t: Token)
    ensures RepliesTo(replies + [r], t) == RepliesTo(replies, t) + if r.token == t then [r.response] else []
  {
    assert (replies + [r])[..|replies|] == replies;
  }

  /** What invoking a callback changes: there is at most one reply, to the client of that callback. */
  lemma RespondReplies(d: Desk, cb: Cb, r: Response)
    requires Respond(d, cb, r).Some?
    ensures var after := Respond(d, cb, r).value.replies;
            after == d.replies || (|after| == |d.replies| + 1
              && after == d.replies + [Reply(cb.token, after[|d.replies|].response)])
  {
  }

  lemma RespondJoins(d: Desk, cb: Cb, r: Response, t: Token)
    requires Respond(d, cb, r).Some? && t != cb.token
    ensures var after := Respond(d, cb, r).value;
            after.names == d.names && (t in after.joins <==> t in d.joins)
              && (t in d.joins ==> after.joins[t] == d.joins[t])
  {
  }

  lemma RespondChanges(d: Desk, cb: Cb, r: Response, t: Token)
    requires Respond(d, cb, r).Some? && t != cb.token
    ensures AnswersTo(Respond(d, cb, r).value.answers, t) == AnswersTo(d.answers, t)
    ensures RepliesTo(Respond(d, cb, r).value.replies, t) == RepliesTo(d.replies, t)
  {
    var after := Respond(d, cb, r).value;
    RespondLogs(d, cb, r);
    RespondReplies(d, cb, r);
    AnswersElsewhere(d.answers, Answer(cb, r), t);
    if after.replies != d.replies {
      RepliesElsewhere(d.replies, after.replies[|d.replies|], t);
    }
  }

  /** Only the client of the invoked callback notices. */
  lemma RespondTellsOne(d: Desk, cb: Cb, r: Response, t: Token)
    requires Respond(d, cb, r).Some? && t < |d.asked| && ToldRight(d, t) && t != cb.token
    ensures ToldRight(Respond(d, cb, r).value, t)
  {
    RespondLogs(d, cb, r);
    RespondJoins(d, cb, r, t);
    RespondChanges(d, cb, r, t);
  }

  /** A fresh callback tells its client what it should. */
  lemma RespondTellsRight(d: Desk, cb: Cb, r: Response)
    requires Respond(d, cb, r).Some? && cb.token < |d.asked| && ToldRight(d, cb.token)
    requires cb.Half? == d.asked[cb.token].Combined?
    requires |AnswersTo(d.answers, cb.token)| <= if cb.Half? then 1 else 0
    ensures ToldRight(Respond(d, cb, r).value, cb.token)
  {
    var t, after := cb.token, Respond(d, cb, r).value;
    assert after.answers[..|d.answers|] == d.answers;
    assert AnswersTo(after.answers, t) == AnswersTo(d.answers, t) + [r];
    if cb.Direct? || d.joins[t].bothCompleted {
      assert after.replies[..|d.replies|] == d.replies;
    }
  }

  lemma RespondLogs(d: Desk, cb: Cb, r: Response)
    requires Respond(d, cb, r).Some?
    ensures var after := Respond(d, cb, r).value;
            after.asked == d.asked && after.dropped == d.dropped && after.answers == d.answers + [Answer(cb, r)]
  {
  }

  lemma OneMoreInvoked(answers: seq<Answer>, a: Answer)
    ensures Invoked(answers + [a]) == Invoked(answers) + multiset{a.cb}
  {
    assert (answers + [a])[..|answers|] == answers;
  }

  lemma RespondBalances(d: Desk, owed: multiset<Cb>, cb: Cb, r: Response)
    requires Balanced(d, owed) && cb in owed && Respond(d, cb, r).Some?
    ensures Balanced(Respond(d, cb, r).value, owed - multiset{cb})
  {
    RespondLogs(d, cb, r);
    OneMoreInvoked(d.answers, Answer(cb, r));
  }

  lemma RespondTells(d: Desk, cb: Cb, r: Response)
    requires Faithful(d) && Respond(d, cb, r).Some?
    requires cb.token < |d.asked| && cb.Half? == d.asked[cb.token].Combined?
    requires |AnswersTo(d.answers, cb.token)| <= if cb.Half? then 1 else 0
    ensures Faithful(Respond(d, cb, r).value)
  {
    var after := Respond(d, cb, r).value;
    assert after.asked == d.asked;
    forall t | 0 <= t < |d.asked|
      ensures ToldRight(after, t)
    {
      assert ToldRight(d, t);
      if t == cb.token {
        RespondTellsRight(d, cb, r);
      } else {
        RespondTellsOne(d, cb, r, t);
      }
    }
  }

  /** Invoking an owed callback meets that obligation and no other. */
  lemma RespondKeeps(d: Desk, owed: multiset<Cb>, cb: Cb, r: Response)
    requires Balanced(d, owed) && Faithful(d) && cb in owed && Respond(d, cb, r).Some?
    ensures Balanced(Respond(d, cb, r).value, owed - multiset{cb})
    ensures Faithful(Respond(d, cb, r).value)
  {
    OwedIsFresh(d, owed, cb);
    RespondBalances(d, owed, cb, r);
    RespondTells(d, cb, r);
  }

  lemma DropKeeps(d: Desk, owed: multiset<Cb>, cb: Cb)
    requires Balanced(d, owed) && Faithful(d) && cb in owed
    ensures Balanced(Drop(d, cb), owed - multiset{cb}) && Faithful(Drop(d, cb))
  {
    forall t | 0 <= t < |d.asked|
      ensures ToldRight(Drop(d, cb), t)
    {
      assert ToldRight(d, t);
    }
  }

  /** No client is answered twice. */
  lemma AtMostOneReply(d: Desk, t: Token)
    requires Faithful(d) && t < |d.asked|
    ensures |RepliesTo(d.replies, t)| <= 1
  {
    assert ToldRight(d, t);
  }

  lemma OneWhereabouts(d: Desk, owed: multiset<Cb>, cb: Cb)
    requires Balanced(d, owed) && cb.token < |d.asked|
    ensures owed[cb] + Invoked(d.answers)[cb] + d.dropped[cb] == if cb.Half? == d.asked[cb.token].Combined? then 1
            else 0
  {
    assert Issued(d.asked)[cb] == owed[cb] + Invoked(d.answers)[cb] + d.dropped[cb];
    IssuedOnce(d.asked, cb);
  }

  /** A client is still without a reply exactly when one of its callbacks is owed or was
      dropped. */
  lemma UnansweredExactly(d: Desk, owed: multiset<Cb>, t: Token)
    requires Balanced(d, owed) && Faithful(d) && t < |d.asked|
    ensures RepliesTo(d.replies, t) == [] <==>
            exists cb :: cb in CbsOf(t, d.asked[t]) && (cb in owed || cb in d.dropped)
  {
    assert ToldRight(d, t);
    AnswersCounted(d.answers, t);
    OneWhereabouts(d, owed, Direct(t));
    OneWhereabouts(d, owed, Half(t, Monitor));
    OneWhereabouts(d, owed, Half(t, Scraper));
    if RepliesTo(d.replies, t) == [] {
      if d.asked[t].Combined? {
        var cb := if Invoked(d.answers)[Half(t, Monitor)] == 0 then Half(t, Monitor) else Half(t, Scraper);
        assert cb in CbsOf(t, d.asked[t]) && (cb in owed || cb in d.dropped);
      } else {
        assert Direct(t) in CbsOf(t, d.asked[t]) && (Direct(t) in owed || Direct(t) in d.dropped);
      }
    }
  }

  /** A failed response whose error code is not registered. */
  predicate Unspeakable(d: Desk, r: Response) {
    r.error != OK && r.error !in d.names
  }

  /** Exactly when invoking an owed callback throws: it completes a join of which one half failed
      with an unregistered error code. */
  lemma RespondFailsExactly(d: Desk, owed: multiset<Cb>, cb: Cb, r: Response)
    requires Balanced(d, owed) && Faithful(d) && cb in owed
    ensures cb.token < |d.asked| && (cb.Half? ==> cb.token in d.joins)
    ensures Respond(d, cb, r).None? <==>
            cb.Half? && d.joins[cb.token].bothCompleted
            && (Unspeakable(d, d.joins[cb.token].firstResponse) || Unspeakable(d, r))
  {
    OwedIsFresh(d, owed, cb);
    assert ToldRight(d, cb.token);
    if cb.Half? {
      var first := d.joins[cb.token].firstResponse;
      CommonResponseMeans(first, r, MM_COULDNT_ADD_MONITOR_SCRAPER, d.names);
      CommonResponseMeans(first, r, MM_COULDNT_STOP_MONITOR_SCRAPER, d.names);
      CommonResponseMeans(first, r, UNKNOWN_ERROR, d.names);
    }
  }

  // ------------------------------------------------------------- what invoking a callback does

  /** How a merged response speaks of one half. */
  ghost predicate Describes(text: string, r: Response, names: ErrorNames) {
    if r.error == OK then text == ""
    else r.error in names && text == names[r.error] + if r.info == "" then "; " else ": " + r.info + " "
  }

  /** The merged response: OK exactly when both halves are and otherwise with the error code of
      the combined command, describing what failed in the order of arrival. Only a status has a
      payload, the first answer under the monitors and the second under the scrapers. */
  ghost predicate MergedRight(op: Op, first: Response, second: Response, names: ErrorNames, merged: Response) {
    && (merged.error == OK <==> first.error == OK && second.error == OK)
    && (merged.error != OK ==>
          match op
          case Add => merged.error == MM_COULDNT_ADD_MONITOR_SCRAPER
          case Stop => merged.error == MM_COULDNT_STOP_MONITOR_SCRAPER
          case Status => merged.error == UNKNOWN_ERROR)
    && (exists one, two :: Describes(one, first, names) && Describes(two, second, names) && merged.info == one + two)
    && (op.Status? <==> merged.payload.Both?)
    && (!op.Status? ==> merged.payload == Nothing)
    && (op.Status? ==>
          && merged.payload.monitors == (if first.payload == Nothing then EmptyObject else first.payload)
          && merged.payload.scrapers == (if second.payload == Nothing then EmptyObject else second.payload))
  }

  lemma MergedMeans(op: Op, first: Response, second: Response, names: ErrorNames)
    ensures Merged(op, first, second, names).None? <==>
            (first.error != OK && first.error !in names) || (second.error != OK && second.error !in names)
    ensures Merged(op, first, second, names).Some? ==>
              MergedRight(op, first, second, names, Merged(op, first, second, names).value)
  {
    if Merged(op, first, second, names).Some? {
      var one, two := Described(first, names), Described(second, names);
      assert one.Some? && two.Some?;
      assert Describes(one.value, first, names) && Describes(two.value, second, names);
      assert Merged(op, first, second, names).value.info == one.value + two.value;
    }
  }

  /** Invoking this callback makes the merging of two halves throw. (Every half that is owed has
      its join.) */
  ghost predicate MergeThrows(d: Desk, cb: Cb, r: Response) {
    && cb.Half?
    && (cb.token in d.joins ==>
          && d.joins[cb.token].bothCompleted
          && (Unspeakable(d, d.joins[cb.token].firstResponse) || Unspeakable(d, r)))
  }

  /** A callback was invoked once: a client's own one writes this response to the client; the
      first half of a join writes nothing and is remembered, and the second writes both, merged. */
  ghost predicate Answered(d: Desk, after: Desk, cb: Cb, r: Response) {
    && after.answers == d.answers + [Answer(cb, r)]
    && after.asked == d.asked && after.dropped == d.dropped && after.names == d.names
    && match cb
       case Direct(t) => after.joins == d.joins && after.replies == d.replies + [Reply(t, r)]
       case Half(t, _) =>
         && t in d.joins
         && var join := d.joins[t];
            if !join.bothCompleted then
              after.replies == d.replies && after.joins == d.joins[t := Join(join.op, true, r)]
            else
              && after.joins == d.joins
              && exists merged :: after.replies == d.replies + [Reply(t, merged)]
                                  && MergedRight(join.op, join.firstResponse, r, d.names, merged)
  }

  /** That is what invoking a callback does, and it throws exactly when the merging does. */
  lemma RespondMeans(d: Desk, cb: Cb, r: Response)
    ensures Respond(d, cb, r).None? <==> MergeThrows(d, cb, r)
    ensures Respond(d, cb, r).Some? ==> Answered(d, Respond(d, cb, r).value, cb, r)
  {
    if cb.Half? && cb.token in d.joins && d.joins[cb.token].bothCompleted {
      var join := d.joins[cb.token];
      MergedMeans(join.op, join.firstResponse, r, d.names);
      if Respond(d, cb, r).Some? {
        var merged := Merged(join.op, join.firstResponse, r, d.names).value;
        var after := Respond(d, cb, r).value;
        assert after.joins == d.joins;
        assert after.replies == d.replies + [Reply(cb.token, merged)];
      }
    }
  }
}
