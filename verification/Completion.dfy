/** The two-way join as an object: two halves of a combined command call it back. */
module CompletionObject {
  import opened Options
  import opened Messages
  import opened Replies

  class MonitorScraperCompletion {
    const op: Op
    var bothCompleted: bool
    var firstResponse: Response
    /** What the completion callback was invoked with, in order. */
    var fired: seq<(Response, Response)>
    /** Every response that arrived, in order. */
    ghost var arrived: seq<Response>

    constructor (op: Op)
      ensures Valid() && arrived == [] && this.op == op && Fields() == Join(op, false, Ok())
    {
      this.op := op;
      bothCompleted, firstResponse, fired := false, Ok(), [];
      arrived := [];
    }

    function Fields(): Join
      reads this
    {
      Join(op, bothCompleted, firstResponse)
    }

    /** The callback was invoked once for every response but the first, and always with the
        first. */
    ghost predicate Valid()
      reads this
    {
      && bothCompleted == (arrived != [])
      && (arrived != [] ==> firstResponse == arrived[0])
      && |fired| == (if arrived == [] then 0 else |arrived| - 1)
      && forall i :: 0 <= i < |fired| ==> fired[i] == (arrived[0], arrived[i + 1])
    }

    /** The fields change as the join of the event loop does, and the callback is invoked when
        it says so. */
    method CheckForCompletion(response: Response)
      requires Valid()
      modifies this
      ensures Valid() && arrived == old(arrived) + [response]
      ensures var (join, fires) := Arrive(old(Fields()), response);
              Fields() == join && fired == old(fired) + if fires.Some? then [fires.value] else []
    {
      arrived := arrived + [response];
      if !bothCompleted {
        bothCompleted := true;
        firstResponse := response;
        return;
      }
      fired := fired + [(firstResponse, response)];
    }
  }

  /** Two halves that each reply once: nothing happens at the first reply, and at the second the
      callback is invoked, once, with both in the order of their arrival. */
  method BothHalves(op: Op, first: Response, second: Response)
    returns (one: seq<(Response, Response)>, two: seq<(Response, Response)>)
    ensures one == [] && two == [(first, second)]
  {
    var completion := new MonitorScraperCompletion(op);
    completion.CheckForCompletion(first);
    one := completion.fired;
    completion.CheckForCompletion(second);
    two := completion.fired;
  }
}
