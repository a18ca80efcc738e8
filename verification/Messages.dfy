/** Responses, their error codes, and the merging of the two halves of a combined command. */
module Messages {
  import opened Options

  datatype Kind = Monitor | Scraper

  const OK: nat := 0
  const SOCKET_DOESNT_EXIST: nat := 1
  const MONITOR_NOT_REGISTERED: nat := 6
  const SCRAPER_NOT_REGISTERED: nat := 7
  const UNRECOGNIZED_COMMAND: nat := 8
  const MISSING_PAYLOAD: nat := 10
  const MISSING_PAYLOAD_ARGS: nat := 11
  const MM_COULDNT_ADD_MONITOR: nat := 12
  const MM_COULDNT_ADD_SCRAPER: nat := 13
  const MM_COULDNT_ADD_MONITOR_SCRAPER: nat := 14
  const MM_COULDNT_STOP_MONITOR: nat := 15
  const MM_COULDNT_STOP_SCRAPER: nat := 16
  const MM_COULDNT_STOP_MONITOR_SCRAPER: nat := 17
  const UNKNOWN_ERROR: nat := 19

  /** What a response carries: nothing, one status, the two statuses of a combined command, or
      whatever a monitor or scraper sent. */
  datatype Payload =
    | Nothing
    | EmptyObject
    | Tables(processes: map<string, nat>, sockets: map<string, string>)
    | Both(monitors: Payload, scrapers: Payload)
    | Foreign(json: string)

  datatype Response = Response(error: nat, info: string, payload: Payload)

  function Ok(): Response {
    Response(OK, "", Nothing)
  }

  function Failed(error: nat, info: string): Response {
    Response(error, info, Nothing)
  }

  /** The registered error names; looking up any other code throws. */
  type ErrorNames = map<nat, string>

  /** What the merged response says about one half: nothing when it succeeded. None stands for
      the exception that looking up an unregistered code throws. */
  function Described(r: Response, names: ErrorNames): Option<string> {
    if r.error == OK then Some("")
    else if r.error !in names then None
    else if r.info == "" then Some(names[r.error] + "; ")
    else Some(names[r.error] + ": " + r.info + " ")
  }

  /** OK when both halves are, and otherwise the common error with the failed halves described
      in the order in which they arrived. */
  function CommonResponse(first: Response, second: Response, commonError: nat, names: ErrorNames): Option<Response> {
    if first.error == OK && second.error == OK then Some(Ok())
    else
      var one, two := Described(first, names), Described(second, names);
      if one.None? || two.None? then None else Some(Failed(commonError, one.value + two.value))
  }

  /** What the loop has described after its first `k` rounds. */
  function DescribedPrefix(rs: seq<Response>, k: nat, names: ErrorNames): Option<string>
    requires k <= |rs|
  {
    if k == 0 then Some("")
    else
      var before, last := DescribedPrefix(rs, k - 1, names), Described(rs[k - 1], names);
      if before.None? || last.None? then None else Some(before.value + last.value)
  }

  /** The merging loop, over the two halves as the source lists them. */
  method MakeCommonResponse(first: Response, second: Response, commonError: nat, names: ErrorNames)
    returns (r: Option<Response>)
    ensures r == CommonResponse(first, second, commonError, names)
  {
    var final := Ok();
    if first.error != OK || second.error != OK {
      final := final.(error := commonError);
      var responses, info := [first, second], "";
      for i := 0 to 2
        invariant DescribedPrefix(responses, i, names) == Some(info)
      {
        var response := responses[i];
        ghost var before := info;
        if response.error != OK {
          if response.error !in names {
            return None;
          }
          info := info + names[response.error];
          if response.info != "" {
            info := info + (": " + response.info + " ");
          } else {
            info := info + "; ";
          }
        }
        assert info == before + Described(response, names).value;
      }
      TwoDescribed(responses, names);
      final := final.(info := info);
    }
    r := Some(final);
  }

  lemma TwoDescribed(rs: seq<Response>, names: ErrorNames)
    requires |rs| == 2 && DescribedPrefix(rs, 2, names).Some?
    ensures Described(rs[0], names).Some? && Described(rs[1], names).Some?
    ensures DescribedPrefix(rs, 2, names).value == Described(rs[0], names).value + Described(rs[1], names).value
  {
    var none, one := DescribedPrefix(rs, 0, names), DescribedPrefix(rs, 1, names);
    assert none == Some("");
    assert one.Some? && Described(rs[0], names).Some?;
    assert one.value == none.value + Described(rs[0], names).value;
  }

  /** The merged response is OK exactly when both halves are, it throws exactly when a failed
      half has an unregistered code, and otherwise it carries the common error and describes the
      failed halves only, in the order of their arrival. */
  lemma CommonResponseMeans(first: Response, second: Response, commonError: nat, names: ErrorNames)
    requires commonError != OK
    ensures CommonResponse(first, second, commonError, names) == Some(Ok()) <==> first.error == OK && second.error == OK
    ensures CommonResponse(first, second, commonError, names).None? <==>
            (first.error != OK && first.error !in names) || (second.error != OK && second.error !in names)
    ensures first.error != OK && second.error == OK && first.error in names ==>
              CommonResponse(first, second, commonError, names)
                == Some(Failed(commonError, Described(first, names).value))
    ensures first.error == OK && second.error != OK && second.error in names ==>
              CommonResponse(first, second, commonError, names)
                == Some(Failed(commonError, Described(second, names).value))
    ensures first.error != OK && second.error != OK && first.error in names && second.error in names ==>
              CommonResponse(first, second, commonError, names)
              == Some(Failed(commonError, Described(first, names).value + Described(second, names).value))
  {
    if first.error == OK && second.error != OK && second.error in names {
      assert "" + Described(second, names).value == Described(second, names).value;
    } else if first.error != OK && second.error == OK && first.error in names {
      assert Described(first, names).value + "" == Described(first, names).value;
    }
  }
}
