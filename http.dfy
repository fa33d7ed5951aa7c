/**
 * What the Fiber handlers answer: a status and a JSON body, together with the service call
 * the handler made, if it made one; and route tables grouped under a prefix.
 */
module Http {
  import opened Wrappers
  import opened Errors

  const StatusOK: int := 200
  const StatusCreated: int := 201
  const StatusBadRequest: int := 400
  const StatusInternalServerError: int := 500

  datatype Body<+R> = ErrorJson(error: string) | Json(value: Option<R>)   // {"error": ...} or the result, null when nil

  datatype Response<+R> = Response(status: int, body: Body<R>)

  datatype Handled<+C, +R> = Handled(response: Response<R>, call: Option<C>)

  /** A 400 answer given before the service is called. */
  function Rejected<C, R>(message: string): Handled<C, R>
  {
    Handled(Response(StatusBadRequest, ErrorJson(message)), None)
  }

  /** The answer after calling the service: 500 with the error text on any error, `success` with the result otherwise. */
  function Answer<C, R>(call: C, reply: Reply<R>, success: int): (h: Handled<C, R>)
  {
    if reply.err.Some? then Handled(Response(StatusInternalServerError, ErrorJson(Message(reply.err.value))), Some(call))
    else Handled(Response(success, Json(reply.res)), Some(call))
  }

  /**
   * What a service's create returns for the repository's outcome: an error whose text mentions
   * a unique-constraint violation becomes a 400 fiber error saying `alreadyExists`; every other
   * outcome passes through unchanged.
   */
  function CreateOutcome<R>(outcome: Result<R, Error>, alreadyExists: string): (reply: Reply<R>)
    ensures reply.err.Some? <==> outcome.Err?
    ensures outcome.Ok? ==> reply.res == Some(outcome.value)
    ensures outcome.Err? ==> reply.res.None?
    ensures outcome.Err? && Contains(Message(outcome.error), DuplicateKey)
            ==> reply.err == Some(Fiber(StatusBadRequest, alreadyExists))
    ensures outcome.Err? && !Contains(Message(outcome.error), DuplicateKey) ==> reply.err == Some(outcome.error)
  {
    match outcome
    case Ok(v) => Reply(Some(v), None)
    case Err(e) =>
      if Contains(Message(e), DuplicateKey) then Reply(None, Some(Fiber(StatusBadRequest, alreadyExists)))
      else Reply(None, Some(e))
  }

  /**
   * Only a duplicate is ever rewritten: a successful create, and an error that does not mention
   * the constraint, reach the caller exactly as the repository produced them.
   */
  lemma {:induction false} CreateOutcomeRewritesOnlyDuplicates<R>(outcome: Result<R, Error>, alreadyExists: string)
    requires !Contains(alreadyExists, DuplicateKey)
    ensures CreateOutcome(outcome, alreadyExists) != FromRepository(outcome)
            <==> outcome.Err? && Contains(Message(outcome.error), DuplicateKey)
  {
    if outcome.Err? && Contains(Message(outcome.error), DuplicateKey) {
      assert Message(outcome.error) != alreadyExists;
    }
  }

  datatype Method = Get | Post | Put | Delete

  /** A route path: a fixed path, or a fixed prefix followed by one required `:id` segment. */
  datatype Pattern = Literal(path: string) | WithId(prefix: string)

  datatype Route<+H> = Route(verb: Method, pattern: Pattern, handler: H)

  /** The value a path gives the route's `:id` parameter ("" for a fixed path), if the path matches. */
  function Match(pattern: Pattern, path: string): Option<string>
  {
    match pattern
    case Literal(p) => if path == p then Some("") else None
    case WithId(p) =>
      if |p| < |path| && path[..|p|] == p && '/' !in path[|p|..] then Some(path[|p|..]) else None
  }

  /** The first route, in registration order, that takes the request, with the `:id` value it binds. */
  function Dispatch<H>(routes: seq<Route<H>>, verb: Method, path: string): Option<(H, string)>
  {
    if routes == [] then None
    else if routes[0].verb == verb && Match(routes[0].pattern, path).Some? then
      Some((routes[0].handler, Match(routes[0].pattern, path).value))
    else Dispatch(routes[1..], verb, path)
  }

  /** A value the `:id` segment can take: non-empty and without a slash. */
  predicate IsSegment(id: string)
  {
    id != "" && '/' !in id
  }

  /** Dispatch answers with the handler of a route of the table that takes the request. */
  lemma {:induction false} DispatchFrom<H>(routes: seq<Route<H>>, verb: Method, path: string)
    requires Dispatch(routes, verb, path).Some?
    ensures exists k :: 0 <= k < |routes| && routes[k].verb == verb
                        && routes[k].handler == Dispatch(routes, verb, path).value.0
                        && Match(routes[k].pattern, path) == Some(Dispatch(routes, verb, path).value.1)
  {
    if !(routes[0].verb == verb && Match(routes[0].pattern, path).Some?) {
      DispatchFrom(routes[1..], verb, path);
      var k :| 0 <= k < |routes[1..]| && routes[1..][k].verb == verb
               && routes[1..][k].handler == Dispatch(routes, verb, path).value.0
               && Match(routes[1..][k].pattern, path) == Some(Dispatch(routes, verb, path).value.1);
      assert routes[k + 1] == routes[1..][k];
    } else {
      assert routes[0].verb == verb;
    }
  }

  /** A route with an `:id` segment binds a non-empty id. */
  lemma WithIdBindsSegment(prefix: string, path: string)
    requires Match(WithId(prefix), path).Some?
    ensures IsSegment(Match(WithId(prefix), path).value)
  {
  }
}
