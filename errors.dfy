/**
 * Go `error` values as the services build, wrap and inspect them, the `(result, error)`
 * pair every service method returns, and `strings.Contains`, which the services use to
 * recognise a unique-constraint violation reported by the database.
 */
module Errors {
  import opened Wrappers

  datatype Error =
    | Fault(text: string)                     // produced by a collaborator: the agent, a repository, a transport
    | Wrapped(context: string, cause: Error)  // fmt.Errorf(context + "%w", cause)
    | Fiber(code: int, text: string)          // fiber.NewError(code, text)

  /** err.Error() */
  function Message(e: Error): string
  {
    match e
    case Fault(t) => t
    case Wrapped(c, cause) => c + Message(cause)
    case Fiber(_, t) => t
  }

  /** errors.Unwrap */
  function Unwrap(e: Error): Option<Error>
  {
    match e
    case Wrapped(_, cause) => Some(cause)
    case _ => None
  }

  /** fmt.Errorf(context + "%w", cause): the message gains the context as a prefix and the cause stays reachable. */
  function Wrap(context: string, cause: Error): (e: Error)
    ensures Message(e) == context + Message(cause)
    ensures Unwrap(e) == Some(cause)
  {
    Wrapped(context, cause)
  }

  /** A Go `(res *T, err error)` pair; either half may be nil. */
  datatype Reply<+R> = Reply(res: Option<R>, err: Option<Error>)

  /** What a service hands back for a repository outcome it passes through: the value, or the error unchanged. */
  function FromRepository<R>(outcome: Result<R, Error>): (reply: Reply<R>)
    ensures reply.err.Some? <==> outcome.Err?
    ensures outcome.Err? ==> reply.err == Some(outcome.error) && reply.res.None?
    ensures outcome.Ok? ==> reply.res == Some(outcome.value)
  {
    match outcome
    case Ok(v) => Reply(Some(v), None)
    case Err(e) => Reply(None, Some(e))
  }

  /** The text Postgres puts in a unique-constraint violation, as the services search for it. */
  const DuplicateKey: string := "duplicate key value violates unique constraint"

  /** strings.Contains(s, sub) */
  predicate Contains(s: string, sub: string)
    decreases |s|
  {
    |sub| <= |s| && (s[..|sub|] == sub || Contains(s[1..], sub))
  }

  /** `sub` occurs in `s` starting at position `i`. */
  predicate OccursAt(s: string, sub: string, i: int)
  {
    0 <= i && i + |sub| <= |s| && s[i..i + |sub|] == sub
  }

  /** Contains holds exactly when `sub` occurs at some position of `s`. */
  lemma {:induction false} ContainsIff(s: string, sub: string)
    ensures Contains(s, sub) <==> exists i :: OccursAt(s, sub, i)
    decreases |s|
  {
    if |sub| > |s| {
      assert forall i :: !OccursAt(s, sub, i);
    } else if s[..|sub|] == sub {
      assert OccursAt(s, sub, 0);
    } else {
      ContainsIff(s[1..], sub);
      if Contains(s[1..], sub) {
        var i :| OccursAt(s[1..], sub, i);
        assert s[i + 1..i + 1 + |sub|] == s[1..][i..i + |sub|];
        assert OccursAt(s, sub, i + 1);
      }
      if i :| OccursAt(s, sub, i) {
        assert i != 0;
        assert s[1..][i - 1..i - 1 + |sub|] == s[i..i + |sub|];
        assert OccursAt(s[1..], sub, i - 1);
      }
    }
  }

  /** A context prefix never hides a substring of the wrapped message. */
  lemma {:induction false} ContainsAfterPrefix(prefix: string, s: string, sub: string)
    requires Contains(s, sub)
    ensures Contains(prefix + s, sub)
  {
    if prefix != [] {
      ContainsAfterPrefix(prefix[1..], s, sub);
      assert (prefix + s)[1..] == prefix[1..] + s;
      assert Contains((prefix + s)[1..], sub);
    } else {
      assert prefix + s == s;
    }
  }

  /**
   * A repository error wraps the database error, so the duplicate-key text survives any number of
   * wrapping layers and the services still recognise it.
   */
  lemma {:induction false} WrappedDuplicateRecognised(e: Error)
    requires e.Wrapped? && Contains(Message(e.cause), DuplicateKey)
    ensures Contains(Message(e), DuplicateKey)
  {
    ContainsAfterPrefix(e.context, Message(e.cause), DuplicateKey);
  }
}
