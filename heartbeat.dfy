/**
 * The heartbeat loop that each main.go starts in a goroutine after registering an endpoint
 * (three copies: two in the category service, one in the book service). Every pass calls the
 * registry's HealthCheck; a success resets `failureCount` to 0, a failure increments it, and the
 * fifth consecutive failure breaks out of the loop. Every other pass ends with a 2-second sleep.
 *
 * The loop never ends while checks keep succeeding, so the model runs it over a finite prefix of
 * check outcomes supplied as an oracle (`true` = HealthCheck returned nil).
 */
module Heartbeat {

  const MaxFailures: nat := 5

  /** One pass of the loop: the outcome of its check and whether the sleep followed it. */
  datatype Attempt = Attempt(ok: bool, sleptAfter: bool)

  /** The number of failures at the end of `outcomes` since the last success. */
  function TrailingFailures(outcomes: seq<bool>): (n: nat)
    ensures n <= |outcomes|
  {
    if outcomes == [] || outcomes[|outcomes| - 1] then 0
    else TrailingFailures(outcomes[..|outcomes| - 1]) + 1
  }

  /** The checks just before position `e` are MaxFailures consecutive failures. */
  ghost predicate FailureRunEndingAt(outcomes: seq<bool>, e: int)
  {
    MaxFailures <= e <= |outcomes| && forall k :: e - MaxFailures <= k < e ==> !outcomes[k]
  }

  /** TrailingFailures counts exactly the failures since the last success. */
  lemma {:induction false} TrailingFailuresMeaning(s: seq<bool>, n: nat)
    ensures TrailingFailures(s) >= n <==> n <= |s| && forall k :: |s| - n <= k < |s| ==> !s[k]
  {
    if n > 0 && s != [] {
      var p := s[..|s| - 1];
      TrailingFailuresMeaning(p, n - 1);
      if !s[|s| - 1] && n - 1 <= |p| && (forall k :: |p| - (n - 1) <= k < |p| ==> !p[k]) {
        assert forall k :: |s| - n <= k < |s| ==> !s[k] by {
          forall k | |s| - n <= k < |s| ensures !s[k] {
            if k < |p| { assert s[k] == p[k]; }
          }
        }
      }
      if n <= |s| && forall k :: |s| - n <= k < |s| ==> !s[k] {
        assert forall k :: |p| - (n - 1) <= k < |p| ==> !p[k] by {
          forall k | |p| - (n - 1) <= k < |p| ensures !p[k] {
            assert p[k] == s[k];
          }
        }
      }
    }
  }

  /** A successful check sets the counter back to 0; a failed one raises it by exactly 1. */
  lemma {:induction false} CounterStep(s: seq<bool>)
    ensures TrailingFailures(s + [true]) == 0
    ensures TrailingFailures(s + [false]) == TrailingFailures(s) + 1
  {
    assert (s + [false])[..|s|] == s;
  }

  /** A run of MaxFailures failures ends at `e` exactly when the counter would reach MaxFailures there. */
  lemma RunIffThreshold(s: seq<bool>, e: nat)
    requires e <= |s|
    ensures FailureRunEndingAt(s, e) <==> TrailingFailures(s[..e]) >= MaxFailures
  {
    TrailingFailuresMeaning(s[..e], MaxFailures);
    assert forall k :: 0 <= k < e ==> s[..e][k] == s[k];
  }

  /**
   * The loop over the first |outcomes| checks. It stops at the first point where five
   * consecutive checks have failed and at no other; a sleep follows every pass except the
   * one that ends the loop; at every loop head the counter is below MaxFailures and equals the
   * number of failures since the last success.
   */
  method HeartbeatLoop(outcomes: seq<bool>) returns (failureCount: nat, exited: bool, attempts: seq<Attempt>)
    ensures |attempts| <= |outcomes|
    ensures forall k :: 0 <= k < |attempts| ==> attempts[k].ok == outcomes[k]
    ensures forall k :: 0 <= k < |attempts| ==> (attempts[k].sleptAfter <==> !(exited && k == |attempts| - 1))
    ensures failureCount == TrailingFailures(outcomes[..|attempts|])
    ensures exited <==> failureCount == MaxFailures
    ensures exited ==> FailureRunEndingAt(outcomes, |attempts|)
    ensures forall e :: 0 <= e < |attempts| ==> !FailureRunEndingAt(outcomes, e)
    ensures !exited ==> |attempts| == |outcomes| && !FailureRunEndingAt(outcomes, |outcomes|)
  {
    failureCount := 0;
    exited := false;
    attempts := [];
    var i := 0;
    while i < |outcomes|
      invariant 0 <= i <= |outcomes| && |attempts| == i
      invariant forall k :: 0 <= k < i ==> attempts[k] == Attempt(outcomes[k], true)
      invariant failureCount == TrailingFailures(outcomes[..i]) < MaxFailures
      invariant forall e :: 0 <= e <= i ==> !FailureRunEndingAt(outcomes, e)
    {
      var ok := outcomes[i];
      assert outcomes[..i + 1][..i] == outcomes[..i];
      RunIffThreshold(outcomes, i + 1);
      if !ok {
        failureCount := failureCount + 1;
        if failureCount >= MaxFailures {
          attempts := attempts + [Attempt(ok, false)];
          exited := true;
          break;
        }
      } else {
        failureCount := 0;
      }
      attempts := attempts + [Attempt(ok, true)];
      i := i + 1;
    }
    if !exited {
      RunIffThreshold(outcomes, |outcomes|);
    }
  }

  /** Which goroutine takes the next pass when the two loops of the category service interleave. */
  datatype Endpoint = Grpc | Http

  /** The state of one loop: its counter, whether it has broken out, and how many checks it has made. */
  datatype LoopState = LoopState(failureCount: nat, exited: bool, consumed: nat)

  /** `st` is the state the loop reaches after its first `st.consumed` checks of `outcomes`. */
  ghost predicate Reflects(st: LoopState, outcomes: seq<bool>)
  {
    && st.consumed <= |outcomes|
    && st.failureCount == TrailingFailures(outcomes[..st.consumed])
    && (st.exited <==> FailureRunEndingAt(outcomes, st.consumed))
    && (forall e :: 0 <= e < st.consumed ==> !FailureRunEndingAt(outcomes, e))
  }

  const Start: LoopState := LoopState(0, false, 0)

  /** One pass of the loop body over the next check outcome. */
  method Pass(st: LoopState, outcomes: seq<bool>) returns (next: LoopState)
    requires Reflects(st, outcomes) && !st.exited && st.consumed < |outcomes|
    ensures Reflects(next, outcomes) && next.consumed == st.consumed + 1
  {
    var i := st.consumed;
    assert outcomes[..i + 1][..i] == outcomes[..i];
    RunIffThreshold(outcomes, i);
    RunIffThreshold(outcomes, i + 1);
    var failureCount := st.failureCount;
    if !outcomes[i] {
      failureCount := failureCount + 1;
    } else {
      failureCount := 0;
    }
    next := LoopState(failureCount, failureCount >= MaxFailures, i + 1);
  }

  /** How many passes `schedule` offers to `ep`. */
  function Turns(schedule: seq<Endpoint>, ep: Endpoint): nat
  {
    if schedule == [] then 0
    else Turns(schedule[..|schedule| - 1], ep) + (if schedule[|schedule| - 1] == ep then 1 else 0)
  }

  /**
   * The gRPC and HTTP loops of the category service running side by side in the order
   * `schedule` gives. Each loop keeps its own counter, so each ends in the state its own
   * outcomes alone determine: it has made as many checks as it was offered, unless it broke
   * out or its outcomes ran out first.
   */
  method RunLoops(schedule: seq<Endpoint>, grpcOutcomes: seq<bool>, httpOutcomes: seq<bool>)
    returns (grpc: LoopState, http: LoopState)
    ensures Reflects(grpc, grpcOutcomes) && Reflects(http, httpOutcomes)
    ensures grpc.consumed <= Turns(schedule, Grpc) && http.consumed <= Turns(schedule, Http)
    ensures grpc.exited || grpc.consumed == |grpcOutcomes| || grpc.consumed == Turns(schedule, Grpc)
    ensures http.exited || http.consumed == |httpOutcomes| || http.consumed == Turns(schedule, Http)
  {
    grpc, http := Start, Start;
    assert grpcOutcomes[..0] == [] && httpOutcomes[..0] == [];
    var n := 0;
    while n < |schedule|
      invariant 0 <= n <= |schedule|
      invariant Reflects(grpc, grpcOutcomes) && Reflects(http, httpOutcomes)
      invariant grpc.consumed <= Turns(schedule[..n], Grpc) && http.consumed <= Turns(schedule[..n], Http)
      invariant grpc.exited || grpc.consumed == |grpcOutcomes| || grpc.consumed == Turns(schedule[..n], Grpc)
      invariant http.exited || http.consumed == |httpOutcomes| || http.consumed == Turns(schedule[..n], Http)
    {
      assert schedule[..n + 1][..n] == schedule[..n];
      if schedule[n] == Grpc {
        if !grpc.exited && grpc.consumed < |grpcOutcomes| {
          grpc := Pass(grpc, grpcOutcomes);
        }
      } else {
        if !http.exited && http.consumed < |httpOutcomes| {
          http := Pass(http, httpOutcomes);
        }
      }
      n := n + 1;
    }
    assert schedule[..n] == schedule;
  }
}
