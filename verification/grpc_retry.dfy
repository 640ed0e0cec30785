/**
 * internal/agent/grpc_retry_interceptor.go: the agent's unary client interceptor.
 * It invokes the call once per entry of the backoff schedule (the package variable
 * common.DefaultBackoffSchedule, which the model takes as a parameter), retrying only
 * errors whose gRPC status code is transient. The invoker's error on its i-th call is
 * `invoke(i)` (None for nil); the sleeps are recorded, not taken.
 */
module GrpcRetry {
  import opened Wrappers
  import opened Errors
  import opened Common

  /** The status codes shouldRetry treats as transient. */
  const TransientCodes: set<Code> := {DeadlineExceeded, Unavailable, ResourceExhausted, Internal, Unknown}

  const AllAttemptsFailed: Error := Message("all gRPC attempts failed")

  /** shouldRetry: status.FromError must find a status, and its code must be transient. */
  function ShouldRetry(err: Option<Error>): (b: bool)
    ensures err.None? ==> !b
    ensures err.Some? && StatusCode(err.value).None? ==> !b
    ensures b <==> err.Some? && StatusCode(err.value).Some? && StatusCode(err.value).value in TransientCodes
  {
    if err.None? then false
    else
      var code := StatusCode(err.value);
      if code.None? then false
      else match code.value
        case DeadlineExceeded => true
        case Unavailable => true
        case ResourceExhausted => true
        case Internal => true
        case Unknown => true
        case _ => false
  }

  /** Client-side codes such as these are final: a bad argument or a refusal is not retried. */
  lemma FinalCodes(text: string)
    ensures !ShouldRetry(Some(Status(InvalidArgument, text)))
    ensures !ShouldRetry(Some(Status(PermissionDenied, text)))
    ensures !ShouldRetry(Some(Status(NotFound, text)))
    ensures !ShouldRetry(Some(Status(Canceled, text)))
    ensures ShouldRetry(Some(Status(Unavailable, text))) && ShouldRetry(Some(Status(DeadlineExceeded, text)))
  {
  }

  /** What the interceptor returned, how often it invoked the call, and the backoffs it slept. */
  datatype Outcome = Outcome(err: Option<Error>, invocations: nat, slept: seq<nat>)

  /** Every invocation from lo up to hi failed with a transient error. */
  ghost predicate AllTransient(invoke: nat -> Option<Error>, lo: nat, hi: nat) {
    forall k :: lo <= k < hi ==> ShouldRetry(invoke(k))
  }

  /** retryInterceptor from schedule entry i on. */
  function RetryFrom(schedule: seq<nat>, invoke: nat -> Option<Error>, i: nat): (r: Outcome)
    requires i <= |schedule|
    ensures i <= r.invocations <= |schedule|
    decreases |schedule| - i
  {
    if i == |schedule| then Outcome(Some(AllAttemptsFailed), i, [])
    else
      var err := invoke(i);
      if err.None? then Outcome(None, i + 1, [])
      else if ShouldRetry(err) then
        var rest := RetryFrom(schedule, invoke, i + 1);
        rest.(slept := [schedule[i]] + rest.slept)
      else Outcome(err, i + 1, [])
  }

  /**
   * The interceptor's outcome: when every scheduled invocation fails transiently it
   * sleeps after each and returns "all gRPC attempts failed"; otherwise it stops at the
   * first invocation that succeeds or fails finally, returns exactly that invocation's
   * error (nil on success), and has slept only after the transient failures before it.
   */
  lemma {:induction false} RetryOutcome(schedule: seq<nat>, invoke: nat -> Option<Error>, i: nat)
    requires i <= |schedule|
    ensures var r := RetryFrom(schedule, invoke, i);
      && (AllTransient(invoke, i, |schedule|) ==> r == Outcome(Some(AllAttemptsFailed), |schedule|, schedule[i..]))
      && (!AllTransient(invoke, i, |schedule|) ==>
            && i < r.invocations
            && AllTransient(invoke, i, r.invocations - 1)
            && !ShouldRetry(invoke(r.invocations - 1))
            && r.err == invoke(r.invocations - 1)
            && r.slept == schedule[i..r.invocations - 1])
    decreases |schedule| - i
  {
    if i < |schedule| {
      var err := invoke(i);
      if ShouldRetry(err) {
        RetryOutcome(schedule, invoke, i + 1);
        assert schedule[i..] == [schedule[i]] + schedule[i + 1..];
        var rest := RetryFrom(schedule, invoke, i + 1);
        if !AllTransient(invoke, i, |schedule|) {
          assert !AllTransient(invoke, i + 1, |schedule|);
          assert schedule[i..rest.invocations - 1] == [schedule[i]] + schedule[i + 1..rest.invocations - 1];
        }
      } else {
        assert !AllTransient(invoke, i, |schedule|);
        assert schedule[i..i] == [];
      }
    }
  }

  /** A successful first call is the only call; a final error is returned after one call. */
  lemma FirstCallDecides(schedule: seq<nat>, invoke: nat -> Option<Error>)
    requires |schedule| > 0 && !ShouldRetry(invoke(0))
    ensures RetryFrom(schedule, invoke, 0) == Outcome(invoke(0), 1, [])
  {
  }

  /** One transient failure: the outcome is that of the rest, after this entry's backoff. */
  lemma RetryStep(schedule: seq<nat>, invoke: nat -> Option<Error>, i: nat, slept: seq<nat>)
    requires i < |schedule| && ShouldRetry(invoke(i))
    ensures var ri := RetryFrom(schedule, invoke, i);
      var rn := RetryFrom(schedule, invoke, i + 1);
      ri.err == rn.err && ri.invocations == rn.invocations && slept + ri.slept == (slept + [schedule[i]]) + rn.slept
  {
  }

  /** retryInterceptor: invokes the call once per schedule entry at most. */
  method RetryInterceptor(schedule: seq<nat>, invoke: nat -> Option<Error>) returns (err: Option<Error>, invocations: nat, slept: seq<nat>)
    ensures RetryFrom(schedule, invoke, 0) == Outcome(err, invocations, slept)
  {
    slept := [];
    invocations := 0;
    while invocations < |schedule|
      invariant 0 <= invocations <= |schedule|
      invariant var r0 := RetryFrom(schedule, invoke, 0);
        var ri := RetryFrom(schedule, invoke, invocations);
        r0.err == ri.err && r0.invocations == ri.invocations && r0.slept == slept + ri.slept
    {
      var e := invoke(invocations);
      invocations := invocations + 1;
      if e.None? {
        return None, invocations, slept;
      }
      if ShouldRetry(e) {
        RetryStep(schedule, invoke, invocations - 1, slept);
        slept := slept + [schedule[invocations - 1]];
        continue;
      }
      return e, invocations, slept;
    }
    err := Some(AllAttemptsFailed);
  }

  /** With the default schedule of three backoffs the call is made three times at most. */
  lemma AtMostThreeInvocations(invoke: nat -> Option<Error>)
    ensures RetryFrom(DefaultBackoffSchedule, invoke, 0).invocations <= 3
  {
  }
}
