/**
 * internal/agent/client.go: the HTTP doers the older reporter sends through. BaseClient
 * hands each request to an http.Client with a ten-second timeout; ConcurrentLimitedClient
 * wraps another doer, admits at most rateLimit requests at a time through a buffered
 * channel, and refuses requests once closed. The inner doer's answer to a request is the
 * parameter `reply`; calls are taken one at a time, so the semaphore is free whenever
 * a request arrives and only its capacity and whether it is closed matter.
 */
module LimitedClient {
  import opened Wrappers
  import opened Errors

  const ClientClosed: Error := Message("client is closed")

  /** BaseClient: http.Client with Timeout 10 * time.Second, in milliseconds. */
  class BaseClient {
    const timeout: nat

    constructor ()
      ensures timeout == 10000
    {
      timeout := 10000;
    }

    /** Do: the http.Client's answer, unchanged. */
    method Do<R>(reply: Result<R, Error>) returns (r: Result<R, Error>)
      ensures r == reply
    {
      r := reply;
    }
  }

  /** The part of a ConcurrentLimitedClient that Do and Close read and change. */
  datatype State = State(closed: bool, semaphoreClosed: bool, innerCloses: nat)

  /** A client is closed together with its semaphore, and its inner doer is closed once then. */
  ghost predicate Consistent(s: State) {
    && (s.closed <==> s.semaphoreClosed)
    && s.innerCloses == (if s.closed then 1 else 0)
  }

  /** What a call to Do does: answers (having called the inner doer or not), or waits forever. */
  datatype DoOutcome<R> = Answered(r: Result<R, Error>, calledInner: bool) | Blocked

  /** Do on state s with a semaphore of the given capacity. */
  function DoOn<R>(s: State, capacity: nat, reply: Result<R, Error>): (o: DoOutcome<R>)
    ensures s.closed <==> o == Answered(Failure(ClientClosed), false)
    ensures o.Answered? && o.calledInner ==> o.r == reply
    ensures o.Blocked? <==> !s.closed && capacity == 0
    ensures !s.closed && capacity > 0 ==> o == Answered(reply, true)
  {
    if s.closed then Answered(Failure(ClientClosed), false)
    // a send on a channel of capacity zero waits for a receiver that never comes
    else if capacity == 0 then Blocked
    else Answered(reply, true)
  }

  /** Close on state s. */
  function CloseOn(s: State): (t: State)
    ensures t.closed && (Consistent(s) ==> Consistent(t))
    ensures s.closed ==> t == s
    ensures !s.closed ==> t.innerCloses == s.innerCloses + 1
  {
    if s.closed then s
    else State(true, true, s.innerCloses + 1)
  }

  /** Close is idempotent: a second call changes nothing. */
  lemma CloseIdempotent(s: State)
    ensures CloseOn(CloseOn(s)) == CloseOn(s)
  {
  }

  /** From a fresh client, any number of Close calls close the inner doer exactly once. */
  lemma {:induction false} CloseClosesInnerOnce(n: nat)
    requires n > 0
    ensures CloseIter(State(false, false, 0), n) == State(true, true, 1)
  {
    if n > 1 {
      CloseClosesInnerOnce(n - 1);
      CloseIdempotent(CloseIter(State(false, false, 0), n - 2));
    }
  }

  /** n calls of Close in a row. */
  function CloseIter(s: State, n: nat): (t: State)
    ensures Consistent(s) ==> Consistent(t)
    ensures n > 0 ==> t.closed
  {
    if n == 0 then s else CloseOn(CloseIter(s, n - 1))
  }

  /** Once closed, every request is refused without reaching the inner doer. */
  lemma DoAfterClose<R>(s: State, capacity: nat, reply: Result<R, Error>)
    ensures DoOn(CloseOn(s), capacity, reply) == Answered(Failure(ClientClosed), false)
  {
  }

  class ConcurrentLimitedClient {
    /** cap(semaphore), the rate limit. */
    const capacity: nat
    var closed: bool
    var semaphoreClosed: bool
    /** How often the inner doer's Close was called. */
    var innerCloses: nat

    function St(): State
      reads this
    {
      State(closed, semaphoreClosed, innerCloses)
    }

    ghost predicate Valid()
      reads this
    {
      Consistent(St())
    }

    /** NewConcurrentLimitedClient(client, rateLimit). */
    constructor (rateLimit: nat)
      ensures capacity == rateLimit && St() == State(false, false, 0) && Valid()
    {
      capacity := rateLimit;
      closed, semaphoreClosed, innerCloses := false, false, 0;
    }

    /** Do: refused once closed; otherwise the inner doer's answer, holding a slot meanwhile. */
    method Do<R>(reply: Result<R, Error>) returns (o: DoOutcome<R>)
      requires Valid()
      ensures o == DoOn(St(), capacity, reply)
      ensures o.Answered? && o.calledInner ==> !semaphoreClosed
    {
      if closed {
        return Answered(Failure(ClientClosed), false);
      }
      if capacity == 0 {
        return Blocked;
      }
      // the slot taken before the call is given back when it returns
      o := Answered(reply, true);
    }

    /** Close: the first call marks the client closed, closes the inner doer and the semaphore. */
    method Close()
      requires Valid()
      modifies this
      ensures Valid()
      ensures St() == CloseOn(old(St()))
    {
      if closed {
        return;
      }
      closed := true;
      innerCloses := innerCloses + 1;
      semaphoreClosed := true;
    }
  }
}
