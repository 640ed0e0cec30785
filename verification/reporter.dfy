/**
 * internal/agent/reporter.go: the older report path. performRequest posts one gzipped
 * batch, attempting once per tick of common.GetBackoffTicker; report counts iterations
 * and skips empty snapshots. client.Do's outcome for each attempt is `do`; `cancelAfter`
 * is when the context is cancelled, counted in ticks (Common.BackoffTicks).
 *
 * As written, a 5xx response is retried without being recorded, so a run in which
 * every attempt got a 5xx returns nil, as if the batch had been delivered. The model
 * keeps that loop (AttemptsAsWritten) and the intended one (Attempts), which records
 * a 5xx as "http <code>", the message the newer client uses. PerformRequest runs the
 * loop as written.
 */
module Reporter {
  import opened Wrappers
  import opened Errors
  import opened Numbers
  import opened Common
  import opened Models
  import opened HttpWire
  import opened AgentUtils
  import opened HttpClient

  const BadStatus: Error := Message("bad status")

  /** The attempt loop from attempt i of n on, as written, with the error recorded so far. */
  function AttemptsAsWritten(n: nat, do: nat -> Attempt, i: nat, reqErr: Option<Error>): (r: (Option<Error>, nat))
    requires i <= n
    ensures i <= r.1 <= n
    decreases n - i
  {
    if i == n then (reqErr, i)
    else match do(i)
      case TransportError(e) => AttemptsAsWritten(n, do, i + 1, Some(Wrapped("failed to send request", e)))
      case Response(code) =>
        if code / 100 == 2 then (None, i + 1)
        else if code / 100 == 5 then AttemptsAsWritten(n, do, i + 1, reqErr)
        else (Some(BadStatus), i + 1)
  }

  /** The intended loop: a 5xx is recorded like a transport error. */
  function Attempts(n: nat, do: nat -> Attempt, i: nat, reqErr: Option<Error>): (r: (Option<Error>, nat))
    requires i <= n
    ensures i <= r.1 <= n
    decreases n - i
  {
    if i == n then (reqErr, i)
    else match do(i)
      case TransportError(e) => Attempts(n, do, i + 1, Some(Wrapped("failed to send request", e)))
      case Response(code) =>
        if code / 100 == 2 then (None, i + 1)
        else if code / 100 == 5 then Attempts(n, do, i + 1, Some(Message("http " + IntToDecimal(code))))
        else (Some(BadStatus), i + 1)
  }

  /**
   * As written, n attempts that all got a 5xx (503, say) end in nil: performRequest
   * reports success although nothing was accepted.
   */
  lemma {:induction false} AllServerErrorsReportSuccess(n: nat, do: nat -> Attempt, i: nat)
    requires i <= n
    requires forall k :: i <= k < n ==> do(k).Response? && do(k).status / 100 == 5
    ensures AttemptsAsWritten(n, do, i, None) == (None, n)
    decreases n - i
  {
    if i < n {
      AllServerErrorsReportSuccess(n, do, i + 1);
    }
  }

  /**
   * The intended loop returns nil exactly when an attempt got a 2xx (or when cancellation
   * left no tick at all), and only a response that is neither 2xx nor 5xx stops it
   * early, with "bad status".
   */
  lemma {:induction false} AttemptsSucceedOnlyOn2xx(n: nat, do: nat -> Attempt, i: nat, reqErr: Option<Error>)
    requires i <= n && (i == 0 ==> reqErr.None?) && (i > 0 ==> reqErr.Some?) && reqErr != Some(BadStatus)
    ensures var (err, k) := Attempts(n, do, i, reqErr);
      && (err.None? <==> (k > i && Succeeded(do(k - 1))) || (k == 0 && n == 0))
      && (forall j :: i <= j < k - 1 ==> Retryable(do(j)))
      && (err == Some(BadStatus) ==> k > i && !Retryable(do(k - 1)) && !Succeeded(do(k - 1)))
    decreases n - i
  {
    if i < n {
      match do(i)
      case TransportError(e) => AttemptsSucceedOnlyOn2xx(n, do, i + 1, Some(Wrapped("failed to send request", e)));
      case Response(code) =>
        if code / 100 == 5 {
          assert ("http " + IntToDecimal(code))[0] == 'h';
          AttemptsSucceedOnlyOn2xx(n, do, i + 1, Some(Message("http " + IntToDecimal(code))));
        }
    }
  }

  /** When some attempt did not get a 5xx, or no attempt was made, both loops agree. */
  lemma {:induction false} AttemptsAgreeWithoutServerErrors(n: nat, do: nat -> Attempt, i: nat, reqErr: Option<Error>)
    requires i <= n
    requires forall k :: i <= k < n ==> !(do(k).Response? && do(k).status / 100 == 5)
    ensures Attempts(n, do, i, reqErr) == AttemptsAsWritten(n, do, i, reqErr)
    decreases n - i
  {
    if i < n {
      match do(i)
      case TransportError(e) => AttemptsAgreeWithoutServerErrors(n, do, i + 1, Some(Wrapped("failed to send request", e)));
      case Response(code) =>
    }
  }

  /** The request performRequest builds: no encryption, the hash only when there is a key. */
  function ReportRequest(endpoint: string, hashKey: string, mac: Mac, body: seq<Byte>): (req: OutRequest)
    ensures HashHeaderKey in req.header <==> hashKey != ""
    ensures hashKey != "" ==> req.header[HashHeaderKey] == ComputeHash(mac, hashKey, body)
    ensures Get(req.header, ContentEncoding) == "gzip" && Get(req.header, ContentType) == "application/json"
    ensures req.body == body && req.url == BuildURL(endpoint, ["updates/"])
  {
    var h: Header := if hashKey != "" then map[HashHeaderKey := ComputeHash(mac, hashKey, body)] else map[];
    OutRequest(BuildURL(endpoint, ["updates/"]), h[ContentEncoding := "gzip"][ContentType := "application/json"], body)
  }

  /** The reporter's collaborators. */
  datatype Env = Env(
    marshal: seq<MetricModel> -> Result<seq<Byte>, Error>,
    gzip: seq<Byte> -> seq<Byte>,
    newRequestErr: string -> Option<Error>,
    mac: Mac,
    do: nat -> Attempt)

  /** What performRequest returned and the requests it made. */
  datatype Performed = Performed(err: Option<Error>, requests: seq<OutRequest>)

  /** performRequest: one attempt per backoff tick, with the loop as written. */
  method PerformRequest(endpoint: string, hashKey: string, metrics: seq<MetricModel>, env: Env, cancelAfter: Option<nat>)
    returns (p: Performed)
    ensures env.marshal(metrics).Failure? ==>
      p == Performed(Some(Wrapped("unexpected error - failed to marshal metrics", env.marshal(metrics).error)), [])
    ensures env.marshal(metrics).Success? && env.newRequestErr(BuildURL(endpoint, ["updates/"])).Some? ==>
      p == Performed(Some(Wrapped("unexpected error - failed to create request", env.newRequestErr(BuildURL(endpoint, ["updates/"])).value)), [])
    ensures env.marshal(metrics).Success? && env.newRequestErr(BuildURL(endpoint, ["updates/"])).None? ==>
      var n := |BackoffTicks(DefaultBackoffSchedule, cancelAfter)|;
      var (err, k) := AttemptsAsWritten(n, env.do, 0, None);
      && p.err == err && |p.requests| == k
      && forall j :: 0 <= j < k ==> p.requests[j] == ReportRequest(endpoint, hashKey, env.mac, env.gzip(env.marshal(metrics).value))
  {
    var url := BuildURL(endpoint, ["updates/"]);
    var raw := env.marshal(metrics);
    if raw.Failure? {
      return Performed(Some(Wrapped("unexpected error - failed to marshal metrics", raw.error)), []);
    }
    var body := env.gzip(raw.value);
    var e := env.newRequestErr(url);
    if e.Some? {
      return Performed(Some(Wrapped("unexpected error - failed to create request", e.value)), []);
    }
    var req := ReportRequest(endpoint, hashKey, env.mac, body);
    var ticks := BackoffTicks(DefaultBackoffSchedule, cancelAfter);
    var reqErr: Option<Error> := None;
    var sent: seq<OutRequest> := [];
    var i := 0;
    while i < |ticks|
      invariant 0 <= i <= |ticks| && |sent| == i
      invariant forall j :: 0 <= j < i ==> sent[j] == req
      invariant AttemptsAsWritten(|ticks|, env.do, 0, None) == AttemptsAsWritten(|ticks|, env.do, i, reqErr)
    {
      sent := sent + [req];
      var a := env.do(i);
      match a {
        case TransportError(err) =>
          reqErr := Some(Wrapped("failed to send request", err));
        case Response(code) =>
          if code / 100 == 2 {
            return Performed(None, sent);
          } else if code / 100 != 5 {
            return Performed(Some(BadStatus), sent);
          }
      }
      i := i + 1;
    }
    return Performed(reqErr, sent);
  }

  /** Without cancellation there are len(schedule)+1 attempts at most, four by default. */
  lemma AttemptBound(do: nat -> Attempt, cancelAfter: Option<nat>)
    ensures var n := |BackoffTicks(DefaultBackoffSchedule, cancelAfter)|;
      n <= 4 && (cancelAfter.None? ==> n == 4) && AttemptsAsWritten(n, do, 0, None).1 <= n
  {
  }

  class Reporter {
    const endpoint: string
    const hashKey: string
    /** iteration, a Go uint. */
    var iteration: nat

    constructor (endpoint: string, hashKey: string)
      ensures this.endpoint == endpoint && this.hashKey == hashKey && iteration == 0
    {
      this.endpoint := endpoint;
      this.hashKey := hashKey;
      iteration := 0;
    }

    /**
     * report: counts the iteration (a uint, so it wraps), and sends the snapshot unless
     * it is empty. The error is only logged.
     */
    method Report(snapshot: seq<MetricModel>, env: Env, cancelAfter: Option<nat>) returns (requests: seq<OutRequest>)
      modifies this
      ensures iteration == (old(iteration) + 1) % Two64
      ensures snapshot == [] ==> requests == []
      ensures env.marshal(snapshot).Failure? || env.newRequestErr(BuildURL(endpoint, ["updates/"])).Some? ==> requests == []
      ensures snapshot != [] && env.marshal(snapshot).Success? && env.newRequestErr(BuildURL(endpoint, ["updates/"])).None? ==>
        && |requests| == AttemptsAsWritten(|BackoffTicks(DefaultBackoffSchedule, cancelAfter)|, env.do, 0, None).1
        && forall j :: 0 <= j < |requests| ==>
             requests[j] == ReportRequest(endpoint, hashKey, env.mac, env.gzip(env.marshal(snapshot).value))
    {
      iteration := (iteration + 1) % Two64;
      if |snapshot| == 0 {
        return [];
      }
      var p := PerformRequest(endpoint, hashKey, snapshot, env, cancelAfter);
      requests := p.requests;
    }
  }
}
