/**
 * internal/agent/http_client.go: the agent's HTTP metric client. A batch is marshalled,
 * gzipped, optionally encrypted and signed, and posted to <endpoint>/updates/ with up
 * to one attempt per entry of the backoff schedule.
 *
 * Foreign work is given as parameters: json.Marshal (`marshal`), the gzip stream
 * written into a bytes.Buffer (`gzip`, which cannot fail there),
 * http.NewRequestWithContext's URL check (`newRequestErr`), common.EncryptHybrid under
 * the configured public key (`encrypt`, None when there is no key), the HMAC behind
 * common.ComputeHash (`mac`), and client.Do's outcome for each attempt (`transport`).
 * Sleeping is recorded as the list of backoffs slept.
 */
module HttpClient {
  import opened Wrappers
  import opened Errors
  import opened Numbers
  import opened Common
  import opened Models
  import opened HttpWire
  import opened AgentUtils

  /** What one client.Do returned: a transport error, or a response with its status code. */
  datatype Attempt = TransportError(err: Error) | Response(status: nat)

  /** Worth another attempt: a transport error or a 5xx (StatusCode/100 == 5). */
  predicate Retryable(a: Attempt) {
    a.TransportError? || a.status / 100 == 5
  }

  predicate Succeeded(a: Attempt) {
    a.Response? && a.status / 100 == 2
  }

  /** The attempts i..j-1 all failed in a way that is retried. */
  predicate AllRetryable(transport: nat -> Attempt, i: nat, j: nat) {
    forall k :: i <= k < j ==> Retryable(transport(k))
  }

  const MaxRetriesExceeded: Error := Message("max retries exceeded")

  /** What executeWithRetry returns, how many requests it made and what it slept. */
  datatype RetryResult = RetryResult(err: Option<Error>, attempts: nat, slept: seq<nat>)

  /** executeWithRetry from attempt i on. */
  function RetryFrom(schedule: seq<nat>, transport: nat -> Attempt, i: nat): (r: RetryResult)
    requires i <= |schedule|
    ensures i <= r.attempts <= |schedule|
    decreases |schedule| - i
  {
    if i == |schedule| then RetryResult(Some(MaxRetriesExceeded), i, [])
    else
      var a := transport(i);
      if Retryable(a) then
        var rest := RetryFrom(schedule, transport, i + 1);
        rest.(slept := [schedule[i]] + rest.slept)
      else if a.status / 100 == 2 then RetryResult(None, i + 1, [])
      else RetryResult(Some(Message("http " + IntToDecimal(a.status))), i + 1, [])
  }

  /**
   * The outcome of the retry loop: success exactly when an attempt got a 2xx after only
   * retryable failures; "max retries exceeded" exactly when every scheduled attempt failed
   * retryably (each followed by its backoff); otherwise "http <code>" from the first
   * response that is neither 2xx nor 5xx, with no further attempt.
   */
  lemma {:induction false} RetryOutcome(schedule: seq<nat>, transport: nat -> Attempt, i: nat)
    requires i <= |schedule|
    ensures var r := RetryFrom(schedule, transport, i);
      && (r.err == Some(MaxRetriesExceeded) <==> AllRetryable(transport, i, |schedule|))
      && (r.err == Some(MaxRetriesExceeded) ==> r.attempts == |schedule| && r.slept == schedule[i..])
      && (r.err != Some(MaxRetriesExceeded) ==>
            && i < r.attempts
            && AllRetryable(transport, i, r.attempts - 1)
            && !Retryable(transport(r.attempts - 1))
            && r.slept == schedule[i..r.attempts - 1]
            && (r.err.None? <==> Succeeded(transport(r.attempts - 1)))
            && (r.err.Some? ==> r.err.value == Message("http " + IntToDecimal(transport(r.attempts - 1).status))))
    decreases |schedule| - i
  {
    var r := RetryFrom(schedule, transport, i);
    if i < |schedule| {
      var a := transport(i);
      if Retryable(a) {
        RetryOutcome(schedule, transport, i + 1);
        var rest := RetryFrom(schedule, transport, i + 1);
        if rest.err == Some(MaxRetriesExceeded) {
          assert schedule[i..] == [schedule[i]] + schedule[i + 1..];
        } else {
          assert schedule[i..rest.attempts - 1] == [schedule[i]] + schedule[i + 1..rest.attempts - 1];
        }
      } else {
        assert !AllRetryable(transport, i, |schedule|);
        if r.err.Some? {
          assert r.err.value.text[0] == 'h';
        }
      }
    }
  }

  /** A retried attempt adds its backoff and leaves the rest to the next attempt. */
  lemma RetryStep(schedule: seq<nat>, transport: nat -> Attempt, i: nat, slept: seq<nat>)
    requires i < |schedule| && Retryable(transport(i))
    ensures var ri := RetryFrom(schedule, transport, i);
      var rn := RetryFrom(schedule, transport, i + 1);
      ri.err == rn.err && ri.attempts == rn.attempts && slept + ri.slept == (slept + [schedule[i]]) + rn.slept
  {
  }

  /** executeWithRetry: the same request on every attempt, the body re-armed from one buffer. */
  method ExecuteWithRetry(req: OutRequest, schedule: seq<nat>, transport: nat -> Attempt)
    returns (err: Option<Error>, sent: seq<OutRequest>, slept: seq<nat>)
    ensures var r := RetryFrom(schedule, transport, 0);
      err == r.err && slept == r.slept && |sent| == r.attempts
    ensures forall k :: 0 <= k < |sent| ==> sent[k] == req
  {
    sent, slept := [], [];
    var i := 0;
    while i < |schedule|
      invariant 0 <= i <= |schedule| && |sent| == i
      invariant forall k :: 0 <= k < |sent| ==> sent[k] == req
      invariant var r0 := RetryFrom(schedule, transport, 0);
        var ri := RetryFrom(schedule, transport, i);
        r0.err == ri.err && r0.attempts == ri.attempts && r0.slept == slept + ri.slept
    {
      sent := sent + [req];
      var a := transport(i);
      if a.TransportError? {
        RetryStep(schedule, transport, i, slept);
        slept := slept + [schedule[i]];
        i := i + 1;
        continue;
      }
      if a.status / 100 == 2 {
        return None, sent, slept;
      } else if a.status / 100 == 5 {
        RetryStep(schedule, transport, i, slept);
        slept := slept + [schedule[i]];
        i := i + 1;
        continue;
      }
      return Some(Message("http " + IntToDecimal(a.status))), sent, slept;
    }
    err := Some(MaxRetriesExceeded);
  }

  /** The request as it goes out: URL, headers and body bytes. */
  datatype OutRequest = OutRequest(url: string, header: Header, body: seq<Byte>)

  /** The configuration the client reads. `localIP` is getLocalIP()'s text, if any. */
  datatype Config = Config(endpoint: string, protocol: string, localIP: Option<string>, hashKey: string, rateLimit: nat)

  type Encrypt = seq<Byte> -> Result<seq<Byte>, Error>

  /** The headers and the body applyHeadersAndEncryption leaves on the request. */
  datatype Prepared = Prepared(header: Header, body: seq<Byte>)

  function WithLocalIP(cfg: Config): Header {
    if cfg.localIP.Some? then map[XRealIP := cfg.localIP.value] else map[]
  }

  /** The hash (when there is a key) and the encoding headers, over the final body. */
  function Sign(cfg: Config, mac: Mac, h: Header, body: seq<Byte>): Header {
    var h1 := if cfg.hashKey != "" then h[HashHeaderKey := ComputeHash(mac, cfg.hashKey, body)] else h;
    h1[ContentEncoding := "gzip"][ContentType := "application/json"]
  }

  /** applyHeadersAndEncryption as written: a failed encryption returns at once. */
  function ApplyHeadersAsWritten(cfg: Config, encrypt: Option<Encrypt>, mac: Mac, body: seq<Byte>): Prepared {
    var h := WithLocalIP(cfg);
    if encrypt.Some? && encrypt.value(body).Failure? then Prepared(h, body)
    else if encrypt.Some? then Prepared(Sign(cfg, mac, h[XEncrypted := "true"], encrypt.value(body).value), encrypt.value(body).value)
    else Prepared(Sign(cfg, mac, h, body), body)
  }

  /**
   * As written, a failed encryption sends the gzip body with no Content-Encoding, no
   * Content-Type and no hash: the server cannot know to decompress it, and a server
   * that requires a hash does not check it.
   */
  lemma EncryptionFailureDropsHeaders(cfg: Config, encrypt: Encrypt, mac: Mac, body: seq<Byte>)
    requires encrypt(body).Failure?
    ensures var p := ApplyHeadersAsWritten(cfg, Some(encrypt), mac, body);
      && p.body == body
      && (XRealIP in p.header <==> cfg.localIP.Some?) && XEncrypted !in p.header
      && ContentEncoding !in p.header && ContentType !in p.header && HashHeaderKey !in p.header
  {
  }

  /** The intended applyHeadersAndEncryption: a failed encryption sends the body as it is, headers and all. */
  function ApplyHeaders(cfg: Config, encrypt: Option<Encrypt>, mac: Mac, body: seq<Byte>): (p: Prepared)
    ensures var encrypted := encrypt.Some? && encrypt.value(body).Success?;
      && p.body == (if encrypted then encrypt.value(body).value else body)
      && (XEncrypted in p.header <==> encrypted)
      && (XRealIP in p.header <==> cfg.localIP.Some?)
      && Get(p.header, ContentEncoding) == "gzip" && Get(p.header, ContentType) == "application/json"
      && (HashHeaderKey in p.header <==> cfg.hashKey != "")
      && (cfg.hashKey != "" ==> p.header[HashHeaderKey] == ComputeHash(mac, cfg.hashKey, p.body))
  {
    var h := WithLocalIP(cfg);
    if encrypt.Some? && encrypt.value(body).Success? then
      Prepared(Sign(cfg, mac, h[XEncrypted := "true"], encrypt.value(body).value), encrypt.value(body).value)
    else Prepared(Sign(cfg, mac, h, body), body)
  }

  /** Whenever encryption does not fail, the code as written already does what was intended. */
  lemma ApplyHeadersAgree(cfg: Config, encrypt: Option<Encrypt>, mac: Mac, body: seq<Byte>)
    requires encrypt.None? || encrypt.value(body).Success?
    ensures ApplyHeadersAsWritten(cfg, encrypt, mac, body) == ApplyHeaders(cfg, encrypt, mac, body)
  {
  }

  /** The client's collaborators. */
  datatype Env = Env(
    marshal: seq<MetricModel> -> Result<seq<Byte>, Error>,
    gzip: seq<Byte> -> seq<Byte>,
    newRequestErr: string -> Option<Error>,
    encrypt: Option<Encrypt>,
    mac: Mac,
    transport: nat -> Attempt)

  /** The URL a batch goes to. */
  function UpdatesURL(cfg: Config): string {
    BuildURL(EnsureEndpointProtocol(cfg.endpoint, cfg.protocol), ["updates/"])
  }

  /**
   * prepareRequest, with applyHeadersAndEncryption as written. When encryption does not
   * fail the request carries the encoding headers and a hash over the body it sends; when
   * it fails the gzip body goes out with none of them.
   */
  function PrepareRequest(cfg: Config, env: Env, metrics: seq<MetricModel>): (r: Result<OutRequest, Error>)
    ensures env.marshal(metrics).Failure? ==> r == Failure(Wrapped("marshal metrics", env.marshal(metrics).error))
    ensures env.marshal(metrics).Success? && env.newRequestErr(UpdatesURL(cfg)).Some? ==>
      r == Failure(Wrapped("create request", env.newRequestErr(UpdatesURL(cfg)).value))
    ensures env.marshal(metrics).Success? && env.newRequestErr(UpdatesURL(cfg)).None? ==>
      && r.Success? && r.value.url == UpdatesURL(cfg)
      && var gz := env.gzip(env.marshal(metrics).value);
         if env.encrypt.Some? && env.encrypt.value(gz).Failure? then
           && r.value.body == gz
           && (XRealIP in r.value.header <==> cfg.localIP.Some?)
           && ContentEncoding !in r.value.header && ContentType !in r.value.header
           && HashHeaderKey !in r.value.header && XEncrypted !in r.value.header
         else
           var p := ApplyHeaders(cfg, env.encrypt, env.mac, gz);
           r.value.header == p.header && r.value.body == p.body
  {
    var url := UpdatesURL(cfg);
    var raw := env.marshal(metrics);
    if raw.Failure? then Failure(Wrapped("marshal metrics", raw.error))
    else
      var body := env.gzip(raw.value);
      var e := env.newRequestErr(url);
      if e.Some? then Failure(Wrapped("create request", e.value))
      else
        var p := ApplyHeadersAsWritten(cfg, env.encrypt, env.mac, body);
        if env.encrypt.Some? && env.encrypt.value(body).Failure? then
          EncryptionFailureDropsHeaders(cfg, env.encrypt.value, env.mac, body);
          Success(OutRequest(url, p.header, p.body))
        else
          ApplyHeadersAgree(cfg, env.encrypt, env.mac, body);
          Success(OutRequest(url, p.header, p.body))
  }

  /** The URL always has a scheme and ends in the updates/ path. */
  lemma UpdatesURLShape(cfg: Config)
    ensures Contains(UpdatesURL(cfg), "://")
    ensures HasSuffix(UpdatesURL(cfg), "/updates/")
  {
    var endpoint := EnsureEndpointProtocol(cfg.endpoint, cfg.protocol);
    var url := UpdatesURL(cfg);
    var base := if HasSuffix(endpoint, "/") then endpoint else endpoint + "/";
    assert url == base + "updates/";
    if HasSuffix(endpoint, "/") {
      assert endpoint[|endpoint| - 1..] == "/";
      assert endpoint[|endpoint| - 1] == '/';
    }
    assert base[|base| - 1] == '/';
    assert url[|url| - |"/updates/"|..] == "/updates/";
    var i :| 0 <= i <= |endpoint| && OccursAt(endpoint, "://", i);
    assert url[..|endpoint|] == endpoint;
    assert url[i..i + 3] == endpoint[i..i + 3];
    assert OccursAt(url, "://", i);
  }

  /** What SendBatch did: returned an error (or nil) after these requests, or panicked. */
  datatype SendOutcome = Returned(err: Option<Error>, requests: seq<OutRequest>) | Panicked

  /** makeSemaphore: no semaphore for rate limit 0, otherwise one of that capacity. */
  function MakeSemaphore(rateLimit: nat): (s: Option<nat>)
    ensures s.None? <==> rateLimit == 0
    ensures s.Some? ==> s.value == rateLimit
  {
    if rateLimit > 0 then Some(rateLimit) else None
  }

  class HttpMetricClient {
    const cfg: Config
    /** The semaphore's capacity, None when there is none. */
    const semaphore: Option<nat>
    var semaphoreOpen: bool
    var closed: bool

    /** NewHTTPMetricClient. */
    constructor (c: Config)
      ensures cfg == c && semaphore == MakeSemaphore(c.rateLimit)
      ensures !closed && semaphoreOpen
    {
      cfg := c;
      semaphore := MakeSemaphore(c.rateLimit);
      semaphoreOpen := true;
      closed := false;
    }

    /** Close: the first call marks the client closed and closes the semaphore; later calls do nothing. */
    method Close() returns (err: Option<Error>)
      modifies this
      ensures err.None? && closed
      ensures old(closed) ==> semaphoreOpen == old(semaphoreOpen)
      ensures !old(closed) ==> semaphoreOpen == (old(semaphoreOpen) && semaphore.None?)
    {
      if closed {
        return None;
      }
      closed := true;
      if semaphore.Some? {
        semaphoreOpen := false;
      }
      return None;
    }

    /**
     * SendBatch: nothing to send is nil with no request; a batch that cannot be prepared
     * is that error; acquiring a closed semaphore panics (send on a closed channel);
     * otherwise the retry loop's result. The slot is released before returning.
     */
    method SendBatch(metrics: seq<MetricModel>, env: Env) returns (out: SendOutcome)
      ensures metrics == [] ==> out == Returned(None, [])
      ensures metrics != [] && PrepareRequest(cfg, env, metrics).Failure? ==>
        out == Returned(Some(PrepareRequest(cfg, env, metrics).error), [])
      ensures metrics != [] && PrepareRequest(cfg, env, metrics).Success? ==>
        if semaphore.Some? && !semaphoreOpen then out.Panicked?
        else
          && out.Returned?
          && var r := RetryFrom(DefaultBackoffSchedule, env.transport, 0);
             out.err == r.err && |out.requests| == r.attempts
             && forall k :: 0 <= k < |out.requests| ==> out.requests[k] == PrepareRequest(cfg, env, metrics).value
    {
      if |metrics| == 0 {
        return Returned(None, []);
      }
      var req := PrepareRequest(cfg, env, metrics);
      if req.Failure? {
        return Returned(Some(req.error), []);
      }
      if semaphore.Some? && !semaphoreOpen {
        return Panicked;
      }
      var err, sent, _ := ExecuteWithRetry(req.value, DefaultBackoffSchedule, env.transport);
      return Returned(err, sent);
    }
  }

  /** With the default schedule there are at most three requests per batch. */
  lemma AtMostThreeAttempts(transport: nat -> Attempt)
    ensures RetryFrom(DefaultBackoffSchedule, transport, 0).attempts <= 3
  {
  }
}
