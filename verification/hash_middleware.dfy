/**
 * internal/server/hash_middleware.go: HashMiddleware checks the request body's HMAC
 * against the hash header, and signs the response body. The response is written
 * straight through to the client while it is recorded, so by the time the hash is
 * known the headers are already on the wire: HashW models that code as written and
 * shows the header never reaches the client; HashBufferedW is the evidently intended
 * behaviour, buffering the response until the hash header is set.
 */
module HashMiddleware {
  import opened Wrappers
  import opened Errors
  import opened Common
  import opened HttpWire
  import GzipMiddleware

  /** The checks before the handler runs: Some(response) when the request is answered here. */
  function Verdict(w0: Wire, r: Request, mac: Mac, hashKey: string): (v: Option<Wire>)
    ensures v.Some? ==> r.body.Some? && r.contentLength != 0 && hashKey != "" && Get(r.header, HashHeaderKey) != ""
  {
    if r.body.None? || r.contentLength == 0 then None
    else if hashKey == "" || Get(r.header, HashHeaderKey) == "" then None
    else if r.body.value.Failure? then Some(HttpErrorW(w0, "Internal Server Error", StatusInternalServerError))
    else if !CompareHashes(Get(r.header, HashHeaderKey), ComputeHash(mac, hashKey, r.body.value.value)) then
      Some(HttpErrorW(w0, "Invalid request hash", StatusBadRequest))
    else None
  }

  /** Whether the handler's response is signed: a hash was checked, or none was asked for. */
  predicate Checked(r: Request, hashKey: string) {
    r.body.Some? && r.contentLength != 0 && hashKey != "" && Get(r.header, HashHeaderKey) != ""
  }

  /** The request next receives: the body re-wrapped around the bytes read. */
  function Rearmed(r: Request): Request {
    if r.body.Some? && r.body.value.Success? then r.(body := Some(Success(r.body.value.value))) else r
  }

  /** HashMiddleware as written: the handler writes through, then the hash header is set. */
  function HashW(w0: Wire, r: Request, next: Handler, mac: Mac, hashKey: string): Wire {
    var v := Verdict(w0, r, mac, hashKey);
    if v.Some? then v.value
    else if !Checked(r, hashKey) then Run(w0, next(r))
    else SignW(w0, next(Rearmed(r)), mac, hashKey)
  }

  /** The handler's operations go through, then the hash of what they wrote is set. */
  function SignW(w0: Wire, ops: seq<Op>, mac: Mac, hashKey: string): Wire {
    var w1 := Run(w0, ops);
    if |Written(ops)| > 0 then SetHeaderW(w1, HashHeaderKey, ComputeHash(mac, hashKey, Written(ops))) else w1
  }

  /** responseRecorder: writes go through to the client and into `recorded`. */
  class ResponseRecorder {
    const inner: ResponseWriter
    var recorded: seq<Byte>

    constructor (w: ResponseWriter)
      ensures inner == w && recorded == []
    {
      inner := w;
      recorded := [];
    }

    /** next.ServeHTTP(recorder, r) for a handler that performs `ops`. */
    method Serve(ops: seq<Op>)
      modifies this, inner
      ensures inner.State() == Run(old(inner.State()), ops)
      ensures recorded == old(recorded) + Written(ops)
    {
      var i := 0;
      while i < |ops|
        invariant 0 <= i <= |ops|
        invariant inner.State() == Run(old(inner.State()), ops[..i])
        invariant recorded == old(recorded) + Written(ops[..i])
      {
        assert ops[..i + 1][..i] == ops[..i];
        if ops[i].WriteOp? {
          recorded := recorded + ops[i].data;
        }
        inner.Apply(ops[i]);
        i := i + 1;
      }
      assert ops[..i] == ops;
    }
  }

  /** HashMiddleware(hashKey)(next).ServeHTTP(w, r), as written. */
  method Hash(w: ResponseWriter, r: Request, next: Handler, mac: Mac, hashKey: string)
    modifies w
    ensures w.State() == HashW(old(w.State()), r, next, mac, hashKey)
  {
    if r.body.None? || r.contentLength == 0 {
      w.Serve(next(r));
      return;
    }
    var requestHash := Get(r.header, HashHeaderKey);
    if hashKey == "" || requestHash == "" {
      w.Serve(next(r));
      return;
    }
    if r.body.value.Failure? {
      HttpError(w, "Internal Server Error", StatusInternalServerError);
      return;
    }
    var body := r.body.value.value;
    var req := r.(body := Some(Success(body)));
    var expectedHash := ComputeHash(mac, hashKey, body);
    if !CompareHashes(requestHash, expectedHash) {
      HttpError(w, "Invalid request hash", StatusBadRequest);
      return;
    }
    assert req == Rearmed(r);
    Sign(w, next(req), mac, hashKey);
  }

  /** The tail of HashMiddleware: the handler runs on a recorder, then the hash is set. */
  method Sign(w: ResponseWriter, ops: seq<Op>, mac: Mac, hashKey: string)
    modifies w
    ensures w.State() == SignW(old(w.State()), ops, mac, hashKey)
  {
    var recorder := new ResponseRecorder(w);
    recorder.Serve(ops);
    assert recorder.recorded == Written(ops);
    if |recorder.recorded| > 0 {
      w.SetHeader(HashHeaderKey, ComputeHash(mac, hashKey, recorder.recorded));
    }
  }

  /** A request without a body, or without a key or hash to check, reaches the handler as is. */
  lemma UncheckedPassesThrough(w0: Wire, r: Request, next: Handler, mac: Mac, hashKey: string)
    requires !Checked(r, hashKey)
    ensures HashW(w0, r, next, mac, hashKey) == Run(w0, next(r))
  {
  }

  /**
   * A request whose hash does not match is answered 400 without running the handler; one
   * that matches runs it on the very request it came in with.
   */
  lemma CheckedRequest(r: Request, next: Handler, mac: Mac, hashKey: string)
    requires Checked(r, hashKey) && r.body.value.Success?
    ensures var ok := CompareHashes(Get(r.header, HashHeaderKey), ComputeHash(mac, hashKey, r.body.value.value));
      && (!ok ==> HashW(Fresh, r, next, mac, hashKey) == HttpErrorW(Fresh, "Invalid request hash", StatusBadRequest))
      && (ok ==> Rearmed(r) == r && HashW(Fresh, r, next, mac, hashKey).body == Written(next(r)))
  {
    RunBody(Fresh, next(r));
  }

  /**
   * As written, a signed response never carries its hash: once the handler wrote a byte
   * the headers were sent, so the hash set afterwards only reaches the dead header map.
   */
  lemma HashHeaderNeverSent(r: Request, next: Handler, mac: Mac, hashKey: string)
    requires Checked(r, hashKey) && Verdict(Fresh, r, mac, hashKey).None?
    requires |Written(next(r))| > 0 && !Touches(next(r), HashHeaderKey)
    ensures var w := HashW(Fresh, r, next, mac, hashKey);
      && HashHeaderKey !in w.sent
      && Get(w.header, HashHeaderKey) == ComputeHash(mac, hashKey, w.body)
  {
    var ops := next(r);
    assert Rearmed(r) == r;
    RunUntouched(Fresh, ops, HashHeaderKey);
    RunWriteCommits(Fresh, ops);
    RunBody(Fresh, ops);
    assert Run(Fresh, ops).body == Written(ops);
  }

  /** The intended middleware: the handler's response is held back until it is signed. */
  function HashBufferedW(w0: Wire, r: Request, next: Handler, mac: Mac, hashKey: string): Wire {
    var v := Verdict(w0, r, mac, hashKey);
    if v.Some? then v.value
    else if !Checked(r, hashKey) then Run(w0, next(r))
    else SignBufferedW(w0, next(Rearmed(r)), mac, hashKey)
  }

  /** The handler's headers, then the hash of its bytes, then its status and bytes. */
  function SignBufferedW(w0: Wire, ops: seq<Op>, mac: Mac, hashKey: string): Wire {
    var w1 := Run(w0, GzipMiddleware.HeaderOps(ops));
    var code := if GzipMiddleware.FirstCode(ops).Some? then GzipMiddleware.FirstCode(ops).value else StatusOK;
    var w2 := if |Written(ops)| > 0 then SetHeaderW(w1, HashHeaderKey, ComputeHash(mac, hashKey, Written(ops))) else w1;
    GzipMiddleware.FlushW(w2, code, Written(ops))
  }

  /** The intended HashMiddleware, with bufferedResponseWriter in place of responseRecorder. */
  method HashBuffered(w: ResponseWriter, r: Request, next: Handler, mac: Mac, hashKey: string)
    modifies w
    ensures w.State() == HashBufferedW(old(w.State()), r, next, mac, hashKey)
  {
    if r.body.None? || r.contentLength == 0 {
      w.Serve(next(r));
      return;
    }
    var requestHash := Get(r.header, HashHeaderKey);
    if hashKey == "" || requestHash == "" {
      w.Serve(next(r));
      return;
    }
    if r.body.value.Failure? {
      HttpError(w, "Internal Server Error", StatusInternalServerError);
      return;
    }
    var body := r.body.value.value;
    var req := r.(body := Some(Success(body)));
    if !CompareHashes(requestHash, ComputeHash(mac, hashKey, body)) {
      HttpError(w, "Invalid request hash", StatusBadRequest);
      return;
    }
    assert req == Rearmed(r);
    SignBuffered(w, next(req), mac, hashKey);
  }

  /** The tail of the intended middleware: buffer, sign, then flush. */
  method SignBuffered(w: ResponseWriter, ops: seq<Op>, mac: Mac, hashKey: string)
    modifies w
    ensures w.State() == SignBufferedW(old(w.State()), ops, mac, hashKey)
  {
    var bw := new GzipMiddleware.BufferedResponseWriter(w);
    bw.Serve(ops);
    assert bw.buf == Written(ops);
    if |bw.buf| > 0 {
      w.SetHeader(HashHeaderKey, ComputeHash(mac, hashKey, bw.buf));
    }
    bw.Flush();
  }

  /**
   * With buffering, on a fresh writer a non-empty signed response goes out with the
   * handler's status and bytes, and the hash header the client receives is the HMAC of
   * exactly those bytes.
   */
  lemma BufferedResponseIsSigned(r: Request, next: Handler, mac: Mac, hashKey: string)
    requires Checked(r, hashKey) && Verdict(Fresh, r, mac, hashKey).None?
    requires |Written(next(r))| > 0
    ensures var w := HashBufferedW(Fresh, r, next, mac, hashKey);
      var ops := next(r);
      && w.body == Written(ops)
      && w.status == (if GzipMiddleware.FirstCode(ops).Some? then GzipMiddleware.FirstCode(ops).value else 200)
      && Get(w.sent, HashHeaderKey) == ComputeHash(mac, hashKey, w.body)
  {
    GzipMiddleware.RunHeaderOps(Fresh, GzipMiddleware.HeaderOps(next(r)));
  }
}
