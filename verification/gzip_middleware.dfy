/**
 * internal/server/gzip_middleware.go (declared again, word for word, in
 * internal/server/middlewares.go): request decompression and response compression.
 * The handler's output is held in a bufferedResponseWriter until it is known whether
 * the content type is worth compressing. gzip itself is not modelled: `gunzip` is
 * gzip.NewReader over the body (None when the stream header is invalid) and
 * `compress` is what a gzip.Writer emits for a buffer; mime.ParseMediaType is
 * `parseMediaType`.
 */
module GzipMiddleware {
  import opened Wrappers
  import opened Errors
  import opened Common
  import opened HttpWire

  /** Only the header operations of a handler reach the real writer while buffering. */
  function HeaderOps(ops: seq<Op>): (hs: seq<Op>)
    ensures forall i :: 0 <= i < |hs| ==> hs[i].SetHeaderOp? || hs[i].DelHeaderOp?
    decreases |ops|
  {
    if ops == [] then []
    else
      var last := ops[|ops| - 1];
      HeaderOps(ops[..|ops| - 1]) + (if last.SetHeaderOp? || last.DelHeaderOp? then [last] else [])
  }

  /** The status the handler chose: its first WriteHeader, or 200 at its first Write. */
  function FirstCode(ops: seq<Op>): Option<StatusCode>
    decreases |ops|
  {
    if ops == [] then None
    else
      var f := FirstCode(ops[..|ops| - 1]);
      if f.Some? then f
      else match ops[|ops| - 1]
        case WriteHeaderOp(c) => Some(c)
        case WriteOp(_) => Some(StatusOK)
        case _ => None
  }

  /** Header operations neither send nor write anything. */
  lemma {:induction false} RunHeaderOps(w: Wire, hs: seq<Op>)
    requires forall i :: 0 <= i < |hs| ==> hs[i].SetHeaderOp? || hs[i].DelHeaderOp?
    ensures Run(w, hs).status == w.status && Run(w, hs).sent == w.sent && Run(w, hs).body == w.body
    decreases |hs|
  {
    if hs != [] {
      RunHeaderOps(w, hs[..|hs| - 1]);
    }
  }

  /** writeHeaders then the buffer: what Flush puts on the real writer. */
  function FlushW(w: Wire, code: StatusCode, buf: seq<Byte>): Wire {
    var c := WriteHeaderW(w, code);
    if |buf| > 0 then WriteW(c, buf) else c
  }

  /** bufferedResponseWriter. Header() is the embedded writer's. */
  class BufferedResponseWriter {
    const inner: ResponseWriter
    var buf: seq<Byte>
    var statusCode: int
    var wroteHeader: bool

    predicate Valid()
      reads this
    {
      wroteHeader ==> 100 <= statusCode <= 999
    }

    /** The status writeHeaders will send. */
    function Code(): StatusCode
      reads this
      requires Valid()
    {
      if wroteHeader then statusCode else StatusOK
    }

    constructor (w: ResponseWriter)
      ensures inner == w && buf == [] && !wroteHeader && Valid()
    {
      inner := w;
      buf := [];
      statusCode := 0;
      wroteHeader := false;
    }

    /** WriteHeader: only the first status is kept; nothing is sent. */
    method WriteHeader(code: StatusCode)
      requires Valid()
      modifies this
      ensures Valid() && wroteHeader && buf == old(buf)
      ensures Code() == if old(wroteHeader) then old(Code()) else code
    {
      if !wroteHeader {
        statusCode := code;
        wroteHeader := true;
      }
    }

    /** Write: fixes the status at 200 if none was chosen, and buffers the bytes. */
    method Write(data: seq<Byte>)
      requires Valid()
      modifies this
      ensures Valid() && wroteHeader && buf == old(buf) + data
      ensures Code() == if old(wroteHeader) then old(Code()) else StatusOK
    {
      if !wroteHeader {
        WriteHeader(StatusOK);
      }
      buf := buf + data;
    }

    /** next.ServeHTTP(bw, r) for a handler that performs `ops`. */
    method Serve(ops: seq<Op>)
      requires Valid()
      modifies this, inner
      ensures Valid()
      ensures inner.State() == Run(old(inner.State()), HeaderOps(ops))
      ensures buf == old(buf) + Written(ops)
      ensures wroteHeader == (old(wroteHeader) || FirstCode(ops).Some?)
      ensures Code() == if old(wroteHeader) then old(Code()) else if FirstCode(ops).Some? then FirstCode(ops).value else StatusOK
    {
      var i := 0;
      while i < |ops|
        invariant 0 <= i <= |ops| && Valid()
        invariant inner.State() == Run(old(inner.State()), HeaderOps(ops[..i]))
        invariant buf == old(buf) + Written(ops[..i])
        invariant wroteHeader == (old(wroteHeader) || FirstCode(ops[..i]).Some?)
        invariant Code() == if old(wroteHeader) then old(Code()) else if FirstCode(ops[..i]).Some? then FirstCode(ops[..i]).value else StatusOK
      {
        assert ops[..i + 1][..i] == ops[..i];
        var op := ops[i];
        ghost var hs := HeaderOps(ops[..i]);
        if op.SetHeaderOp? || op.DelHeaderOp? {
          assert HeaderOps(ops[..i + 1]) == hs + [op];
          RunSnoc(old(inner.State()), hs, op);
        } else {
          assert HeaderOps(ops[..i + 1]) == hs;
        }
        match op {
          case SetHeaderOp(k, v) => inner.SetHeader(k, v);
          case DelHeaderOp(k) => inner.DelHeader(k);
          case WriteHeaderOp(code) => WriteHeader(code);
          case WriteOp(data) => Write(data);
        }
        i := i + 1;
      }
      assert ops[..i] == ops;
    }

    /** writeHeaders: sends the chosen status (200 if none) and the headers. */
    method WriteHeaders()
      requires Valid()
      modifies this, inner
      ensures Valid() && wroteHeader && buf == old(buf) && Code() == old(Code())
      ensures inner.State() == WriteHeaderW(old(inner.State()), old(Code()))
    {
      if !wroteHeader {
        WriteHeader(StatusOK);
      }
      inner.WriteHeader(statusCode);
    }

    /** Flush: writeHeaders, then the buffered bytes if there are any. */
    method Flush()
      requires Valid()
      modifies this, inner
      ensures Valid() && buf == old(buf)
      ensures inner.State() == FlushW(old(inner.State()), old(Code()), old(buf))
    {
      WriteHeaders();
      if |buf| > 0 {
        inner.Write(buf);
      }
    }
  }

  /** compressibleTypes. */
  const CompressibleTypes: set<string> := {"application/json", "text/html"}

  /** isCompressibleContentType: the media type parses and is JSON or HTML. */
  function IsCompressibleContentType(parseMediaType: string -> Option<string>, contentType: string): (ok: bool)
    ensures ok <==> parseMediaType(contentType).Some? && parseMediaType(contentType).value in CompressibleTypes
  {
    var m := parseMediaType(contentType);
    m.Some? && m.value in CompressibleTypes
  }

  datatype GzipEnv = GzipEnv(
    gunzip: seq<Byte> -> Option<seq<Byte>>,
    parseMediaType: string -> Option<string>,
    compress: seq<Byte> -> seq<Byte>,
    writeErr: Option<Error>)

  /** The request next sees: decompressed when its Content-Encoding names gzip. */
  function Decompressed(r: Request, gunzip: seq<Byte> -> Option<seq<Byte>>): Option<Request> {
    if !Contains(Get(r.header, ContentEncoding), "gzip") then Some(r)
    else if r.body.Some? && r.body.value.Success? && gunzip(r.body.value.value).Some? then
      Some(r.(body := Some(Success(gunzip(r.body.value.value).value))))
    else None
  }

  /** The writer after the buffered path: next's headers, then the chosen flush. */
  function CompressW(w0: Wire, ops: seq<Op>, env: GzipEnv): Wire {
    var w1 := Run(SetHeaderW(w0, Vary, "Accept-Encoding"), HeaderOps(ops));
    var code := if FirstCode(ops).Some? then FirstCode(ops).value else StatusOK;
    var buf := Written(ops);
    if !IsCompressibleContentType(env.parseMediaType, Get(w1.header, ContentType)) then FlushW(w1, code, buf)
    else
      var w2 := WriteHeaderW(DelHeaderW(SetHeaderW(w1, ContentEncoding, "gzip"), ContentLength), code);
      if env.writeErr.Some? then HttpErrorW(w2, "Compression failed", StatusInternalServerError)
      else WriteW(w2, env.compress(buf))
  }

  /** GzipMiddleware, as a function of the writer before it ran. */
  function GzipW(w0: Wire, r: Request, next: Handler, env: GzipEnv): Wire {
    var req := Decompressed(r, env.gunzip);
    if req.None? then HttpErrorW(w0, "Invalid gzip body", StatusBadRequest)
    else if !Contains(Get(r.header, AcceptEncoding), "gzip") then Run(w0, next(req.value))
    else if Get(w0.header, ContentEncoding) == "gzip" then Run(w0, next(req.value))
    else CompressW(w0, next(req.value), env)
  }

  /** GzipMiddleware(next).ServeHTTP(w, r). */
  method Gzip(w: ResponseWriter, r: Request, next: Handler, env: GzipEnv)
    modifies w
    ensures w.State() == GzipW(old(w.State()), r, next, env)
  {
    var req := r;
    if Contains(Get(r.header, ContentEncoding), "gzip") {
      if !(r.body.Some? && r.body.value.Success? && env.gunzip(r.body.value.value).Some?) {
        HttpError(w, "Invalid gzip body", StatusBadRequest);
        return;
      }
      req := r.(body := Some(Success(env.gunzip(r.body.value.value).value)));
    }
    if !Contains(Get(r.header, AcceptEncoding), "gzip") {
      w.Serve(next(req));
      return;
    }
    if Get(w.header, ContentEncoding) == "gzip" {
      w.Serve(next(req));
      return;
    }
    Buffered(w, next(req), env);
  }

  /** The buffered path of GzipMiddleware, for a handler that performs `ops`. */
  method Buffered(w: ResponseWriter, ops: seq<Op>, env: GzipEnv)
    modifies w
    ensures w.State() == CompressW(old(w.State()), ops, env)
  {
    var bw := new BufferedResponseWriter(w);
    w.SetHeader(Vary, "Accept-Encoding");
    ghost var w1 := Run(SetHeaderW(old(w.State()), Vary, "Accept-Encoding"), HeaderOps(ops));
    ghost var code: StatusCode := if FirstCode(ops).Some? then FirstCode(ops).value else StatusOK;
    bw.Serve(ops);
    assert w.State() == w1;
    assert bw.Valid() && bw.Code() == code && bw.buf == Written(ops);
    if !IsCompressibleContentType(env.parseMediaType, Get(w.header, ContentType)) {
      bw.Flush();
      assert w.State() == FlushW(w1, code, Written(ops));
      return;
    }
    w.SetHeader(ContentEncoding, "gzip");
    w.DelHeader(ContentLength);
    bw.WriteHeaders();
    if env.writeErr.Some? {
      HttpError(w, "Compression failed", StatusInternalServerError);
      return;
    }
    w.Write(env.compress(bw.buf));
  }

  /**
   * On a fresh writer, a compressible response to a client that accepts gzip carries
   * the handler's status, Content-Encoding gzip and no Content-Length, and its body is
   * the compression of everything the handler wrote; when `compress` is inverted by
   * `gunzip`, the client recovers the handler's bytes exactly.
   */
  lemma CompressedResponse(r: Request, next: Handler, env: GzipEnv)
    requires !Contains(Get(r.header, ContentEncoding), "gzip") && Contains(Get(r.header, AcceptEncoding), "gzip")
    requires var w1 := Run(SetHeaderW(Fresh, Vary, "Accept-Encoding"), HeaderOps(next(r)));
      IsCompressibleContentType(env.parseMediaType, Get(w1.header, ContentType))
    requires env.writeErr.None?
    requires forall x :: env.gunzip(env.compress(x)) == Some(x)
    ensures var w := GzipW(Fresh, r, next, env);
      var ops := next(r);
      && w.status == (if FirstCode(ops).Some? then FirstCode(ops).value else 200)
      && Get(w.sent, ContentEncoding) == "gzip" && ContentLength !in w.sent
      && w.body == env.compress(Written(ops))
      && env.gunzip(w.body) == Some(Written(ops))
  {
    var ops := next(r);
    var w0 := SetHeaderW(Fresh, Vary, "Accept-Encoding");
    RunHeaderOps(w0, HeaderOps(ops));
  }

  /**
   * A response that is not compressible reaches the client as the handler produced it
   * (status and bytes), only later: headers the handler set after writing still go out.
   */
  lemma UncompressedResponse(r: Request, next: Handler, env: GzipEnv)
    requires !Contains(Get(r.header, ContentEncoding), "gzip") && Contains(Get(r.header, AcceptEncoding), "gzip")
    requires var w1 := Run(SetHeaderW(Fresh, Vary, "Accept-Encoding"), HeaderOps(next(r)));
      !IsCompressibleContentType(env.parseMediaType, Get(w1.header, ContentType))
    ensures var w := GzipW(Fresh, r, next, env);
      var ops := next(r);
      && w.status == (if FirstCode(ops).Some? then FirstCode(ops).value else 200)
      && w.body == Written(ops)
      && w.sent == Run(SetHeaderW(Fresh, Vary, "Accept-Encoding"), HeaderOps(ops)).header
  {
    var ops := next(r);
    var w0 := SetHeaderW(Fresh, Vary, "Accept-Encoding");
    RunHeaderOps(w0, HeaderOps(ops));
  }

  /** A gzip request body reaches the handler decompressed; a corrupt one is a 400. */
  lemma RequestDecompression(r: Request, next: Handler, env: GzipEnv)
    requires Contains(Get(r.header, ContentEncoding), "gzip")
    ensures Decompressed(r, env.gunzip).Some? <==>
      r.body.Some? && r.body.value.Success? && env.gunzip(r.body.value.value).Some?
    ensures Decompressed(r, env.gunzip).Some? ==>
      Decompressed(r, env.gunzip).value == r.(body := Some(Success(env.gunzip(r.body.value.value).value)))
    ensures Decompressed(r, env.gunzip).None? ==>
      GzipW(Fresh, r, next, env) == HttpErrorW(Fresh, "Invalid gzip body", StatusBadRequest)
  {
  }

  /** A client that does not accept gzip gets exactly what the handler writes. */
  lemma NoAcceptPassesThrough(w0: Wire, r: Request, next: Handler, env: GzipEnv)
    requires !Contains(Get(r.header, ContentEncoding), "gzip") && !Contains(Get(r.header, AcceptEncoding), "gzip")
    ensures GzipW(w0, r, next, env) == Run(w0, next(r))
  {
  }
}
