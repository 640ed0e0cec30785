/**
 * internal/server/logging_middleware.go (declared again in internal/server/middlewares.go):
 * a response writer that forwards everything and counts what went through, for the
 * log line LoggerMiddleware writes after the handler. The inner writer's Write is taken
 * to accept every byte. net/http reports fewer when the connection failed, and refuses
 * the body with ErrBodyNotAllowed under a status that allows none (1xx, 204, 304);
 * neither case is modelled.
 */
module LoggingMiddleware {
  import opened Common
  import opened HttpWire

  /** The status the writer records: the code of the last WriteHeader, else `s0`. */
  function LoggedStatus(s0: int, ops: seq<Op>): int
    decreases |ops|
  {
    if ops == [] then s0
    else
      var last := ops[|ops| - 1];
      if last.WriteHeaderOp? then last.code else LoggedStatus(s0, ops[..|ops| - 1])
  }

  predicate CallsWriteHeader(ops: seq<Op>) {
    exists i :: 0 <= i < |ops| && ops[i].WriteHeaderOp?
  }

  predicate CallsWrite(ops: seq<Op>) {
    exists i :: 0 <= i < |ops| && ops[i].WriteOp?
  }

  /** loggingResponseWriter with its responseData. Header() is the embedded writer's. */
  class LoggingResponseWriter {
    const inner: ResponseWriter
    var status: int
    var size: nat

    /** The writer LoggerMiddleware builds: status and size start at 0. */
    constructor (w: ResponseWriter)
      ensures inner == w && status == 0 && size == 0
    {
      inner := w;
      status := 0;
      size := 0;
    }

    /** Write: forwards the bytes and adds their count to size. */
    method Write(b: seq<Byte>) returns (n: nat)
      modifies this, inner
      ensures n == |b| && size == old(size) + n && status == old(status)
      ensures inner.State() == WriteW(old(inner.State()), b)
    {
      inner.Write(b);
      n := |b|;
      size := size + n;
    }

    /** WriteHeader: forwards the code and records it. */
    method WriteHeader(code: StatusCode)
      modifies this, inner
      ensures status == code && size == old(size)
      ensures inner.State() == WriteHeaderW(old(inner.State()), code)
    {
      inner.WriteHeader(code);
      status := code;
    }

    /** next.ServeHTTP(lw, r) for a handler that performs `ops`. */
    method Serve(ops: seq<Op>)
      modifies this, inner
      ensures inner.State() == Run(old(inner.State()), ops)
      ensures size == old(size) + |Written(ops)|
      ensures status == LoggedStatus(old(status), ops)
    {
      var i := 0;
      while i < |ops|
        invariant 0 <= i <= |ops|
        invariant inner.State() == Run(old(inner.State()), ops[..i])
        invariant size == old(size) + |Written(ops[..i])|
        invariant status == LoggedStatus(old(status), ops[..i])
      {
        assert ops[..i + 1][..i] == ops[..i];
        match ops[i] {
          case SetHeaderOp(k, v) => inner.SetHeader(k, v);
          case DelHeaderOp(k) => inner.DelHeader(k);
          case WriteHeaderOp(code) => WriteHeader(code);
          case WriteOp(data) => var _ := Write(data);
        }
        i := i + 1;
      }
      assert ops[..i] == ops;
    }
  }

  /**
   * LoggerMiddleware(logger)(next).ServeHTTP(w, r): the client gets exactly what the
   * handler produced; the log line reports `status` and `size`.
   */
  method Logger(w: ResponseWriter, r: Request, next: Handler) returns (status: int, size: nat)
    modifies w
    ensures w.State() == Run(old(w.State()), next(r))
    ensures status == LoggedStatus(0, next(r)) && size == |Written(next(r))|
  {
    var lw := new LoggingResponseWriter(w);
    lw.Serve(next(r));
    status, size := lw.status, lw.size;
  }

  /** The logged size is the length of the body the client received. */
  lemma LoggedSizeIsBodyLength(ops: seq<Op>)
    ensures |Run(Fresh, ops).body| == |Written(ops)|
  {
    RunBody(Fresh, ops);
  }

  /** The logged status is 0 exactly when the handler never called WriteHeader. */
  lemma {:induction false} LoggedStatusZero(ops: seq<Op>)
    ensures LoggedStatus(0, ops) == 0 <==> !CallsWriteHeader(ops)
    ensures CallsWriteHeader(ops) ==> 100 <= LoggedStatus(0, ops) <= 999
    decreases |ops|
  {
    if ops != [] {
      var init := ops[..|ops| - 1];
      LoggedStatusZero(init);
      if CallsWriteHeader(init) {
        var i :| 0 <= i < |init| && init[i].WriteHeaderOp?;
        assert ops[i] == init[i];
      }
      if CallsWriteHeader(ops) && !ops[|ops| - 1].WriteHeaderOp? {
        var i :| 0 <= i < |ops| && ops[i].WriteHeaderOp?;
        assert init[i] == ops[i];
      }
    }
  }

  /** Without WriteHeader, a fresh writer's status is 0, or 200 once Write was called. */
  lemma {:induction false} RunImplicitStatus(ops: seq<Op>)
    requires !CallsWriteHeader(ops)
    ensures Run(Fresh, ops).status == (if CallsWrite(ops) then 200 else 0)
    decreases |ops|
  {
    if ops != [] {
      var init := ops[..|ops| - 1];
      assert !CallsWriteHeader(init) by {
        forall i | 0 <= i < |init| ensures !init[i].WriteHeaderOp? {
          assert init[i] == ops[i];
        }
      }
      RunImplicitStatus(init);
      if CallsWrite(init) {
        var i :| 0 <= i < |init| && init[i].WriteOp?;
        assert ops[i] == init[i];
      }
      if CallsWrite(ops) && !ops[|ops| - 1].WriteOp? {
        var i :| 0 <= i < |ops| && ops[i].WriteOp?;
        assert init[i] == ops[i];
      }
    }
  }

  /**
   * A handler that writes without calling WriteHeader is answered with 200, yet the log
   * line reports status 0.
   */
  lemma ImplicitOkLoggedAsZero(ops: seq<Op>)
    requires !CallsWriteHeader(ops) && CallsWrite(ops)
    ensures Run(Fresh, ops).status == 200 && LoggedStatus(0, ops) == 0
  {
    RunImplicitStatus(ops);
    LoggedStatusZero(ops);
  }
}
