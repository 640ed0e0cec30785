/**
 * The parts of net/http the server middlewares rely on, as the Go standard library
 * defines them: a header map, and a response writer whose status line and headers go
 * on the wire at the first WriteHeader or Write (a Write without one sends 200). After
 * that, header changes no longer reach the client and a second WriteHeader is ignored.
 * Header names are kept in canonical form; common.HashHeaderKey, whose text is not
 * part of this model, is a name of its own.
 */
module HttpWire {
  import opened Wrappers
  import opened Errors
  import opened Common

  datatype HeaderName = HashHeaderKey | Named(name: string)

  /** One value per name: the core only ever calls Header.Set and Header.Get. */
  type Header = map<HeaderName, string>

  const ContentType: HeaderName := Named("Content-Type")
  const ContentEncoding: HeaderName := Named("Content-Encoding")
  const ContentLength: HeaderName := Named("Content-Length")
  const AcceptEncoding: HeaderName := Named("Accept-Encoding")
  const Vary: HeaderName := Named("Vary")
  const XEncrypted: HeaderName := Named("X-Encrypted")
  const XRealIP: HeaderName := Named("X-Real-Ip")
  const XContentTypeOptions: HeaderName := Named("X-Content-Type-Options")

  /** Header.Get: the value, or "" when the name is absent. */
  function Get(h: Header, k: HeaderName): string {
    if k in h then h[k] else ""
  }

  /** The status codes WriteHeader accepts (it panics outside 100..999). */
  type StatusCode = c: int | 100 <= c <= 999 witness 200

  const StatusOK: StatusCode := 200
  const StatusBadRequest: StatusCode := 400
  const StatusForbidden: StatusCode := 403
  const StatusInternalServerError: StatusCode := 500

  /** The bytes of an ASCII text (every text the core writes is ASCII). */
  function Ascii(s: string): (b: seq<Byte>)
    ensures |b| == |s|
  {
    seq(|s|, i requires 0 <= i < |s| => (s[i] as int) % 256)
  }

  /** An incoming request: its headers, its body (None for a nil Body), ContentLength. */
  datatype Request = Request(header: Header, body: Option<Result<seq<Byte>, Error>>, contentLength: int)

  /**
   * A response as the writer holds it: the header map, the status sent (0 while
   * nothing is sent), the headers as they were sent, and the body bytes sent.
   */
  datatype Wire = Wire(header: Header, status: int, sent: Header, body: seq<Byte>)

  const Fresh: Wire := Wire(map[], 0, map[], [])

  predicate Committed(w: Wire) {
    w.status != 0
  }

  function SetHeaderW(w: Wire, k: HeaderName, v: string): Wire {
    w.(header := w.header[k := v])
  }

  function DelHeaderW(w: Wire, k: HeaderName): Wire {
    w.(header := w.header - {k})
  }

  /** WriteHeader: the first call sends the status and the headers; later calls do nothing. */
  function WriteHeaderW(w: Wire, code: StatusCode): (r: Wire)
    ensures Committed(r)
    ensures Committed(w) ==> r == w
    ensures !Committed(w) ==> r.status == code && r.sent == w.header && r.body == w.body
  {
    if Committed(w) then w else w.(status := code, sent := w.header)
  }

  /** Write: sends 200 and the headers first if nothing was sent, then appends the bytes. */
  function WriteW(w: Wire, data: seq<Byte>): (r: Wire)
    ensures Committed(r) && r.body == w.body + data && r.header == w.header
    ensures Committed(w) ==> r.status == w.status && r.sent == w.sent
    ensures !Committed(w) ==> r.status == StatusOK && r.sent == w.header
  {
    var c := WriteHeaderW(w, StatusOK);
    c.(body := c.body + data)
  }

  /**
   * http.Error: drops Content-Length, sets a plain-text Content-Type and nosniff, writes
   * the code and then the text and a newline.
   */
  function HttpErrorW(w: Wire, text: string, code: StatusCode): (r: Wire)
    ensures !Committed(w) ==> r.status == code && Get(r.sent, ContentType) == "text/plain; charset=utf-8"
    ensures Committed(w) ==> r.status == w.status && r.sent == w.sent
    ensures r.body == w.body + Ascii(text + "\n")
  {
    var h := SetHeaderW(SetHeaderW(DelHeaderW(w, ContentLength), ContentType, "text/plain; charset=utf-8"),
                        XContentTypeOptions, "nosniff");
    WriteW(WriteHeaderW(h, code), Ascii(text + "\n"))
  }

  /** The response of a fresh writer after http.Error: what the client sees. */
  lemma HttpErrorOnFresh(text: string, code: StatusCode)
    ensures var r := HttpErrorW(Fresh, text, code);
      r.status == code && r.body == Ascii(text + "\n") && ContentLength !in r.sent
  {
  }

  /** One thing a handler does to its writer. */
  datatype Op =
    | SetHeaderOp(k: HeaderName, v: string)
    | DelHeaderOp(k: HeaderName)
    | WriteHeaderOp(code: StatusCode)
    | WriteOp(data: seq<Byte>)

  /** A handler, as the writer operations it performs for a request. */
  type Handler = Request -> seq<Op>

  function Step(w: Wire, op: Op): Wire {
    match op
    case SetHeaderOp(k, v) => SetHeaderW(w, k, v)
    case DelHeaderOp(k) => DelHeaderW(w, k)
    case WriteHeaderOp(code) => WriteHeaderW(w, code)
    case WriteOp(data) => WriteW(w, data)
  }

  /** The writer after the operations, in order. */
  function Run(w: Wire, ops: seq<Op>): Wire
    decreases |ops|
  {
    if ops == [] then w else Step(Run(w, ops[..|ops| - 1]), ops[|ops| - 1])
  }

  /** Running one more operation is one more step. */
  lemma RunSnoc(w: Wire, ops: seq<Op>, op: Op)
    ensures Run(w, ops + [op]) == Step(Run(w, ops), op)
  {
    assert (ops + [op])[..|ops|] == ops;
  }

  /** The bytes the operations write, in order. */
  function Written(ops: seq<Op>): seq<Byte>
    decreases |ops|
  {
    if ops == [] then []
    else Written(ops[..|ops| - 1]) + (if ops[|ops| - 1].WriteOp? then ops[|ops| - 1].data else [])
  }

  /** Whether the operations change the given header. */
  predicate Touches(ops: seq<Op>, k: HeaderName) {
    exists i :: 0 <= i < |ops| && (ops[i] == DelHeaderOp(k) || (ops[i].SetHeaderOp? && ops[i].k == k))
  }

  /**
   * Once a response is committed nothing a handler does changes its status or the
   * headers the client received; the body only grows, by exactly what was written.
   */
  lemma {:induction false} RunAfterCommit(w: Wire, ops: seq<Op>)
    requires Committed(w)
    ensures Run(w, ops).status == w.status && Run(w, ops).sent == w.sent
    ensures Run(w, ops).body == w.body + Written(ops)
    decreases |ops|
  {
    if ops != [] {
      RunAfterCommit(w, ops[..|ops| - 1]);
    }
  }

  /** Whatever the operations, the body is what they wrote, appended. */
  lemma {:induction false} RunBody(w: Wire, ops: seq<Op>)
    ensures Run(w, ops).body == w.body + Written(ops)
    decreases |ops|
  {
    if ops != [] {
      RunBody(w, ops[..|ops| - 1]);
    }
  }

  /** A written byte commits the response. */
  lemma {:induction false} RunWriteCommits(w: Wire, ops: seq<Op>)
    requires |Written(ops)| > 0 || Committed(w)
    ensures Committed(Run(w, ops))
    decreases |ops|
  {
    if ops != [] {
      var init := ops[..|ops| - 1];
      if |Written(init)| > 0 || Committed(w) {
        RunWriteCommits(w, init);
      }
    }
  }

  /** A header the operations never touch keeps its value (or its absence) throughout. */
  lemma {:induction false} RunUntouched(w: Wire, ops: seq<Op>, k: HeaderName)
    requires !Touches(ops, k)
    ensures (k in Run(w, ops).header) == (k in w.header)
    ensures k in w.header ==> Run(w, ops).header[k] == w.header[k]
    ensures k !in w.header && k !in w.sent ==> k !in Run(w, ops).sent
    decreases |ops|
  {
    if ops != [] {
      var init := ops[..|ops| - 1];
      assert !Touches(init, k) by {
        forall i | 0 <= i < |init| ensures !(init[i] == DelHeaderOp(k) || (init[i].SetHeaderOp? && init[i].k == k)) {
          assert init[i] == ops[i];
        }
      }
      RunUntouched(w, init, k);
    }
  }

  /** net/http's response writer. */
  class ResponseWriter {
    var header: Header
    var status: int
    var sent: Header
    var body: seq<Byte>

    function State(): Wire
      reads this
    {
      Wire(header, status, sent, body)
    }

    constructor ()
      ensures State() == Fresh
    {
      header, status, sent, body := map[], 0, map[], [];
    }

    /** w.Header().Set(k, v). */
    method SetHeader(k: HeaderName, v: string)
      modifies this
      ensures State() == SetHeaderW(old(State()), k, v)
    {
      header := header[k := v];
    }

    /** w.Header().Del(k). */
    method DelHeader(k: HeaderName)
      modifies this
      ensures State() == DelHeaderW(old(State()), k)
    {
      header := header - {k};
    }

    method WriteHeader(code: StatusCode)
      modifies this
      ensures State() == WriteHeaderW(old(State()), code)
    {
      if status == 0 {
        status := code;
        sent := header;
      }
    }

    method Write(data: seq<Byte>)
      modifies this
      ensures State() == WriteW(old(State()), data)
    {
      WriteHeader(StatusOK);
      body := body + data;
    }

    /** next.ServeHTTP(w, r) for a handler that performs `ops`. */
    method Serve(ops: seq<Op>)
      modifies this
      ensures State() == Run(old(State()), ops)
    {
      var i := 0;
      while i < |ops|
        invariant 0 <= i <= |ops|
        invariant State() == Run(old(State()), ops[..i])
      {
        assert ops[..i + 1][..i] == ops[..i];
        Apply(ops[i]);
        i := i + 1;
      }
      assert ops[..i] == ops;
    }

    /** One operation of a handler on the writer. */
    method Apply(op: Op)
      modifies this
      ensures State() == Step(old(State()), op)
    {
      match op {
        case SetHeaderOp(k, v) => SetHeader(k, v);
        case DelHeaderOp(k) => DelHeader(k);
        case WriteHeaderOp(code) => WriteHeader(code);
        case WriteOp(data) => Write(data);
      }
    }
  }

  /** http.Error(w, text, code). */
  method HttpError(w: ResponseWriter, text: string, code: StatusCode)
    modifies w
    ensures w.State() == HttpErrorW(old(w.State()), text, code)
  {
    w.DelHeader(ContentLength);
    w.SetHeader(ContentType, "text/plain; charset=utf-8");
    w.SetHeader(XContentTypeOptions, "nosniff");
    w.WriteHeader(code);
    w.Write(Ascii(text + "\n"));
  }
}
