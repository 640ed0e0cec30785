/**
 * cmd/server/handlers.go: the older server's MetricUpdateHandler for
 * POST /update/{metricType}/{metricName}/{metricValue}. The handler is the script of
 * writer operations it performs (HttpWire), together with the store call it makes.
 * strconv.ParseFloat is the parameter `parseFloat`; the store's two writes are the
 * errors they would return.
 */
module CmdServerHandlers {
  import opened Wrappers
  import opened Numbers
  import opened Errors
  import opened Common
  import opened HttpWire

  datatype Store = Store(
    setGauge: (string, Float64) -> Option<Error>,
    incrementCounter: (string, Int64) -> Option<Error>)

  /** The store call the handler made. */
  datatype Call = NoCall | SetGauge(name: string, value: Float64) | IncrementCounter(name: string, delta: Int64)

  /** The path parameters chi extracts. */
  datatype Params = Params(metricType: string, metricName: string, metricValue: string)

  /** http.Error as the operations it performs on the writer. */
  function HttpErrorOps(text: string, code: StatusCode): seq<Op> {
    [DelHeaderOp(ContentLength), SetHeaderOp(ContentType, "text/plain; charset=utf-8"),
     SetHeaderOp(XContentTypeOptions, "nosniff"), WriteHeaderOp(code), WriteOp(Ascii(text + "\n"))]
  }

  lemma HttpErrorOpsRun(w: Wire, text: string, code: StatusCode)
    ensures Run(w, HttpErrorOps(text, code)) == HttpErrorW(w, text, code)
  {
    var a := DelHeaderOp(ContentLength);
    var b := SetHeaderOp(ContentType, "text/plain; charset=utf-8");
    var c := SetHeaderOp(XContentTypeOptions, "nosniff");
    var d := WriteHeaderOp(code);
    var e := WriteOp(Ascii(text + "\n"));
    var s0: seq<Op> := [];
    var s1 := s0 + [a];
    var s2 := s1 + [b];
    var s3 := s2 + [c];
    var s4 := s3 + [d];
    var s5 := s4 + [e];
    RunSnoc(w, s0, a);
    var w1 := DelHeaderW(w, ContentLength);
    assert Run(w, s1) == w1;
    RunSnoc(w, s1, b);
    var w2 := SetHeaderW(w1, ContentType, "text/plain; charset=utf-8");
    assert Run(w, s2) == w2;
    RunSnoc(w, s2, c);
    var w3 := SetHeaderW(w2, XContentTypeOptions, "nosniff");
    assert Run(w, s3) == w3;
    RunSnoc(w, s3, d);
    var w4 := WriteHeaderW(w3, code);
    assert Run(w, s4) == w4;
    RunSnoc(w, s4, e);
    assert Run(w, s5) == WriteW(w4, Ascii(text + "\n"));
    assert s5 == HttpErrorOps(text, code);
  }

  /** The write step shared by both kinds: on a store error, http.Error, then WriteHeader(200) regardless. */
  function StoreReply(err: Option<Error>): seq<Op> {
    (if err.Some? then HttpErrorOps("Internal Error", StatusInternalServerError) else []) + [WriteHeaderOp(StatusOK)]
  }

  /** MetricUpdateHandler(store) for one request. */
  function MetricUpdate(p: Params, store: Store, parseFloat: string -> Option<Float64>): (Call, seq<Op>) {
    if p.metricType == MetricTypeGauge then
      var num := parseFloat(p.metricValue);
      if num.None? then (NoCall, HttpErrorOps("Bad Metric Value", StatusBadRequest))
      else (SetGauge(p.metricName, num.value), StoreReply(store.setGauge(p.metricName, num.value)))
    else if p.metricType == MetricTypeCounter then
      var num := ParseInt64(p.metricValue);
      if num.None? then (NoCall, HttpErrorOps("Bad Metric Value", StatusBadRequest))
      else (IncrementCounter(p.metricName, num.value), StoreReply(store.incrementCounter(p.metricName, num.value)))
    else (NoCall, HttpErrorOps("Bad Metric Type", StatusBadRequest))
  }

  /**
   * The store's answer decides the response: an error gives 500 with "Internal Error"
   * (the trailing WriteHeader(200) comes too late and is ignored), success an empty 200.
   */
  lemma StoreReplyResponse(err: Option<Error>)
    ensures var w := Run(Fresh, StoreReply(err));
      && (err.Some? ==> w.status == 500 && w.body == Ascii("Internal Error\n"))
      && (err.None? ==> w.status == 200 && w.body == [])
  {
    var ops := StoreReply(err);
    if err.Some? {
      var e := HttpErrorOps("Internal Error", StatusInternalServerError);
      assert ops[..|ops| - 1] == e;
      HttpErrorOpsRun(Fresh, "Internal Error", StatusInternalServerError);
    } else {
      assert ops[..0] == [];
    }
  }

  /**
   * A value that does not parse as the named kind, or an unknown kind, is a 400 and the
   * store is not called; a parsed value is passed to the store under the path's name.
   */
  lemma MetricUpdateValidation(p: Params, store: Store, parseFloat: string -> Option<Float64>)
    ensures var (call, ops) := MetricUpdate(p, store, parseFloat);
      && (call == NoCall <==>
            (p.metricType == MetricTypeGauge && parseFloat(p.metricValue).None?)
            || (p.metricType == MetricTypeCounter && ParseInt64(p.metricValue).None?)
            || (p.metricType != MetricTypeGauge && p.metricType != MetricTypeCounter))
      && (call == NoCall ==> Run(Fresh, ops).status == 400)
      && (call.SetGauge? ==> call == SetGauge(p.metricName, parseFloat(p.metricValue).value))
      && (call.IncrementCounter? ==> call == IncrementCounter(p.metricName, ParseInt64(p.metricValue).value))
  {
    var (call, ops) := MetricUpdate(p, store, parseFloat);
    if call == NoCall {
      var text := if p.metricType == MetricTypeGauge || p.metricType == MetricTypeCounter then "Bad Metric Value" else "Bad Metric Type";
      HttpErrorOpsRun(Fresh, text, StatusBadRequest);
    }
  }

  /** A counter update of a decimal number increments by exactly that number. */
  lemma CounterUpdateOfDecimal(name: string, n: Int64, store: Store, parseFloat: string -> Option<Float64>)
    ensures MetricUpdate(Params(MetricTypeCounter, name, IntToDecimal(n)), store, parseFloat).0 == IncrementCounter(name, n)
  {
    ParseFormatRoundTrip(n);
  }
}
