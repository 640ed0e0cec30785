/**
 * internal/server/handlers.go: the HTTP handlers of the server, each as a map from the
 * request it decoded and the answers of the store to the store call it makes and the
 * reply it writes (status, Content-Type and body).
 *
 * The store is a `Store` value: for each operation, the answer it would give. JSON
 * syntax decoding, strconv.ParseFloat, the %v rendering of a float64 and json.Marshal's
 * refusal of NaN and infinities are parameters; decoding a MetricModel still runs
 * its UnmarshalJSON (Models.Unmarshal), and encoding one runs its MarshalJSON.
 */
module Handlers {
  import opened Wrappers
  import opened Numbers
  import opened Errors
  import opened Common
  import opened Models
  import StorageHelper
  import MemStorage

  const StatusOK: nat := 200
  const StatusBadRequest: nat := 400
  const StatusNotFound: nat := 404
  const StatusInternalServerError: nat := 500

  /** The Content-Type http.Error sets. */
  const ErrorContentType: string := "text/plain; charset=utf-8"

  /**
   * A float64 formatter, not modelled: whichever one the caller uses. MetricGet renders
   * with %v, MetricList with common.AnyToString.
   */
  type FloatFormatter = Float64 -> string

  /** Whether json.Marshal accepts a float64 (it refuses NaN and the infinities). */
  type FloatEncodable = Float64 -> bool

  /** The answers of the store behind the handlers, one per operation. */
  datatype Store = Store(
    setGauge: (string, Float64) -> Result<Float64, Error>,
    incrementCounter: (string, Int64) -> Result<Int64, Error>,
    getGauge: string -> StorageHelper.Lookup<Float64>,
    getCounter: string -> StorageHelper.Lookup<Int64>,
    getAll: Result<seq<MetricModel>, Error>,
    batchUpdate: seq<MetricModel> -> Result<seq<MetricModel>, Error>,
    ping: Option<Error>)

  /** The store call a handler made. */
  datatype Call =
    | NoCall
    | SetGauge(key: string, value: Float64)
    | IncrementCounter(key: string, delta: Int64)
    | GetGauge(key: string)
    | GetCounter(key: string)
    | GetAll
    | BatchUpdate(metrics: seq<MetricModel>)
    | Ping

  datatype Body =
    | Empty
    | Text(text: string)                 // a fixed message
    | ErrorText(err: Error)              // err.Error()
    | ParseErrorText(input: string)      // the *strconv.NumError for this input
    | MarshalErrorText                   // json.Marshal's *UnsupportedValueError
    | Json(record: MetricModel)          // one record, as MarshalJSON writes it
    | JsonList(records: seq<MetricModel>)
    | Html(lines: seq<string>)           // the writes of the list page

  datatype Reply = Reply(status: nat, contentType: string, body: Body)

  function HttpError(body: Body, code: nat): Reply {
    Reply(code, ErrorContentType, body)
  }

  /** json.Marshal of one record succeeds unless its wire form carries an unencodable float. */
  predicate Encodes(encodable: FloatEncodable, m: MetricModel) {
    var w := Marshal(m);
    w.value.None? || encodable(w.value.value)
  }

  predicate AllEncode(encodable: FloatEncodable, ms: seq<MetricModel>) {
    forall i :: 0 <= i < |ms| ==> Encodes(encodable, ms[i])
  }

  /* ---------------- MetricUpdateHandler: /update/{type}/{name}/{value} ---------------- */

  /**
   * MetricUpdateHandler: an empty name, an unparsable value or an unknown type is
   * 400 with no store call; a store failure is 500; otherwise 200 text/plain.
   */
  function MetricUpdate(parseFloat: StorageHelper.FloatParser, store: Store, mtype: string, name: string, value: string)
    : (r: (Call, Reply))
    ensures r.0.NoCall? <==> r.1.status == StatusBadRequest
    ensures name == "" ==> r.1 == HttpError(Text("Bad Request: bad metric name"), StatusBadRequest)
    ensures r.0.SetGauge? <==> name != "" && mtype == MetricTypeGauge && parseFloat(value).Some?
    ensures r.0.SetGauge? ==> r.0 == SetGauge(name, parseFloat(value).value)
    ensures r.0.IncrementCounter? <==> name != "" && mtype == MetricTypeCounter && ParseInt64(value).Some?
    ensures r.0.IncrementCounter? ==> r.0 == IncrementCounter(name, ParseInt64(value).value)
    ensures r.0.SetGauge? ==> (r.1.status == StatusInternalServerError <==> store.setGauge(name, r.0.value).Failure?)
    ensures r.0.IncrementCounter? ==> (r.1.status == StatusInternalServerError <==> store.incrementCounter(name, r.0.delta).Failure?)
    ensures r.1.status == StatusOK || r.1.status == StatusBadRequest || r.1.status == StatusInternalServerError
    ensures r.1.status == StatusOK ==> r.1 == Reply(StatusOK, "text/plain", Empty)
  {
    if name == "" then (NoCall, HttpError(Text("Bad Request: bad metric name"), StatusBadRequest))
    else if mtype == MetricTypeGauge then
      var num := parseFloat(value);
      if num.None? then (NoCall, HttpError(ParseErrorText(value), StatusBadRequest))
      else
        var res := store.setGauge(name, num.value);
        (SetGauge(name, num.value),
         if res.Failure? then HttpError(ErrorText(res.error), StatusInternalServerError)
         else Reply(StatusOK, "text/plain", Empty))
    else if mtype == MetricTypeCounter then
      var num := ParseInt64(value);
      if num.None? then (NoCall, HttpError(ParseErrorText(value), StatusBadRequest))
      else
        var res := store.incrementCounter(name, num.value);
        (IncrementCounter(name, num.value),
         if res.Failure? then HttpError(ErrorText(res.error), StatusInternalServerError)
         else Reply(StatusOK, "text/plain", Empty))
    else (NoCall, HttpError(Text("Bad Request: bad metric type"), StatusBadRequest))
  }

  /** The same store call, as the storage helper names it. */
  function HelperCall(c: Call): StorageHelper.StoreCall {
    match c
    case SetGauge(k, v) => StorageHelper.SetGaugeCall(k, v)
    case IncrementCounter(k, d) => StorageHelper.IncrementCounterCall(k, d)
    case GetGauge(k) => StorageHelper.GetGaugeCall(k)
    case GetCounter(k) => StorageHelper.GetCounterCall(k)
    case _ => StorageHelper.NoCall
  }

  /**
   * The path handler and the storage helper's addMetric agree: the same write reaches
   * the store, and the handler answers 400 exactly where addMetric reports a
   * validationError (for a store whose errors are not validationErrors).
   */
  lemma MetricUpdateAgreesWithAddMetric(parseFloat: StorageHelper.FloatParser, store: Store, mtype: string, name: string, value: string)
    requires forall k, v :: store.setGauge(k, v).Failure? ==> !Is(store.setGauge(k, v).error, ValidationError)
    requires forall k, d :: store.incrementCounter(k, d).Failure? ==> !Is(store.incrementCounter(k, d).error, ValidationError)
    ensures var (call, reply) := MetricUpdate(parseFloat, store, mtype, name, value);
      var storeErr := match call
        case SetGauge(k, v) => (var s := store.setGauge(k, v); if s.Failure? then Some(s.error) else None)
        case IncrementCounter(k, d) => (var s := store.incrementCounter(k, d); if s.Failure? then Some(s.error) else None)
        case _ => None;
      var (hcall, herr) := StorageHelper.AddMetric(parseFloat, mtype, name, value, storeErr);
      && hcall == HelperCall(call)
      && (reply.status == StatusBadRequest <==> herr.Some? && Is(herr.value, ValidationError))
      && (reply.status == StatusOK <==> herr.None?)
  {
    var (call, reply) := MetricUpdate(parseFloat, store, mtype, name, value);
    if call.SetGauge? {
      var s := store.setGauge(call.key, call.value);
      assert s.Failure? ==> !Is(s.error, ValidationError);
    } else if call.IncrementCounter? {
      var s := store.incrementCounter(call.key, call.delta);
      assert s.Failure? ==> !Is(s.error, ValidationError);
    }
  }

  /* ---------------- MetricGetHandler: /value/{type}/{name} ---------------- */

  /**
   * MetricGetHandler: an unknown type is 400 with no call; a lookup reporting the key
   * absent is 404, checked before the store's error (500); otherwise 200 and the %v
   * rendering of the value.
   */
  function MetricGet(format: FloatFormatter, store: Store, mtype: string, name: string): (r: (Call, Reply))
    ensures r.0.NoCall? <==> mtype != MetricTypeGauge && mtype != MetricTypeCounter
    ensures r.0.NoCall? ==> r.1 == HttpError(Text("Bad Request: bad metric type"), StatusBadRequest)
    ensures mtype == MetricTypeGauge ==> (
      var l := store.getGauge(name);
      && r.0 == GetGauge(name)
      && (r.1.status == StatusNotFound <==> !l.ok)
      && (r.1.status == StatusInternalServerError <==> l.ok && l.err.Some?)
      && (r.1.status == StatusOK <==> l.ok && l.err.None?)
      && (r.1.status == StatusOK ==> r.1.body == Text(format(l.value))))
    ensures mtype == MetricTypeCounter ==> (
      var l := store.getCounter(name);
      && r.0 == GetCounter(name)
      && (r.1.status == StatusNotFound <==> !l.ok)
      && (r.1.status == StatusInternalServerError <==> l.ok && l.err.Some?)
      && (r.1.status == StatusOK <==> l.ok && l.err.None?)
      && (r.1.status == StatusOK ==> r.1.body == Text(IntToDecimal(l.value))))
  {
    if mtype == MetricTypeGauge then
      var l := store.getGauge(name);
      (GetGauge(name), LookupReply(l.ok, l.err, format(l.value)))
    else if mtype == MetricTypeCounter then
      var l := store.getCounter(name);
      (GetCounter(name), LookupReply(l.ok, l.err, IntToDecimal(l.value)))
    else (NoCall, HttpError(Text("Bad Request: bad metric type"), StatusBadRequest))
  }

  /** The tail of MetricGetHandler: `!ok` first, then the error, then the value. */
  function LookupReply(ok: bool, err: Option<Error>, text: string): Reply {
    if !ok then HttpError(Text("Not found"), StatusNotFound)
    else if err.Some? then HttpError(ErrorText(err.value), StatusInternalServerError)
    else Reply(StatusOK, "", Text(text))
  }

  /* ---------------- MetricListHandler: / ---------------- */

  /** The record fields the list page dereferences: Delta for a counter, Value otherwise. */
  predicate Listable(m: MetricModel) {
    if m.mtype == MetricTypeCounter then m.delta.Some? else m.value.Some?
  }

  /** One line of the list page: "<id>[<type>]=<value>\n". */
  function ListLine(format: FloatFormatter, m: MetricModel): string
    requires Listable(m)
  {
    var value := if m.mtype == MetricTypeCounter then IntToDecimal(m.delta.value) else format(m.value.value);
    m.id + "[" + m.mtype + "]=" + value + "\n"
  }

  /** A counter's line carries its delta in decimal, which reads back as the same int64. */
  lemma CounterLineReadsBack(format: FloatFormatter, m: MetricModel)
    requires m.mtype == MetricTypeCounter && m.delta.Some?
    ensures exists digits ::
      && ListLine(format, m) == m.id + "[" + MetricTypeCounter + "]=" + digits + "\n"
      && ParseInt64(digits) == m.delta
  {
    var digits := IntToDecimal(m.delta.value);
    ParseFormatRoundTrip(m.delta.value);
    assert ListLine(format, m) == m.id + "[" + MetricTypeCounter + "]=" + digits + "\n";
  }

  const ListHeader: string := "<html><body><pre>\n"
  const ListFooter: string := "</pre></body></html>\n"

  /**
   * MetricListHandler: a GetAll failure is 500; otherwise 200 text/html and the page
   * is written line by line: the header, one line per record in GetAll's order, the
   * footer. Every listed record carries the payload of its kind (the source would
   * dereference a nil one); both stores guarantee this, by MemStorage.ListsSnapshot
   * for the in-memory store and DBStorage.ScanRows for PostgreSQL.
   */
  method MetricList(format: FloatFormatter, store: Store) returns (call: Call, reply: Reply)
    requires store.getAll.Success? ==> forall m :: m in store.getAll.value ==> Listable(m)
    ensures call == GetAll
    ensures store.getAll.Failure? ==> reply == HttpError(ErrorText(store.getAll.error), StatusInternalServerError)
    ensures store.getAll.Success? ==> (
      var ms := store.getAll.value;
      && reply.status == StatusOK && reply.contentType == "text/html; charset=utf-8"
      && reply.body.Html? && |reply.body.lines| == |ms| + 2
      && reply.body.lines[0] == ListHeader && reply.body.lines[|ms| + 1] == ListFooter
      && forall i :: 0 <= i < |ms| ==> reply.body.lines[i + 1] == ListLine(format, ms[i]))
  {
    call := GetAll;
    if store.getAll.Failure? {
      return call, HttpError(ErrorText(store.getAll.error), StatusInternalServerError);
    }
    var metrics := store.getAll.value;
    var lines := [ListHeader];
    var i := 0;
    while i < |metrics|
      invariant 0 <= i <= |metrics|
      invariant |lines| == i + 1 && lines[0] == ListHeader
      invariant forall j :: 0 <= j < i ==> lines[j + 1] == ListLine(format, metrics[j])
    {
      lines := lines + [ListLine(format, metrics[i])];
      i := i + 1;
    }
    lines := lines + [ListFooter];
    return call, Reply(StatusOK, "text/html; charset=utf-8", Html(lines));
  }

  /* ---------------- MetricUpdateJSONHandler: POST /update/ ---------------- */

  /** The JSON reply with a record, or 500 if json.Marshal refuses it. */
  function JsonReply(encodable: FloatEncodable, m: MetricModel): Reply {
    if !Encodes(encodable, m) then HttpError(MarshalErrorText, StatusInternalServerError)
    else Reply(StatusOK, "application/json", Json(Marshal(m)))
  }

  /**
   * MetricUpdateJSONHandler. `request` is the body's JSON syntax decoded into the
   * record's fields; the decoder then runs UnmarshalJSON. A decode failure, an empty
   * id, a missing payload or an unknown type is 400; a store failure 500; otherwise
   * the stored result in a new record of the requested kind.
   */
  function MetricUpdateJSON(encodable: FloatEncodable, store: Store, request: Result<MetricModel, Error>)
    : (r: (Call, Reply))
    ensures request.Failure? ==> r == (NoCall, HttpError(ErrorText(request.error), StatusBadRequest))
    ensures r.0.NoCall? <==> r.1.status == StatusBadRequest
    ensures r.0.SetGauge? ==> request.Success? && r.0.key == request.value.id && Some(r.0.value) == request.value.value
    ensures r.0.IncrementCounter? ==> request.Success? && r.0.key == request.value.id && Some(r.0.delta) == request.value.delta
    ensures r.0.GetGauge? || r.0.GetCounter? || r.0.GetAll? || r.0.BatchUpdate? || r.0.Ping? ==> false
  {
    var decoded := if request.Failure? then request else Unmarshal(request.value);
    if decoded.Failure? then (NoCall, HttpError(ErrorText(decoded.error), StatusBadRequest))
    else
      var m := decoded.value;
      if m.id == "" then (NoCall, HttpError(Text("Bad Request: bad metric name"), StatusBadRequest))
      else if m.mtype == MetricTypeGauge then
        if m.value.None? then (NoCall, HttpError(Text("Bad Request: missing value"), StatusBadRequest))
        else
          var res := store.setGauge(m.id, m.value.value);
          (SetGauge(m.id, m.value.value),
           if res.Failure? then HttpError(ErrorText(res.error), StatusInternalServerError)
           else JsonReply(encodable, NewMetricModel(m.id, m.mtype, 0, res.value)))
      else if m.mtype == MetricTypeCounter then
        if m.delta.None? then (NoCall, HttpError(Text("Bad Request: missing delta"), StatusBadRequest))
        else
          var res := store.incrementCounter(m.id, m.delta.value);
          (IncrementCounter(m.id, m.delta.value),
           if res.Failure? then HttpError(ErrorText(res.error), StatusInternalServerError)
           else JsonReply(encodable, NewMetricModel(m.id, m.mtype, res.value, ZeroFloat)))
      else (NoCall, HttpError(Text("Bad Request: bad metric type"), StatusBadRequest))
  }

  /**
   * The request is refused with 400 exactly when it does not decode, fails UnmarshalJSON
   * or has an empty id. UnmarshalJSON has already demanded the kind's payload and a
   * known type, so the handler's own "missing value", "missing delta" and "bad metric
   * type" answers are never given.
   */
  lemma UpdateJSONBadRequest(encodable: FloatEncodable, store: Store, request: Result<MetricModel, Error>)
    ensures var r := MetricUpdateJSON(encodable, store, request);
      && (r.1.status == StatusBadRequest <==>
          request.Failure? || Unmarshal(request.value).Failure? || request.value.id == "")
      && r.1.body != Text("Bad Request: missing value")
      && r.1.body != Text("Bad Request: missing delta")
      && r.1.body != Text("Bad Request: bad metric type")
  {
    if request.Success? {
      UnmarshalValidates(request.value);
    }
  }

  /**
   * A successful JSON update answers with the value the store returned, in the
   * requested kind's field only: a gauge's new value, a counter's new total.
   */
  lemma UpdateJSONEchoesStore(encodable: FloatEncodable, store: Store, request: Result<MetricModel, Error>)
    ensures var r := MetricUpdateJSON(encodable, store, request);
      r.1.status == StatusOK ==> (
        && request.Success? && r.1.contentType == "application/json" && r.1.body.Json?
        && var m, w := request.value, r.1.body.record;
        && w.id == m.id && w.mtype == m.mtype
        && (m.mtype == MetricTypeGauge ==>
              w.delta.None? && w.value == Some(store.setGauge(m.id, m.value.value).value))
        && (m.mtype == MetricTypeCounter ==>
              w.value.None? && w.delta == Some(store.incrementCounter(m.id, m.delta.value).value)))
  {
    if request.Success? {
      UnmarshalValidates(request.value);
    }
  }

  /* ---------------- MetricGetJSONHandler: POST /value/ ---------------- */

  /**
   * MetricGetJSONHandler. `request` is the body read and decoded (either failure is
   * 400). The store's error (500) is checked before the key's absence (404); an
   * unknown type is 400 with no call.
   */
  function MetricGetJSON(encodable: FloatEncodable, store: Store, request: Result<MetricGetRequestModel, Error>)
    : (r: (Call, Reply))
    ensures request.Failure? ==> r == (NoCall, HttpError(ErrorText(request.error), StatusBadRequest))
    ensures request.Success? && request.value.mtype != MetricTypeGauge && request.value.mtype != MetricTypeCounter ==>
      r == (NoCall, HttpError(Text("Bad Request: bad metric type"), StatusBadRequest))
    ensures request.Success? && request.value.mtype == MetricTypeGauge ==> (
      var l := store.getGauge(request.value.id);
      && r.0 == GetGauge(request.value.id)
      && (r.1.status == StatusInternalServerError <==> l.err.Some? || (l.ok && !Encodes(encodable, NewMetricModel(request.value.id, MetricTypeGauge, 0, l.value))))
      && (r.1.status == StatusNotFound <==> l.err.None? && !l.ok)
      && (r.1.status == StatusOK ==> r.1.body == Json(MetricModel(request.value.id, MetricTypeGauge, None, Some(l.value)))))
    ensures request.Success? && request.value.mtype == MetricTypeCounter ==> (
      var l := store.getCounter(request.value.id);
      && r.0 == GetCounter(request.value.id)
      && (r.1.status == StatusInternalServerError <==> l.err.Some?)
      && (r.1.status == StatusNotFound <==> l.err.None? && !l.ok)
      && (r.1.status == StatusOK ==> r.1.body == Json(MetricModel(request.value.id, MetricTypeCounter, Some(l.value), None))))
  {
    if request.Failure? then (NoCall, HttpError(ErrorText(request.error), StatusBadRequest))
    else
      var q := request.value;
      if q.mtype == MetricTypeGauge then
        var l := store.getGauge(q.id);
        (GetGauge(q.id),
         if l.err.Some? then HttpError(ErrorText(l.err.value), StatusInternalServerError)
         else if !l.ok then HttpError(Text("Not found"), StatusNotFound)
         else JsonReply(encodable, NewMetricModel(q.id, q.mtype, 0, l.value)))
      else if q.mtype == MetricTypeCounter then
        var l := store.getCounter(q.id);
        (GetCounter(q.id),
         if l.err.Some? then HttpError(ErrorText(l.err.value), StatusInternalServerError)
         else if !l.ok then HttpError(Text("Not found"), StatusNotFound)
         else JsonReply(encodable, NewMetricModel(q.id, q.mtype, l.value, ZeroFloat)))
      else (NoCall, HttpError(Text("Bad Request: bad metric type"), StatusBadRequest))
  }

  /**
   * The two read handlers order their checks differently: for a lookup that reports
   * the key absent and an error, the path handler answers 404 and the JSON one 500.
   */
  lemma GetHandlersCheckInOppositeOrder(format: FloatFormatter, encodable: FloatEncodable, store: Store, id: string)
    requires !store.getGauge(id).ok && store.getGauge(id).err.Some?
    ensures MetricGet(format, store, MetricTypeGauge, id).1.status == StatusNotFound
    ensures MetricGetJSON(encodable, store, Success(MetricGetRequestModel(id, MetricTypeGauge))).1.status
      == StatusInternalServerError
  {
  }

  /* ---------------- PingHandler and MetricBatchUpdateJSONHandler ---------------- */

  /** PingHandler: 500 with the store's error, else 200. */
  function PingReply(store: Store): (r: (Call, Reply))
    ensures r.0 == Ping
    ensures r.1.status == StatusOK <==> store.ping.None?
    ensures store.ping.Some? ==> r.1 == HttpError(ErrorText(store.ping.value), StatusInternalServerError)
  {
    (Ping, if store.ping.Some? then HttpError(ErrorText(store.ping.value), StatusInternalServerError)
           else Reply(StatusOK, "", Empty))
  }

  /**
   * MetricBatchUpdateJSONHandler. `request` is the body's JSON array decoded into record
   * fields; each element then runs UnmarshalJSON. A decode failure and a store
   * failure are both 400; an unencodable result is 500; otherwise 200 with the store's
   * records as MarshalJSON writes them.
   */
  function MetricBatchUpdateJSON(encodable: FloatEncodable, store: Store, request: Result<seq<MetricModel>, Error>)
    : (r: (Call, Reply))
    ensures r.0.NoCall? <==> request.Failure? || MemStorage.DecodeAll(request.value).Failure?
    ensures r.0.NoCall? ==> r.1.status == StatusBadRequest
    ensures r.0.BatchUpdate? ==> (
      var ms := MemStorage.DecodeAll(request.value).value;
      var res := store.batchUpdate(ms);
      && r.0.metrics == ms
      && (forall i :: 0 <= i < |ms| ==> IsValid(ms[i]))
      && (res.Failure? ==> r.1 == HttpError(ErrorText(res.error), StatusBadRequest))
      && (res.Success? && !AllEncode(encodable, res.value) ==> r.1.status == StatusInternalServerError)
      && (res.Success? && AllEncode(encodable, res.value) ==>
            r.1 == Reply(StatusOK, "application/json", JsonList(MemStorage.MarshalAll(res.value)))))
    ensures r.0.NoCall? || r.0.BatchUpdate?
  {
    var decoded := if request.Failure? then request else MemStorage.DecodeAll(request.value);
    if decoded.Failure? then (NoCall, HttpError(ErrorText(decoded.error), StatusBadRequest))
    else
      var res := store.batchUpdate(decoded.value);
      (BatchUpdate(decoded.value),
       if res.Failure? then HttpError(ErrorText(res.error), StatusBadRequest)
       else if !AllEncode(encodable, res.value) then HttpError(MarshalErrorText, StatusInternalServerError)
       else Reply(StatusOK, "application/json", JsonList(MemStorage.MarshalAll(res.value))))
  }
}
