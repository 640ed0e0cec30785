/**
 * internal/server/storage_helper.go: validation and dispatch of path-style updates and
 * lookups onto a store. The store is seen only through what it answers: each operation
 * takes the answer the store would give to the one call it may make, and reports which
 * call (if any) it made. strconv.ParseFloat is the parameter `parseFloat`.
 */
module StorageHelper {
  import opened Wrappers
  import opened Numbers
  import opened Errors
  import opened Common

  /** strconv.ParseFloat(s, 64): the value, or None on a syntax or range error. */
  type FloatParser = string -> Option<Float64>

  /** The store call an operation issued. */
  datatype StoreCall =
    | NoCall
    | SetGaugeCall(key: string, value: Float64)
    | IncrementCounterCall(key: string, delta: Int64)
    | GetGaugeCall(key: string)
    | GetCounterCall(key: string)

  /** A value of Go type `any` as getMetric and listMetrics return it. */
  datatype Value = GaugeValue(g: Float64) | CounterValue(c: Int64)

  /** What a store's GetGauge / GetCounter answers: (value, ok, err). */
  datatype Lookup<T> = Lookup(value: T, ok: bool, err: Option<Error>)

  /**
   * addMetric: an empty name, an unparsable value or an unknown type is a
   * validationError and the store is not called; otherwise the kind's write is issued
   * and the store's error returned unchanged.
   */
  function AddMetric(parseFloat: FloatParser, mtype: string, name: string, value: string, storeErr: Option<Error>)
    : (r: (StoreCall, Option<Error>))
    ensures r.0.NoCall? ==> r.1.Some? && Is(r.1.value, ValidationError)
    ensures name == "" ==> r.1 == Some(Wrapped("bad metricName", ValidationError))
    ensures r.0.SetGaugeCall? <==> name != "" && mtype == MetricTypeGauge && parseFloat(value).Some?
    ensures r.0.SetGaugeCall? ==> r.0 == SetGaugeCall(name, parseFloat(value).value)
    ensures r.0.IncrementCounterCall? <==> name != "" && mtype == MetricTypeCounter && ParseInt64(value).Some?
    ensures r.0.IncrementCounterCall? ==> r.0 == IncrementCounterCall(name, ParseInt64(value).value)
    ensures !r.0.NoCall? ==> r.1 == storeErr
  {
    if name == "" then (NoCall, Some(Wrapped("bad metricName", ValidationError)))
    else if mtype == MetricTypeGauge then
      var num := parseFloat(value);
      if num.None? then (NoCall, Some(Wrapped("bad metricValue", ValidationError)))
      else (SetGaugeCall(name, num.value), if storeErr.Some? then storeErr else None)
    else if mtype == MetricTypeCounter then
      var num := ParseInt64(value);
      if num.None? then (NoCall, Some(Wrapped("bad metricValue", ValidationError)))
      else (IncrementCounterCall(name, num.value), if storeErr.Some? then storeErr else None)
    else (NoCall, Some(Wrapped("bad metricType", ValidationError)))
  }

  /**
   * The store is left alone exactly when the request is rejected as invalid (for a
   * store whose own errors are not validationErrors).
   */
  lemma AddMetricRejectsIffNoCall(parseFloat: FloatParser, mtype: string, name: string, value: string, storeErr: Option<Error>)
    requires storeErr.None? || !Is(storeErr.value, ValidationError)
    ensures var r := AddMetric(parseFloat, mtype, name, value, storeErr);
      r.0.NoCall? <==> r.1.Some? && Is(r.1.value, ValidationError)
  {
  }

  /** A counter update whose value is an int64 in decimal increments by exactly that int64. */
  lemma AddCounterDecimal(parseFloat: FloatParser, name: string, n: Int64, storeErr: Option<Error>)
    requires name != ""
    ensures AddMetric(parseFloat, MetricTypeCounter, name, IntToDecimal(n), storeErr)
      == (IncrementCounterCall(name, n), storeErr)
  {
    ParseFormatRoundTrip(n);
  }

  /** A counter value that is not an integer, such as "1.5", is rejected. */
  lemma AddCounterRejectsFraction(parseFloat: FloatParser, name: string, storeErr: Option<Error>)
    requires name != ""
    ensures AddMetric(parseFloat, MetricTypeCounter, name, "1.5", storeErr).0 == NoCall
  {
    assert !IsDigit("1.5"[1]);
  }

  /**
   * getMetric: the store's error first, then notFoundError when it reports the key
   * absent, else the value; an unknown type is a validationError with no call.
   */
  function GetMetric(mtype: string, name: string, gauge: Lookup<Float64>, counter: Lookup<Int64>)
    : (r: (StoreCall, Result<Value, Error>))
    ensures r.0.NoCall? <==> mtype != MetricTypeGauge && mtype != MetricTypeCounter
    ensures r.0.NoCall? ==> r.1.Failure? && Is(r.1.error, ValidationError)
    ensures mtype == MetricTypeGauge ==> (
      && r.0 == GetGaugeCall(name)
      && (gauge.err.Some? ==> r.1 == Failure(gauge.err.value))
      && (gauge.err.None? && !gauge.ok ==> r.1.Failure? && Is(r.1.error, NotFoundError))
      && (r.1.Success? <==> gauge.err.None? && gauge.ok)
      && (r.1.Success? ==> r.1.value == GaugeValue(gauge.value)))
    ensures mtype == MetricTypeCounter ==> (
      && r.0 == GetCounterCall(name)
      && (counter.err.Some? ==> r.1 == Failure(counter.err.value))
      && (counter.err.None? && !counter.ok ==> r.1.Failure? && Is(r.1.error, NotFoundError))
      && (r.1.Success? <==> counter.err.None? && counter.ok)
      && (r.1.Success? ==> r.1.value == CounterValue(counter.value)))
  {
    if mtype == MetricTypeGauge then
      (GetGaugeCall(name),
       if gauge.err.Some? then Failure(gauge.err.value)
       else if !gauge.ok then Failure(Wrapped("not found", NotFoundError))
       else Success(GaugeValue(gauge.value)))
    else if mtype == MetricTypeCounter then
      (GetCounterCall(name),
       if counter.err.Some? then Failure(counter.err.value)
       else if !counter.ok then Failure(Wrapped("not found", NotFoundError))
       else Success(CounterValue(counter.value)))
    else (NoCall, Failure(Wrapped("bad metricType", ValidationError)))
  }

  /** The lookup of a store holding `gauges` and `counters` (the older two-map store). */
  function LookupIn<T>(m: map<string, T>, key: string, zero: T): Lookup<T> {
    if key in m then Lookup(m[key], true, None) else Lookup(zero, false, None)
  }

  /**
   * Against a two-map store, getMetric finds the value stored under a known type, and
   * reports notFoundError exactly when the key is absent from that kind's map.
   */
  lemma GetMetricFromMaps(mtype: string, name: string, gauges: map<string, Float64>, counters: map<string, Int64>)
    requires mtype == MetricTypeGauge || mtype == MetricTypeCounter
    ensures var r := GetMetric(mtype, name, LookupIn(gauges, name, ZeroFloat), LookupIn(counters, name, 0)).1;
      && (r.Failure? <==> (if mtype == MetricTypeGauge then name !in gauges else name !in counters))
      && (r.Failure? ==> Is(r.error, NotFoundError))
      && (r.Success? && mtype == MetricTypeGauge ==> r.value == GaugeValue(gauges[name]))
      && (r.Success? && mtype == MetricTypeCounter ==> r.value == CounterValue(counters[name]))
  {
  }

  /**
   * listMetrics: both listings, merged into one fresh map, gauges first and counters
   * second, so a counter wins a name shared by both kinds. A failing listing is
   * returned as it is.
   */
  method ListMetrics(gauges: Result<map<string, Float64>, Error>, counters: Result<map<string, Int64>, Error>)
    returns (r: Result<map<string, Value>, Error>)
    ensures gauges.Failure? ==> r == Failure(gauges.error)
    ensures gauges.Success? && counters.Failure? ==> r == Failure(counters.error)
    ensures gauges.Success? && counters.Success? ==> r.Success?
    ensures r.Success? ==> (
      && gauges.Success? && counters.Success?
      && r.value.Keys == gauges.value.Keys + counters.value.Keys
      && (forall k :: k in counters.value ==> r.value[k] == CounterValue(counters.value[k]))
      && (forall k :: k in gauges.value && k !in counters.value ==> r.value[k] == GaugeValue(gauges.value[k])))
  {
    if gauges.Failure? {
      return Failure(gauges.error);
    }
    if counters.Failure? {
      return Failure(counters.error);
    }
    var g, c := gauges.value, counters.value;
    var res: map<string, Value> := map[];
    var todo := g.Keys;
    while todo != {}
      invariant todo <= g.Keys
      invariant res.Keys == g.Keys - todo
      invariant forall k :: k in res ==> res[k] == GaugeValue(g[k])
      decreases todo
    {
      var k :| k in todo;
      res := res[k := GaugeValue(g[k])];
      todo := todo - {k};
    }
    todo := c.Keys;
    while todo != {}
      invariant todo <= c.Keys
      invariant res.Keys == g.Keys + (c.Keys - todo)
      invariant forall k :: k in c && k !in todo ==> res[k] == CounterValue(c[k])
      invariant forall k :: k in g && (k !in c || k in todo) ==> res[k] == GaugeValue(g[k])
      decreases todo
    {
      var k :| k in todo;
      res := res[k := CounterValue(c[k])];
      todo := todo - {k};
    }
    return Success(res);
  }
}
