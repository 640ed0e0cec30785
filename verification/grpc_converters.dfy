/**
 * internal/models/grpc_converters.go: conversion between the application record and
 * the protobuf message of the RPC transport, one metric at a time and for slices.
 */
module GrpcConverters {
  import opened Wrappers
  import opened Numbers
  import opened Errors
  import opened Common
  import opened Models

  /** proto.Metric: optional delta and value, as generated for proto3 `optional`. */
  datatype ProtoMetric = ProtoMetric(id: string, mtype: string, delta: Option<Int64>, value: Option<Float64>)

  /** MetricModelToGRPC: copies id and type, and only the payload of the kind. */
  function MetricModelToGRPC(m: MetricModel): (r: Result<ProtoMetric, Error>)
    ensures r.Success? <==> HasPayload(m) && (m.mtype == MetricTypeCounter || m.mtype == MetricTypeGauge)
    ensures r.Success? ==> r.value.id == m.id && r.value.mtype == m.mtype
    ensures r.Success? && m.mtype == MetricTypeCounter ==> r.value.delta == m.delta && r.value.value.None?
    ensures r.Success? && m.mtype == MetricTypeGauge ==> r.value.value == m.value && r.value.delta.None?
  {
    if m.mtype == MetricTypeCounter then
      if m.delta.None? then Failure(Message("counter metric " + m.id + " has nil delta"))
      else Success(ProtoMetric(m.id, m.mtype, m.delta, None))
    else if m.mtype == MetricTypeGauge then
      if m.value.None? then Failure(Message("gauge metric " + m.id + " has nil value"))
      else Success(ProtoMetric(m.id, m.mtype, None, m.value))
    else Failure(Message("unknown metric type: " + m.mtype))
  }

  /**
   * MetricModelFromGRPC: rejects a missing payload or unknown type with InvalidArgument;
   * otherwise builds the record with NewMetricModel, so the other payload is zero.
   */
  function MetricModelFromGRPC(p: ProtoMetric): (r: Result<MetricModel, Error>)
    ensures r.Failure? <==> !((p.mtype == MetricTypeGauge && p.value.Some?) || (p.mtype == MetricTypeCounter && p.delta.Some?))
    ensures r.Failure? ==> r.error.Status? && r.error.code == InvalidArgument
    ensures r.Success? && p.mtype == MetricTypeGauge ==> r.value == NewMetricModel(p.id, p.mtype, 0, p.value.value)
    ensures r.Success? && p.mtype == MetricTypeCounter ==> r.value == NewMetricModel(p.id, p.mtype, p.delta.value, ZeroFloat)
  {
    if p.mtype == MetricTypeGauge then
      if p.value.None? then Failure(Status(InvalidArgument, "gauge metric " + p.id + " has nil value"))
      else Success(NewMetricModel(p.id, p.mtype, 0, p.value.value))
    else if p.mtype == MetricTypeCounter then
      if p.delta.None? then Failure(Status(InvalidArgument, "counter metric " + p.id + " has nil delta"))
      else Success(NewMetricModel(p.id, p.mtype, p.delta.value, ZeroFloat))
    else Failure(Status(InvalidArgument, "unknown metric type: " + p.mtype))
  }

  /** For a valid record, FromGRPC(ToGRPC(m)) keeps id, type and the kind's payload. */
  lemma ToFromRoundTrip(m: MetricModel)
    requires HasPayload(m) && (m.mtype == MetricTypeCounter || m.mtype == MetricTypeGauge)
    ensures MetricModelToGRPC(m).Success?
    ensures var r := MetricModelFromGRPC(MetricModelToGRPC(m).value);
      && r.Success? && r.value.id == m.id && r.value.mtype == m.mtype
      && (m.mtype == MetricTypeCounter ==> r.value.delta == m.delta)
      && (m.mtype == MetricTypeGauge ==> r.value.value == m.value)
  {
  }

  /** A message with exactly its kind's payload survives FromGRPC then ToGRPC unchanged. */
  lemma FromToRoundTrip(p: ProtoMetric)
    requires (p.mtype == MetricTypeCounter && p.delta.Some? && p.value.None?)
          || (p.mtype == MetricTypeGauge && p.value.Some? && p.delta.None?)
    ensures MetricModelFromGRPC(p).Success?
    ensures MetricModelToGRPC(MetricModelFromGRPC(p).value) == Success(p)
  {
  }

  /**
   * The slice converters' semantics: convert in order; the first element that fails
   * aborts with its error and no slice.
   */
  function ConvertAll<A, B>(f: A -> Result<B, Error>, xs: seq<A>): (r: Result<seq<B>, Error>)
    ensures r.Success? <==> forall i :: 0 <= i < |xs| ==> f(xs[i]).Success?
    ensures r.Success? ==> (|r.value| == |xs|
      && forall i :: 0 <= i < |xs| ==> r.value[i] == f(xs[i]).value)
    ensures r.Failure? ==> (exists k :: (0 <= k < |xs| && f(xs[k]).Failure? && r.error == f(xs[k]).error
      && forall i :: 0 <= i < k ==> f(xs[i]).Success?))
    decreases |xs|
  {
    if xs == [] then Success([])
    else
      var init := xs[..|xs| - 1];
      assert forall i :: 0 <= i < |init| ==> init[i] == xs[i];
      var prev := ConvertAll(f, init);
      if prev.Failure? then prev
      else
        var last := f(xs[|xs| - 1]);
        if last.Failure? then Failure(last.error) else Success(prev.value + [last.value])
  }

  /** Once a prefix fails, the whole slice fails with the same error. */
  lemma {:induction false} ConvertAllFailureExtends<A, B>(f: A -> Result<B, Error>, xs: seq<A>, n: nat)
    requires n <= |xs| && ConvertAll(f, xs[..n]).Failure?
    ensures ConvertAll(f, xs) == ConvertAll(f, xs[..n])
    decreases |xs| - n
  {
    if n < |xs| {
      assert xs[..n + 1][..n] == xs[..n];
      ConvertAllFailureExtends(f, xs, n + 1);
    } else {
      assert xs[..n] == xs;
    }
  }

  /** MetricModelsToGRPC: the loop with early return. */
  method MetricModelsToGRPC(ms: seq<MetricModel>) returns (r: Result<seq<ProtoMetric>, Error>)
    ensures r == ConvertAll(MetricModelToGRPC, ms)
  {
    var out: seq<ProtoMetric> := [];
    var i := 0;
    while i < |ms|
      invariant 0 <= i <= |ms|
      invariant ConvertAll(MetricModelToGRPC, ms[..i]) == Success(out)
    {
      assert ms[..i + 1][..i] == ms[..i];
      var converted := MetricModelToGRPC(ms[i]);
      if converted.Failure? {
        ConvertAllFailureExtends(MetricModelToGRPC, ms, i + 1);
        return Failure(converted.error);
      }
      out := out + [converted.value];
      i := i + 1;
    }
    assert ms[..i] == ms;
    return Success(out);
  }

  /** MetricModelsFromGRPC: the same loop in the other direction. */
  method MetricModelsFromGRPC(ps: seq<ProtoMetric>) returns (r: Result<seq<MetricModel>, Error>)
    ensures r == ConvertAll(MetricModelFromGRPC, ps)
  {
    var out: seq<MetricModel> := [];
    var i := 0;
    while i < |ps|
      invariant 0 <= i <= |ps|
      invariant ConvertAll(MetricModelFromGRPC, ps[..i]) == Success(out)
    {
      assert ps[..i + 1][..i] == ps[..i];
      var converted := MetricModelFromGRPC(ps[i]);
      if converted.Failure? {
        ConvertAllFailureExtends(MetricModelFromGRPC, ps, i + 1);
        return Failure(converted.error);
      }
      out := out + [converted.value];
      i := i + 1;
    }
    assert ps[..i] == ps;
    return Success(out);
  }
}
