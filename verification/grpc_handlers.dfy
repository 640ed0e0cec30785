/**
 * internal/server/grpc_handlers.go: the RPC service. Each method maps the request and
 * the store's answers to the response or a status error; the store is seen through
 * its answers, as in the HTTP handlers.
 */
module GrpcHandlers {
  import opened Wrappers
  import opened Errors
  import opened Common
  import opened Models
  import opened GrpcConverters

  /** The answers of the store behind the RPC service. */
  datatype GrpcStore = GrpcStore(
    ping: Option<Error>,
    batchUpdate: seq<MetricModel> -> Result<seq<MetricModel>, Error>,
    getAll: Result<seq<MetricModel>, Error>)

  datatype PingResponse = PingResponse(success: bool)

  /** Ping: Success mirrors the store's ping, and its error is returned beside it. */
  function Ping(store: GrpcStore): (r: (PingResponse, Option<Error>))
    ensures r.0.success <==> store.ping.None?
    ensures r.1 == store.ping
  {
    if store.ping.Some? then (PingResponse(false), store.ping) else (PingResponse(true), None)
  }

  const ErrUpdateFailed: Error := Status(Internal, "failed to update metrics")
  const ErrInternal: Error := Status(Internal, "internal error")
  const ErrListFailed: Error := Status(Internal, "failed to get metrics")

  /**
   * BatchUpdate. The first component is the slice handed to the store, if it was called.
   * A request that does not convert is refused with the converter's InvalidArgument and
   * no store call; a store failure and a response that does not convert are Internal.
   */
  function BatchUpdate(store: GrpcStore, req: seq<ProtoMetric>): (r: (Option<seq<MetricModel>>, Result<seq<ProtoMetric>, Error>))
    ensures var request := ConvertAll(MetricModelFromGRPC, req);
      && (request.Failure? ==> r == (None, Failure(request.error)) && StatusCode(request.error) == Some(InvalidArgument))
      && (request.Success? ==> r.0 == Some(request.value) && |request.value| == |req|)
    ensures r.0.Some? ==> (
      var updated := store.batchUpdate(r.0.value);
      var response := if updated.Success? then ConvertAll(MetricModelToGRPC, updated.value) else Failure(ErrInternal);
      && (updated.Failure? ==> r.1 == Failure(ErrUpdateFailed))
      && (updated.Success? && response.Failure? ==> r.1 == Failure(ErrInternal))
      && (r.1.Success? <==> updated.Success? && response.Success?)
      && (r.1.Success? ==> (|r.1.value| == |updated.value|
            && forall i :: 0 <= i < |updated.value| ==> r.1.value[i] == MetricModelToGRPC(updated.value[i]).value)))
  {
    var request := ConvertAll(MetricModelFromGRPC, req);
    if request.Failure? then (None, Failure(request.error))
    else
      var updated := store.batchUpdate(request.value);
      if updated.Failure? then (Some(request.value), Failure(ErrUpdateFailed))
      else
        var response := ConvertAll(MetricModelToGRPC, updated.value);
        if response.Failure? then (Some(request.value), Failure(ErrInternal))
        else (Some(request.value), response)
  }

  /** A message with exactly its kind's payload. */
  predicate WellFormed(p: ProtoMetric) {
    || (p.mtype == MetricTypeCounter && p.delta.Some? && p.value.None?)
    || (p.mtype == MetricTypeGauge && p.value.Some? && p.delta.None?)
  }

  /**
   * Through a store that answers with the records it was given, a request of
   * well-formed messages comes back unchanged: the two conversions are inverse on them.
   */
  lemma {:induction false} BatchUpdateEchoRoundTrip(store: GrpcStore, req: seq<ProtoMetric>)
    requires forall ms :: store.batchUpdate(ms) == Success(ms)
    requires forall i :: 0 <= i < |req| ==> WellFormed(req[i])
    ensures BatchUpdate(store, req).1 == Success(req)
  {
    forall i | 0 <= i < |req| ensures MetricModelFromGRPC(req[i]).Success? {
      FromToRoundTrip(req[i]);
    }
    var request := ConvertAll(MetricModelFromGRPC, req);
    var ms := request.value;
    forall i | 0 <= i < |ms| ensures MetricModelToGRPC(ms[i]) == Success(req[i]) {
      FromToRoundTrip(req[i]);
    }
    var response := ConvertAll(MetricModelToGRPC, ms);
    assert response.Success?;
    assert response.value == req;
  }

  /**
   * ListMetrics: every record the store lists, converted in order; a store failure or
   * a record that does not convert is Internal.
   */
  function ListMetrics(store: GrpcStore): (r: Result<seq<ProtoMetric>, Error>)
    ensures store.getAll.Failure? ==> r == Failure(ErrListFailed)
    ensures store.getAll.Success? ==> (
      var all := store.getAll.value;
      && (r.Success? <==> forall i :: 0 <= i < |all| ==> MetricModelToGRPC(all[i]).Success?)
      && (r.Failure? ==> r == Failure(ErrInternal))
      && (r.Success? ==> (|r.value| == |all|
            && forall i :: 0 <= i < |all| ==> r.value[i] == MetricModelToGRPC(all[i]).value)))
  {
    if store.getAll.Failure? then Failure(ErrListFailed)
    else
      var response := ConvertAll(MetricModelToGRPC, store.getAll.value);
      if response.Failure? then Failure(ErrInternal) else response
  }

  /** An empty store lists no metrics and no error. */
  lemma ListMetricsEmpty(store: GrpcStore)
    requires store.getAll == Success([])
    ensures ListMetrics(store) == Success([])
  {
  }

  /** Records the stores produce (one payload of a known kind) always convert for a listing. */
  lemma ListMetricsOfStoreRecords(store: GrpcStore)
    requires store.getAll.Success?
    requires forall m :: m in store.getAll.value ==> HasPayload(m) && (m.mtype == MetricTypeGauge || m.mtype == MetricTypeCounter)
    ensures ListMetrics(store).Success?
  {
    var all := store.getAll.value;
    assert forall i :: 0 <= i < |all| ==> all[i] in all;
  }
}
