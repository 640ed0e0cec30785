/**
 * internal/models/models.go: the wire record of one metric and its JSON field
 * selection. JSON text itself is not modelled: a record's Option fields stand for
 * the `*int64` and `*float64` fields, and None is an absent (`omitempty`) or null JSON field.
 */
module Models {
  import opened Wrappers
  import opened Numbers
  import opened Errors
  import opened Common

  /** MetricModel: id, type, and the two optional payloads. */
  datatype MetricModel = MetricModel(id: string, mtype: string, delta: Option<Int64>, value: Option<Float64>)

  /** MetricGetRequestModel: the body of a JSON read request. */
  datatype MetricGetRequestModel = MetricGetRequestModel(id: string, mtype: string)

  /** NewMetricModel: both payload fields are always set. */
  function NewMetricModel(id: string, mtype: string, delta: Int64, value: Float64): MetricModel
  {
    MetricModel(id, mtype, Some(delta), Some(value))
  }

  /** A metric that carries exactly the payload of its kind. */
  predicate IsValid(m: MetricModel) {
    || (m.mtype == MetricTypeCounter && m.delta.Some? && m.value.None?)
    || (m.mtype == MetricTypeGauge && m.value.Some? && m.delta.None?)
  }

  /** The payload a store needs is present (a record from NewMetricModel also qualifies). */
  predicate HasPayload(m: MetricModel) {
    (m.mtype == MetricTypeCounter ==> m.delta.Some?) && (m.mtype == MetricTypeGauge ==> m.value.Some?)
  }

  /**
   * MarshalJSON: the record as it appears on the wire. A counter drops its value, a
   * gauge drops its delta, and any other type keeps both (the switch has no default).
   */
  function Marshal(m: MetricModel): (w: MetricModel)
    ensures w.id == m.id && w.mtype == m.mtype
    ensures m.mtype == MetricTypeCounter ==> w.value.None? && w.delta == m.delta
    ensures m.mtype == MetricTypeGauge ==> w.delta.None? && w.value == m.value
    ensures m.mtype != MetricTypeCounter && m.mtype != MetricTypeGauge ==> w == m
  {
    if m.mtype == MetricTypeCounter then m.(value := None)
    else if m.mtype == MetricTypeGauge then m.(delta := None)
    else m
  }

  /**
   * UnmarshalJSON, given the fields the JSON decoder found: a counter needs a delta,
   * a gauge needs a value, any other type is rejected; the other payload is cleared.
   */
  function Unmarshal(aux: MetricModel): (r: Result<MetricModel, Error>)
  {
    if aux.mtype == MetricTypeCounter then
      if aux.delta.None? then
        Failure(Message("bad metric delta for metric: metrics=" + aux.id + ", type=" + aux.mtype))
      else Success(aux.(value := None))
    else if aux.mtype == MetricTypeGauge then
      if aux.value.None? then
        Failure(Message("bad metric value for metric: metrics=" + aux.id + ", type=" + aux.mtype))
      else Success(aux.(delta := None))
    else Failure(Message("unknown metric type for metric: metrics=" + aux.id + ", type=" + aux.mtype))
  }

  /**
   * Unmarshal succeeds exactly on a known type carrying its payload, and then leaves
   * exactly one payload, the id and the type as decoded.
   */
  lemma UnmarshalValidates(aux: MetricModel)
    ensures Unmarshal(aux).Success? <==>
      (aux.mtype == MetricTypeCounter && aux.delta.Some?) || (aux.mtype == MetricTypeGauge && aux.value.Some?)
    ensures Unmarshal(aux).Success? ==>
      var m := Unmarshal(aux).value;
      IsValid(m) && m.id == aux.id && m.mtype == aux.mtype
      && (m.mtype == MetricTypeCounter ==> m.delta == aux.delta)
      && (m.mtype == MetricTypeGauge ==> m.value == aux.value)
  {
  }

  /** Marshal then Unmarshal keeps id, type and the payload of the metric's kind. */
  lemma MarshalUnmarshalRoundTrip(m: MetricModel)
    requires HasPayload(m)
    requires m.mtype == MetricTypeCounter || m.mtype == MetricTypeGauge
    ensures Unmarshal(Marshal(m)).Success?
    ensures var r := Unmarshal(Marshal(m)).value;
      r.id == m.id && r.mtype == m.mtype
      && (m.mtype == MetricTypeCounter ==> r == MetricModel(m.id, m.mtype, m.delta, None))
      && (m.mtype == MetricTypeGauge ==> r == MetricModel(m.id, m.mtype, None, m.value))
  {
  }

  /** A decoded metric is already in wire form: marshalling it changes nothing. */
  lemma UnmarshalledIsWireForm(aux: MetricModel)
    requires Unmarshal(aux).Success?
    ensures Marshal(Unmarshal(aux).value) == Unmarshal(aux).value
    ensures Unmarshal(Unmarshal(aux).value) == Unmarshal(aux)
  {
  }

  /** An unknown type survives marshalling with both payloads but never decodes. */
  lemma UnknownTypeKeepsBoth(m: MetricModel)
    requires m.mtype != MetricTypeCounter && m.mtype != MetricTypeGauge
    ensures Marshal(m) == m
    ensures Unmarshal(Marshal(m)).Failure?
  {
  }
}
