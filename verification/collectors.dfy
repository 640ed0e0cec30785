/**
 * internal/agent/collectors.go: the three collectors and the send they share. Readings
 * of the runtime and of the OS (runtime.ReadMemStats, mem.VirtualMemory, cpu.Percent)
 * and the random draw are inputs; float64(x) of an unsigned reading is the parameter
 * `toFloat`.
 *
 * A collector's sends are modelled as the sequence of results it puts on the channel.
 * `cancelled` stands for a context whose Done case is the only one ready at every send
 * (the drain loop has stopped reading), so every result is dropped; otherwise the drain
 * loop takes every result.
 */
module Collectors {
  import opened Wrappers
  import opened Errors
  import opened Numbers
  import opened Common
  import opened Models
  import opened AgentUtils
  import opened AgentStats

  /** float64(x) for an unsigned integer x. */
  type ToFloat = nat -> Float64

  /** The runtime.MemStats readings the agent reports. */
  datatype MemStats = MemStats(
    alloc: Uint64, buckHashSys: Uint64, frees: Uint64, gcCPUFraction: Float64,
    gcSys: Uint64, heapAlloc: Uint64, heapIdle: Uint64, heapInuse: Uint64,
    heapObjects: Uint64, heapReleased: Uint64, heapSys: Uint64, lastGC: Uint64,
    lookups: Uint64, mCacheInuse: Uint64, mCacheSys: Uint64, mSpanInuse: Uint64,
    mSpanSys: Uint64, mallocs: Uint64, nextGC: Uint64, numForcedGC: Uint32,
    numGC: Uint32, otherSys: Uint64, pauseTotalNs: Uint64, stackInuse: Uint64,
    stackSys: Uint64, sys: Uint64, totalAlloc: Uint64)

  /** The names of the memory gauges, in the order the collector sends them. */
  const MemGaugeNames: seq<string> := [
    "Alloc", "BuckHashSys", "Frees", "GCCPUFraction", "GCSys", "HeapAlloc",
    "HeapIdle", "HeapInuse", "HeapObjects", "HeapReleased", "HeapSys", "LastGC",
    "Lookups", "MCacheInuse", "MCacheSys", "MSpanInuse", "MSpanSys", "Mallocs",
    "NextGC", "NumForcedGC", "NumGC", "OtherSys", "PauseTotalNs", "StackInuse",
    "StackSys", "Sys", "TotalAlloc"]

  /** The readings behind MemGaugeNames, position by position, with their Go types. */
  function MemFields(s: MemStats): (fs: seq<AnyValue>)
    ensures |fs| == |MemGaugeNames|
  {
    [Uint64V(s.alloc), Uint64V(s.buckHashSys), Uint64V(s.frees), Float64V(s.gcCPUFraction),
     Uint64V(s.gcSys), Uint64V(s.heapAlloc), Uint64V(s.heapIdle), Uint64V(s.heapInuse),
     Uint64V(s.heapObjects), Uint64V(s.heapReleased), Uint64V(s.heapSys), Uint64V(s.lastGC),
     Uint64V(s.lookups), Uint64V(s.mCacheInuse), Uint64V(s.mCacheSys), Uint64V(s.mSpanInuse),
     Uint64V(s.mSpanSys), Uint64V(s.mallocs), Uint64V(s.nextGC), Uint32V(s.numForcedGC),
     Uint32V(s.numGC), Uint64V(s.otherSys), Uint64V(s.pauseTotalNs), Uint64V(s.stackInuse),
     Uint64V(s.stackSys), Uint64V(s.sys), Uint64V(s.totalAlloc)]
  }

  /** A reading as a gauge value: float64(x), and GCCPUFraction as it is. */
  function GaugeOf(v: AnyValue, toFloat: ToFloat): Float64 {
    match v
    case Float64V(f) => f
    case Float32V(f) => f
    case Uint64V(n) => toFloat(n)
    case Uint32V(n) => toFloat(n)
    case IntV(i) => if i >= 0 then toFloat(i) else ZeroFloat
    case Int32V(i) => if i >= 0 then toFloat(i) else ZeroFloat
    case StringV(_) => ZeroFloat
  }

  /** The gauge record of one reading, as NewMetricModel builds it. */
  function Gauge(name: string, value: Float64): MetricModel {
    NewMetricModel(name, MetricTypeGauge, 0, value)
  }

  /** The zero MetricModel{} that an error result carries beside its error. */
  const ZeroMetric: MetricModel := MetricModel("", "", None, None)

  /** sendResult, for one result: delivered unless the context's Done case is taken. */
  function SendResult(sent: seq<CollectorResult>, res: CollectorResult, cancelled: bool): (r: seq<CollectorResult>)
    ensures cancelled ==> r == sent
    ensures !cancelled ==> |r| == |sent| + 1 && r[..|sent|] == sent && r[|sent|] == res
  {
    if cancelled then sent else sent + [res]
  }

  /** The results that sending each metric in turn delivers. */
  function SendAll(sent: seq<CollectorResult>, ms: seq<MetricModel>, cancelled: bool): seq<CollectorResult>
    decreases |ms|
  {
    if ms == [] then sent
    else SendAll(SendResult(sent, CollectorResult(ms[0], None), cancelled), ms[1..], cancelled)
  }

  function Ok(m: MetricModel): CollectorResult {
    CollectorResult(m, None)
  }

  lemma {:induction false} SendAllDelivers(sent: seq<CollectorResult>, ms: seq<MetricModel>, cancelled: bool)
    ensures cancelled ==> SendAll(sent, ms, cancelled) == sent
    ensures !cancelled ==> SendAll(sent, ms, cancelled) == sent + seq(|ms|, i requires 0 <= i < |ms| => Ok(ms[i]))
    decreases |ms|
  {
    if ms != [] {
      SendAllDelivers(SendResult(sent, Ok(ms[0]), cancelled), ms[1..], cancelled);
      if !cancelled {
        var tail := seq(|ms| - 1, i requires 0 <= i < |ms| - 1 => Ok(ms[1..][i]));
        var all := seq(|ms|, i requires 0 <= i < |ms| => Ok(ms[i]));
        assert all == [Ok(ms[0])] + tail;
      }
    }
  }

  /** The send loop `for _, metric := range metrics { sendResult(...) }`. */
  method SendMetrics(sent: seq<CollectorResult>, ms: seq<MetricModel>, cancelled: bool) returns (out: seq<CollectorResult>)
    ensures out == SendAll(sent, ms, cancelled)
  {
    out := sent;
    var i := 0;
    while i < |ms|
      invariant 0 <= i <= |ms|
      invariant SendAll(sent, ms, cancelled) == SendAll(out, ms[i..], cancelled)
    {
      assert ms[i..][1..] == ms[i + 1..];
      out := SendResult(out, Ok(ms[i]), cancelled);
      i := i + 1;
    }
  }

  // ---------------------------------------------------------------- memCollector

  /** The 27 memory gauges of one reading, in MemGaugeNames order. */
  function MemMetrics(s: MemStats, toFloat: ToFloat): (ms: seq<MetricModel>)
    ensures |ms| == |MemGaugeNames|
  {
    var fs := MemFields(s);
    seq(|MemGaugeNames|, i requires 0 <= i < |MemGaugeNames| => Gauge(MemGaugeNames[i], GaugeOf(fs[i], toFloat)))
  }

  class MemCollector {
    /** m.memStats: the last reading taken. */
    var memStats: MemStats

    constructor (initial: MemStats)
      ensures memStats == initial
    {
      memStats := initial;
    }

    /** Collect: reads the runtime statistics and sends one gauge per reading. */
    method Collect(reading: MemStats, toFloat: ToFloat, cancelled: bool) returns (sent: seq<CollectorResult>)
      modifies this
      ensures memStats == reading
      ensures cancelled ==> sent == []
      ensures !cancelled ==> |sent| == |MemGaugeNames| && forall i :: 0 <= i < |sent| ==>
        sent[i].err.None? && sent[i].metric == Gauge(MemGaugeNames[i], GaugeOf(MemFields(reading)[i], toFloat))
    {
      memStats := reading;
      var ms := MemMetrics(reading, toFloat);
      sent := SendMetrics([], ms, cancelled);
      SendAllDelivers([], ms, cancelled);
    }
  }

  /** Every memory gauge is named after its reading and carries that reading's value. */
  lemma MemMetricsWellFormed(s: MemStats, toFloat: ToFloat)
    ensures forall i :: 0 <= i < |MemGaugeNames| ==>
      && MemMetrics(s, toFloat)[i].id == MemGaugeNames[i]
      && MemMetrics(s, toFloat)[i].mtype == MetricTypeGauge
      && MemMetrics(s, toFloat)[i].value == Some(GaugeOf(MemFields(s)[i], toFloat))
      && HasPayload(MemMetrics(s, toFloat)[i])
    ensures MemMetrics(s, toFloat)[3].value == Some(s.gcCPUFraction)
    ensures MemMetrics(s, toFloat)[0].value == Some(toFloat(s.alloc))
  {
  }

  // ---------------------------------------------------------------- psCollector

  /** mem.VirtualMemoryStat, the two fields read. */
  datatype VirtualMemoryStat = VirtualMemoryStat(total: Uint64, free: Uint64)

  /** "CPUutilization%d". */
  function CpuName(i: nat): string {
    "CPUutilization" + NatToDecimal(i)
  }

  /** The CPU gauges, one per percentage cpu.Percent returned, in order. */
  function CpuMetrics(percents: seq<Float64>): (ms: seq<MetricModel>)
    ensures |ms| == |percents|
  {
    seq(|percents|, i requires 0 <= i < |percents| => Gauge(CpuName(i), percents[i]))
  }

  lemma CpuNamesDistinct(i: nat, j: nat)
    requires CpuName(i) == CpuName(j)
    ensures i == j
  {
    var pre := "CPUutilization";
    assert CpuName(i)[|pre|..] == NatToDecimal(i);
    assert CpuName(j)[|pre|..] == NatToDecimal(j);
    DecimalValueOfFormat(i);
    DecimalValueOfFormat(j);
  }

  /** The end of a collection: it returned normally, or it panicked. */
  datatype Outcome = Completed(sent: seq<CollectorResult>) | Panicked(sent: seq<CollectorResult>)

  /**
   * psCollector.Collect as written: a failing mem.VirtualMemory returns a nil stat, the
   * error is sent, and the next statement dereferences the nil stat.
   */
  function PsCollectAsWritten(vm: Result<VirtualMemoryStat, Error>, percents: seq<Float64>, cpuErr: Option<Error>,
                              toFloat: ToFloat, cancelled: bool): Outcome
  {
    if vm.Failure? then Panicked(SendResult([], CollectorResult(ZeroMetric, Some(vm.error)), cancelled))
    else
      var sent := if cpuErr.Some? then SendResult([], CollectorResult(ZeroMetric, cpuErr), cancelled) else [];
      var ms := [Gauge("TotalMemory", toFloat(vm.value.total)), Gauge("FreeMemory", toFloat(vm.value.free))]
        + CpuMetrics(percents);
      Completed(SendAll(sent, ms, cancelled))
  }

  /** A failing virtual-memory read brings the agent down, whatever else happened. */
  lemma PsCollectAsWrittenPanics(e: Error, percents: seq<Float64>, cpuErr: Option<Error>, toFloat: ToFloat, cancelled: bool)
    ensures PsCollectAsWritten(Failure(e), percents, cpuErr, toFloat, cancelled).Panicked?
  {
  }

  /**
   * psCollector.Collect without the nil dereference: a failed virtual-memory read is
   * reported and its two gauges are left out; a failed CPU read is reported and the
   * percentages it returned (none, in practice) are still sent; then the gauges.
   */
  function PsResults(vm: Result<VirtualMemoryStat, Error>, percents: seq<Float64>, cpuErr: Option<Error>,
                     toFloat: ToFloat): seq<CollectorResult>
  {
    var errs := (if vm.Failure? then [CollectorResult(ZeroMetric, Some(vm.error))] else [])
      + (if cpuErr.Some? then [CollectorResult(ZeroMetric, cpuErr)] else []);
    var mem := if vm.Success? then [Gauge("TotalMemory", toFloat(vm.value.total)), Gauge("FreeMemory", toFloat(vm.value.free))] else [];
    var ms := mem + CpuMetrics(percents);
    errs + seq(|ms|, i requires 0 <= i < |ms| => Ok(ms[i]))
  }

  class PsCollector {
    constructor ()
    {
    }

    /** Collect, corrected: it always completes, sending the errors and then the gauges. */
    method Collect(vm: Result<VirtualMemoryStat, Error>, percents: seq<Float64>, cpuErr: Option<Error>,
                   toFloat: ToFloat, cancelled: bool) returns (sent: seq<CollectorResult>)
      ensures cancelled ==> sent == []
      ensures !cancelled ==> sent == PsResults(vm, percents, cpuErr, toFloat)
    {
      sent := [];
      if vm.Failure? {
        sent := SendResult(sent, CollectorResult(ZeroMetric, Some(vm.error)), cancelled);
      }
      var ms: seq<MetricModel> := [];
      if vm.Success? {
        ms := [Gauge("TotalMemory", toFloat(vm.value.total)), Gauge("FreeMemory", toFloat(vm.value.free))];
      }
      if cpuErr.Some? {
        sent := SendResult(sent, CollectorResult(ZeroMetric, cpuErr), cancelled);
      }
      var i := 0;
      var base := ms;
      while i < |percents|
        invariant 0 <= i <= |percents|
        invariant ms == base + CpuMetrics(percents[..i])
      {
        assert CpuMetrics(percents[..i + 1]) == CpuMetrics(percents[..i]) + [Gauge(CpuName(i), percents[i])];
        ms := ms + [Gauge(CpuName(i), percents[i])];
        i := i + 1;
      }
      assert percents[..i] == percents;
      var errs := sent;
      sent := SendMetrics(sent, ms, cancelled);
      SendAllDelivers(errs, ms, cancelled);
    }
  }

  /**
   * With both reads succeeding, the corrected collector sends what the code as written
   * sends: the fix changes only the failing virtual-memory read.
   */
  lemma PsCollectAgreesWhenReadsSucceed(vm: VirtualMemoryStat, percents: seq<Float64>, toFloat: ToFloat)
    ensures PsCollectAsWritten(Success(vm), percents, None, toFloat, false) == Completed(PsResults(Success(vm), percents, None, toFloat))
  {
    var ms := [Gauge("TotalMemory", toFloat(vm.total)), Gauge("FreeMemory", toFloat(vm.free))] + CpuMetrics(percents);
    SendAllDelivers([], ms, false);
  }

  /** The corrected collector reports a failed virtual-memory read as its first result. */
  lemma PsResultsReportFailure(e: Error, percents: seq<Float64>, cpuErr: Option<Error>, toFloat: ToFloat)
    ensures var rs := PsResults(Failure(e), percents, cpuErr, toFloat);
      |rs| >= 1 && rs[0].err == Some(e)
      && |Delivered(rs)| == |percents|
      && forall i :: 0 <= i < |percents| ==> Delivered(rs)[i] == Gauge(CpuName(i), percents[i])
  {
    var rs := PsResults(Failure(e), percents, cpuErr, toFloat);
    var errs := [CollectorResult(ZeroMetric, Some(e))] + (if cpuErr.Some? then [CollectorResult(ZeroMetric, cpuErr)] else []);
    var ms := CpuMetrics(percents);
    var oks := seq(|ms|, i requires 0 <= i < |ms| => Ok(ms[i]));
    assert rs == errs + oks;
    DeliveredAppend(errs, oks);
    assert Delivered(errs) == [] by {
      assert errs == [errs[0]] + errs[1..];
      DeliveredAppend([errs[0]], errs[1..]);
      assert [errs[0]][..0] == [];
    }
  }

  lemma {:induction false} DeliveredAppend(a: seq<CollectorResult>, b: seq<CollectorResult>)
    ensures Delivered(a + b) == Delivered(a) + Delivered(b)
    decreases |b|
  {
    if b == [] {
      assert a + b == a;
    } else {
      var init := b[..|b| - 1];
      assert (a + b)[..|a + b| - 1] == a + init;
      DeliveredAppend(a, init);
    }
  }

  // ---------------------------------------------------------------- anyCollector

  class AnyCollector {
    /** a.pollCount (a Go int, 64 bits wide). */
    var pollCount: Int64

    constructor ()
      ensures pollCount == 0
    {
      pollCount := 0;
    }

    /**
     * Collect: counts the poll, then sends the random gauge and the poll counter.
     * `randomValue` is the draw of rand.Intn(maxRandNum), so it lies in [0, maxRandNum).
     */
    method Collect(maxRandNum: nat, randomValue: nat, toFloat: ToFloat, cancelled: bool) returns (sent: seq<CollectorResult>)
      requires randomValue < maxRandNum
      modifies this
      ensures pollCount == AddWrap(old(pollCount), 1)
      ensures cancelled ==> sent == []
      ensures !cancelled ==> sent == [
        Ok(Gauge("RandomValue", toFloat(randomValue))),
        Ok(NewMetricModel("PollCount", MetricTypeCounter, pollCount, ZeroFloat))]
    {
      pollCount := AddWrap(pollCount, 1);
      var ms := [Gauge("RandomValue", toFloat(randomValue)),
                 NewMetricModel("PollCount", MetricTypeCounter, pollCount, ZeroFloat)];
      sent := SendMetrics([], ms, cancelled);
      SendAllDelivers([], ms, cancelled);
    }
  }

  /** Below 2^63 - 1 polls, the n-th poll reports PollCount n. */
  lemma {:induction false} PollCountCounts(n: nat)
    requires n <= MaxInt64
    ensures Polls(n) == n
  {
    if n > 0 {
      PollCountCounts(n - 1);
    }
  }

  lemma WrapOfTwo63(x: int)
    requires x == MaxInt64 + 1
    ensures Wrap(x) == MinInt64 && AddWrap(x - 1, 1) == MinInt64
  {
    assert x - MinInt64 == Two64;
  }

  /** The poll count after n collections. */
  function Polls(n: nat): Int64 {
    if n == 0 then 0 else AddWrap(Polls(n - 1), 1)
  }

  /** The 2^63-th poll wraps the count round to the most negative int. */
  lemma PollCountWraps(n: nat)
    requires n == MaxInt64
    ensures Polls(n) == n && Polls(n + 1) == MinInt64
  {
    PollCountCounts(n);
    WrapOfTwo63(Polls(n) + 1);
  }
}
