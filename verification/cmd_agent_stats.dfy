/**
 * cmd/agent/stats.go: the older agent's statistics object. collect takes a runtime
 * reading, draws the random value and counts the poll; dump renders everything as
 * (kind, name, text) triples with anyToString (cmd/agent/utils.go).
 */
module CmdAgentStats {
  import opened Wrappers
  import opened Numbers
  import opened Common
  import opened AgentUtils
  import opened Collectors

  /** maxRandNum (cmd/agent/constants.go). */
  const MaxRandNum: nat := 1_000_000

  /** One dumped metric: kind, name and value as text. */
  datatype Metric = Metric(kind: string, name: string, value: string)

  /** The names dump reports, in order: the memory gauges, then RandomValue and PollCount. */
  const DumpNames: seq<string> := MemGaugeNames + ["RandomValue", "PollCount"]

  class Stats {
    var memStats: MemStats
    /** RandomValue (a Go int). */
    var randomValue: Int64
    /** PollCount (a Go int). */
    var pollCount: Int64

    /** newStats: a zero reading, no draw, no poll. */
    constructor (zero: MemStats)
      ensures memStats == zero && randomValue == 0 && pollCount == 0
    {
      memStats := zero;
      randomValue := 0;
      pollCount := 0;
    }

    /** getCounter. */
    method GetCounter() returns (n: Int64)
      ensures n == pollCount
    {
      n := pollCount;
    }

    /** collect: a new reading, a new draw from [0, maxRandNum), one more poll. */
    method Collect(reading: MemStats, draw: nat)
      requires draw < MaxRandNum
      modifies this
      ensures memStats == reading && randomValue == draw
      ensures pollCount == AddWrap(old(pollCount), 1)
    {
      memStats := reading;
      randomValue := draw;
      pollCount := AddWrap(pollCount, 1);
    }

    /** dump: the 27 memory gauges, RandomValue, then PollCount as a counter. */
    function Dump(formatF: FloatFormatter): (ms: seq<Metric>)
      reads this
      ensures |ms| == |DumpNames|
      ensures forall i :: 0 <= i < |ms| ==> ms[i].name == DumpNames[i]
      ensures forall i :: 0 <= i < |ms| - 1 ==> ms[i].kind == MetricTypeGauge
      ensures ms[|ms| - 1].kind == MetricTypeCounter
    {
      var fs := MemFields(memStats);
      var mem := seq(|MemGaugeNames|, i requires 0 <= i < |MemGaugeNames| =>
        Metric(MetricTypeGauge, MemGaugeNames[i], AnyToString(fs[i], formatF)));
      mem + [Metric(MetricTypeGauge, "RandomValue", AnyToString(IntV(randomValue), formatF)),
             Metric(MetricTypeCounter, "PollCount", AnyToString(IntV(pollCount), formatF))]
    }
  }

  predicate IsUnsigned(v: AnyValue) {
    v.Uint64V? || v.Uint32V?
  }

  /** The number an unsigned reading holds. */
  function Unsigned(v: AnyValue): nat {
    match v
    case Uint64V(n) => n
    case Uint32V(n) => n
    case _ => 0
  }

  /** The counter and the random draw read back through strconv.ParseInt. */
  lemma DumpCountersReadBack(s: Stats, formatF: FloatFormatter)
    ensures var ms := s.Dump(formatF);
      && ms[28].name == "PollCount" && ParseInt64(ms[28].value) == Some(s.pollCount)
      && ms[27].name == "RandomValue" && ParseInt64(ms[27].value) == Some(s.randomValue)
  {
    AnyToStringSignedReadsBack(IntV(s.pollCount), formatF);
    AnyToStringSignedReadsBack(IntV(s.randomValue), formatF);
  }

  /**
   * Every unsigned memory reading is dumped as its plain decimal digits, and
   * GCCPUFraction, the one float reading, with "%f".
   */
  lemma DumpGaugesReadBack(s: Stats, formatF: FloatFormatter)
    ensures var ms := s.Dump(formatF);
      && ms[3].name == "GCCPUFraction" && ms[3].value == formatF(s.memStats.gcCPUFraction)
      && (forall i :: 0 <= i < |MemGaugeNames| && IsUnsigned(MemFields(s.memStats)[i]) ==>
            AllDigits(ms[i].value) && DecimalValue(ms[i].value) == Unsigned(MemFields(s.memStats)[i]))
  {
    var fs := MemFields(s.memStats);
    forall i | 0 <= i < |MemGaugeNames| && IsUnsigned(fs[i])
      ensures var v := s.Dump(formatF)[i].value;
        AllDigits(v) && DecimalValue(v) == Unsigned(fs[i])
    {
      AnyToStringUnsignedReadsBack(fs[i], formatF);
    }
  }

  /** Both agents report the same memory gauges under the same names. */
  lemma DumpMatchesCollector(s: Stats, formatF: FloatFormatter, toFloat: ToFloat)
    ensures forall i :: 0 <= i < |MemGaugeNames| ==> s.Dump(formatF)[i].name == MemMetrics(s.memStats, toFloat)[i].id
  {
  }
}
