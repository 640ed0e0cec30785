/**
 * internal/server/storage.go: the older in-memory store. Two independent maps with
 * no persistence; every operation reports success (its error result is always nil,
 * so the methods below have no error result).
 */
module LegacyStorage {
  import opened Numbers

  class MemStorage {
    var gauge: map<string, Float64>
    var counter: map<string, Int64>

    /** NewMemStorage: both maps empty. */
    constructor ()
      ensures gauge == map[] && counter == map[]
    {
      gauge := map[];
      counter := map[];
    }

    /** GetGauge: the stored value and true, or the zero value and false. */
    method GetGauge(key: string) returns (v: Float64, ok: bool)
      ensures ok <==> key in gauge
      ensures ok ==> v == gauge[key]
      ensures !ok ==> v == ZeroFloat
    {
      ok := key in gauge;
      v := if ok then gauge[key] else ZeroFloat;
    }

    /** GetCounter: the stored value and true, or 0 and false. */
    method GetCounter(key: string) returns (v: Int64, ok: bool)
      ensures ok <==> key in counter
      ensures ok ==> v == counter[key]
      ensures !ok ==> v == 0
    {
      ok := key in counter;
      v := if ok then counter[key] else 0;
    }

    /** ListGauges: a new map filled entry by entry, equal to the gauges. */
    method ListGauges() returns (res: map<string, Float64>)
      ensures res == gauge
    {
      res := map[];
      var todo := gauge.Keys;
      while todo != {}
        invariant todo <= gauge.Keys
        invariant res.Keys == gauge.Keys - todo
        invariant forall k :: k in res ==> res[k] == gauge[k]
        decreases todo
      {
        var k :| k in todo;
        res := res[k := gauge[k]];
        todo := todo - {k};
      }
    }

    /** ListCounters: a new map filled entry by entry, equal to the counters. */
    method ListCounters() returns (res: map<string, Int64>)
      ensures res == counter
    {
      res := map[];
      var todo := counter.Keys;
      while todo != {}
        invariant todo <= counter.Keys
        invariant res.Keys == counter.Keys - todo
        invariant forall k :: k in res ==> res[k] == counter[k]
        decreases todo
      {
        var k :| k in todo;
        res := res[k := counter[k]];
        todo := todo - {k};
      }
    }

    /** SetGauge: overwrites the key and returns the value; counters are untouched. */
    method SetGauge(key: string, value: Float64) returns (v: Float64)
      modifies this`gauge
      ensures gauge == old(gauge)[key := value] && v == value
    {
      gauge := gauge[key := value];
      return value;
    }

    /**
     * IncrementCounter: stores and returns old+delta (int64 wrap-around) for a
     * present key, the delta for a new one; gauges are untouched.
     */
    method IncrementCounter(key: string, value: Int64) returns (v: Int64)
      modifies this`counter
      ensures v == (if key in old(counter) then AddWrap(old(counter)[key], value) else value)
      ensures counter == old(counter)[key := v]
    {
      var total := value;
      if key in counter {
        total := AddWrap(value, counter[key]);
        assert total == AddWrap(counter[key], value);
      }
      counter := counter[key := total];
      return total;
    }
  }

  /** One name can hold a gauge and a counter at once: the maps are independent. */
  method BothKindsUnderOneName(key: string, g: Float64, d: Int64) returns (s: MemStorage)
    ensures fresh(s)
    ensures s.gauge == map[key := g] && s.counter == map[key := d]
  {
    s := new MemStorage();
    var _ := s.SetGauge(key, g);
    var _ := s.IncrementCounter(key, d);
  }
}
