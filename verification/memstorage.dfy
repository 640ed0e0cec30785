/**
 * internal/server/memstorage.go: the in-memory metric store. Two maps (gauges and
 * counters) change in place; with synchronous flushing every change is dumped at
 * once and rolled back when the dump fails. The flush itself (temp file, encoder,
 * fsync, rename) is one fallible step whose outcome is an input; what a successful
 * flush leaves on disk is the list of wire records.
 *
 * A context is represented by its `Err()`: None for a live context.
 */
module MemStorage {
  import opened Wrappers
  import opened Numbers
  import opened Errors
  import opened Common
  import opened Models
  import opened Sorting

  /** The two maps of a store, as one value. */
  datatype Snapshot = Snapshot(gauge: map<string, Float64>, counter: map<string, Int64>)

  /** The dump file: absent, not a JSON array of records, or the records it holds. */
  datatype DumpFile = Missing | Garbled | Entries(records: seq<MetricModel>)

  /** The record getAll makes for a gauge. */
  function GaugeRecord(k: string, v: Float64): MetricModel {
    NewMetricModel(k, MetricTypeGauge, 0, v)
  }

  /** The record getAll makes for a counter. */
  function CounterRecord(k: string, d: Int64): MetricModel {
    NewMetricModel(k, MetricTypeCounter, d, ZeroFloat)
  }

  predicate IsRecordOf(r: MetricModel, s: Snapshot) {
    || (r.id in s.gauge && r == GaugeRecord(r.id, s.gauge[r.id]))
    || (r.id in s.counter && r == CounterRecord(r.id, s.counter[r.id]))
  }

  /**
   * `rs` lists the snapshot: one record per gauge key and one per counter key, and
   * nothing else (the length rules out repeats).
   */
  ghost predicate ListsSnapshot(rs: seq<MetricModel>, s: Snapshot) {
    && |rs| == |s.gauge| + |s.counter|
    && (forall k :: k in s.gauge ==> GaugeRecord(k, s.gauge[k]) in rs)
    && (forall k :: k in s.counter ==> CounterRecord(k, s.counter[k]) in rs)
    && (forall r :: r in rs ==> IsRecordOf(r, s))
  }

  /** A gauge as the dump file holds it: MarshalJSON drops the delta. */
  function WireGauge(k: string, v: Float64): MetricModel {
    MetricModel(k, MetricTypeGauge, None, Some(v))
  }

  /** A counter as the dump file holds it: MarshalJSON drops the value. */
  function WireCounter(k: string, d: Int64): MetricModel {
    MetricModel(k, MetricTypeCounter, Some(d), None)
  }

  lemma MarshalRecords(k: string, v: Float64, d: Int64)
    ensures Marshal(GaugeRecord(k, v)) == WireGauge(k, v)
    ensures Marshal(CounterRecord(k, d)) == WireCounter(k, d)
    ensures Unmarshal(WireGauge(k, v)) == Success(WireGauge(k, v))
    ensures Unmarshal(WireCounter(k, d)) == Success(WireCounter(k, d))
  {
  }

  predicate IsWireOf(e: MetricModel, s: Snapshot) {
    || (e.id in s.gauge && e == WireGauge(e.id, s.gauge[e.id]))
    || (e.id in s.counter && e == WireCounter(e.id, s.counter[e.id]))
  }

  /** `es` is what a dump of `s` writes: the sorted listing, each record marshalled. */
  ghost predicate IsDumpOf(es: seq<MetricModel>, s: Snapshot) {
    && SortedById(es)
    && |es| == |s.gauge| + |s.counter|
    && (forall k :: k in s.gauge ==> WireGauge(k, s.gauge[k]) in es)
    && (forall k :: k in s.counter ==> WireCounter(k, s.counter[k]) in es)
    && (forall i :: 0 <= i < |es| ==> IsWireOf(es[i], s))
  }

  /** The dump file holds a dump of the snapshot. */
  ghost predicate DumpHolds(d: DumpFile, s: Snapshot) {
    d.Entries? && IsDumpOf(d.records, s)
  }

  /** json.Encoder.Encode on a slice: MarshalJSON on every element. */
  function MarshalAll(rs: seq<MetricModel>): (es: seq<MetricModel>)
    ensures |es| == |rs|
    ensures forall i :: 0 <= i < |rs| ==> es[i] == Marshal(rs[i])
  {
    if rs == [] then [] else [Marshal(rs[0])] + MarshalAll(rs[1..])
  }

  /** Marshalling the sorted listing of a snapshot gives a dump of it. */
  lemma MarshalListingIsDump(rs: seq<MetricModel>, s: Snapshot)
    requires SortedById(rs) && ListsSnapshot(rs, s)
    ensures IsDumpOf(MarshalAll(rs), s)
  {
    var es := MarshalAll(rs);
    forall k | k in s.gauge ensures WireGauge(k, s.gauge[k]) in es {
      var i :| 0 <= i < |rs| && rs[i] == GaugeRecord(k, s.gauge[k]);
      MarshalRecords(k, s.gauge[k], 0);
      assert es[i] == Marshal(rs[i]);
    }
    forall k | k in s.counter ensures WireCounter(k, s.counter[k]) in es {
      var i :| 0 <= i < |rs| && rs[i] == CounterRecord(k, s.counter[k]);
      MarshalRecords(k, ZeroFloat, s.counter[k]);
      assert es[i] == Marshal(rs[i]);
    }
    forall i | 0 <= i < |es| ensures IsWireOf(es[i], s) {
      assert rs[i] in rs;
      assert IsRecordOf(rs[i], s);
      if rs[i].id in s.gauge && rs[i] == GaugeRecord(rs[i].id, s.gauge[rs[i].id]) {
        MarshalRecords(rs[i].id, s.gauge[rs[i].id], 0);
      } else {
        MarshalRecords(rs[i].id, ZeroFloat, s.counter[rs[i].id]);
      }
    }
  }

  /** A permutation of a listing is a listing. */
  lemma ListingPermutation(rs: seq<MetricModel>, qs: seq<MetricModel>, s: Snapshot)
    requires ListsSnapshot(rs, s)
    requires multiset(qs) == multiset(rs)
    ensures ListsSnapshot(qs, s)
  {
    assert |qs| == |multiset(qs)| == |multiset(rs)| == |rs|;
    forall r ensures r in qs <==> r in rs {
      assert r in qs <==> r in multiset(qs);
      assert r in rs <==> r in multiset(rs);
    }
  }

  /* ---------------- load ---------------- */

  /**
   * json.Decoder.Decode into []MetricModel: UnmarshalJSON on every element; the
   * first element that fails fails the whole decode.
   */
  function DecodeAll(es: seq<MetricModel>): (r: Result<seq<MetricModel>, Error>)
    ensures r.Success? <==> forall i :: 0 <= i < |es| ==> Unmarshal(es[i]).Success?
    ensures r.Success? ==> |r.value| == |es| && forall i :: 0 <= i < |es| ==> r.value[i] == Unmarshal(es[i]).value
  {
    if es == [] then Success([])
    else
      var head := Unmarshal(es[0]);
      if head.Failure? then Failure(head.error)
      else
        var tail := DecodeAll(es[1..]);
        if tail.Failure? then
          Failure(tail.error)
        else
          assert forall i :: 1 <= i < |es| ==> es[i] == es[1..][i - 1];
          Success([head.value] + tail.value)
  }

  predicate KnownType(m: MetricModel) {
    m.mtype == MetricTypeGauge || m.mtype == MetricTypeCounter
  }

  /** The index of the first record of unknown type, or the length when there is none. */
  function KnownPrefix(ms: seq<MetricModel>): (n: nat)
    ensures n <= |ms|
    ensures forall i :: 0 <= i < n ==> KnownType(ms[i])
    ensures n < |ms| ==> !KnownType(ms[n])
  {
    if ms == [] || !KnownType(ms[0]) then 0 else 1 + KnownPrefix(ms[1..])
  }

  predicate AllHavePayload(ms: seq<MetricModel>) {
    forall i :: 0 <= i < |ms| ==> HasPayload(ms[i])
  }

  /** One case of load's switch: a gauge or counter entry overwrites its key. */
  function LoadStep(s: Snapshot, m: MetricModel): Snapshot
    requires HasPayload(m)
  {
    if m.mtype == MetricTypeGauge then s.(gauge := s.gauge[m.id := m.value.value])
    else if m.mtype == MetricTypeCounter then s.(counter := s.counter[m.id := m.delta.value])
    else s
  }

  /** load's loop, entry by entry in file order. */
  function LoadFold(s: Snapshot, ms: seq<MetricModel>): Snapshot
    requires AllHavePayload(ms)
    decreases |ms|
  {
    if ms == [] then s else LoadStep(LoadFold(s, ms[..|ms| - 1]), ms[|ms| - 1])
  }

  predicate SubSnapshot(a: Snapshot, b: Snapshot) {
    && (forall k :: k in a.gauge ==> k in b.gauge && a.gauge[k] == b.gauge[k])
    && (forall k :: k in a.counter ==> k in b.counter && a.counter[k] == b.counter[k])
  }

  /** One load step with an entry that agrees with `t` stays inside `t` and loads its key. */
  lemma LoadStepWithin(s0: Snapshot, e: MetricModel, t: Snapshot)
    requires IsWireOf(e, t)
    requires SubSnapshot(s0, t)
    ensures HasPayload(e)
    ensures SubSnapshot(LoadStep(s0, e), t)
    ensures s0.gauge.Keys <= LoadStep(s0, e).gauge.Keys
    ensures s0.counter.Keys <= LoadStep(s0, e).counter.Keys
    ensures e.mtype == MetricTypeGauge ==> e.id in LoadStep(s0, e).gauge
    ensures e.mtype == MetricTypeCounter ==> e.id in LoadStep(s0, e).counter
  {
  }

  /**
   * Loading entries that all agree with `t` into a part of `t` stays inside `t`, and
   * every key an entry names ends up loaded.
   */
  lemma {:induction false} LoadFoldWithin(s0: Snapshot, es: seq<MetricModel>, t: Snapshot)
    requires forall i :: 0 <= i < |es| ==> IsWireOf(es[i], t)
    requires SubSnapshot(s0, t)
    ensures AllHavePayload(es)
    ensures SubSnapshot(LoadFold(s0, es), t)
    ensures s0.gauge.Keys <= LoadFold(s0, es).gauge.Keys
    ensures s0.counter.Keys <= LoadFold(s0, es).counter.Keys
    ensures forall i :: 0 <= i < |es| && es[i].mtype == MetricTypeGauge ==> es[i].id in LoadFold(s0, es).gauge
    ensures forall i :: 0 <= i < |es| && es[i].mtype == MetricTypeCounter ==> es[i].id in LoadFold(s0, es).counter
    decreases |es|
  {
    if es != [] {
      var init := es[..|es| - 1];
      var last := es[|es| - 1];
      assert forall i :: 0 <= i < |init| ==> init[i] == es[i];
      LoadFoldWithin(s0, init, t);
      var prev := LoadFold(s0, init);
      LoadStepWithin(prev, last, t);
      assert forall i :: 0 <= i < |es| ==> HasPayload(es[i]);
      assert LoadFold(s0, es) == LoadStep(prev, last);
    }
  }

  /** What a dump writes decodes to itself: every entry is already in wire form. */
  lemma DecodeDump(es: seq<MetricModel>, t: Snapshot)
    requires forall i :: 0 <= i < |es| ==> IsWireOf(es[i], t)
    ensures DecodeAll(es) == Success(es)
  {
    forall i | 0 <= i < |es| ensures Unmarshal(es[i]) == Success(es[i]) {
      assert IsWireOf(es[i], t);
      if es[i].id in t.gauge && es[i] == WireGauge(es[i].id, t.gauge[es[i].id]) {
        MarshalRecords(es[i].id, t.gauge[es[i].id], 0);
      } else {
        MarshalRecords(es[i].id, ZeroFloat, t.counter[es[i].id]);
      }
    }
    assert DecodeAll(es).value == es;
  }

  /** A part of `b` that has all of `b`'s keys is `b`. */
  lemma SubSnapshotCovering(a: Snapshot, b: Snapshot)
    requires SubSnapshot(a, b)
    requires b.gauge.Keys <= a.gauge.Keys && b.counter.Keys <= a.counter.Keys
    ensures a == b
  {
    assert a.gauge == b.gauge;
    assert a.counter == b.counter;
  }

  /**
   * Restoring a dump into a fresh store reproduces the dumped maps: the dump decodes,
   * and loading it into empty maps gives back the snapshot.
   */
  lemma LoadDumpRoundTrip(es: seq<MetricModel>, t: Snapshot)
    requires IsDumpOf(es, t)
    ensures DecodeAll(es) == Success(es)
    ensures AllHavePayload(es)
    ensures LoadFold(Snapshot(map[], map[]), es) == t
  {
    DecodeDump(es, t);
    var empty := Snapshot(map[], map[]);
    LoadFoldWithin(empty, es, t);
    var r := LoadFold(empty, es);
    forall k | k in t.gauge ensures k in r.gauge {
      var i :| 0 <= i < |es| && es[i] == WireGauge(k, t.gauge[k]);
    }
    forall k | k in t.counter ensures k in r.counter {
      var i :| 0 <= i < |es| && es[i] == WireCounter(k, t.counter[k]);
    }
    SubSnapshotCovering(r, t);
  }

  /* ---------------- BatchUpdate ---------------- */

  /** One case of BatchUpdate's switch: a counter adds (int64 wrap-around), a gauge overwrites. */
  function BatchStep(s: Snapshot, m: MetricModel): Snapshot
    requires HasPayload(m)
  {
    if m.mtype == MetricTypeCounter then
      s.(counter := s.counter[m.id := if m.id in s.counter then AddWrap(s.counter[m.id], m.delta.value) else m.delta.value])
    else if m.mtype == MetricTypeGauge then s.(gauge := s.gauge[m.id := m.value.value])
    else s
  }

  /** BatchUpdate's loop, metric by metric in input order. */
  function BatchFold(s: Snapshot, ms: seq<MetricModel>): Snapshot
    requires AllHavePayload(ms)
    decreases |ms|
  {
    if ms == [] then s else BatchStep(BatchFold(s, ms[..|ms| - 1]), ms[|ms| - 1])
  }

  predicate IsCounterFor(m: MetricModel, k: string) {
    m.mtype == MetricTypeCounter && m.id == k
  }

  /** The sum of the deltas the batch sends to counter `k` (exact, not wrapped). */
  function SumDeltas(ms: seq<MetricModel>, k: string): (total: int)
    requires AllHavePayload(ms)
    ensures (forall i :: 0 <= i < |ms| ==> !IsCounterFor(ms[i], k)) ==> total == 0
    decreases |ms|
  {
    if ms == [] then 0
    else
      var init := ms[..|ms| - 1];
      assert forall i :: 0 <= i < |init| ==> init[i] == ms[i];
      var last := ms[|ms| - 1];
      SumDeltas(init, k) + (if IsCounterFor(last, k) then last.delta.value else 0)
  }

  /** Extending a prefix of the batch by one metric adds that metric's delta for `k`, if any. */
  lemma SumDeltasPrefixStep(ms: seq<MetricModel>, i: nat, k: string)
    requires AllHavePayload(ms) && i < |ms|
    ensures SumDeltas(ms[..i + 1], k) == SumDeltas(ms[..i], k) + (if IsCounterFor(ms[i], k) then ms[i].delta.value else 0)
  {
    assert ms[..i + 1][..i] == ms[..i];
  }

  /** The value the last gauge entry for `k` in the batch carries, if any. */
  function LastGauge(ms: seq<MetricModel>, k: string): (v: Option<Float64>)
    requires AllHavePayload(ms)
    ensures v.Some? <==> exists i :: 0 <= i < |ms| && ms[i].mtype == MetricTypeGauge && ms[i].id == k
    decreases |ms|
  {
    if ms == [] then None
    else
      var init := ms[..|ms| - 1];
      assert forall i :: 0 <= i < |init| ==> init[i] == ms[i];
      var last := ms[|ms| - 1];
      if last.mtype == MetricTypeGauge && last.id == k then last.value else LastGauge(init, k)
  }

  /** One batch step on counter `k`. */
  lemma BatchStepCounter(s: Snapshot, m: MetricModel, k: string)
    requires HasPayload(m)
    ensures IsCounterFor(m, k) ==> (k in BatchStep(s, m).counter &&
      BatchStep(s, m).counter[k] == (if k in s.counter then AddWrap(s.counter[k], m.delta.value) else m.delta.value))
    ensures !IsCounterFor(m, k) ==> (k in BatchStep(s, m).counter <==> k in s.counter)
    ensures !IsCounterFor(m, k) && k in s.counter ==> BatchStep(s, m).counter[k] == s.counter[k]
  {
  }

  /** After a batch, counter `k` exists iff it existed or the batch sent it a delta. */
  lemma {:induction false} BatchCounterPresence(s: Snapshot, ms: seq<MetricModel>, k: string)
    requires AllHavePayload(ms)
    ensures k in BatchFold(s, ms).counter <==>
      (k in s.counter || exists i :: 0 <= i < |ms| && IsCounterFor(ms[i], k))
    decreases |ms|
  {
    if ms != [] {
      var init := ms[..|ms| - 1];
      assert forall i :: 0 <= i < |init| ==> init[i] == ms[i];
      var last := ms[|ms| - 1];
      BatchCounterPresence(s, init, k);
      BatchStepCounter(BatchFold(s, init), last, k);
      if !IsCounterFor(last, k) && exists i :: 0 <= i < |ms| && IsCounterFor(ms[i], k) {
        var i :| 0 <= i < |ms| && IsCounterFor(ms[i], k);
        assert i < |init|;
      }
    }
  }

  /** One batch step adds the entry's delta (if it is for `k`) to the wrapped running total. */
  lemma CounterStepWraps(prev: Snapshot, last: MetricModel, k: string, total: int)
    requires HasPayload(last)
    requires k in prev.counter ==> prev.counter[k] == Wrap(total)
    requires k !in prev.counter ==> total == 0
    ensures k in BatchStep(prev, last).counter ==>
      BatchStep(prev, last).counter[k] == Wrap(total + (if IsCounterFor(last, k) then last.delta.value else 0))
    ensures k !in BatchStep(prev, last).counter ==> total + (if IsCounterFor(last, k) then last.delta.value else 0) == 0
  {
    BatchStepCounter(prev, last, k);
    if IsCounterFor(last, k) && k in prev.counter {
      AddWrapRunning(total, last.delta.value);
    }
  }

  /**
   * After a batch, counter `k` holds its old value (0 if absent) plus every delta
   * the batch sent to it, wrapped to int64; a counter still absent received no delta.
   */
  lemma {:induction false} BatchCounterTotal(s: Snapshot, ms: seq<MetricModel>, k: string)
    requires AllHavePayload(ms)
    ensures k in BatchFold(s, ms).counter ==>
      BatchFold(s, ms).counter[k] == Wrap((if k in s.counter then s.counter[k] else 0) + SumDeltas(ms, k))
    ensures k !in BatchFold(s, ms).counter ==> k !in s.counter && SumDeltas(ms, k) == 0
    decreases |ms|
  {
    if ms != [] {
      var init := ms[..|ms| - 1];
      assert forall i :: 0 <= i < |init| ==> init[i] == ms[i];
      var last := ms[|ms| - 1];
      BatchCounterTotal(s, init, k);
      var prev := BatchFold(s, init);
      assert BatchFold(s, ms) == BatchStep(prev, last);
      var base := if k in s.counter then s.counter[k] else 0;
      assert SumDeltas(ms, k) == SumDeltas(init, k) + (if IsCounterFor(last, k) then last.delta.value else 0);
      CounterStepWraps(prev, last, k, base + SumDeltas(init, k));
      BatchStepCounter(prev, last, k);
    }
  }

  /**
   * After a batch, gauge `k` holds the value of the batch's last gauge entry for `k`;
   * without one it is as before.
   */
  lemma {:induction false} BatchGaugeLastWins(s: Snapshot, ms: seq<MetricModel>, k: string)
    requires AllHavePayload(ms)
    ensures LastGauge(ms, k).Some? ==> k in BatchFold(s, ms).gauge && BatchFold(s, ms).gauge[k] == LastGauge(ms, k).value
    ensures LastGauge(ms, k).None? ==> (k in BatchFold(s, ms).gauge <==> k in s.gauge)
    ensures LastGauge(ms, k).None? && k in s.gauge ==> BatchFold(s, ms).gauge[k] == s.gauge[k]
    decreases |ms|
  {
    if ms != [] {
      var init := ms[..|ms| - 1];
      assert forall i :: 0 <= i < |init| ==> init[i] == ms[i];
      BatchGaugeLastWins(s, init, k);
    }
  }

  /** A batch touches no key it does not name. */
  lemma {:induction false} BatchFoldFrame(s: Snapshot, ms: seq<MetricModel>, k: string)
    requires AllHavePayload(ms)
    requires forall i :: 0 <= i < |ms| ==> ms[i].id != k
    ensures (k in BatchFold(s, ms).gauge <==> k in s.gauge) && (k in BatchFold(s, ms).counter <==> k in s.counter)
    ensures k in s.gauge ==> BatchFold(s, ms).gauge[k] == s.gauge[k]
    ensures k in s.counter ==> BatchFold(s, ms).counter[k] == s.counter[k]
    decreases |ms|
  {
    if ms != [] {
      var init := ms[..|ms| - 1];
      assert forall i :: 0 <= i < |init| ==> init[i] == ms[i];
      BatchFoldFrame(s, init, k);
    }
  }

  /** The record BatchUpdate returns for one metric: the request's own payload. */
  function Echo(m: MetricModel): MetricModel
    requires HasPayload(m) && KnownType(m)
  {
    if m.mtype == MetricTypeCounter then NewMetricModel(m.id, m.mtype, m.delta.value, ZeroFloat)
    else NewMetricModel(m.id, m.mtype, 0, m.value.value)
  }

  /**
   * BatchUpdate's result list: one record per input in input order; a counter's
   * record carries the request delta (not the new total), a gauge's the request value.
   */
  function EchoAll(ms: seq<MetricModel>): (r: seq<MetricModel>)
    requires AllHavePayload(ms) && forall i :: 0 <= i < |ms| ==> KnownType(ms[i])
    ensures |r| == |ms|
    ensures forall i :: 0 <= i < |ms| ==> r[i].id == ms[i].id && r[i].mtype == ms[i].mtype
    ensures forall i :: 0 <= i < |ms| && ms[i].mtype == MetricTypeCounter ==>
      r[i].delta == ms[i].delta && r[i].value == Some(ZeroFloat)
    ensures forall i :: 0 <= i < |ms| && ms[i].mtype == MetricTypeGauge ==>
      r[i].value == ms[i].value && r[i].delta == Some(0)
    decreases |ms|
  {
    if ms == [] then []
    else
      var init := ms[..|ms| - 1];
      assert forall i :: 0 <= i < |init| ==> init[i] == ms[i];
      EchoAll(init) + [Echo(ms[|ms| - 1])]
  }

  /* ---------------- the store ---------------- */

  /** Extending a known prefix of the batch by one metric is one BatchStep and one Echo. */
  lemma BatchPrefixStep(s0: Snapshot, ms: seq<MetricModel>, i: nat)
    requires AllHavePayload(ms) && i < KnownPrefix(ms)
    ensures BatchFold(s0, ms[..i + 1]) == BatchStep(BatchFold(s0, ms[..i]), ms[i])
    ensures EchoAll(ms[..i + 1]) == EchoAll(ms[..i]) + [Echo(ms[i])]
  {
    assert ms[..i + 1][..i] == ms[..i];
  }

  /** Putting back the previous entry for `k`, or removing it if there was none, undoes `m[k := v]`. */
  lemma UndoUpdate<V>(m: map<string, V>, k: string, v: V)
    ensures k in m ==> m[k := v][k := m[k]] == m
    ensures k !in m ==> m[k := v] - {k} == m
  {
  }

  class MemStorage {
    var gauge: map<string, Float64>
    var counter: map<string, Int64>
    /** StoreInterval == 0: every change is dumped at once. */
    var syncDump: bool
    /** The dump guard flag, set while a dump runs. */
    var dumpInProgress: bool
    /** The dump file at the store's path. */
    var disk: DumpFile

    /** NewMemStorageFromStorageConfig without the restore and the periodic dump. */
    constructor (storeInterval: nat, file: DumpFile)
      ensures gauge == map[] && counter == map[]
      ensures syncDump == (storeInterval == 0)
      ensures !dumpInProgress && disk == file
    {
      gauge := map[];
      counter := map[];
      syncDump := storeInterval == 0;
      dumpInProgress := false;
      disk := file;
    }

    /** A flush with the given outcome would succeed now. */
    predicate DumpSucceeds(flushErr: Option<Error>)
      reads this
    {
      !dumpInProgress && flushErr.None?
    }

    /** GetGauge: the stored value, or an error wrapping ErrNotFound for an absent key. */
    method GetGauge(ctxErr: Option<Error>, key: string) returns (v: Float64, err: Option<Error>)
      ensures ctxErr.Some? ==> v == ZeroFloat && err == ctxErr
      ensures ctxErr.None? && key in gauge ==> v == gauge[key] && err.None?
      ensures ctxErr.None? && key !in gauge ==> v == ZeroFloat && err.Some? && Is(err.value, ErrNotFound)
    {
      if ctxErr.Some? {
        return ZeroFloat, ctxErr;
      }
      if key !in gauge {
        return ZeroFloat, Some(Wrapped(MetricTypeGauge + " " + key, ErrNotFound));
      }
      return gauge[key], None;
    }

    /** GetCounter: the stored value, or an error wrapping ErrNotFound for an absent key. */
    method GetCounter(ctxErr: Option<Error>, key: string) returns (v: Int64, err: Option<Error>)
      ensures ctxErr.Some? ==> v == 0 && err == ctxErr
      ensures ctxErr.None? && key in counter ==> v == counter[key] && err.None?
      ensures ctxErr.None? && key !in counter ==> v == 0 && err.Some? && Is(err.value, ErrNotFound)
    {
      if ctxErr.Some? {
        return 0, ctxErr;
      }
      if key !in counter {
        return 0, Some(Wrapped(MetricTypeCounter + " " + key, ErrNotFound));
      }
      return counter[key], None;
    }

    /** dump (and Dump): the guard flag, then one flush whose outcome is `flushErr`. */
    method Dump(flushErr: Option<Error>) returns (err: Option<Error>)
      modifies this`disk, this`dumpInProgress
      ensures dumpInProgress == old(dumpInProgress)
      ensures old(dumpInProgress) ==> err == Some(Message("dump already in progress")) && disk == old(disk)
      ensures !old(dumpInProgress) ==> err == flushErr
      ensures !old(dumpInProgress) && flushErr.Some? ==> disk == old(disk)
      ensures !old(dumpInProgress) && flushErr.None? ==>
        DumpHolds(disk, Snapshot(gauge, counter))
    {
      if dumpInProgress {
        return Some(Message("dump already in progress"));
      }
      dumpInProgress := true;
      ghost var snap := Snapshot(gauge, counter);
      var metrics := SortedRecords();
      if flushErr.None? {
        var entries := MarshalAll(metrics);
        MarshalListingIsDump(metrics, snap);
        disk := Entries(entries);
        assert DumpHolds(disk, snap);
      }
      dumpInProgress := false;
      assert snap == Snapshot(gauge, counter);
      return flushErr;
    }

    /**
     * SetGauge: overwrites the key and returns the value; with synchronous flushing a
     * failed dump puts back the previous value (or removes the new key).
     */
    method SetGauge(ctxErr: Option<Error>, key: string, value: Float64, flushErr: Option<Error>)
      returns (v: Float64, err: Option<Error>)
      modifies this`gauge, this`disk, this`dumpInProgress
      ensures counter == old(counter) && dumpInProgress == old(dumpInProgress)
      ensures ctxErr.Some? ==> v == ZeroFloat && err == ctxErr && gauge == old(gauge) && disk == old(disk)
      ensures ctxErr.None? && (!syncDump || old(DumpSucceeds(flushErr))) ==>
        gauge == old(gauge)[key := value] && v == value && err.None?
      ensures ctxErr.None? && syncDump && !old(DumpSucceeds(flushErr)) ==>
        && gauge == old(gauge) && v == ZeroFloat && disk == old(disk)
        && err == (if old(dumpInProgress) then Some(Message("dump already in progress")) else flushErr)
      ensures !syncDump ==> disk == old(disk)
      ensures err.None? && syncDump ==> DumpHolds(disk, Snapshot(gauge, counter))
    {
      if ctxErr.Some? {
        return ZeroFloat, ctxErr;
      }
      var ok := key in gauge;
      var prevValue := if ok then gauge[key] else ZeroFloat;
      gauge := gauge[key := value];
      if syncDump {
        var e := Dump(flushErr);
        if e.Some? {
          UndoUpdate(old(gauge), key, value);
          if ok {
            gauge := gauge[key := prevValue];
          } else {
            gauge := gauge - {key};
          }
          return ZeroFloat, e;
        }
      }
      return value, None;
    }

    /**
     * IncrementCounter: stores and returns old+delta (int64 wrap-around), or the
     * delta for a new key; a failed synchronous dump puts the old state back.
     */
    method IncrementCounter(ctxErr: Option<Error>, key: string, value: Int64, flushErr: Option<Error>)
      returns (v: Int64, err: Option<Error>)
      modifies this`counter, this`disk, this`dumpInProgress
      ensures gauge == old(gauge) && dumpInProgress == old(dumpInProgress)
      ensures ctxErr.Some? ==> v == 0 && err == ctxErr && counter == old(counter) && disk == old(disk)
      ensures ctxErr.None? && (!syncDump || old(DumpSucceeds(flushErr))) ==>
        && v == (if key in old(counter) then AddWrap(value, old(counter)[key]) else value)
        && counter == old(counter)[key := v] && err.None?
      ensures ctxErr.None? && syncDump && !old(DumpSucceeds(flushErr)) ==>
        && counter == old(counter) && v == 0 && disk == old(disk)
        && err == (if old(dumpInProgress) then Some(Message("dump already in progress")) else flushErr)
      ensures !syncDump ==> disk == old(disk)
      ensures err.None? && syncDump ==> DumpHolds(disk, Snapshot(gauge, counter))
    {
      if ctxErr.Some? {
        return 0, ctxErr;
      }
      var ok := key in counter;
      var val := if ok then counter[key] else 0;
      var total := value;
      if ok {
        total := AddWrap(value, val);
      }
      counter := counter[key := total];
      if syncDump {
        var e := Dump(flushErr);
        if e.Some? {
          UndoUpdate(old(counter), key, total);
          if ok {
            counter := counter[key := val];
          } else {
            counter := counter - {key};
          }
          return 0, e;
        }
      }
      return total, None;
    }

    /** getAll's first loop: one record per gauge, in map iteration order. */
    method GaugeRecords() returns (rs: seq<MetricModel>)
      ensures |rs| == |gauge|
      ensures forall k :: k in gauge ==> GaugeRecord(k, gauge[k]) in rs
      ensures forall r :: r in rs ==> r.id in gauge && r == GaugeRecord(r.id, gauge[r.id])
    {
      rs := [];
      var todo := gauge.Keys;
      var done: set<string> := {};
      while todo != {}
        invariant todo !! done && todo + done == gauge.Keys
        invariant |rs| == |done|
        invariant forall k :: k in done ==> GaugeRecord(k, gauge[k]) in rs
        invariant forall r :: r in rs ==> r.id in done && r == GaugeRecord(r.id, gauge[r.id])
        decreases todo
      {
        var k :| k in todo;
        rs := rs + [GaugeRecord(k, gauge[k])];
        todo := todo - {k};
        done := done + {k};
      }
      assert done == gauge.Keys;
    }

    /** getAll's second loop: one record per counter, in map iteration order. */
    method CounterRecords() returns (rs: seq<MetricModel>)
      ensures |rs| == |counter|
      ensures forall k :: k in counter ==> CounterRecord(k, counter[k]) in rs
      ensures forall r :: r in rs ==> r.id in counter && r == CounterRecord(r.id, counter[r.id])
    {
      rs := [];
      var todo := counter.Keys;
      var done: set<string> := {};
      while todo != {}
        invariant todo !! done && todo + done == counter.Keys
        invariant |rs| == |done|
        invariant forall k :: k in done ==> CounterRecord(k, counter[k]) in rs
        invariant forall r :: r in rs ==> r.id in done && r == CounterRecord(r.id, counter[r.id])
        decreases todo
      {
        var k :| k in todo;
        rs := rs + [CounterRecord(k, counter[k])];
        todo := todo - {k};
        done := done + {k};
      }
      assert done == counter.Keys;
    }

    /** getAll: one record per gauge and per counter, sorted by id. */
    method SortedRecords() returns (rs: seq<MetricModel>)
      ensures SortedById(rs)
      ensures ListsSnapshot(rs, Snapshot(gauge, counter))
    {
      var gauges := GaugeRecords();
      var counters := CounterRecords();
      var metrics := gauges + counters;
      assert ListsSnapshot(metrics, Snapshot(gauge, counter));
      rs := SortById(metrics);
      ListingPermutation(metrics, rs, Snapshot(gauge, counter));
    }

    /** GetAll: the context error, or the sorted listing. */
    method GetAll(ctxErr: Option<Error>) returns (r: Result<seq<MetricModel>, Error>)
      ensures ctxErr.Some? ==> r == Failure(ctxErr.value)
      ensures ctxErr.None? ==> r.Success? && SortedById(r.value) && ListsSnapshot(r.value, Snapshot(gauge, counter))
    {
      if ctxErr.Some? {
        return Failure(ctxErr.value);
      }
      var rs := SortedRecords();
      return Success(rs);
    }

    /** Ping: fails only with the context's error. */
    function Ping(ctxErr: Option<Error>): (err: Option<Error>)
      ensures err.Some? <==> ctxErr.Some?
    {
      ctxErr
    }

    /**
     * load's switch over the decoded entries: each gauge or counter entry overwrites
     * its key; the first entry of another type stops the loop with an error and the
     * entries before it stay applied.
     */
    method LoadEntries(ms: seq<MetricModel>) returns (err: Option<Error>)
      requires AllHavePayload(ms)
      modifies this`gauge, this`counter
      ensures var n := KnownPrefix(ms);
        Snapshot(gauge, counter) == LoadFold(old(Snapshot(gauge, counter)), ms[..n])
      ensures err.None? <==> KnownPrefix(ms) == |ms|
      ensures KnownPrefix(ms) < |ms| ==> err == Some(Message("unknown metric type " + ms[KnownPrefix(ms)].mtype))
    {
      var s0 := Snapshot(gauge, counter);
      var i := 0;
      while i < |ms|
        invariant 0 <= i <= |ms| && i <= KnownPrefix(ms)
        invariant Snapshot(gauge, counter) == LoadFold(s0, ms[..i])
      {
        var m := ms[i];
        assert ms[..i + 1][..i] == ms[..i];
        if m.mtype == MetricTypeGauge {
          gauge := gauge[m.id := m.value.value];
        } else if m.mtype == MetricTypeCounter {
          counter := counter[m.id := m.delta.value];
        } else {
          assert KnownPrefix(ms) == i;
          return Some(Message("unknown metric type " + m.mtype));
        }
        i := i + 1;
      }
      assert ms[..i] == ms;
      return None;
    }

    /**
     * load: open the dump file, decode it (every entry validated by UnmarshalJSON),
     * then apply the entries. A missing or undecodable file changes nothing.
     */
    method Load() returns (err: Option<Error>)
      modifies this`gauge, this`counter
      ensures disk.Missing? || disk.Garbled? ==> err.Some? && gauge == old(gauge) && counter == old(counter)
      ensures disk.Entries? && DecodeAll(disk.records).Failure? ==>
        err == Some(DecodeAll(disk.records).error) && gauge == old(gauge) && counter == old(counter)
      ensures disk.Entries? && DecodeAll(disk.records).Success? ==>
        && AllHavePayload(DecodeAll(disk.records).value)
        && err.None?
        && Snapshot(gauge, counter) == LoadFold(old(Snapshot(gauge, counter)), DecodeAll(disk.records).value)
    {
      match disk
      case Missing =>
        return Some(Wrapped("open", Sentinel("fs.ErrNotExist")));
      case Garbled =>
        return Some(Message("invalid JSON in dump file"));
      case Entries(records) =>
        var decoded := DecodeAll(records);
        if decoded.Failure? {
          return Some(decoded.error);
        }
        var ms := decoded.value;
        forall i | 0 <= i < |ms| ensures HasPayload(ms[i]) && KnownType(ms[i]) {
          UnmarshalValidates(records[i]);
        }
        err := LoadEntries(ms);
        assert ms[..|ms|] == ms;
    }

    /** BatchUpdate's loop: applies the metrics in order, stopping at the first unknown type. */
    method ApplyBatch(metrics: seq<MetricModel>) returns (newMetrics: seq<MetricModel>, bad: Option<Error>)
      requires AllHavePayload(metrics)
      modifies this`gauge, this`counter
      ensures bad.Some? <==> KnownPrefix(metrics) < |metrics|
      ensures bad.Some? ==> bad.value == Message("bad metric type " + metrics[KnownPrefix(metrics)].mtype)
      ensures bad.None? ==>
        Snapshot(gauge, counter) == BatchFold(old(Snapshot(gauge, counter)), metrics) && newMetrics == EchoAll(metrics)
    {
      var s0 := Snapshot(gauge, counter);
      newMetrics := [];
      var i := 0;
      while i < |metrics|
        invariant 0 <= i <= |metrics| && i <= KnownPrefix(metrics)
        invariant Snapshot(gauge, counter) == BatchFold(s0, metrics[..i])
        invariant newMetrics == EchoAll(metrics[..i])
      {
        var m := metrics[i];
        if m.mtype != MetricTypeCounter && m.mtype != MetricTypeGauge {
          return newMetrics, Some(Message("bad metric type " + m.mtype));
        }
        BatchPrefixStep(s0, metrics, i);
        if m.mtype == MetricTypeCounter {
          var val := if m.id in counter then AddWrap(counter[m.id], m.delta.value) else m.delta.value;
          counter := counter[m.id := val];
          newMetrics := newMetrics + [NewMetricModel(m.id, m.mtype, m.delta.value, ZeroFloat)];
        } else {
          gauge := gauge[m.id := m.value.value];
          newMetrics := newMetrics + [NewMetricModel(m.id, m.mtype, 0, m.value.value)];
        }
        i := i + 1;
      }
      assert metrics[..i] == metrics;
      bad := None;
    }

    /**
     * BatchUpdate: applies the metrics in input order, echoing each with its request
     * payload; an unknown type or a failed synchronous dump restores both maps.
     * A nil payload would be dereferenced, so callers pass decoded metrics.
     */
    method BatchUpdate(ctxErr: Option<Error>, metrics: seq<MetricModel>, flushErr: Option<Error>)
      returns (r: Result<seq<MetricModel>, Error>)
      requires AllHavePayload(metrics)
      modifies this`gauge, this`counter, this`disk, this`dumpInProgress
      ensures dumpInProgress == old(dumpInProgress)
      ensures ctxErr.Some? ==> r == Failure(ctxErr.value)
      ensures KnownPrefix(metrics) < |metrics| && ctxErr.None? ==>
        r == Failure(Message("bad metric type " + metrics[KnownPrefix(metrics)].mtype))
      ensures ctxErr.None? && KnownPrefix(metrics) == |metrics| ==>
        (r.Success? <==> (!syncDump || old(DumpSucceeds(flushErr))))
      ensures ctxErr.None? && KnownPrefix(metrics) == |metrics| && syncDump && !old(DumpSucceeds(flushErr)) ==>
        r == Failure(if old(dumpInProgress) then Message("dump already in progress") else flushErr.value)
      ensures r.Failure? ==> gauge == old(gauge) && counter == old(counter)
      ensures r.Failure? || !syncDump ==> disk == old(disk)
      ensures r.Success? ==>
        && Snapshot(gauge, counter) == BatchFold(old(Snapshot(gauge, counter)), metrics)
        && r.value == EchoAll(metrics)
      ensures r.Success? && syncDump ==> DumpHolds(disk, Snapshot(gauge, counter))
    {
      if ctxErr.Some? {
        return Failure(ctxErr.value);
      }
      var backupCounters := counter;
      var backupGauges := gauge;
      var newMetrics, bad := ApplyBatch(metrics);
      if bad.Some? {
        counter := backupCounters;
        gauge := backupGauges;
        return Failure(bad.value);
      }
      if syncDump {
        var e := Dump(flushErr);
        if e.Some? {
          counter := backupCounters;
          gauge := backupGauges;
          return Failure(e.value);
        }
      }
      return Success(newMetrics);
    }
  }
}
