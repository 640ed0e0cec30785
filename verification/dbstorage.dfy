/**
 * internal/server/dbstorage.go: the PostgreSQL store, as the semantics of its SQL.
 * The `metrics` table (id primary key, nullable bigint delta, nullable double value)
 * is a map from id to a row. Each statement either fails with an error chosen by the
 * environment (connection loss and the like: an input) or has the effect its SQL
 * text gives it; a bigint sum that leaves the int64 range fails with SQLSTATE 22003.
 */
module DBStorage {
  import opened Wrappers
  import opened Numbers
  import opened Errors
  import opened Common
  import opened Models
  import opened Sorting
  import MemStorage

  /** One row of the metrics table; None is SQL NULL. */
  datatype Row = Row(delta: Option<Int64>, value: Option<Float64>)

  type Table = map<string, Row>

  /** pgx.ErrNoRows: QueryRow found no row. */
  const ErrNoRows: Error := Sentinel("pgx.ErrNoRows")

  /** The PgError PostgreSQL raises when a bigint sum overflows (numeric_value_out_of_range). */
  const ErrBigintOutOfRange: Error := Pg("22003")

  /** isDBRetryableError: a non-nil error that is (or wraps) a net.Error or a *PgError. */
  function IsDBRetryableError(err: Option<Error>): bool
  {
    err.Some? && (AsNet(err.value) || AsPg(err.value))
  }

  /** nil and plain errors are final; network and PostgreSQL errors, wrapped or not, are retried. */
  lemma IsDBRetryableErrorCases(text: string, prefix: string)
    ensures !IsDBRetryableError(None)
    ensures !IsDBRetryableError(Some(Message(text)))
    ensures !IsDBRetryableError(Some(Wrapped(prefix, Message(text))))
    ensures IsDBRetryableError(Some(Net(text)))
    ensures IsDBRetryableError(Some(Pg(text)))
    ensures IsDBRetryableError(Some(Wrapped(prefix, Net(text))))
    ensures IsDBRetryableError(Some(Wrapped(prefix, Pg(text))))
    ensures IsDBRetryableError(Some(Joined([Message(text), Pg(text)])))
  {
    assert Joined([Message(text), Pg(text)]).errs[1] == Pg(text);
  }

  /** The delta column as coalesce(delta, 0) reads it. */
  function CounterColumn(t: Table, k: string): Int64 {
    if k in t && t[k].delta.Some? then t[k].delta.value else 0
  }

  /**
   * queryInsertGauge: insert (id, value), or on conflict set value; the delta column
   * is left as it was.
   */
  function UpsertGauge(t: Table, k: string, v: Float64): (r: Table)
    ensures k in r && r[k].value == Some(v)
    ensures r[k].delta == (if k in t then t[k].delta else None)
    ensures forall j :: j != k ==> (j in r <==> j in t) && (j in t ==> r[j] == t[j])
  {
    t[k := Row(if k in t then t[k].delta else None, Some(v))]
  }

  /**
   * queryInsertCounter: insert (id, delta), or on conflict set delta to
   * coalesce(delta, 0) + d; the value column is left as it was. Returns the new delta.
   */
  function UpsertCounter(t: Table, k: string, d: Int64): (r: Result<(Table, Int64), Error>)
    ensures r.Failure? <==> !(MinInt64 <= CounterColumn(t, k) + d <= MaxInt64)
    ensures r.Failure? ==> r.error == ErrBigintOutOfRange
    ensures r.Success? ==> r.value.1 == CounterColumn(t, k) + d
    ensures r.Success? ==> (k in r.value.0 && r.value.0[k].delta == Some(r.value.1)
      && r.value.0[k].value == (if k in t then t[k].value else None))
    ensures r.Success? ==> forall j :: j != k ==> (j in r.value.0 <==> j in t) && (j in t ==> r.value.0[j] == t[j])
  {
    var total := CounterColumn(t, k) + d;
    if total < MinInt64 || total > MaxInt64 then Failure(ErrBigintOutOfRange)
    else Success((t[k := Row(Some(total), if k in t then t[k].value else None)], total))
  }

  /** The table seen as the two maps of a store: a row may feed both. */
  function TableSnapshot(t: Table): MemStorage.Snapshot {
    MemStorage.Snapshot(
      map k | k in t && t[k].value.Some? :: t[k].value.value,
      map k | k in t && t[k].delta.Some? :: t[k].delta.value)
  }

  /* ---------------- BatchUpdate's transaction ---------------- */

  /** The transaction's working table and the records returned so far. */
  datatype TxState = TxState(table: Table, out: seq<MetricModel>)

  /** The outcome of each step a BatchUpdate can fail at. */
  datatype TxFaults = TxFaults(
    begin: Option<Error>,
    prepareGauge: Option<Error>,
    prepareCounter: Option<Error>,
    exec: seq<Option<Error>>,   // the i-th statement's failure, if any
    commit: Option<Error>)

  function ExecFault(exec: seq<Option<Error>>, i: nat): Option<Error> {
    if i < |exec| then exec[i] else None
  }

  /** One iteration of BatchUpdate's loop: run the kind's statement and record its result. */
  function TxStep(st: TxState, m: MetricModel, fault: Option<Error>): Result<TxState, Error>
    requires HasPayload(m)
  {
    if m.mtype == MetricTypeCounter then
      if fault.Some? then Failure(fault.value)
      else
        var up := UpsertCounter(st.table, m.id, m.delta.value);
        if up.Failure? then Failure(up.error)
        else Success(TxState(up.value.0, st.out + [NewMetricModel(m.id, m.mtype, up.value.1, ZeroFloat)]))
    else if m.mtype == MetricTypeGauge then
      if fault.Some? then Failure(fault.value)
      else Success(TxState(UpsertGauge(st.table, m.id, m.value.value), st.out + [NewMetricModel(m.id, m.mtype, 0, m.value.value)]))
    else Failure(Message("unknown metric type " + m.mtype))
  }

  /**
   * The statements of a batch run in order inside the transaction; the first failing
   * one ends it. On success every metric had a known type and the records returned
   * match the metrics one to one: a gauge's carries the value written.
   */
  function RunStatements(t: Table, ms: seq<MetricModel>, exec: seq<Option<Error>>): (r: Result<TxState, Error>)
    requires MemStorage.AllHavePayload(ms)
    ensures r.Success? ==> |r.value.out| == |ms|
    ensures r.Success? ==> forall i :: 0 <= i < |ms| ==>
      && MemStorage.KnownType(ms[i])
      && r.value.out[i].id == ms[i].id && r.value.out[i].mtype == ms[i].mtype
      && (ms[i].mtype == MetricTypeGauge ==> r.value.out[i].value == ms[i].value && r.value.out[i].delta == Some(0))
      && (ms[i].mtype == MetricTypeCounter ==> r.value.out[i].value == Some(ZeroFloat) && r.value.out[i].delta.Some?)
    decreases |ms|
  {
    if ms == [] then Success(TxState(t, []))
    else
      var init := ms[..|ms| - 1];
      assert forall i :: 0 <= i < |init| ==> init[i] == ms[i];
      var prev := RunStatements(t, init, exec);
      if prev.Failure? then prev
      else TxStep(prev.value, ms[|ms| - 1], ExecFault(exec, |ms| - 1))
  }

  /** A successful run's prefixes ran successfully and returned a prefix of its records. */
  lemma {:induction false} RunPrefix(t: Table, ms: seq<MetricModel>, exec: seq<Option<Error>>, j: nat)
    requires MemStorage.AllHavePayload(ms)
    requires RunStatements(t, ms, exec).Success? && j <= |ms|
    ensures RunStatements(t, ms[..j], exec).Success?
    ensures RunStatements(t, ms[..j], exec).value.out == RunStatements(t, ms, exec).value.out[..j]
    decreases |ms|
  {
    if j == |ms| {
      assert ms[..j] == ms;
    } else {
      var init := ms[..|ms| - 1];
      assert init[..j] == ms[..j];
      RunPrefix(t, init, exec, j);
    }
  }

  /** One successful statement moves the delta column of `k` by the delta it sends to `k`. */
  lemma TxStepCounterColumn(st: TxState, m: MetricModel, fault: Option<Error>, k: string)
    requires HasPayload(m)
    requires TxStep(st, m, fault).Success?
    ensures CounterColumn(TxStep(st, m, fault).value.table, k)
      == CounterColumn(st.table, k) + (if MemStorage.IsCounterFor(m, k) then m.delta.value else 0)
  {
  }

  /**
   * After a successful run the delta column of `k` is its old coalesced value plus
   * every delta the batch sent to `k` (exact: an overflow would have failed the run).
   */
  lemma {:induction false} RunCounterColumn(t: Table, ms: seq<MetricModel>, exec: seq<Option<Error>>, k: string)
    requires MemStorage.AllHavePayload(ms)
    requires RunStatements(t, ms, exec).Success?
    ensures CounterColumn(RunStatements(t, ms, exec).value.table, k) == CounterColumn(t, k) + MemStorage.SumDeltas(ms, k)
    decreases |ms|
  {
    if ms != [] {
      var init := ms[..|ms| - 1];
      var last := ms[|ms| - 1];
      assert forall i :: 0 <= i < |init| ==> init[i] == ms[i];
      var prev := RunStatements(t, init, exec);
      assert prev.Success?;
      RunCounterColumn(t, init, exec, k);
      assert RunStatements(t, ms, exec) == TxStep(prev.value, last, ExecFault(exec, |ms| - 1));
      TxStepCounterColumn(prev.value, last, ExecFault(exec, |ms| - 1), k);
      assert MemStorage.SumDeltas(ms, k)
        == MemStorage.SumDeltas(init, k) + (if MemStorage.IsCounterFor(last, k) then last.delta.value else 0);
    }
  }

  /** A successful counter statement returns the new column: the old one plus its delta. */
  lemma TxStepCounterRecord(st: TxState, m: MetricModel, fault: Option<Error>)
    requires HasPayload(m) && m.mtype == MetricTypeCounter
    requires TxStep(st, m, fault).Success?
    ensures |TxStep(st, m, fault).value.out| == |st.out| + 1
    ensures TxStep(st, m, fault).value.out[|st.out|].delta == Some(CounterColumn(st.table, m.id) + m.delta.value)
  {
  }

  /** Running one more statement after a successful prefix is one TxStep. */
  lemma RunExtends(t: Table, ms: seq<MetricModel>, exec: seq<Option<Error>>, i: nat, st: TxState)
    requires MemStorage.AllHavePayload(ms)
    requires i < |ms| && RunStatements(t, ms[..i], exec) == Success(st)
    ensures RunStatements(t, ms[..i + 1], exec) == TxStep(st, ms[i], ExecFault(exec, i))
  {
    assert ms[..i + 1][..i] == ms[..i];
  }

  /** The i-th record of a successful run is the one the i-th statement appended to its prefix's records. */
  lemma RunRecordIsStep(t: Table, ms: seq<MetricModel>, exec: seq<Option<Error>>, i: nat)
    requires MemStorage.AllHavePayload(ms)
    requires RunStatements(t, ms, exec).Success? && i < |ms|
    ensures RunStatements(t, ms[..i], exec).Success?
    ensures var before := RunStatements(t, ms[..i], exec).value;
      && |before.out| == i
      && TxStep(before, ms[i], ExecFault(exec, i)).Success?
      && RunStatements(t, ms, exec).value.out[i] == TxStep(before, ms[i], ExecFault(exec, i)).value.out[i]
  {
    RunPrefix(t, ms, exec, i + 1);
    RunPrefix(t, ms, exec, i);
    var before := RunStatements(t, ms[..i], exec).value;
    RunExtends(t, ms, exec, i, before);
  }

  /**
   * The record a counter statement returns carries the post-update total: the old
   * column plus the deltas sent to that id up to and including this statement.
   */
  lemma RunReturnsTotals(t: Table, ms: seq<MetricModel>, exec: seq<Option<Error>>, i: nat)
    requires MemStorage.AllHavePayload(ms)
    requires RunStatements(t, ms, exec).Success?
    requires i < |ms| && ms[i].mtype == MetricTypeCounter
    ensures RunStatements(t, ms, exec).value.out[i].delta
      == Some(CounterColumn(t, ms[i].id) + MemStorage.SumDeltas(ms[..i + 1], ms[i].id))
  {
    var k := ms[i].id;
    RunRecordIsStep(t, ms, exec, i);
    var before := RunStatements(t, ms[..i], exec).value;
    TxStepCounterRecord(before, ms[i], ExecFault(exec, i));
    RunCounterColumn(t, ms[..i], exec, k);
    MemStorage.SumDeltasPrefixStep(ms, i, k);
    AddDelta(RunStatements(t, ms, exec).value.out[i].delta, CounterColumn(before.table, k), CounterColumn(t, k),
      MemStorage.SumDeltas(ms[..i], k), MemStorage.SumDeltas(ms[..i + 1], k), ms[i].delta.value);
  }

  /** The step from the column before a statement to the total it returns. */
  lemma AddDelta(rec: Option<Int64>, before: int, start: int, sumBefore: int, sumAfter: int, d: int)
    requires rec == Some(before + d) && before == start + sumBefore && sumAfter == sumBefore + d
    ensures rec == Some(start + sumAfter)
  {
  }

  /** Returned records come out in the order of the statements, so sorted input gives sorted output. */
  lemma RunKeepsOrder(t: Table, ms: seq<MetricModel>, exec: seq<Option<Error>>)
    requires MemStorage.AllHavePayload(ms)
    requires RunStatements(t, ms, exec).Success?
    requires SortedById(ms)
    ensures SortedById(RunStatements(t, ms, exec).value.out)
  {
  }

  /** A statement with a type other than gauge or counter fails the whole run. */
  lemma UnknownTypeFailsRun(t: Table, ms: seq<MetricModel>, exec: seq<Option<Error>>, i: nat)
    requires MemStorage.AllHavePayload(ms)
    requires i < |ms| && !MemStorage.KnownType(ms[i])
    ensures RunStatements(t, ms, exec).Failure?
  {
  }

  class DBStorage {
    var table: Table

    constructor (t: Table)
      ensures table == t
    {
      table := t;
    }

    /**
     * GetGauge: the value column; ErrNoRows or a NULL column become an error wrapping
     * ErrNotFound; any other failure is returned as it is.
     */
    method GetGauge(queryErr: Option<Error>, key: string) returns (v: Float64, err: Option<Error>)
      ensures queryErr.Some? && !Is(queryErr.value, ErrNoRows) ==> v == ZeroFloat && err == queryErr
      ensures queryErr.None? && key in table && table[key].value.Some? ==> v == table[key].value.value && err.None?
      ensures (queryErr.Some? && Is(queryErr.value, ErrNoRows)) || (queryErr.None? && (key !in table || table[key].value.None?)) ==>
        v == ZeroFloat && err.Some? && Is(err.value, ErrNotFound)
    {
      var scanErr := if queryErr.Some? then queryErr else if key !in table then Some(ErrNoRows) else None;
      if scanErr.Some? {
        if Is(scanErr.value, ErrNoRows) {
          return ZeroFloat, Some(Wrapped(MetricTypeGauge + " " + key, ErrNotFound));
        }
        return ZeroFloat, scanErr;
      }
      if table[key].value.None? {
        return ZeroFloat, Some(Wrapped(MetricTypeGauge + " " + key, ErrNotFound));
      }
      return table[key].value.value, None;
    }

    /** GetCounter: as GetGauge, on the delta column. */
    method GetCounter(queryErr: Option<Error>, key: string) returns (v: Int64, err: Option<Error>)
      ensures queryErr.Some? && !Is(queryErr.value, ErrNoRows) ==> v == 0 && err == queryErr
      ensures queryErr.None? && key in table && table[key].delta.Some? ==> v == table[key].delta.value && err.None?
      ensures (queryErr.Some? && Is(queryErr.value, ErrNoRows)) || (queryErr.None? && (key !in table || table[key].delta.None?)) ==>
        v == 0 && err.Some? && Is(err.value, ErrNotFound)
    {
      var scanErr := if queryErr.Some? then queryErr else if key !in table then Some(ErrNoRows) else None;
      if scanErr.Some? {
        if Is(scanErr.value, ErrNoRows) {
          return 0, Some(Wrapped(MetricTypeCounter + " " + key, ErrNotFound));
        }
        return 0, scanErr;
      }
      if table[key].delta.None? {
        return 0, Some(Wrapped(MetricTypeCounter + " " + key, ErrNotFound));
      }
      return table[key].delta.value, None;
    }

    /** SetGauge: the gauge upsert; returns the value written. */
    method SetGauge(queryErr: Option<Error>, key: string, value: Float64) returns (v: Float64, err: Option<Error>)
      modifies this
      ensures queryErr.Some? ==> table == old(table) && v == ZeroFloat && err == queryErr
      ensures queryErr.None? ==> table == UpsertGauge(old(table), key, value) && v == value && err.None?
    {
      if queryErr.Some? {
        return ZeroFloat, queryErr;
      }
      table := UpsertGauge(table, key, value);
      return value, None;
    }

    /** IncrementCounter: the counter upsert; returns the new total. */
    method IncrementCounter(queryErr: Option<Error>, key: string, value: Int64) returns (v: Int64, err: Option<Error>)
      modifies this
      ensures queryErr.Some? ==> table == old(table) && v == 0 && err == queryErr
      ensures queryErr.None? && UpsertCounter(old(table), key, value).Failure? ==>
        table == old(table) && v == 0 && err == Some(ErrBigintOutOfRange)
      ensures queryErr.None? && UpsertCounter(old(table), key, value).Success? ==>
        && (table, v) == UpsertCounter(old(table), key, value).value && err.None?
        && v == CounterColumn(old(table), key) + value
    {
      if queryErr.Some? {
        return 0, queryErr;
      }
      var up := UpsertCounter(table, key, value);
      if up.Failure? {
        return 0, Some(up.error);
      }
      table := up.value.0;
      return up.value.1, None;
    }

    /**
     * GetAll: one counter record per non-NULL delta and one gauge record per non-NULL
     * value (a row with both gives two), sorted by id. `queryErr` is Query's error and
     * `rowsErr` the first error rows.Scan or rows.Err reports; either ends the call.
     */
    method GetAll(queryErr: Option<Error>, rowsErr: Option<Error>) returns (r: Result<seq<MetricModel>, Error>)
      ensures queryErr.Some? ==> r == Failure(queryErr.value)
      ensures queryErr.None? && rowsErr.Some? ==> r == Failure(rowsErr.value)
      ensures queryErr.None? && rowsErr.None? ==> (r.Success? && SortedById(r.value)
        && MemStorage.ListsSnapshot(r.value, TableSnapshot(table)))
    {
      if queryErr.Some? {
        return Failure(queryErr.value);
      }
      var metrics := ScanRows(table);
      if rowsErr.Some? {
        return Failure(rowsErr.value);
      }
      var sorted := SortById(metrics);
      MemStorage.ListingPermutation(metrics, sorted, TableSnapshot(table));
      return Success(sorted);
    }

    /**
     * BatchUpdate: a sorted copy of the metrics is written inside one transaction;
     * it is committed only if every step succeeded, so the table changes all at once
     * or not at all. Returns, in id order, each metric with its post-update total or value.
     * sort.Slice is not stable, so the order it leaves metrics with equal ids in is not
     * determined by the input: `sorted` is the copy as sort.Slice left it, any sorted
     * permutation of `metrics`.
     */
    method BatchUpdate(faults: TxFaults, metrics: seq<MetricModel>, sorted: seq<MetricModel>)
      returns (r: Result<seq<MetricModel>, Error>)
      requires MemStorage.AllHavePayload(metrics)
      requires SortedById(sorted) && multiset(sorted) == multiset(metrics)
      modifies this
      ensures MemStorage.AllHavePayload(sorted)
      ensures faults.begin.Some? ==> r == Failure(Wrapped("failed to begin transaction", faults.begin.value))
      ensures faults.begin.None? && faults.prepareGauge.Some? ==>
        r == Failure(Wrapped("failed to prepare gauge statement", faults.prepareGauge.value))
      ensures faults.begin.None? && faults.prepareGauge.None? && faults.prepareCounter.Some? ==>
        r == Failure(Wrapped("failed to prepare counter statement", faults.prepareCounter.value))
      ensures faults.begin.None? && faults.prepareGauge.None? && faults.prepareCounter.None? ==>
        var run := RunStatements(old(table), sorted, faults.exec);
        && (run.Failure? ==> r == Failure(run.error))
        && (run.Success? && faults.commit.Some? ==> r == Failure(Wrapped("failed to commit transaction", faults.commit.value)))
        && (run.Success? && faults.commit.None? ==> r == Success(run.value.out) && table == run.value.table)
      ensures r.Failure? ==> table == old(table)
    {
      PayloadPermutation(metrics, sorted);
      var metricsCopy := sorted;
      if faults.begin.Some? {
        return Failure(Wrapped("failed to begin transaction", faults.begin.value));
      }
      if faults.prepareGauge.Some? {
        return Failure(Wrapped("failed to prepare gauge statement", faults.prepareGauge.value));
      }
      if faults.prepareCounter.Some? {
        return Failure(Wrapped("failed to prepare counter statement", faults.prepareCounter.value));
      }
      var tx := TxState(table, []);
      var i := 0;
      while i < |metricsCopy|
        invariant 0 <= i <= |metricsCopy|
        invariant table == old(table)
        invariant RunStatements(table, metricsCopy[..i], faults.exec) == Success(tx)
      {
        var m := metricsCopy[i];
        var step := TxStep(tx, m, ExecFault(faults.exec, i));
        RunExtends(table, metricsCopy, faults.exec, i, tx);
        if step.Failure? {
          // the deferred Rollback discards the working table
          RunFailureExtends(table, metricsCopy, faults.exec, i + 1);
          return Failure(step.error);
        }
        tx := step.value;
        i := i + 1;
      }
      assert metricsCopy[..i] == metricsCopy;
      if faults.commit.Some? {
        return Failure(Wrapped("failed to commit transaction", faults.commit.value));
      }
      table := tx.table;
      return Success(tx.out);
    }
  }

  /** Every element of a permutation of metrics that all carry their payload carries its payload. */
  lemma PayloadPermutation(ms: seq<MetricModel>, ps: seq<MetricModel>)
    requires MemStorage.AllHavePayload(ms) && multiset(ps) == multiset(ms)
    ensures MemStorage.AllHavePayload(ps)
  {
    forall i | 0 <= i < |ps|
      ensures HasPayload(ps[i])
    {
      assert ps[i] in multiset(ps);
      var j :| 0 <= j < |ms| && ms[j] == ps[i];
    }
  }

  /** The records GetAll makes for one row: the counter's first, then the gauge's. */
  function RowRecords(id: string, row: Row): seq<MetricModel> {
    (if row.delta.Some? then [MemStorage.CounterRecord(id, row.delta.value)] else [])
    + (if row.value.Some? then [MemStorage.GaugeRecord(id, row.value.value)] else [])
  }

  /** The snapshot of the rows whose ids are in `keys`. */
  function SnapshotOf(t: Table, keys: set<string>): MemStorage.Snapshot {
    MemStorage.Snapshot(
      map k | k in keys && k in t && t[k].value.Some? :: t[k].value.value,
      map k | k in keys && k in t && t[k].delta.Some? :: t[k].delta.value)
  }

  /** The snapshot with one more row's non-NULL columns. */
  function AddRow(s: MemStorage.Snapshot, id: string, row: Row): MemStorage.Snapshot {
    MemStorage.Snapshot(
      if row.value.Some? then s.gauge[id := row.value.value] else s.gauge,
      if row.delta.Some? then s.counter[id := row.delta.value] else s.counter)
  }

  lemma SnapshotOfAdd(t: Table, keys: set<string>, id: string)
    requires id in t && id !in keys
    ensures id !in SnapshotOf(t, keys).gauge && id !in SnapshotOf(t, keys).counter
    ensures SnapshotOf(t, keys + {id}) == AddRow(SnapshotOf(t, keys), id, t[id])
  {
  }

  /** Scanning one more row adds its records: the listing grows to cover that row. */
  lemma ScanRow(metrics: seq<MetricModel>, s: MemStorage.Snapshot, id: string, row: Row)
    requires MemStorage.ListsSnapshot(metrics, s)
    requires id !in s.gauge && id !in s.counter
    ensures MemStorage.ListsSnapshot(metrics + RowRecords(id, row), AddRow(s, id, row))
  {
    ScanRowCovers(metrics, s, id, row);
    ScanRowOnlyRecords(metrics, s, id, row);
  }

  lemma ScanRowCovers(metrics: seq<MetricModel>, s: MemStorage.Snapshot, id: string, row: Row)
    requires MemStorage.ListsSnapshot(metrics, s)
    requires id !in s.gauge && id !in s.counter
    ensures var s1, ms := AddRow(s, id, row), metrics + RowRecords(id, row);
      && |ms| == |s1.gauge| + |s1.counter|
      && (forall k :: k in s1.gauge ==> MemStorage.GaugeRecord(k, s1.gauge[k]) in ms)
      && (forall k :: k in s1.counter ==> MemStorage.CounterRecord(k, s1.counter[k]) in ms)
  {
    var s1, ms := AddRow(s, id, row), metrics + RowRecords(id, row);
    forall k | k in s1.gauge ensures MemStorage.GaugeRecord(k, s1.gauge[k]) in ms {
      if k != id {
        assert MemStorage.GaugeRecord(k, s.gauge[k]) in metrics;
      }
    }
    forall k | k in s1.counter ensures MemStorage.CounterRecord(k, s1.counter[k]) in ms {
      if k != id {
        assert MemStorage.CounterRecord(k, s.counter[k]) in metrics;
      }
    }
  }

  lemma ScanRowOnlyRecords(metrics: seq<MetricModel>, s: MemStorage.Snapshot, id: string, row: Row)
    requires forall m :: m in metrics ==> MemStorage.IsRecordOf(m, s)
    requires id !in s.gauge && id !in s.counter
    ensures forall m :: m in metrics + RowRecords(id, row) ==> MemStorage.IsRecordOf(m, AddRow(s, id, row))
  {
    var s1 := AddRow(s, id, row);
    forall m | m in metrics + RowRecords(id, row) ensures MemStorage.IsRecordOf(m, s1) {
      if m in metrics {
        assert MemStorage.IsRecordOf(m, s);
      } else if row.delta.Some? && m == MemStorage.CounterRecord(id, row.delta.value) {
        assert id in s1.counter;
      } else {
        assert id in s1.gauge;
      }
    }
  }

  /** The records GetAll makes for the rows with the given ids, in that order. */
  function RecordsOf(t: Table, ids: seq<string>): seq<MetricModel>
    requires forall i :: 0 <= i < |ids| ==> ids[i] in t
    decreases |ids|
  {
    if ids == [] then []
    else RecordsOf(t, ids[..|ids| - 1]) + RowRecords(ids[|ids| - 1], t[ids[|ids| - 1]])
  }

  predicate Distinct(ids: seq<string>) {
    forall i, j :: 0 <= i < j < |ids| ==> ids[i] != ids[j]
  }

  /** Scanning distinct rows, in any order, lists exactly those rows. */
  lemma {:induction false} RecordsOfLists(t: Table, ids: seq<string>)
    requires forall i :: 0 <= i < |ids| ==> ids[i] in t
    requires Distinct(ids)
    ensures MemStorage.ListsSnapshot(RecordsOf(t, ids), SnapshotOf(t, set k | k in ids))
    decreases |ids|
  {
    if ids == [] {
      assert SnapshotOf(t, set k | k in ids) == MemStorage.Snapshot(map[], map[]);
    } else {
      var init, last := ids[..|ids| - 1], ids[|ids| - 1];
      var keys := set k | k in init;
      SplitLast(t, ids);
      RecordsOfLists(t, init);
      SnapshotOfAdd(t, keys, last);
      ScanRow(RecordsOf(t, init), SnapshotOf(t, keys), last, t[last]);
    }
  }

  /** The last id of a distinct sequence is new, and its row's records come last. */
  lemma SplitLast(t: Table, ids: seq<string>)
    requires forall i :: 0 <= i < |ids| ==> ids[i] in t
    requires Distinct(ids) && ids != []
    ensures var init, last := ids[..|ids| - 1], ids[|ids| - 1];
      && (forall i :: 0 <= i < |init| ==> init[i] in t) && Distinct(init)
      && last !in (set k | k in init) && (set k | k in ids) == (set k | k in init) + {last}
      && RecordsOf(t, ids) == RecordsOf(t, init) + RowRecords(last, t[last])
  {
    var init, last := ids[..|ids| - 1], ids[|ids| - 1];
    assert ids == init + [last];
  }

  /** GetAll's rows.Next loop: every row of the table gives its records. */
  method ScanRows(t: Table) returns (metrics: seq<MetricModel>)
    ensures MemStorage.ListsSnapshot(metrics, TableSnapshot(t))
  {
    metrics := [];
    var todo := t.Keys;
    ghost var order: seq<string> := [];
    while todo != {}
      invariant todo <= t.Keys && (forall i :: 0 <= i < |order| ==> order[i] in t && order[i] !in todo)
      invariant Distinct(order) && todo + (set k | k in order) == t.Keys
      invariant metrics == RecordsOf(t, order)
      decreases todo
    {
      var id :| id in todo;
      // a counter record for a non-NULL delta, then a gauge record for a non-NULL value
      metrics := metrics + RowRecords(id, t[id]);
      assert (order + [id])[..|order|] == order;
      order := order + [id];
      todo := todo - {id};
    }
    RecordsOfLists(t, order);
    SnapshotOfAll(t, set k | k in order);
  }

  lemma SnapshotOfAll(t: Table, keys: set<string>)
    requires t.Keys <= keys
    ensures SnapshotOf(t, keys) == TableSnapshot(t)
  {
  }

  /** A run whose prefix fails fails too, with the same error. */
  lemma {:induction false} RunFailureExtends(t: Table, ms: seq<MetricModel>, exec: seq<Option<Error>>, j: nat)
    requires MemStorage.AllHavePayload(ms)
    requires j <= |ms| && RunStatements(t, ms[..j], exec).Failure?
    ensures RunStatements(t, ms, exec) == RunStatements(t, ms[..j], exec)
    decreases |ms|
  {
    if j < |ms| {
      var init := ms[..|ms| - 1];
      assert init[..j] == ms[..j];
      RunFailureExtends(t, init, exec, j);
    } else {
      assert ms[..j] == ms;
    }
  }
}
