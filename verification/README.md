# go-metrics in Dafny

A model of the core of go-metrics, a metrics collection service written in Go. An
agent samples runtime and host gauges and a poll counter, and reports them in batches
to a server over HTTP (JSON, optionally gzipped, HMAC-signed and hybrid-encrypted) or
gRPC. The server keeps gauges (overwritten) and counters (accumulated) in memory, with
a JSON dump file, or in PostgreSQL. Requests pass through a chain of middlewares:
trusted subnet, decryption, HMAC verification, gzip and logging.

The model has one Dafny module per source file of the core. The code's own form is
kept:

- Objects whose methods update fields are classes. Examples: the in-memory stores, the
  agent's Stats, the collectors, the buffered and logging response writers, the HTTP
  metric client, the reporter and the rate-limited client.
- Methods on those classes have `modifies` clauses. Their loops carry invariants against
  specification functions.
- Validators, converters and guard chains are functions over datatypes.

Shared modules:

| module | models |
|---|---|
| `Wrappers` | Option and Result |
| `Errors` | Go error values, with wrapping, `errors.Is`/`errors.As` and gRPC status codes |
| `Numbers` | `int64` wrap-around, and `strconv` decimal formatting and parsing |
| `Sorting` | `sort.Slice` by id |
| `HttpWire` | what a `net/http` ResponseWriter sends: headers, a status committed once, and the body |
| `IpNet` | `net.IPNet.Contains` |

What the model takes as parameters:

- Every collaborator the code calls but does not define. This covers HMAC-SHA256,
  RSA-OAEP, AES-GCM, gzip, `mime.ParseMediaType`, `strconv.ParseFloat`, JSON encoding, the
  database driver, the transport and the clock.
- Channels and goroutine fan-out, which become input sequences.

Gauge values (`float64`) are opaque, because the code only stores and echoes them.
Counters are `int64` and wrap.

Two behaviours of the code that a reader might not expect, which the model keeps:

- The in-memory store's `BatchUpdate` applies metrics in input order, and its result
  echoes each request: a counter carries the request's delta
  (`internal/server/memstorage.go:362`), not its new total. The PostgreSQL backend
  instead sorts the batch by id and returns each counter's post-update total
  (`internal/server/dbstorage.go:286`).
- A failed `Stats.collect` sets the published snapshot to nil
  (`internal/agent/stats.go:76`) rather than keeping the previous one.

## Model

| member | source | states |
|---|---|---|
| Common.TrimRightChar | internal/common/utils.go:22-23 | strings.TrimRight with a one-character cutset: the result is a prefix of s. Everything removed is that character, and the result does not end in it. |
| Common.RemoveTrailingZerosNoDot | internal/common/utils.go:20-26 | A string without '.' comes back unchanged. |
| Common.RemoveTrailingZerosShape | internal/common/utils.go:21-24 | With a '.', the trailing '0's are stripped first, then the trailing '.'s of what is left. |
| Common.RemoveTrailingZerosIdempotent | internal/common/utils.go:20-26 | On strings with at most one '.', applying removeTrailingZeros twice is the same as once. |
| Common.RemoveTrailingZerosTwoDots | internal/common/utils.go:20-26 | Without the one-'.' premise idempotence fails: "1.0.0" gives "1.0", which gives "1". |
| Common.HexEncode | internal/common/utils.go:82 | hex.EncodeToString writes two digits per byte. |
| Common.HexDecode | internal/common/utils.go:86-87 | hex.DecodeString gives half as many bytes as digits, or fails. |
| Common.HexRoundTrip | internal/common/utils.go:82-87 | Decoding the hex encoding of any bytes gives those bytes back. |
| Common.HexEncodeIsHex | internal/common/utils.go:82 | Every character of an encoding is a valid hex digit. |
| Common.ComputeHashShape | internal/common/utils.go:79-83 | With a 32-byte HMAC digest, ComputeHash is 64 hex characters that decode to the digest. |
| Common.CompareHashes | internal/common/utils.go:85-93 | It is true only when both arguments are valid hex and the decoded bytes are equal. It is false when either fails to decode. |
| Common.CompareComputedHashes | internal/common/utils.go:85-93 | Two encoded digests compare equal exactly when the digests are equal. |
| Common.CompareHashesIgnoresCase | internal/common/utils.go:85-93 | Upper- and lower-case digits compare equal. An odd length or a non-hex character compares unequal, even to itself. |
| Common.BackoffTicks | internal/common/utils.go:48-77 | The ticker yields at most len(schedule)+1 ticks, exactly that many without cancellation, and no more than the ticks delivered before cancellation. |
| Common.BackoffTicksElapsed | internal/common/utils.go:54-72 | The first tick is immediate. Tick k+1 comes after the first k scheduled waits. |
| Numbers.Wrap | internal/server/storage.go:68 | Truncating to int64 keeps the value modulo 2^64, and is the identity within range. |
| Numbers.AddWrapRunning | internal/server/memstorage.go:137-140 | Adding to a wrapped running total is wrapping the exact running total. |
| Numbers.ParseInt64 | internal/server/storage_helper.go:33 | strconv.ParseInt(s, 10, 64): every accepted string is an optional '+' or '-' followed by at least one decimal digit. |
| Numbers.ParseInt64Accepts | internal/server/storage_helper.go:33 | Every such string is accepted exactly when its signed value lies in the int64 range, and that value is the result. Leading zeros are allowed. |
| Numbers.ParseInt64Edges | internal/server/storage_helper.go:33 | "+007" parses to 7 and "-10" to -10. A bare sign, the empty string and "1.5" are rejected. |
| Numbers.NatToDecimal | internal/agent/utils.go:9-16 | strconv.FormatUint renders a non-empty string of digits without leading zeros. |
| Numbers.DecimalValueOfFormat | internal/agent/utils.go:9-16 | The digits FormatUint renders denote the number. |
| Numbers.ParseFormatRoundTrip | internal/server/storage_helper.go:33 | Rendering an int64 in decimal and parsing it back gives the same value. |
| Numbers.IntToDecimalInjective | internal/agent/utils.go:9-16 | Distinct integers render differently. |
| Errors.WrapAllKeepsIs | internal/server/memstorage.go:80 | Wrapping with %w never hides a sentinel from errors.Is. |
| Sorting.SortById | internal/server/memstorage.go:176-178 | sort.Slice by ID gives a sorted permutation of its input. |
| Sorting.SortByIdSameElements | internal/server/memstorage.go:176-178 | The sorted slice has the same length and the same elements. |
| Sorting.StrLessTotal | internal/server/memstorage.go:177 | Go's string < orders any two different ids one way or the other. |
| Sorting.StrLeqTransitive | internal/server/memstorage.go:177 | The order on ids is transitive, which sortedness relies on. |
| Models.Marshal | internal/models/models.go:30-42 | MarshalJSON keeps id and type. A counter drops its value and a gauge drops its delta. Any other type keeps both fields, since the switch has no default. |
| Models.UnmarshalValidates | internal/models/models.go:44-71 | UnmarshalJSON succeeds exactly for a counter with a delta or a gauge with a value. It then leaves only that payload, with id and type as decoded. |
| Models.MarshalUnmarshalRoundTrip | internal/models/models.go:30-71 | Marshal then Unmarshal of a known-type record with its payload keeps id, type and that payload. |
| Models.UnmarshalledIsWireForm | internal/models/models.go:30-71 | A decoded record is already in wire form. Marshalling it, or decoding it again, changes nothing. |
| Models.UnknownTypeKeepsBoth | internal/models/models.go:33-67 | An unknown type marshals with both fields but never decodes. |
| GrpcConverters.MetricModelToGRPC | internal/models/grpc_converters.go:40-64 | It fails exactly on a nil payload of the kind or an unknown type. Otherwise it copies id, type and only that kind's payload. |
| GrpcConverters.MetricModelFromGRPC | internal/models/grpc_converters.go:66-90 | The same three cases fail with codes.InvalidArgument. Otherwise the result is NewMetricModel, with the other payload zero. |
| GrpcConverters.ToFromRoundTrip | internal/models/grpc_converters.go:40-90 | For a valid record, FromGRPC(ToGRPC(m)) keeps id, type and the kind's payload. |
| GrpcConverters.FromToRoundTrip | internal/models/grpc_converters.go:40-90 | A message carrying exactly its kind's payload survives FromGRPC then ToGRPC unchanged. |
| GrpcConverters.ConvertAll | internal/models/grpc_converters.go:12-38 | The slice conversion succeeds iff every element converts. The output then has the same length and order. Otherwise the error is that of an element that fails. |
| GrpcConverters.ConvertAllFailureExtends | internal/models/grpc_converters.go:15-19 | The first failing element decides the error, whatever follows it. |
| GrpcConverters.MetricModelsToGRPC | internal/models/grpc_converters.go:12-24 | The loop with early return computes ConvertAll with MetricModelToGRPC. |
| GrpcConverters.MetricModelsFromGRPC | internal/models/grpc_converters.go:26-38 | The loop computes ConvertAll with MetricModelFromGRPC. |
| LegacyStorage.MemStorage.constructor | internal/server/storage.go:13-18 | A new store has both maps empty. |
| LegacyStorage.MemStorage.GetGauge | internal/server/storage.go:20-25 | It returns (value, true) for a present key and (0, false) otherwise. |
| LegacyStorage.MemStorage.GetCounter | internal/server/storage.go:44-49 | It returns (value, true) for a present key and (0, false) otherwise. |
| LegacyStorage.MemStorage.ListGauges | internal/server/storage.go:27-35 | The map filled by the loop equals the gauges. |
| LegacyStorage.MemStorage.ListCounters | internal/server/storage.go:51-59 | The map filled by the loop equals the counters. |
| LegacyStorage.MemStorage.SetGauge | internal/server/storage.go:37-42 | It overwrites the key and returns the value. Counters are untouched. |
| LegacyStorage.MemStorage.IncrementCounter | internal/server/storage.go:61-72 | It stores and returns old+delta (wrapped) for a present key and delta for a new one. Gauges are untouched. |
| LegacyStorage.BothKindsUnderOneName | internal/server/storage.go:5-11 | One name holds a gauge and a counter at once, because the maps are independent. |
| MemStorage.MemStorage.constructor | internal/server/memstorage.go:50-68 | A new store has empty maps. It flushes synchronously exactly when StoreInterval is 0, and no dump is in progress. |
| MemStorage.MemStorage.GetGauge | internal/server/memstorage.go:70-83 | A cancelled context returns its error. Otherwise it returns the stored value, or an error wrapping ErrNotFound for an absent key. |
| MemStorage.MemStorage.GetCounter | internal/server/memstorage.go:112-125 | A cancelled context returns its error. Otherwise it returns the stored value, or an error wrapping ErrNotFound for an absent key. |
| MemStorage.MemStorage.SetGauge | internal/server/memstorage.go:85-110 | A cancelled context changes nothing. Otherwise the gauge is overwritten and the value returned. A failed synchronous dump restores the previous value, or removes the new key, and returns dump's own error: "dump already in progress" or the flush error. After a successful dump the file holds the new maps. Counters never change. |
| MemStorage.MemStorage.IncrementCounter | internal/server/memstorage.go:127-155 | A cancelled context changes nothing. Otherwise it stores and returns old+delta (int64 wrap-around), or the delta for a new key. A failed synchronous dump restores the previous state and returns dump's own error: "dump already in progress" or the flush error. Gauges never change. |
| MemStorage.MemStorage.GaugeRecords | internal/server/memstorage.go:170-172 | The first getAll loop gives exactly one gauge record per gauge key. |
| MemStorage.MemStorage.CounterRecords | internal/server/memstorage.go:173-175 | The second loop gives exactly one counter record per counter key. |
| MemStorage.MemStorage.SortedRecords | internal/server/memstorage.go:168-181 | getAll lists exactly one record per gauge and per counter, sorted by id. |
| MemStorage.MemStorage.GetAll | internal/server/memstorage.go:157-166 | A cancelled context gives its error. Otherwise the result is the sorted listing. |
| MemStorage.MemStorage.Dump | internal/server/memstorage.go:183-241 | While a dump is in progress, another one fails with "dump already in progress" and the file is unchanged. Otherwise the flush's outcome is returned, and on success the file holds the sorted listing, marshalled. |
| MemStorage.MemStorage.Ping | internal/server/memstorage.go:328-333 | Ping fails exactly when the context is done. |
| MemStorage.MemStorage.LoadEntries | internal/server/memstorage.go:267-276 | Gauge and counter entries overwrite their keys in order. The first entry of any other type stops the load with "unknown metric type", and the entries before it stay applied. |
| MemStorage.MemStorage.Load | internal/server/memstorage.go:243-281 | A missing or undecodable file, or an entry that fails UnmarshalJSON, changes nothing and returns an error. Otherwise the decoded entries are applied. |
| MemStorage.MemStorage.ApplyBatch | internal/server/memstorage.go:352-376 | The loop reports "bad metric type <type>" exactly when some metric has an unknown type, naming the first one. Otherwise the maps end as the in-order fold of the batch, and the results are the echoes of the inputs. |
| MemStorage.MemStorage.BatchUpdate | internal/server/memstorage.go:335-397 | A cancelled context or an unknown type (error "bad metric type") changes nothing, and neither does a failed synchronous dump: both maps are restored from the backup, and dump's own error ("dump already in progress" or the flush error) is returned. On success the metrics are applied in input order, and the result echoes each input with its request payload. |
| MemStorage.MarshalRecords | internal/server/memstorage.go:171-174 | A listed gauge or counter record marshals to its wire form, which decodes to itself. |
| MemStorage.MarshalAll | internal/server/memstorage.go:220-223 | Encoding a slice marshals each element in order. |
| MemStorage.MarshalListingIsDump | internal/server/memstorage.go:199-223 | Marshalling the sorted listing of the maps gives a dump of them. |
| MemStorage.ListingPermutation | internal/server/memstorage.go:176-178 | Sorting a listing keeps it a listing of the same maps. |
| MemStorage.DecodeAll | internal/server/memstorage.go:257-263 | Decoding the file succeeds iff every element passes UnmarshalJSON, and then yields the decoded elements in order. |
| MemStorage.KnownPrefix | internal/server/memstorage.go:267-275 | It is the index of the first entry whose type is neither gauge nor counter. |
| MemStorage.LoadFoldWithin | internal/server/memstorage.go:267-276 | Loading entries that agree with a snapshot stays inside it, and loads every key the entries name. |
| MemStorage.DecodeDump | internal/server/memstorage.go:257-263 | What a dump writes decodes to itself. |
| MemStorage.LoadDumpRoundTrip | internal/server/memstorage.go:190-281 | Restoring a dump into a fresh store reproduces exactly the dumped maps. |
| MemStorage.BatchCounterPresence | internal/server/memstorage.go:354-361 | After a batch, a counter exists iff it existed before or the batch sent it a delta. |
| MemStorage.BatchCounterTotal | internal/server/memstorage.go:354-361 | After a batch, a counter holds its old value (0 if absent) plus every delta sent to it, wrapped to int64. A counter still absent after the batch was absent before and received no delta. |
| MemStorage.BatchGaugeLastWins | internal/server/memstorage.go:364-366 | After a batch, a gauge holds the batch's last value for it, or its old value when the batch sent none. |
| MemStorage.BatchFoldFrame | internal/server/memstorage.go:352-376 | A batch changes no key it does not name. |
| MemStorage.EchoAll | internal/server/memstorage.go:362-396 | There is one result per input, in input order. A counter's result carries the request delta, not the new total, and a gauge's the request value. |
| StorageHelper.AddMetric | internal/server/storage_helper.go:14-44 | An empty name, an unparsable gauge float or counter integer, or an unknown type gives a validationError and no store call. Otherwise the kind's write is made with the parsed value, and the store's error is returned unchanged. |
| StorageHelper.AddMetricRejectsIffNoCall | internal/server/storage_helper.go:14-44 | The store is left alone exactly when the request is rejected as invalid. |
| StorageHelper.AddCounterDecimal | internal/server/storage_helper.go:32-41 | A counter value that is an int64 in decimal increments by exactly that int64. |
| StorageHelper.AddCounterRejectsFraction | internal/server/storage_helper.go:33-36 | A counter value "1.5" is a validationError. |
| StorageHelper.GetMetric | internal/server/storage_helper.go:46-71 | The store's error comes first, then notFoundError when the key is absent, else the value. An unknown type is a validationError and the store is not read. |
| StorageHelper.GetMetricFromMaps | internal/server/storage_helper.go:46-71 | Against a two-map store, getMetric finds the stored value. It reports notFoundError exactly when the key is absent from that kind's map. |
| StorageHelper.ListMetrics | internal/server/storage_helper.go:73-92 | A failing listing is returned. Otherwise the result maps each name of either kind, and a counter wins a name held by both kinds. |
| DBStorage.IsDBRetryableErrorCases | internal/server/dbstorage.go:57-68 | nil and plain errors are not retryable. net.Error and PgError are, wrapped, joined or bare. |
| DBStorage.UpsertGauge | internal/server/dbstorage.go:26-33 | The gauge upsert sets the row's value and leaves its delta and every other row as they were. |
| DBStorage.UpsertCounter | internal/server/dbstorage.go:34-41 | The counter upsert sets delta to coalesce(delta, 0)+d and returns it, leaving the value and other rows alone. A bigint overflow is an error. |
| DBStorage.DBStorage.GetGauge | internal/server/dbstorage.go:141-156 | No row, or a NULL value, gives an error wrapping ErrNotFound. Other query errors pass through. Otherwise the result is the stored value. |
| DBStorage.DBStorage.GetCounter | internal/server/dbstorage.go:169-184 | The same as GetGauge, on the delta column. |
| DBStorage.DBStorage.SetGauge | internal/server/dbstorage.go:158-167 | It applies the gauge upsert and returns the value written. A failed query changes nothing. |
| DBStorage.DBStorage.IncrementCounter | internal/server/dbstorage.go:186-195 | It applies the counter upsert and returns the new total. A failed query or an overflow changes nothing. |
| DBStorage.DBStorage.GetAll | internal/server/dbstorage.go:197-238 | A Query, Scan or rows.Err error is returned as is. Otherwise there is one counter record per non-NULL delta and one gauge record per non-NULL value, so a row holding both gives two, and the records are sorted by id. |
| DBStorage.RunStatements | internal/server/dbstorage.go:276-299 | The statements run in order and the first failure ends the run. On success there is one record per metric, and a gauge's record carries the value written. |
| DBStorage.RunPrefix | internal/server/dbstorage.go:276-299 | A successful run's prefixes also succeed, and return a prefix of its records. |
| DBStorage.RunFailureExtends | internal/server/dbstorage.go:283-297 | Once a statement fails, the whole run fails with that error. |
| DBStorage.RunCounterColumn | internal/server/dbstorage.go:278-286 | After a successful run, each delta column is its old coalesced value plus every delta the batch sent to it. |
| DBStorage.RunReturnsTotals | internal/server/dbstorage.go:278-286 | A counter statement's record carries the post-update total, not the request delta. |
| DBStorage.RunKeepsOrder | internal/server/dbstorage.go:253-276 | Records come out in statement order, so the id-sorted copy gives id-sorted results. |
| DBStorage.UnknownTypeFailsRun | internal/server/dbstorage.go:296-297 | A metric of unknown type fails the whole run. |
| DBStorage.ScanRows | internal/server/dbstorage.go:210-225 | Scanning every row, in whatever order the rows come, lists exactly the table's non-NULL columns as records. |
| DBStorage.RecordsOfLists | internal/server/dbstorage.go:210-225 | The records of any sequence of distinct rows list exactly those rows' non-NULL columns. |
| DBStorage.ScanRow | internal/server/dbstorage.go:217-223 | One more row adds a counter record for its delta and a gauge record for its value, and keeps the listing exact. |
| DBStorage.DBStorage.BatchUpdate | internal/server/dbstorage.go:250-306 | It reports begin and prepare failures with their prefixes. Otherwise a sorted copy is written in one transaction, which commits only if every step succeeded: any failure leaves the table unchanged. The result is, in id order, each metric with its post-update total or value. sort.Slice is not stable, so the copy is taken as an input: any permutation of the batch sorted by id, in whatever order it leaves equal ids. |
| Handlers.MetricUpdate | internal/server/handlers.go:24-69 | An empty name, an unparsable gauge or counter value, or an unknown type is 400 and the store is not called. Otherwise the parsed write is made. A store failure is 500, and success is 200 with text/plain. |
| Handlers.MetricUpdateAgreesWithAddMetric | internal/server/handlers.go:31-62 | The path handler and the storage helper's addMetric make the same store write. The handler answers 400 exactly where addMetric reports a validationError. |
| Handlers.MetricGet | internal/server/handlers.go:71-101 | An unknown type is 400 with no store call. A lookup that reports the key absent is 404, and this is checked before the store's error (500). Otherwise the answer is 200 with the value's %v rendering. |
| Handlers.GetHandlersCheckInOppositeOrder | internal/server/handlers.go:90-222 | For a lookup that reports both absence and an error, the path handler answers 404 and the JSON handler 500. |
| Handlers.MetricList | internal/server/handlers.go:103-130 | A GetAll failure is 500. Otherwise the answer is 200 text/html with the header line, one "id[type]=value" line per record in GetAll's order, and the footer. |
| Handlers.CounterLineReadsBack | internal/server/handlers.go:119-124 | A counter's line shows its delta in decimal, and that reads back as the same int64. |
| Handlers.MetricUpdateJSON | internal/server/handlers.go:132-193 | A decode failure, an empty id, a missing payload or an unknown type is 400 with no write. Otherwise the write carries the request's id and payload, and a store failure is 500. |
| Handlers.UpdateJSONBadRequest | internal/server/handlers.go:138-178 | The request is refused with 400 exactly when it does not decode, fails UnmarshalJSON or has an empty id. UnmarshalJSON already demands the payload and a known type, so the handler's own "missing value", "missing delta" and "bad metric type" answers are never reached. |
| Handlers.UpdateJSONEchoesStore | internal/server/handlers.go:154-189 | A successful JSON update answers 200 with the store's returned value, in the requested kind's field only. |
| Handlers.MetricGetJSON | internal/server/handlers.go:195-255 | A read or decode failure is 400. The store's error (500) is checked before the key's absence (404). An unknown type is 400 with no store call. Otherwise the answer is the record of the requested kind. |
| Handlers.PingReply | internal/server/handlers.go:257-273 | The answer is 200 iff the store's ping succeeds. Otherwise it is 500 with the store's error. |
| Handlers.MetricBatchUpdateJSON | internal/server/handlers.go:275-303 | A decode failure and a store failure are both 400. An unencodable result is 500. Otherwise the answer is 200 with the store's records as MarshalJSON writes them. |
| GrpcHandlers.Ping | internal/server/grpc_handlers.go:26-34 | Success is true iff the store ping succeeds, and the ping's error is returned beside it. |
| GrpcHandlers.BatchUpdate | internal/server/grpc_handlers.go:36-57 | A request that does not convert returns the converter's InvalidArgument error and the store is not called. A store failure, or a response that does not convert, is Internal. On success the response is the store's records converted in order. |
| GrpcHandlers.BatchUpdateEchoRoundTrip | internal/server/grpc_handlers.go:36-57 | Through a store that echoes its input, well-formed messages come back unchanged. |
| GrpcHandlers.ListMetrics | internal/server/grpc_handlers.go:59-75 | A store failure or an unconvertible record is Internal. Otherwise every listed record is converted, in order. |
| GrpcHandlers.ListMetricsEmpty | internal/server/grpc_handlers.go:59-75 | An empty store lists no metrics and no error. |
| GrpcHandlers.ListMetricsOfStoreRecords | internal/server/grpc_handlers.go:66-70 | Records the stores produce always convert, so a listing fails only when the store fails. |
| HttpWire.HttpErrorW | internal/server/handlers.go:32 | http.Error on an uncommitted response sends the code with a plain-text Content-Type, then the text and a newline. On a committed response only the text is appended. |
| HttpWire.RunAfterCommit | cmd/server/handlers.go:23-26 | Once a response is committed, later WriteHeader calls change neither the status nor the headers sent. The body grows by exactly what is written. |
| HttpWire.RunWriteCommits | internal/server/gzip_middleware.go:19-24 | Writing any byte commits the response. |
| HttpWire.RunUntouched | internal/server/hash_middleware.go:60-64 | A header the handler never touches keeps its value or its absence. |
| HttpWire.WriteHeaderW | internal/server/gzip_middleware.go:44 | The first WriteHeader commits the response with that code and the current headers. Later calls change nothing. |
| HttpWire.WriteW | internal/server/gzip_middleware.go:50 | A Write on an uncommitted response first commits it with 200 and the current headers. The bytes are appended to the body. |
| HttpWire.HttpErrorOnFresh | cmd/server/handlers.go:19 | On a fresh writer, the client sees the code, a plain-text Content-Type and the text followed by a newline. |
| HttpWire.ResponseWriter.SetHeader | internal/server/gzip_middleware.go:97 | w.Header().Set changes only the header map. |
| HttpWire.ResponseWriter.DelHeader | internal/server/gzip_middleware.go:98 | w.Header().Del changes only the header map. |
| HttpWire.ResponseWriter.WriteHeader | internal/server/gzip_middleware.go:44 | The writer moves to WriteHeaderW of its old state. |
| HttpWire.ResponseWriter.Write | internal/server/gzip_middleware.go:50 | The writer moves to WriteW of its old state. |
| HttpWire.ResponseWriter.Serve | internal/server/hash_middleware.go:27 | A handler's ServeHTTP runs its operations on the writer in order. |
| HttpWire.HttpError | cmd/server/handlers.go:19 | http.Error moves the writer to HttpErrorW of its old state. |
| GzipMiddleware.BufferedResponseWriter.constructor | internal/server/gzip_middleware.go:77-80 | The writer wraps the real one with an empty buffer and no status chosen. |
| GzipMiddleware.BufferedResponseWriter.WriteHeader | internal/server/gzip_middleware.go:26-31 | Only the first status is kept, and nothing reaches the real writer. The same code is repeated at internal/server/middlewares.go:68-73. |
| GzipMiddleware.BufferedResponseWriter.Write | internal/server/gzip_middleware.go:19-24 | A Write before any WriteHeader fixes the status at 200. The bytes are only appended to the buffer. The same code is repeated at internal/server/middlewares.go:61-66. |
| GzipMiddleware.BufferedResponseWriter.Serve | internal/server/gzip_middleware.go:84 | While buffering, only the handler's header operations reach the real writer. The buffer receives every byte written, and the status is the first code the handler chose, else 200 once it wrote. |
| GzipMiddleware.BufferedResponseWriter.WriteHeaders | internal/server/gzip_middleware.go:33-45 | The chosen status goes out (200 when none was chosen) together with the headers. The buffer and the chosen code are unchanged. The same code is repeated at internal/server/middlewares.go:75-87. |
| GzipMiddleware.BufferedResponseWriter.Flush | internal/server/gzip_middleware.go:47-52 | It sends the status, then the buffer only when it is non-empty. The same code is repeated at internal/server/middlewares.go:89-94. |
| GzipMiddleware.IsCompressibleContentType | internal/server/logging_middleware.go:32-47 | It is true exactly when the media type parses and is application/json or text/html. A parse error gives false. The same code is repeated at internal/server/middlewares.go:36-51. |
| GzipMiddleware.Gzip | internal/server/gzip_middleware.go:54-117 | The writer ends in the state the middleware's decision chain prescribes: request decompression, pass-through, and buffered compression or flush. |
| GzipMiddleware.Buffered | internal/server/gzip_middleware.go:76-116 | In the buffered path, a compressible type gets Content-Encoding gzip, no Content-Length and the compressed buffer. Otherwise the buffer is flushed. A compression write error appends "Compression failed". |
| GzipMiddleware.CompressedResponse | internal/server/gzip_middleware.go:76-116 | A compressible response to a gzip client carries the handler's status, Content-Encoding gzip and no Content-Length. When gunzip inverts compress, the client recovers the handler's bytes exactly. |
| GzipMiddleware.UncompressedResponse | internal/server/gzip_middleware.go:86-90 | A non-compressible response reaches the client with the handler's status and bytes. |
| GzipMiddleware.RequestDecompression | internal/server/gzip_middleware.go:56-64 | A gzip request body reaches the handler decompressed. A body whose gzip header is invalid gets 400 "Invalid gzip body", and the handler is not called. The same code is repeated at internal/server/middlewares.go:129-137. |
| GzipMiddleware.NoAcceptPassesThrough | internal/server/gzip_middleware.go:66-69 | A client that does not accept gzip gets exactly what the handler writes. The same code is repeated at internal/server/middlewares.go:139-142. |
| LoggingMiddleware.LoggingResponseWriter.constructor | internal/server/logging_middleware.go:54-62 | The writer starts with status 0 and size 0. |
| LoggingMiddleware.LoggingResponseWriter.Write | internal/server/logging_middleware.go:21-25 | It forwards the bytes, adds their count to size and returns it. The same code is repeated at internal/server/middlewares.go:25-29. |
| LoggingMiddleware.LoggingResponseWriter.WriteHeader | internal/server/logging_middleware.go:27-30 | It forwards the code and records it as the status. The same code is repeated at internal/server/middlewares.go:31-34. |
| LoggingMiddleware.LoggingResponseWriter.Serve | internal/server/logging_middleware.go:64 | Everything the handler does reaches the inner writer. Size grows by the bytes written, and status is the last WriteHeader code. |
| LoggingMiddleware.Logger | internal/server/logging_middleware.go:49-78 | The client gets exactly what the handler produced. The log line reports the last WriteHeader code (0 if none) and the number of bytes written. The same code is repeated at internal/server/middlewares.go:96-125. |
| LoggingMiddleware.LoggedSizeIsBodyLength | internal/server/logging_middleware.go:21-70 | The logged size is the length of the body the client received. |
| LoggingMiddleware.LoggedStatusZero | internal/server/logging_middleware.go:27-71 | The logged status is 0 exactly when the handler never called WriteHeader, and a valid code otherwise. |
| LoggingMiddleware.RunImplicitStatus | internal/server/logging_middleware.go:21-25 | Without WriteHeader, the response status is 200 once the handler wrote anything, and 0 (nothing sent) otherwise. |
| LoggingMiddleware.ImplicitOkLoggedAsZero | internal/server/logging_middleware.go:54-72 | A handler that writes without calling WriteHeader is answered 200, but logged with status 0. |
| HashMiddleware.Verdict | internal/server/hash_middleware.go:26-53 | A request is answered by the middleware itself only when it has a body, a key and a hash to check. A read failure gives 500 and a mismatched hash gives 400. |
| HashMiddleware.ResponseRecorder.constructor | internal/server/hash_middleware.go:55-58 | The recorder wraps the real writer with an empty copy of the body. |
| HashMiddleware.ResponseRecorder.Serve | internal/server/hash_middleware.go:17-60 | Everything the handler does reaches the real writer, and the recorder keeps a copy of every byte written. |
| HashMiddleware.Hash | internal/server/hash_middleware.go:22-70 | The writer ends in the state the middleware's chain prescribes: pass-through, refusal, or the handler's response followed by setting the hash header. |
| HashMiddleware.Sign | internal/server/hash_middleware.go:55-65 | The handler runs on the recorder, then the hash of the recorded bytes is set, but only when there are any. |
| HashMiddleware.UncheckedPassesThrough | internal/server/hash_middleware.go:26-36 | Without a body, a key or a request hash, the response is exactly the handler's. |
| HashMiddleware.CheckedRequest | internal/server/hash_middleware.go:47-53 | A mismatched hash is answered 400 "Invalid request hash" and the handler is not run. A matching hash runs the handler on the same request, and the client gets its bytes. |
| HashMiddleware.HashHeaderNeverSent | internal/server/hash_middleware.go:60-64 | As written, a response with a non-empty body never carries the hash header on the wire: it is set after the headers were sent. |
| HashMiddleware.HashBuffered | internal/server/hash_middleware.go:22-70 | In the corrected middleware, the handler's response is buffered, then signed, then flushed. |
| HashMiddleware.SignBuffered | internal/server/hash_middleware.go:55-65 | In the corrected tail, the hash is set before the status and body are sent. |
| HashMiddleware.BufferedResponseIsSigned | internal/server/hash_middleware.go:62-64 | With buffering, the client receives the handler's status and bytes. The hash header it receives is the HMAC of exactly those bytes. |
| DecryptMiddleware.Decrypt | internal/server/decrypt_middleware.go:18-81 | Without a key or the X-Encrypted: true header, the request passes unchanged. A refused request came with both. A short body is "Invalid encrypted data". A passed encrypted non-empty body was at least 256 bytes long and is replaced by its decryption, with ContentLength set to the decrypted length. |
| DecryptMiddleware.DecryptHandler | internal/server/decrypt_middleware.go:15-84 | The handler runs on the decided request, or the refusal is sent with http.Error 400. |
| DecryptMiddleware.RejectionIgnoresHandler | internal/server/decrypt_middleware.go:31-70 | Every refusal is a 400 that does not depend on the handler. |
| DecryptMiddleware.DecryptRoundTrip | internal/server/decrypt_middleware.go:44-74 | A 256-byte RSA block followed by an AES payload that decrypt to a key and a plaintext reaches the handler as the plaintext, with its length as ContentLength. |
| DecryptMiddleware.FailureMessages | internal/server/decrypt_middleware.go:54-72 | An RSA failure gives "Failed to decrypt AES key". An AES failure gives "Failed to decrypt data". |
| DecryptMiddleware.EmptyOrUnreadableBody | internal/server/decrypt_middleware.go:28-43 | An empty encrypted body passes unchanged. An unreadable one is refused with "Failed to read request body". |
| IpNet.To4 | internal/server/trusted_middleware.go:41 | The four-byte form exists only for IPv4 and IPv4-mapped addresses, and a four-byte address is its own form. |
| IpNet.NetworkNumberAndMask | internal/server/trusted_middleware.go:41 | The network number and the mask have the same length, 4 or 16. |
| IpNet.Contains | internal/server/trusted_middleware.go:41 | Membership requires a well-formed network. |
| IpNet.ContainsMappedForm | internal/server/trusted_middleware.go:25-41 | An IPv4 address and its IPv4-mapped IPv6 form (the form net.ParseIP returns) are in the same networks. |
| IpNet.HostNetwork | internal/server/trusted_middleware.go:41 | A /32 network holds exactly its own address. |
| IpNet.AnyNetwork | internal/server/trusted_middleware.go:41 | 0.0.0.0/0 holds every IPv4 address. |
| IpNet.FamiliesDoNotMix | internal/server/trusted_middleware.go:41 | An IPv6 address that is not IPv4-mapped is never in an IPv4 network. |
| TrustedMiddleware.CheckAddress | internal/server/trusted_middleware.go:25-47 | The address is admitted exactly when it parses, the subnet parses and the subnet contains it. A subnet that does not parse is a misconfiguration only when the address parsed. |
| TrustedMiddleware.Guard | internal/server/trusted_middleware.go:13-47 | An empty subnet admits everything. A missing X-Real-IP is refused. Otherwise the address check decides. |
| TrustedMiddleware.Trusted | internal/server/trusted_middleware.go:10-54 | The writer ends as the guard prescribes: the handler's response, 403 "Forbidden" or 500 "Internal Server Error". |
| TrustedMiddleware.TrustedResponses | internal/server/trusted_middleware.go:18-49 | The client sees the handler's response exactly when the guard admits the request. Otherwise it sees 403, or 500 for a bad subnet, and none of the handler's output. |
| TrustedMiddleware.AdmitsExactlyTheSubnet | internal/server/trusted_middleware.go:41-49 | With a valid address and subnet, the request is admitted if and only if the subnet contains the address, and it is never treated as a misconfiguration. |
| GrpcTrusted.Intercept | internal/server/grpc_trusted_interceptor.go:14-54 | An empty subnet runs the handler. Missing metadata or a missing x-real-ip is PermissionDenied "forbidden". Every refusal is PermissionDenied or Internal, and a handled call returns the handler's reply. |
| GrpcTrusted.FirstAddressDecides | internal/server/grpc_trusted_interceptor.go:32-54 | Only the first x-real-ip value counts. The call goes through if and only if it parses and lies in a parsable subnet. |
| GrpcTrusted.SameVerdictAsHttp | internal/server/grpc_trusted_interceptor.go:32-54 | For the same address and subnet, the gRPC interceptor admits a call exactly when the HTTP middleware admits the request. |
| AgentStats.Delivered | internal/agent/stats.go:59-67 | Only error-free results contribute metrics, in arrival order. When no result carries an error, every result's metric is kept. |
| AgentStats.Failures | internal/agent/stats.go:63-65 | The list of errors is empty exactly when no result carries one. |
| AgentStats.DeliveredFromSuccesses | internal/agent/stats.go:63-67 | Every published metric came from a result without an error. |
| AgentStats.Stats.constructor | internal/agent/stats.go:12-20 | A new Stats has published nothing. |
| AgentStats.Stats.Collect | internal/agent/stats.go:28-83 | collect fails exactly when some result failed or the context ended. A failure returns the joined errors and clears the snapshot. Success publishes the delivered metrics. |
| AgentStats.Stats.GetMetrics | internal/agent/stats.go:85-93 | The result is a fresh copy of the snapshot. |
| AgentStats.MutateCopy | internal/agent/stats.go:89-90 | Writing into the returned copy leaves the snapshot unchanged. |
| AgentStats.CancelledCollectFails | internal/agent/stats.go:56-77 | A cancelled context always fails collect, and the context's error is among those joined. |
| AgentStats.CleanCollectPublishesAll | internal/agent/stats.go:80 | With no error anywhere, every result's metric is published, in order. |
| Collectors.MemFields | internal/agent/collectors.go:39-67 | There is one reading per memory gauge name, position by position. |
| Collectors.SendResult | internal/agent/collectors.go:21-27 | A result is delivered unless the Done case is taken. When it is delivered, it is appended after what was already sent. |
| Collectors.SendAllDelivers | internal/agent/collectors.go:68-70 | Unless cancelled, the send loop appends every metric as a successful result, in order. When cancelled, it sends nothing. |
| Collectors.SendMetrics | internal/agent/collectors.go:96-98 | The loop sends what SendAll describes. |
| Collectors.MemMetrics | internal/agent/collectors.go:39-67 | One memory reading yields exactly 27 gauges. |
| Collectors.MemCollector.constructor | internal/agent/collectors.go:33-35 | The collector starts with the given (zero) reading. |
| Collectors.MemCollector.Collect | internal/agent/collectors.go:37-71 | The collector keeps the new reading. Unless cancelled, it sends the 27 gauges of that reading in order. |
| Collectors.MemMetricsWellFormed | internal/agent/collectors.go:40-66 | Each gauge is named after its reading and carries that reading's value converted to float. GCCPUFraction is passed through unconverted. |
| Collectors.CpuMetrics | internal/agent/collectors.go:92-95 | There is one CPU gauge per percentage, in order. |
| Collectors.CpuNamesDistinct | internal/agent/collectors.go:94 | The names CPUutilization<i> differ for different i. |
| Collectors.PsCollectAsWrittenPanics | internal/agent/collectors.go:80-86 | As written, a failing mem.VirtualMemory read dereferences a nil result and the agent panics. |
| Collectors.PsCollector.Collect | internal/agent/collectors.go:79-99 | The corrected collector always completes. It sends the read errors, then the memory and CPU gauges. |
| Collectors.PsCollectAgreesWhenReadsSucceed | internal/agent/collectors.go:79-99 | When both reads succeed, the corrected collector sends exactly what the code as written sends. |
| Collectors.PsResultsReportFailure | internal/agent/collectors.go:81-83 | The corrected collector reports a failed virtual-memory read as its first result. |
| Collectors.DeliveredAppend | internal/agent/stats.go:59-67 | The metrics delivered from two batches of results are those of each, concatenated. |
| Collectors.AnyCollector.constructor | internal/agent/collectors.go:105-107 | The poll count starts at 0. |
| Collectors.AnyCollector.Collect | internal/agent/collectors.go:109-119 | Each poll adds one to the count with int wrap-around. Unless cancelled, it sends RandomValue, a draw below maxRandNum, and then PollCount, which carries the new count. |
| Collectors.PollCountCounts | internal/agent/collectors.go:110-114 | Below 2^63-1 polls, the n-th poll reports PollCount n. |
| Collectors.WrapOfTwo63 | internal/agent/collectors.go:110 | 2^63 wraps to the most negative int64. |
| Collectors.PollCountWraps | internal/agent/collectors.go:110-114 | The poll after the 2^63-1st reports the most negative int. |
| CmdAgentStats.Stats.constructor | cmd/agent/stats.go:15-19 | A new Stats holds a zero reading, a zero draw and a zero poll count. |
| CmdAgentStats.Stats.GetCounter | cmd/agent/stats.go:28-33 | getCounter returns the poll count. |
| CmdAgentStats.Stats.Collect | cmd/agent/stats.go:35-42 | collect stores the new reading and a draw below maxRandNum, and adds one to the poll count with wrap-around. |
| CmdAgentStats.Stats.Dump | cmd/agent/stats.go:44-83 | dump produces 29 metrics under the fixed names: 28 gauges followed by the PollCount counter. |
| CmdAgentStats.DumpCountersReadBack | cmd/agent/stats.go:77-80 | RandomValue and PollCount are decimal strings that strconv.ParseInt reads back as the stored numbers. |
| CmdAgentStats.DumpGaugesReadBack | cmd/agent/stats.go:49-75 | Every unsigned reading is dumped as its decimal digits. GCCPUFraction is dumped with "%f". |
| CmdAgentStats.DumpMatchesCollector | cmd/agent/stats.go:49-75 | The older agent reports the same 27 memory gauges, under the same names and in the same order, as the newer collector. |
| AgentUtils.AnyToStringSignedReadsBack | internal/agent/utils.go:11-14 | int and int32 values are rendered so that strconv.ParseInt reads back the same number. The same code is repeated at cmd/agent/utils.go:11-14. |
| AgentUtils.AnyToStringUnsignedReadsBack | internal/agent/utils.go:15-24 | uint32 and uint64 values are rendered as the plain decimal digits of the number. The same code is repeated at cmd/agent/utils.go:15-24. |
| AgentUtils.EnsureEndpointProtocol | internal/agent/utils.go:28-33 | The result always contains "://". An endpoint that already has one is unchanged; otherwise "<protocol>://" is put in front. |
| AgentUtils.EnsureEndpointProtocolIdempotent | internal/agent/utils.go:28-33 | A second call changes nothing, whatever protocol it names. |
| AgentUtils.BuildURL | internal/agent/utils.go:35-40 | The URL is the endpoint, exactly one added '/' if it lacks a trailing one, and the parts joined by '/'. The same code is repeated at cmd/agent/utils.go:28-33. |
| AgentUtils.BuildURLPathParts | internal/agent/utils.go:35-40 | The URL extends the endpoint. What follows the endpoint's '/' splits back into the parts when no part contains '/'. |
| AgentUtils.BuildURLNoParts | internal/agent/utils.go:35-40 | With no parts, the URL ends in '/', and it equals the endpoint exactly when the endpoint already did. |
| AgentUtils.SplitJoinRoundTrip | internal/agent/utils.go:39 | Splitting a join on a separator that no part contains gives the parts back, which is the inverse that BuildURLPathParts relies on. |
| CmdServerHandlers.StoreReplyResponse | cmd/server/handlers.go:22-27 | A store error gives 500 with "Internal Error", and the later WriteHeader(200) is ignored. A store success gives an empty 200. |
| CmdServerHandlers.MetricUpdateValidation | cmd/server/handlers.go:16-44 | The store is not called exactly when the kind is unknown or the value does not parse as that kind, and the answer is then 400. A parsed value goes to the store under the path's name. |
| CmdServerHandlers.CounterUpdateOfDecimal | cmd/server/handlers.go:30-36 | A counter update whose value is the decimal form of n increments by exactly n. |
| HttpClient.RetryFrom | internal/agent/http_client.go:108-135 | The loop makes at most len(schedule) attempts. |
| HttpClient.RetryOutcome | internal/agent/http_client.go:105-136 | Success comes exactly when an attempt got a 2xx after only retryable failures. "max retries exceeded" comes exactly when every attempt failed retryably, each followed by its backoff. Otherwise the first response that is neither 2xx nor 5xx gives "http <code>" with no further attempt. |
| HttpClient.RetryStep | internal/agent/http_client.go:113-130 | A retried attempt contributes its backoff and leaves the outcome to the next attempt. |
| HttpClient.ExecuteWithRetry | internal/agent/http_client.go:105-136 | The method's result, attempt count and sleeps are those of RetryFrom. Every attempt sends the same request, with the body re-armed from the buffer. |
| HttpClient.EncryptionFailureDropsHeaders | internal/agent/http_client.go:82-87 | As written, a failed encryption sends the gzip body without X-Encrypted, Content-Encoding, Content-Type or hash. Only X-Real-IP may be set. |
| HttpClient.ApplyHeaders | internal/agent/http_client.go:77-103 | In the corrected step, X-Encrypted is set only when encryption succeeded, and the body is then the ciphertext. The hash covers the final body and is set exactly when a key is configured. Content-Encoding and Content-Type are always set. |
| HttpClient.ApplyHeadersAgree | internal/agent/http_client.go:77-103 | When encryption does not fail, the code as written and the corrected step build the same request. |
| HttpClient.PrepareRequest | internal/agent/http_client.go:49-75 | A marshal failure is wrapped as "marshal metrics", and a request-creation failure as "create request". Otherwise a request to the updates/ URL is built with applyHeadersAndEncryption as written. If encryption fails, the gzip body goes out with none of X-Encrypted, Content-Encoding, Content-Type or the hash. Otherwise the headers and body are those of the corrected step, ApplyHeaders. |
| HttpClient.UpdatesURLShape | internal/agent/http_client.go:50-51 | The request URL always has a scheme and ends in "/updates/". |
| HttpClient.MakeSemaphore | internal/agent/http_client.go:165-170 | There is no semaphore for a rate limit of 0, and otherwise one whose capacity is the rate limit. |
| HttpClient.HttpMetricClient.constructor | internal/agent/http_client.go:153-163 | A new client is open, with the semaphore makeSemaphore gives. |
| HttpClient.HttpMetricClient.Close | internal/agent/http_client.go:138-151 | Close always returns nil and leaves the client closed. Only the first call closes the semaphore. |
| HttpClient.HttpMetricClient.SendBatch | internal/agent/http_client.go:28-47 | An empty batch returns nil with no request. A preparation error is returned as is. A closed semaphore panics. Otherwise the retry loop's outcome is returned, with every attempt sending the request prepareRequest built as written. |
| HttpClient.AtMostThreeAttempts | internal/agent/http_client.go:106-108 | With the default schedule, a batch takes at most three requests. |
| Reporter.AttemptsAsWritten | internal/agent/reporter.go:54-90 | The loop as written never passes its attempt bound. |
| Reporter.AllServerErrorsReportSuccess | internal/agent/reporter.go:54-90 | As written, attempts that all got a 5xx end in nil. |
| Reporter.Attempts | internal/agent/reporter.go:59-90 | The corrected loop never passes its attempt bound. |
| Reporter.AttemptsSucceedOnlyOn2xx | internal/agent/reporter.go:63-87 | The corrected loop returns nil exactly when an attempt got a 2xx, or when no attempt was made. Every earlier attempt failed retryably. "bad status" comes only from a response that is neither 2xx nor 5xx. |
| Reporter.AttemptsAgreeWithoutServerErrors | internal/agent/reporter.go:63-90 | Without any 5xx, the loop as written and the corrected loop agree. |
| Reporter.ReportRequest | internal/agent/reporter.go:21-52 | The hash header is present exactly when the key is non-empty, and it is the HMAC of the body. Content-Encoding and Content-Type are set, and the URL is the endpoint's updates/. |
| Reporter.PerformRequest | internal/agent/reporter.go:19-92 | A marshal failure and a request-creation failure are wrapped and nothing is sent. Otherwise there is one request per attempt of the loop as written over the backoff ticks, each the same request, and that loop's error is returned. A 5xx is therefore not recorded. |
| Reporter.AttemptBound | internal/agent/reporter.go:56-61 | There are at most len(schedule)+1 = 4 attempts, exactly 4 without cancellation. |
| Reporter.Reporter.constructor | internal/agent/reporter.go:141-154 | A new reporter starts at iteration 0 with its endpoint and key. |
| Reporter.Reporter.Report | internal/agent/reporter.go:104-120 | Every call adds one to the iteration (a uint, so modulo 2^64). An empty snapshot, a marshal failure or a request-creation failure sends nothing. Otherwise there is one request per attempt of the loop as written, each the request performRequest builds. |
| GrpcRetry.ShouldRetry | internal/agent/grpc_retry_interceptor.go:42-58 | An error is retried exactly when it carries a gRPC status whose code is DeadlineExceeded, Unavailable, ResourceExhausted, Internal or Unknown. nil and non-status errors are not retried. |
| GrpcRetry.FinalCodes | internal/agent/grpc_retry_interceptor.go:52-57 | InvalidArgument, PermissionDenied, NotFound and Canceled are final. Unavailable and DeadlineExceeded are retried. |
| GrpcRetry.RetryFrom | internal/agent/grpc_retry_interceptor.go:19-39 | The interceptor invokes the call at most once per schedule entry. |
| GrpcRetry.RetryOutcome | internal/agent/grpc_retry_interceptor.go:19-39 | When every invocation fails transiently, the result is "all gRPC attempts failed" after a sleep for every entry. Otherwise the interceptor stops at the first success or final error, returns exactly that error (nil on success), and has slept only after the transient failures before it. |
| GrpcRetry.FirstCallDecides | internal/agent/grpc_retry_interceptor.go:23-36 | A first call that succeeds or fails finally is the only call. |
| GrpcRetry.RetryStep | internal/agent/grpc_retry_interceptor.go:29-33 | A transient failure contributes its backoff and leaves the outcome to the next invocation. |
| GrpcRetry.RetryInterceptor | internal/agent/grpc_retry_interceptor.go:15-40 | The method's result, invocation count and sleeps are those of RetryFrom. |
| GrpcRetry.AtMostThreeInvocations | internal/agent/grpc_retry_interceptor.go:16-19 | With the default schedule, the call is invoked at most three times. |
| LimitedClient.BaseClient.constructor | internal/agent/client.go:20-26 | The http.Client's timeout is ten seconds. |
| LimitedClient.BaseClient.Do | internal/agent/client.go:16-18 | Do returns the http.Client's answer unchanged. |
| LimitedClient.DoOn | internal/agent/client.go:43-56 | Do fails with "client is closed", without calling the inner doer, exactly when the client is closed. An open client with a non-zero capacity calls the inner doer and returns its answer unchanged. Do blocks exactly on an open client with a zero-capacity semaphore. |
| LimitedClient.CloseOn | internal/agent/client.go:58-69 | Close leaves the client closed and keeps a consistent state consistent. A repeated call changes nothing, and the first call closes the inner doer once. |
| LimitedClient.CloseIdempotent | internal/agent/client.go:62-64 | A second Close has no effect. |
| LimitedClient.CloseClosesInnerOnce | internal/agent/client.go:62-68 | Any number of Close calls on a fresh client close the inner doer exactly once and close the semaphore. |
| LimitedClient.CloseIter | internal/agent/client.go:58-69 | Repeated Close calls keep the state consistent, and at least one leaves the client closed. |
| LimitedClient.DoAfterClose | internal/agent/client.go:44-49 | After Close, every request is refused without reaching the inner doer. |
| LimitedClient.ConcurrentLimitedClient.constructor | internal/agent/client.go:36-41 | The semaphore's capacity is the rate limit, and the client starts open. |
| LimitedClient.ConcurrentLimitedClient.Do | internal/agent/client.go:43-56 | The outcome is DoOn of the current state, and the inner doer is called only while the semaphore is open. |
| LimitedClient.ConcurrentLimitedClient.Close | internal/agent/client.go:58-69 | The new state is CloseOn of the old, and the state stays consistent. |

## Left out

- I/O is not modelled. This covers the dump file's bytes and flushes, the database connection, network transport and `log`/`zap` output. Their outcomes are parameters.
- Goroutines, channels, mutexes and timers are not modelled as concurrency. Results and ticks arrive as sequences, and sleeps are recorded rather than taken. The periodic dump and shutdown loop of the in-memory store, `Reporter.runRoutine`, `newReporter`'s choice of client and `Reporter.stop` are wiring, not logic.
- Cryptography, gzip, JSON, `mime.ParseMediaType`, `strconv.ParseFloat` and `%f`/`%v` float formatting are parameters. Properties that depend on them (a round trip through gzip, say) are stated under an explicit hypothesis.
- `float64` arithmetic is not modelled. Gauges are opaque values that are only stored, compared for identity and echoed.
- The gzip writers of `prepareRequest` and `performRequest` write into an in-memory buffer. Their write and close errors are not modelled, and the compressed body is a function of the raw body.
- The `gzip.NewWriterLevel` failure branch of the gzip middleware is not modelled, because it cannot occur with `gzip.BestSpeed`.
- When the gzip middleware's compressed write fails, the model writes no compressed bytes: after the status and headers, the body holds only http.Error's "Compression failed\n". Bytes a partial write may already have sent, and the gzip trailer that the deferred `gz.Close()` writes after the error text, are not modelled.
- The logging response writer takes the inner Write to accept every byte. A failed connection, and the ErrBodyNotAllowed refusal under a 1xx, 204 or 304 status, are not modelled.
- The retry loops' log labels such as "[n/len+1]" are not modelled, because they are logging only.
- `BaseClient.Close` is an empty method and is not modelled.
- In `ConcurrentLimitedClient.Do`, a `Close` that slips in between the closed check and the semaphore send is not modelled. Calls are taken one at a time.
- LimitedClient.DoOn: only a zero-capacity semaphore is modelled as blocking, since calls are taken one at a time and a free slot is always available.
- The source calls `client.Close()` on an `HTTPDoer`, whose interface declares only `Do`. The model gives the inner doer a close count.
- HttpClient.HttpMetricClient.SendBatch: after `Close` on a client with a semaphore, the send on the closed channel panics. The model returns `Panicked` and does not model the panic's unwinding.
- The reporter does not re-arm the request body between attempts. The model records the same request for every attempt and does not model a drained body on the second attempt.
- Collectors.MemFields: the contract states only the number of readings. Names and values are stated by MemMetricsWellFormed.
- HttpClient.RetryFrom, Reporter.Attempts, Reporter.AttemptsAsWritten, GrpcRetry.RetryFrom: each contract states only the bound on attempts. The outcome is stated by the lemmas beside them.
- IpNet.Contains: the contract states only that a member network is well formed. Membership itself is pinned by HostNetwork, AnyNetwork, ContainsMappedForm and FamiliesDoNotMix.
- Distinctness of the 27 memory gauge names is not proved.
- `common.HashHeaderKey`'s text, the definitions of `ErrNotFound` and the validation error type, the internal agent's `maxRandNum` and the older server's `metricType` constants are not part of this model. They are named constants.
- internal/server/middlewares.go and cmd/agent/utils.go repeat the code of gzip_middleware.go, logging_middleware.go and internal/agent/utils.go. The same modules model both copies, and the table cites both.

## Findings

| source | as written | input that shows it | evidently intended | confidence | as-written member | corrected member |
|---|---|---|---|---|---|---|
| internal/agent/collectors.go:80-86 | When `mem.VirtualMemory` fails, the error is sent, but `vmStat.Total` is then read through the nil `vmStat`. | `mem.VirtualMemory()` returns an error. | Report the error, skip the memory gauges and still send the CPU gauges. | not executed | Collectors.PsCollectAsWrittenPanics | Collectors.PsResultsReportFailure |
| internal/server/hash_middleware.go:60-64 | The response hash header is set after the handler has written, so it is never sent. | A signed request whose handler writes a non-empty body. | Buffer the response, set the hash, then send. | not executed | HashMiddleware.HashHeaderNeverSent | HashMiddleware.BufferedResponseIsSigned |
| internal/agent/http_client.go:82-87 | A failed encryption returns early, skipping the hash, Content-Encoding and Content-Type headers. | A public key that `EncryptHybrid` rejects. | Send the unencrypted body with all headers. | not executed | HttpClient.EncryptionFailureDropsHeaders | HttpClient.ApplyHeaders |
| internal/agent/reporter.go:82-90 | A 5xx response is retried without being recorded, so attempts that all got a 5xx return nil. | Four attempts that each get 503. | Record the 5xx so that an exhausted loop returns an error. | not executed | Reporter.AllServerErrorsReportSuccess | Reporter.AttemptsSucceedOnlyOn2xx |
