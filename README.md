# bulk_load_es, modelled in Dafny

A model of the core of `bulk_load_es`, the loader that reads an
Elasticsearch bulk stream (two lines per item) from standard input, cuts it
into batches and has worker goroutines POST the batches to the daemons. It
also models two helpers of the data generator.

The model has seven files:

- `scan.dfy` (module `BulkLoadScan`) models `scan`. It is specified by a
  left fold `Run` of a one-line step `Feed`, followed by `Finish`, which
  sends the trailing batch and runs the two fatal checks. The method `Scan`
  is the loop itself, and is proved to compute `ScanSpec`. The lemmas state
  what `scan` does in terms of the input alone. `Batches` is an independent
  reference chunking of the data lines into groups of `2 * itemsPerBatch`
  lines, and the scan is proved to send exactly those batches.
- `worker.dfy` (module `BulkLoadWorker`) models these classes:
  - `Buffer` (a `bytes.Buffer`);
  - `BufferPool` (the `sync.Pool`, a stack of free buffers that must all be
    empty and distinct);
  - `Worker`, whose methods are the loop body of `processBatches` (`Handle`,
    one turn as `Receive`) and the loop itself (`ProcessBatches`).

  What the worker hands to the HTTP writer and to the telemetry channel are
  out-parameters, specified by `Requests` and `Points`. The same file models
  the binding of workers to daemon URLs in `main`.
- `pipeline.dfy` (module `BulkLoadPipeline`) composes `scan` with one worker
  that receives the batches in the order they were sent.
- `config.dfy` (module `BulkLoadConfig`) models the `key:value,…` tag-list
  loops of `init` and the major-version extraction of `checkServer`. The
  Go `strings` functions they use are in `go_strings.dfy` (module
  `GoStrings`).
- `simulation.dfy` (module `Simulation`) models `Inaccurate` and
  `MakeUsablePoint` of the data generator.
- `common.dfy` (module `Common`) holds the shared types.

Inputs the model does not compute are parameters:

- `common.CheckTotalValues` is a function from a line to
  `TotalsReport(points, values, failed)`.
- Whether the input reader fails at the end is a boolean.
- `fasthttp.WriteGzip` is a function on byte sequences.
- Whether each HTTP write fails is `writeFails(i)`, for the worker's `i`-th
  batch.
- The random draw of `Inaccurate` is passed in.

Some consequences of the code that are easy to miss:

- The comment at cmd/bulk_load_es/main.go:486 suggests that the expected
  total is unknown (0) after an early exit and so does not count. The code
  has no such case: `totalPoints` holds what `CheckTotalValues` returned for
  the last line read, a data line. A stop at a positive item limit therefore
  always ends in a point-count mismatch (`LimitStopFails`).
- A run on 10,000 data lines succeeds only when the input ends with a
  totals line announcing 5,000 points. Without it, the expected total is
  whatever the last data line reports (at most 0 in the model), and the
  point-count comparison at main.go:486 fails (`FullLoadScenario` states the successful variant).
- `bytesRead` counts only the batches cut inside the loop, not the trailing
  partial batch sent after it (`LoadedAccounting`).
- With an item limit of 0, the first data line already reaches the limit.
  It is sent as a batch of one line, and the run fails on an odd line count
  (`ZeroLimitStopsAtFirstLine`).
- Items are always two lines; the line count per item is not configurable
  in the code.

## Model

| member | source | states |
|---|---|---|
| `BulkLoadScan.Run` | cmd/bulk_load_es/main.go:435-468 | the scanner delivers a prefix of the input, and all of it unless the loop stopped |
| `BulkLoadScan.Feed` | cmd/bulk_load_es/main.go:437-467 | one iteration: a stopped loop reads nothing more; otherwise the scanner delivers one more line, at most one more data line is counted and at most one batch is sent |
| `BulkLoadScan.Scan` | cmd/bulk_load_es/main.go:424-491 | the loop, the trailing flush and the final checks produce exactly `ScanSpec`: batches sent in order and the outcome |
| `BulkLoadScan.FinalCheck` | cmd/bulk_load_es/main.go:482-490 | an odd line count fails; otherwise a point count other than the announced total fails; only a state passing both loads, returning its items, bytes and values |
| `BulkLoadScan.Finish` | cmd/bulk_load_es/main.go:470-490 | a failed line check is the outcome exactly when the loop stopped on one; a read error exactly when the input ran out and reading failed; at most the trailing batch, holding an item, is sent after the loop |
| `BulkLoadScan.ScanSpec` | cmd/bulk_load_es/main.go:424-491 | a read error is reported only when reading failed, after the scanner delivered the whole input |
| `BulkLoadScan.StoppedStaysStopped` | cmd/bulk_load_es/main.go:465-467 | after a stop (item limit, or a failed line check) no later line changes the state |
| `BulkLoadScan.RunPosition` | cmd/bulk_load_es/main.go:435-468 | the loop reads a prefix and stops on its last line; before that line it was still reading |
| `BulkLoadScan.RunCounts` | cmd/bulk_load_es/main.go:437-454 | `linesRead` is the number of data lines read, `itemsRead == linesRead / 2`, and at most one batch per data line is sent |
| `BulkLoadScan.RunContents` | cmd/bulk_load_es/main.go:445-463 | the sent batches followed by the current buffer are the data lines read, in order, each followed by `"\n"`; `bytesRead` is the length of the batches sent |
| `BulkLoadScan.RunTotals` | cmd/bulk_load_es/main.go:437 | `totalPoints` and `totalValues` are what `CheckTotalValues` reported for the last line delivered, and 0 before any line |
| `BulkLoadScan.TotalsLineSkipped` | cmd/bulk_load_es/main.go:437-440 | a totals line changes no counter, buffer or batch; it only overwrites the two totals |
| `BulkLoadScan.BatchesCount` | cmd/bulk_load_es/main.go:456-477 | the reference chunking has one batch per group of `2 * itemsPerBatch` lines holding an item |
| `BulkLoadScan.BatchAt` | cmd/bulk_load_es/main.go:456-477 | batch `i` of the reference chunking is the bytes of lines `2 * itemsPerBatch * i` on: at least 2 of them, at most `2 * itemsPerBatch` |
| `BulkLoadScan.BatchesAppend` | cmd/bulk_load_es/main.go:456-463 | after whole groups, a group of 2 to `2 * itemsPerBatch` lines adds exactly one batch and a lone line none |
| `BulkLoadScan.RunBatches` | cmd/bulk_load_es/main.go:445-467 | the loop keeps its invariant: the batches sent are the reference batches of the whole groups read, and the buffer holds the rest |
| `BulkLoadScan.ScanSendsBatches` | cmd/bulk_load_es/main.go:456-477 | unless a line check or the read fails, `scan` sends exactly the reference batches of the data lines read: each once, in order, none split or merged |
| `BulkLoadScan.FlattenBatches` | cmd/bulk_load_es/main.go:458-477 | the reference batches hold every data line once, in order, except a lone line after the last whole group |
| `BulkLoadScan.ScanningBelowLimit` | cmd/bulk_load_es/main.go:456-467 | while the loop reads under a limit, the item count is below the limit |
| `BulkLoadScan.StopStep` | cmd/bulk_load_es/main.go:456-467 | a stopped loop was stopped by the last line it read, from a reading state |
| `BulkLoadScan.LimitStopFails` | cmd/bulk_load_es/main.go:456-488 | a stop at a positive item limit has read exactly `itemLimit` items from `2 * itemLimit` lines and always ends in a point-count mismatch |
| `BulkLoadScan.ZeroLimitStopsAtFirstLine` | cmd/bulk_load_es/main.go:456-484 | with item limit 0, the first data line is sent alone and the run fails on an odd line count |
| `BulkLoadScan.OddLineCountFails` | cmd/bulk_load_es/main.go:483-485 | an odd number of data lines fails, unless a line check or the read failed first |
| `BulkLoadScan.LoadedReadAll` | cmd/bulk_load_es/main.go:465-490 | a successful scan read the whole input; no item limit stopped it |
| `BulkLoadScan.LoadedEven` | cmd/bulk_load_es/main.go:483-485 | a successful scan read an even number of data lines |
| `BulkLoadScan.LoadedAccounting` | cmd/bulk_load_es/main.go:424-491 | on success: every data line is delivered once, in order, across the reference batches; `itemsRead` is half the data lines and equals the points announced by the last line; `valuesRead` is its values; `bytesRead` counts the full batches only |
| `BulkLoadScan.LoadedBytesRead` | cmd/bulk_load_es/main.go:459 | while the loop reads, `bytesRead` is the byte length of the whole groups sent |
| `BulkLoadScan.AllDataRead` | cmd/bulk_load_es/main.go:435-468 | with no item limit, an input of data lines is read to the end and every line is written |
| `BulkLoadScan.FullLoadScenario` | cmd/bulk_load_es/main.go:424-491 | 10,000 data lines and a totals line of 5,000 points, with 1,000 items per batch and no limit: five batches of 2,000 lines, and success with 5,000 items |
| `BulkLoadWorker.Buffer.constructor` | cmd/bulk_load_es/main.go:349-353 | a new buffer is empty |
| `BulkLoadWorker.Buffer.Write` | cmd/bulk_load_es/main.go:447-448 | `Write` appends its bytes to the contents |
| `BulkLoadWorker.Buffer.Reset` | cmd/bulk_load_es/main.go:524 | `Reset` empties the buffer |
| `BulkLoadWorker.BufferPool.constructor` | cmd/bulk_load_es/main.go:349-353 | the pool starts with no free buffer, which is valid |
| `BulkLoadWorker.BufferPool.Get` | cmd/bulk_load_es/main.go:507 | `Get` takes a pooled buffer, or makes a new empty one; on a valid pool the result is empty and no longer pooled |
| `BulkLoadWorker.BufferPool.Put` | cmd/bulk_load_es/main.go:525 | `Put` adds the buffer; the pool stays valid exactly when the buffer is empty and not already pooled |
| `BulkLoadWorker.Compress` | cmd/bulk_load_es/main.go:506-513 | the body is the gzip of the batch; the scratch buffer is reset and returned, so the pool stays valid and is as before (or holds the one new buffer) |
| `BulkLoadWorker.Requests` | cmd/bulk_load_es/main.go:496-517 | when loading, one request per batch; in dry-run mode none |
| `BulkLoadWorker.Body` | cmd/bulk_load_es/main.go:505-517 | the body written for a batch: its gzip when `useGzip`, its bytes otherwise |
| `BulkLoadWorker.Sent` | cmd/bulk_load_es/main.go:498-517 | one request per received batch when loading, none in dry-run mode |
| `BulkLoadWorker.PlainBodies` | cmd/bulk_load_es/main.go:514-517 | without gzip, the request bodies are exactly the batch bytes, in order |
| `BulkLoadWorker.Points` | cmd/bulk_load_es/main.go:527-538 | one telemetry point per delivered batch when loading with telemetry, none otherwise |
| `BulkLoadWorker.Point` | cmd/bulk_load_es/main.go:527-538 | the telemetry point of a delivered batch: hostname, daemon URL, worker label, request number, gzip flag and body size |
| `BulkLoadWorker.Reported` | cmd/bulk_load_es/main.go:519-538 | a point for a delivered batch only when loading with telemetry |
| `BulkLoadWorker.RequestAt` | cmd/bulk_load_es/main.go:505-517 | request `i` carries batch `i`, gzipped exactly when `useGzip` |
| `BulkLoadWorker.PointAt` | cmd/bulk_load_es/main.go:527-538 | point `i` reports request number `first + i` and the size of the body actually sent |
| `BulkLoadWorker.Worker.constructor` | cmd/bulk_load_es/main.go:363-369 | a writer for its daemon URL and label, with `batchesSeen` 0 |
| `BulkLoadWorker.Worker.Handle` | cmd/bulk_load_es/main.go:497-538 | `batchesSeen` grows by 1 even in dry-run mode; the request is gzip(batch) or the batch; a failed write is fatal and sends no telemetry; a delivered batch is reset and pooled; in dry-run mode it is neither; the pool stays valid |
| `BulkLoadWorker.Worker.ProcessBatches` | cmd/bulk_load_es/main.go:494-541 | every batch is handed to the writer once, in order, up to the first failed write; telemetry for each delivered batch; `batchesSeen` counts the batches handled; each delivered batch ends reset and in the pool (`Recycled`), the others keep their contents and stay out of it (`Untouched`); the pool holds only empty, distinct buffers |
| `BulkLoadWorker.Worker.Receive` | cmd/bulk_load_es/main.go:496-539 | one turn of the loop extends the requests and telemetry by those of batch `k`, recycles it when its write succeeds, and touches no later batch |
| `BulkLoadWorker.Decimal` | cmd/bulk_load_es/main.go:369 | the label `fmt.Sprintf("%d", i)` is a numeral of decimal digits with no leading zero |
| `BulkLoadWorker.DecimalRoundTrip` | cmd/bulk_load_es/main.go:369 | the label's numeral has the worker's index as its value |
| `BulkLoadWorker.LabelsDistinct` | cmd/bulk_load_es/main.go:369 | distinct workers carry distinct labels |
| `BulkLoadWorker.StartWorkers` | cmd/bulk_load_es/main.go:363-370 | worker `i` writes to URL number `i` modulo the number of URLs, is labelled `i` and has seen no batch |
| `BulkLoadWorker.WorkersOnCount` | cmd/bulk_load_es/main.go:363-364 | URL `j` of `m` gets `n / m` of the first `n` workers, plus one when `j < n % m` |
| `BulkLoadWorker.RoundRobinBalanced` | cmd/bulk_load_es/main.go:363-364 | the worker counts of any two URLs differ by at most one |
| `BulkLoadWorker.RoundRobinCovers` | cmd/bulk_load_es/main.go:363-364 | with at least as many workers as URLs, every URL gets a worker |
| `BulkLoadPipeline.NewBatches` | cmd/bulk_load_es/main.go:425-461 | each batch sent is a buffer taken from the shared pool with `Get`, empty because the pool is valid, then written with the batch; no two are the same and none stays pooled; from a new pool all are new |
| `BulkLoadPipeline.LoadOneWorker` | cmd/bulk_load_es/main.go:424-541 | `scan` followed by one worker: the requests and telemetry are exactly those of the batches `scan` sent, up to the first failed write |
| `BulkLoadPipeline.Deliver` | cmd/bulk_load_es/main.go:494-541 | a new worker with a new pool makes the requests and reports the telemetry of the batches it is handed |
| `BulkLoadPipeline.PlainDelivery` | cmd/bulk_load_es/main.go:445-517 | a successful scan loaded without gzip and without failures delivers every data line of the input once, in order, with its newline, and nothing else |
| `BulkLoadPipeline.OneRequestPerBatch` | cmd/bulk_load_es/main.go:496-517 | when loading, exactly one request per batch sent, request `i` carrying batch `i` |
| `GoStrings.Split` | cmd/bulk_load_es/main.go:258 | `strings.Split` never returns an empty list, and no piece holds the separator |
| `GoStrings.JoinSplit` | cmd/bulk_load_es/main.go:277 | joining the pieces of a split gives back the text |
| `GoStrings.SplitJoin` | cmd/bulk_load_es/main.go:277 | splitting a join of separator-free pieces gives back the pieces |
| `GoStrings.SplitN2` | cmd/bulk_load_es/main.go:280 | `strings.SplitN(s, sep, 2)` gives two fields around the first separator, or the whole text when there is none |
| `BulkLoadConfig.PairTag` | cmd/bulk_load_es/main.go:280-281 | a pair yields a tag exactly when it holds a `':'` |
| `BulkLoadConfig.PairTagSplits` | cmd/bulk_load_es/main.go:280-281 | the tag is the text before the first colon and the text after it |
| `BulkLoadConfig.PairTags` | cmd/bulk_load_es/main.go:278-282 | one tag per pair, or a panic at a pair without a colon |
| `BulkLoadConfig.PairTagsAt` | cmd/bulk_load_es/main.go:278-282 | tag `k` is the tag of pair `k` |
| `BulkLoadConfig.PanicFirst` | cmd/bulk_load_es/main.go:279-281 | the panic is at the first pair without a colon |
| `BulkLoadConfig.PanicEndsParse` | cmd/bulk_load_es/main.go:278-282 | after a panic, later pairs change nothing |
| `BulkLoadConfig.TagsOf` | cmd/bulk_load_es/main.go:276-283 | empty flag text gives no tags; otherwise one tag per comma-separated pair, or a panic at a pair without a colon |
| `BulkLoadConfig.ParseTags` | cmd/bulk_load_es/main.go:276-283 | the tag loop (both `-telemetry-tags` and, at lines 298-305, `-report-tags`) computes `TagsOf`: no tags for empty text, else the tags of the comma-separated pairs, or the panic |
| `BulkLoadConfig.TagsRoundTrip` | cmd/bulk_load_es/main.go:276-283 | a tag list written as `k:v,k:v` text parses back to itself when keys hold no `,` or `:` and values no `,` |
| `BulkLoadConfig.PairTagOfText` | cmd/bulk_load_es/main.go:280-281 | the text `key:value` of a plain tag splits back into that tag |
| `BulkLoadConfig.MajorVersion` | cmd/bulk_load_es/main.go:669-695 | `"5"` without a version number, otherwise the number's text before its first `.`, which holds no `.` and is a prefix of the number |
| `BulkLoadConfig.MajorVersionOf` | cmd/bulk_load_es/main.go:690-693 | the major version of `major.rest` is `major` |
| `BulkLoadConfig.MajorVersionWhole` | cmd/bulk_load_es/main.go:690-693 | a number without a dot is its own major version |
| `Simulation.AddInt64` | bulk_data_gen/common/simulation.go:48 | `int64` addition: the `int64` value that differs from the exact sum by a multiple of 2^64 |
| `Simulation.WrapUnique` | bulk_data_gen/common/simulation.go:48 | there is only one such value, so the contract of `AddInt64` determines two's-complement addition |
| `Simulation.AddInt64Exact` | bulk_data_gen/common/simulation.go:48 | a sum within the `int64` range is exact |
| `Simulation.AddInt64Overflow` | bulk_data_gen/common/simulation.go:48 | a sum past the largest `int64` wraps to 2^64 below it |
| `Simulation.MaxDeltaMs` | bulk_data_gen/common/simulation.go:43-46 | the jitter bound is 1000 ms for a duration of at least a minute and 100 ms otherwise |
| `Simulation.Inaccurate` | bulk_data_gen/common/simulation.go:42-49 | the result is `d + deltaMs` milliseconds, unless that passes the largest duration, where it wraps to below `d` |
| `Simulation.InaccurateBounds` | bulk_data_gen/common/simulation.go:43-48 | without wrapping, `d <= result`, and `result < d + 1e9` ns from a minute on, `result < d + 1e8` ns below |
| `Simulation.WholeMilliseconds` | bulk_data_gen/common/simulation.go:47-48 | without wrapping, the added jitter is a whole number of milliseconds, namely the draw |
| `Simulation.DrawsDistinct` | bulk_data_gen/common/simulation.go:47-48 | without wrapping, distinct draws give distinct results |
| `Simulation.MakeUsablePoint` | bulk_data_gen/common/simulation.go:29-38 | no measurement name, empty tag and field lists, and the zero timestamp |

## Left out

- Goroutines, channels and synchronisation are left out: `batchChan` capacity and backpressure, `inputDone`, `workersGroup`, and the blocking telemetry send. The channel is an append-only sequence, and the pipeline is modelled with one worker that receives the batches in the order they were sent. With several workers, which worker gets which batch is a matter of scheduling.
- HTTP and JSON are left out: `WriteLineProtocol`, the GET and unmarshal in `checkServer`, `listIndexTemplates`, `listIndices` and `createESTemplate`. A write's failure is an input. `MajorVersion` takes the `version.number` field of the reply (or its absence) as its argument. A reply whose version or number is not of the expected JSON type makes the Go type assertion panic; that case is not modelled.
- `fasthttp.WriteGzip` is an uninterpreted function, and `common.CheckTotalValues` is an uninterpreted function from a line to its report.
- `bufio.Scanner`'s splitting of standard input into lines and its 64 KiB token limit are left out. The input is a sequence of lines, plus whether reading failed at the end.
- `log.Fatal` ends the process. It is modelled as a failure outcome, or as `fatal`, that stops the step.
- `sync.Pool` may drop pooled buffers at any time, and promises no order. In the model, `BufferPool.Get` returns the buffer put back last, and every buffer put back is kept. The buffer capacity is not modelled.
- `BulkLoadScan.Scan`, `BulkLoadPipeline.NewBatches`, `BulkLoadWorker.Worker.ProcessBatches`: the scan holds its open batch as a byte sequence, not as the `bytes.Buffer` it takes from `bufPool` (main.go:425, 461). `NewBatches` takes one pooled buffer per sent batch with `Get` after the scan has ended, and only then does the worker run. A buffer the worker returns to the pool is therefore never reused for a later batch. In Go it can be, because the scan and the workers run at the same time. `ProcessBatches` requires distinct buffers and does not capture that reuse.
- `linesRead`, `itemsRead`, `bytesRead`, `totalPoints`, `totalValues` and `itemLimit` are `int64` in Go (main.go:427-432) and unbounded integers in the model; their overflow, after 2^63 lines or bytes, is not modelled. `batchesSeen` is likewise unbounded.
- `report.*` telemetry points are modelled as plain records. Their timestamps (`time.Now`) and the telemetry collector are left out.
- `flag` parsing, `os.Hostname` (the hostname is a field of the options), the index template blobs, and throughput rates and printed summaries are left out. The rates are floating point.
- `rand.Intn` in `Inaccurate` is replaced by the draw as a parameter within its stated range. `d.Minutes() >= 1` is modelled as `d >= 60e9` ns; the float quotient of a shorter duration is below 1, so the two agree.
- A Go field value of type `interface{}` is modelled as an integer or a string. `time.Time` is reduced to seconds and nanoseconds since its zero instant.
- `BulkLoadScan.ScanSendsBatches`: this lemma and the ones built on it (`FlattenBatches`, `LoadedAccounting`, `PlainDelivery`) assume `itemsPerBatch >= 1` and an item limit other than 0. An item limit of 0 is covered by `ZeroLimitStopsAtFirstLine`. For `itemsPerBatch` below 1, only `Scan` and `ScanSpec` describe the batches.
- `Simulation.InaccurateBounds`: the bounds, `WholeMilliseconds` and `DrawsDistinct` are stated for results that do not wrap past the largest `int64` duration. `Inaccurate` states the wrapped case itself.
- The data generator's simulators (`bulk_data_gen/devops/status.go`), the query generator and `cmd/dist_test` are not part of this model. They are driven by random numbers and floating point.
