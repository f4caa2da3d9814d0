/**
 * The writer side of the loader: the buffer pool, the per-batch step of
 * `processBatches`, and the binding of workers to daemon URLs in `main`.
 *
 * The channel between the scanner and the workers is not modelled; a
 * worker is handed the batches it receives, in order. `fasthttp.WriteGzip`
 * is the function `gzip` of the options, and the outcome of each HTTP
 * request is an input: `writeFails(i)` says whether the write of the
 * worker's `i`-th batch (from 0) fails.
 */
module BulkLoadWorker {
  import opened Common

  /** A `bytes.Buffer`; only its contents matter here, not its capacity. */
  class Buffer {
    var data: seq<byte>

    /** `bytes.NewBuffer(make([]byte, 0, n))`: an empty buffer. */
    constructor ()
      ensures data == []
    {
      data := [];
    }

    /** `Write`: appends `bs` to the contents. */
    method Write(bs: seq<byte>)
      modifies this
      ensures data == old(data) + bs
    {
      data := data + bs;
    }

    /** `Reset`: empties the buffer. */
    method Reset()
      modifies this
      ensures data == []
    {
      data := [];
    }
  }

  /**
   * The `sync.Pool` of buffers as a stack of free buffers. A buffer is
   * only ever returned to it after a `Reset`, and never twice, which
   * `Valid` records.
   */
  class BufferPool {
    var free: seq<Buffer>

    ghost predicate Valid()
      reads this, free
    {
      && (forall i | 0 <= i < |free| :: free[i].data == [])
      && (forall i, j | 0 <= i < j < |free| :: free[i] != free[j])
    }

    constructor ()
      ensures free == [] && Valid()
    {
      free := [];
    }

    /** `Get`: a pooled buffer when there is one, otherwise a new empty one (`New`). */
    method Get() returns (b: Buffer)
      modifies this
      ensures old(free) == [] ==> fresh(b) && b.data == [] && free == []
      ensures old(free) != [] ==> b == old(free)[|old(free)| - 1] && free == old(free)[..|old(free)| - 1]
      ensures old(Valid()) ==> Valid() && b.data == [] && b !in free
    {
      if free == [] {
        b := new Buffer();
      } else {
        b := free[|free| - 1];
        free := free[..|free| - 1];
      }
    }

    /** `Put`: returns `b` to the pool; the pool stays valid exactly when `b` is empty and not pooled already. */
    method Put(b: Buffer)
      modifies this
      ensures free == old(free) + [b]
      ensures old(Valid()) ==> (Valid() <==> b.data == [] && b !in old(free))
    {
      free := free + [b];
      assert free[|free| - 1] == b;
      if b in old(free) {
        var i :| 0 <= i < |old(free)| && old(free)[i] == b;
        assert free[i] == free[|free| - 1];
      }
    }
  }

  /**
   * The compressing branch of `processBatches`: a buffer from the pool
   * receives the gzipped batch, and after the write it is reset and
   * returned. The pool ends as it was, or, when it was empty, holding the
   * one new buffer.
   */
  method Compress(pool: BufferPool, data: seq<byte>, gzip: seq<byte> -> seq<byte>) returns (body: seq<byte>)
    requires pool.Valid()
    modifies pool, pool.free
    ensures body == gzip(data)
    ensures pool.Valid()
    ensures old(pool.free) != [] ==> pool.free == old(pool.free)
    ensures old(pool.free) == [] ==> |pool.free| == 1 && fresh(pool.free[0])
  {
    var compressed := pool.Get();
    compressed.Write(gzip(data));
    body := compressed.data;
    compressed.Reset();
    pool.Put(compressed);
  }

  /** The options the workers share: `doLoad`, `useGzip`, the compressor, and telemetry. */
  datatype LoadOptions = LoadOptions(
    doLoad: bool,
    useGzip: bool,
    gzip: seq<byte> -> seq<byte>,
    reportTelemetry: bool,
    hostname: string)

  /** One call of `WriteLineProtocol`: the body and whether it is compressed. */
  datatype Request = Request(body: seq<byte>, gzipped: bool)

  /** The telemetry point for one delivered batch. */
  datatype TelemetryPoint = TelemetryPoint(
    srcAddr: string,
    dstAddr: string,
    workerId: string,
    reqNum: int,
    gzip: bool,
    bodyBytes: int)

  /** What is sent for a batch holding `data`. */
  function Body(data: seq<byte>, opts: LoadOptions): seq<byte> {
    if opts.useGzip then opts.gzip(data) else data
  }

  /** The request made for a batch holding `data`: none when nothing is loaded. */
  function Sent(data: seq<byte>, opts: LoadOptions): seq<Request> {
    if opts.doLoad then [Request(Body(data, opts), opts.useGzip)] else []
  }

  /** The requests made for the first `n` of the batches holding `datas`, in order. */
  function Requests(datas: seq<seq<byte>>, n: nat, opts: LoadOptions): (rs: seq<Request>)
    requires n <= |datas|
    ensures opts.doLoad ==> |rs| == n
    ensures !opts.doLoad ==> rs == []
  {
    if n == 0 then [] else Requests(datas, n - 1, opts) + Sent(datas[n - 1], opts)
  }

  /** The bodies of a sequence of requests, one after the other. */
  function BodyBytes(rs: seq<Request>): seq<byte>
    decreases |rs|
  {
    if rs == [] then [] else BodyBytes(rs[..|rs| - 1]) + rs[|rs| - 1].body
  }

  /** Without compression the daemon receives exactly the bytes of the batches, in order. */
  lemma {:induction false} PlainBodies(datas: seq<seq<byte>>, n: nat, opts: LoadOptions)
    requires n <= |datas|
    requires opts.doLoad && !opts.useGzip
    ensures BodyBytes(Requests(datas, n, opts)) == Flatten(datas[..n])
  {
    if n > 0 {
      PlainBodies(datas, n - 1, opts);
      var rs := Requests(datas, n, opts);
      assert rs[..|rs| - 1] == Requests(datas, n - 1, opts);
      assert datas[..n][..n - 1] == datas[..n - 1];
    }
  }

  /** The telemetry point for the batch of request number `reqNum`, from worker `workerLabel` writing to `url`. */
  function Point(url: string, workerLabel: string, reqNum: int, data: seq<byte>, opts: LoadOptions): TelemetryPoint {
    TelemetryPoint(opts.hostname, url, workerLabel, reqNum, opts.useGzip, |Body(data, opts)|)
  }

  /** The telemetry sent for a delivered batch: none unless loading with telemetry on. */
  function Reported(url: string, workerLabel: string, reqNum: int, data: seq<byte>, opts: LoadOptions): seq<TelemetryPoint> {
    if opts.doLoad && opts.reportTelemetry then [Point(url, workerLabel, reqNum, data, opts)] else []
  }

  /** The telemetry for the first `n` of the batches `datas`, delivered from request number `first` on. */
  function Points(url: string, workerLabel: string, first: int, datas: seq<seq<byte>>, n: nat, opts: LoadOptions)
    : (ps: seq<TelemetryPoint>)
    requires n <= |datas|
    ensures opts.doLoad && opts.reportTelemetry ==> |ps| == n
    ensures !(opts.doLoad && opts.reportTelemetry) ==> ps == []
  {
    if n == 0 then []
    else Points(url, workerLabel, first, datas, n - 1, opts) + Reported(url, workerLabel, first + n - 1, datas[n - 1], opts)
  }

  /** When loading, request `i` carries the body of batch `i`, compressed exactly when `useGzip`. */
  lemma {:induction false} RequestAt(datas: seq<seq<byte>>, n: nat, opts: LoadOptions, i: nat)
    requires i < n <= |datas|
    requires opts.doLoad
    ensures Requests(datas, n, opts)[i] == Request(Body(datas[i], opts), opts.useGzip)
  {
    if i < n - 1 {
      RequestAt(datas, n - 1, opts, i);
    }
  }

  /**
   * When loading with telemetry on, point `i` reports batch `i` under
   * request number `first + i`, with the size of the body that was sent.
   */
  lemma {:induction false} PointAt(url: string, workerLabel: string, first: int, datas: seq<seq<byte>>, n: nat,
                                   opts: LoadOptions, i: nat)
    requires i < n <= |datas|
    requires opts.doLoad && opts.reportTelemetry
    ensures Points(url, workerLabel, first, datas, n, opts)[i]
      == TelemetryPoint(opts.hostname, url, workerLabel, first + i, opts.useGzip, |Body(datas[i], opts)|)
  {
    if i < n - 1 {
      PointAt(url, workerLabel, first, datas, n - 1, opts, i);
    }
  }

  /**
   * One goroutine of `processBatches` with its HTTP writer. What it
   * hands to `WriteLineProtocol` and what it sends on the telemetry
   * channel are the methods' outputs, in order.
   */
  class Worker {
    /** The daemon URL of its writer. */
    const url: string
    /** `telemetryWorkerLabel`. */
    const workerLabel: string
    var batchesSeen: int

    constructor (url: string, workerLabel: string)
      ensures this.url == url && this.workerLabel == workerLabel && batchesSeen == 0
    {
      this.url := url;
      this.workerLabel := workerLabel;
      batchesSeen := 0;
    }

    /**
     * The body of the loop of `processBatches` for one received batch:
     * the request it makes, the telemetry it sends, and `fatal` for a
     * failed write, which ends the process.
     */
    method Handle(batch: Buffer, pool: BufferPool, opts: LoadOptions, writeFails: bool)
      returns (fatal: bool, sent: seq<Request>, reported: seq<TelemetryPoint>)
      requires pool.Valid() && batch !in pool.free
      modifies this, batch, pool, pool.free
      ensures batchesSeen == old(batchesSeen) + 1
      ensures fatal == (opts.doLoad && writeFails)
      ensures sent == Sent(old(batch.data), opts)
      ensures fatal ==> reported == []
      ensures !fatal ==> reported == Reported(url, workerLabel, batchesSeen, old(batch.data), opts)
      ensures pool.Valid()
      ensures !opts.doLoad ==> pool.free == old(pool.free)
      ensures old(pool.free) <= pool.free
      ensures forall i | |old(pool.free)| <= i < |pool.free| :: pool.free[i] == batch || fresh(pool.free[i])
      ensures opts.doLoad && !writeFails ==> batch.data == [] && batch in pool.free
      ensures !(opts.doLoad && !writeFails) ==> batch.data == old(batch.data) && batch !in pool.free
    {
      batchesSeen := batchesSeen + 1;
      sent, reported := [], [];
      if !opts.doLoad {
        return false, sent, reported;
      }
      var body: seq<byte>;
      if opts.useGzip {
        body := Compress(pool, batch.data, opts.gzip);
        sent := [Request(body, true)];
      } else {
        body := batch.data;
        sent := [Request(body, false)];
      }
      if writeFails {
        return true, sent, reported;
      }
      batch.Reset();
      pool.Put(batch);
      if opts.reportTelemetry {
        reported := [TelemetryPoint(opts.hostname, url, workerLabel, batchesSeen, opts.useGzip, |body|)];
      }
      return false, sent, reported;
    }

    /**
     * `processBatches` over the batches the worker receives, in order;
     * `datas` are their contents on entry. It stops at the first
     * failing write, which is fatal; `handled` batches have been counted
     * by then, and all but the failing one delivered. Every batch is handed
     * to the writer once and in order, each delivered batch yields its
     * telemetry point and ends reset and back in the pool, the batches not
     * delivered keep their contents and stay out of it, and the pool holds
     * only empty buffers throughout.
     */
    method ProcessBatches(batches: seq<Buffer>, ghost datas: seq<seq<byte>>, pool: BufferPool, opts: LoadOptions,
                          writeFails: nat -> bool)
      returns (handled: nat, fatal: bool, requests: seq<Request>, telemetry: seq<TelemetryPoint>)
      requires pool.Valid()
      requires |datas| == |batches| && Untouched(batches, datas, pool, 0)
      requires forall i, j | 0 <= i < j < |batches| :: batches[i] != batches[j]
      modifies this, pool, pool.free, batches
      ensures handled <= |batches|
      ensures !fatal ==> handled == |batches|
      ensures fatal <==> handled >= 1 && opts.doLoad && writeFails(handled - 1)
      ensures forall i | 0 <= i < handled - 1 :: !(opts.doLoad && writeFails(i))
      ensures batchesSeen == old(batchesSeen) + handled
      ensures requests == Requests(datas, handled, opts)
      ensures telemetry == Points(url, workerLabel, old(batchesSeen) + 1, datas, Delivered(fatal, handled), opts)
      ensures pool.Valid()
      ensures !opts.doLoad ==> pool.free == old(pool.free)
      ensures opts.doLoad ==> Recycled(pool, batches, Delivered(fatal, handled))
      ensures Untouched(batches, datas, pool, if opts.doLoad then Delivered(fatal, handled) else 0)
    {
      ghost var seen0 := batchesSeen;
      ghost var free0 := pool.free;
      handled, fatal, requests, telemetry := 0, false, [], [];
      while handled < |batches|
        invariant handled <= |batches|
        invariant Outcome(opts, writeFails, handled, false)
        invariant batchesSeen == seen0 + handled
        invariant requests == Requests(datas, handled, opts)
        invariant telemetry == Points(url, workerLabel, seen0 + 1, datas, Delivered(false, handled), opts)
        invariant PoolState(pool, batches, datas, free0, opts, Delivered(false, handled))
        invariant forall i | 0 <= i < |pool.free| :: pool.free[i] in free0 || pool.free[i] in batches || fresh(pool.free[i])
      {
        fatal, requests, telemetry := Receive(batches, datas, handled, pool, opts, writeFails, seen0, free0, requests, telemetry);
        handled := handled + 1;
        if fatal {
          OutcomeEnd(opts, writeFails, handled, fatal);
          return;
        }
      }
      OutcomeEnd(opts, writeFails, handled, fatal);
    }

    /**
     * One turn of the loop of `processBatches`: the worker receives
     * `batches[k]` and handles it. The requests and telemetry so far,
     * `requests0` and `telemetry0`, are those of the first `k` batches,
     * and after the turn the requests are those of the first `k + 1`, and
     * so is the telemetry unless the write failed. A delivered batch joins
     * the recycled ones; later batches are neither touched nor pooled.
     */
    method Receive(batches: seq<Buffer>, ghost datas: seq<seq<byte>>, k: nat, pool: BufferPool, opts: LoadOptions,
                   writeFails: nat -> bool, ghost seen0: int, ghost free0: seq<Buffer>,
                   requests0: seq<Request>, telemetry0: seq<TelemetryPoint>)
      returns (fatal: bool, requests: seq<Request>, telemetry: seq<TelemetryPoint>)
      requires k < |batches| == |datas|
      requires batchesSeen == seen0 + k
      requires Outcome(opts, writeFails, k, false)
      requires requests0 == Requests(datas, k, opts)
      requires telemetry0 == Points(url, workerLabel, seen0 + 1, datas, Delivered(false, k), opts)
      requires PoolState(pool, batches, datas, free0, opts, Delivered(false, k))
      requires forall i, j | 0 <= i < j < |batches| :: batches[i] != batches[j]
      modifies this, batches[k], pool, pool.free
      ensures batchesSeen == seen0 + k + 1
      ensures fatal == (opts.doLoad && writeFails(k))
      ensures Outcome(opts, writeFails, k + 1, fatal)
      ensures requests == Requests(datas, k + 1, opts)
      ensures telemetry == Points(url, workerLabel, seen0 + 1, datas, Delivered(fatal, k + 1), opts)
      ensures PoolState(pool, batches, datas, free0, opts, Delivered(fatal, k + 1))
      ensures forall i | 0 <= i < |pool.free| :: pool.free[i] in old(pool.free) || pool.free[i] == batches[k] || fresh(pool.free[i])
    {
      var batch := batches[k];
      var sent, reported;
      ghost var pooled := pool.free;
      fatal, sent, reported := Handle(batch, pool, opts, writeFails(k));
      requests := requests0 + sent;
      telemetry := telemetry0 + reported;
      OutcomeStep(opts, writeFails, k, fatal);
      if opts.doLoad {
        PooledGrows(pooled, pool.free, batches, k);
        if !fatal {
          PooledStep(pool.free, batches, k);
        }
        PooledEmpty(pool, batches, Delivered(fatal, k + 1));
      }
    }
  }

  /** The number of batches delivered when `handled` were handled: all but a failing last one. */
  function Delivered(fatal: bool, handled: int): int {
    if fatal then handled - 1 else handled
  }

  /**
   * The pool as the loop keeps it after `n` deliveries: valid, unchanged
   * from `free0` in a dry run, the first `n` batches recycled and the
   * others untouched.
   */
  ghost predicate PoolState(pool: BufferPool, batches: seq<Buffer>, datas: seq<seq<byte>>, free0: seq<Buffer>,
                            opts: LoadOptions, n: int)
    reads pool, pool.free, batches
  {
    && pool.Valid()
    && (!opts.doLoad ==> pool.free == free0)
    && Untouched(batches, datas, pool, if opts.doLoad then n else 0)
    && (opts.doLoad ==> Recycled(pool, batches, n))
  }

  /** The batches from `lo` on still hold their contents `datas` and are not in the pool. */
  ghost predicate Untouched(batches: seq<Buffer>, datas: seq<seq<byte>>, pool: BufferPool, lo: int)
    reads batches, pool
  {
    |datas| == |batches| &&
    forall i | lo <= i < |batches| && 0 <= i :: batches[i].data == datas[i] && batches[i] !in pool.free
  }

  /** The first `n` batches have been reset and returned to the pool. */
  ghost predicate Recycled(pool: BufferPool, batches: seq<Buffer>, n: int)
    reads batches, pool
  {
    n <= |batches| &&
    forall i | 0 <= i < n :: batches[i].data == [] && batches[i] in pool.free
  }

  /** The first `n` batches are among `free`. */
  ghost predicate Pooled(free: seq<Buffer>, batches: seq<Buffer>, n: nat)
  {
    n <= |batches| && forall i | 0 <= i < n :: batches[i] in free
  }

  /** A pool that only grows keeps every buffer it held. */
  lemma PooledGrows(free0: seq<Buffer>, free: seq<Buffer>, batches: seq<Buffer>, n: nat)
    requires free0 <= free && Pooled(free0, batches, n)
    ensures Pooled(free, batches, n)
  {
    forall i | 0 <= i < n
      ensures batches[i] in free
    {
      var j :| 0 <= j < |free0| && free0[j] == batches[i];
      assert free[j] == batches[i];
    }
  }

  lemma PooledStep(free: seq<Buffer>, batches: seq<Buffer>, n: nat)
    requires Pooled(free, batches, n) && n < |batches| && batches[n] in free
    ensures Pooled(free, batches, n + 1)
  {
  }

  /** The buffers of a valid pool are empty, so the pooled batches are recycled. */
  lemma PooledEmpty(pool: BufferPool, batches: seq<Buffer>, n: nat)
    requires pool.Valid() && Pooled(pool.free, batches, n)
    ensures Recycled(pool, batches, n)
  {
    forall i | 0 <= i < n
      ensures batches[i].data == []
    {
      var j :| 0 <= j < |pool.free| && pool.free[j] == batches[i];
    }
  }

  /**
   * The loop's progress after `handled` batches: `fatal` exactly when the
   * last one's write failed, and no earlier write failed.
   */
  ghost predicate Outcome(opts: LoadOptions, writeFails: nat -> bool, handled: nat, fatal: bool)
  {
    && (fatal ==> handled >= 1 && opts.doLoad && writeFails(handled - 1))
    && NoFailureBefore(opts, writeFails, Delivered(fatal, handled))
  }

  lemma OutcomeStep(opts: LoadOptions, writeFails: nat -> bool, k: nat, fatal: bool)
    requires Outcome(opts, writeFails, k, false) && fatal == (opts.doLoad && writeFails(k))
    ensures Outcome(opts, writeFails, k + 1, fatal)
  {
    if !fatal {
      NoFailureStep(opts, writeFails, k);
    }
  }

  /** When the loop ends, `fatal` says whether the last write failed, and none before it did. */
  lemma OutcomeEnd(opts: LoadOptions, writeFails: nat -> bool, handled: nat, fatal: bool)
    requires Outcome(opts, writeFails, handled, fatal)
    ensures fatal <==> handled >= 1 && opts.doLoad && writeFails(handled - 1)
    ensures forall i | 0 <= i < handled - 1 :: !(opts.doLoad && writeFails(i))
  {
  }

  /** No write among the first `n` fails. */
  ghost predicate NoFailureBefore(opts: LoadOptions, writeFails: nat -> bool, n: nat)
  {
    forall i | 0 <= i < n :: !(opts.doLoad && writeFails(i))
  }

  lemma NoFailureStep(opts: LoadOptions, writeFails: nat -> bool, n: nat)
    requires NoFailureBefore(opts, writeFails, n) && !(opts.doLoad && writeFails(n))
    ensures NoFailureBefore(opts, writeFails, n + 1)
  {
  }

  /** The decimal digit for `d`. */
  function Digit(d: nat): char
    requires d < 10
  {
    (48 + d) as char
  }

  /** `fmt.Sprintf("%d", n)` for `n >= 0`: the decimal numeral, no leading zeros. */
  function Decimal(n: nat): (s: string)
    ensures |s| >= 1
    ensures forall k | 0 <= k < |s| :: '0' <= s[k] <= '9'
    ensures |s| > 1 ==> s[0] != '0'
    decreases n
  {
    if n < 10 then [Digit(n)] else Decimal(n / 10) + [Digit(n % 10)]
  }

  /** The value of a decimal numeral, the reference that `Decimal` is checked against. */
  function DecimalValue(s: string): nat
    requires forall k | 0 <= k < |s| :: '0' <= s[k] <= '9'
    decreases |s|
  {
    if s == [] then 0 else DecimalValue(s[..|s| - 1]) * 10 + (s[|s| - 1] as int - 48)
  }

  /** `Decimal` writes the number it is given. */
  lemma {:induction false} DecimalRoundTrip(n: nat)
    ensures DecimalValue(Decimal(n)) == n
    decreases n
  {
    var s := Decimal(n);
    if n < 10 {
      assert s[..0] == [];
    } else {
      DecimalRoundTrip(n / 10);
      assert s[..|s| - 1] == Decimal(n / 10);
    }
  }

  /** Distinct workers carry distinct telemetry labels. */
  lemma LabelsDistinct(i: nat, j: nat)
    requires i != j
    ensures Decimal(i) != Decimal(j)
  {
    DecimalRoundTrip(i);
    DecimalRoundTrip(j);
  }

  /**
   * The loop of `main` that starts the workers: worker `i` writes to
   * `urls[i % |urls|]` and is labelled with `i` in decimal. `urls` comes
   * from `strings.Split`, which never returns an empty list.
   */
  method StartWorkers(urls: seq<string>, workers: int) returns (ws: seq<Worker>)
    requires |urls| >= 1
    ensures |ws| == if workers < 0 then 0 else workers
    ensures forall i | 0 <= i < |ws| ::
      && fresh(ws[i])
      && ws[i].url == urls[i % |urls|]
      && ws[i].workerLabel == Decimal(i)
      && ws[i].batchesSeen == 0
  {
    ws := [];
    var i := 0;
    while i < workers
      invariant 0 <= i <= (if workers < 0 then 0 else workers) && |ws| == i
      invariant forall k | 0 <= k < i ::
        && fresh(ws[k])
        && ws[k].url == urls[k % |urls|]
        && ws[k].workerLabel == Decimal(k)
        && ws[k].batchesSeen == 0
    {
      var w := new Worker(urls[i % |urls|], Decimal(i));
      ws := ws + [w];
      i := i + 1;
    }
  }

  /** How many of the first `n` workers are bound to URL index `j` of `m`. */
  function WorkersOn(m: nat, j: nat, n: nat): nat
    requires m >= 1
    decreases n
  {
    if n == 0 then 0 else WorkersOn(m, j, n - 1) + (if (n - 1) % m == j then 1 else 0)
  }

  lemma SmallMultiple(m: int, k: int)
    requires m >= 1 && -m < m * k < m
    ensures k == 0
  {
  }

  lemma DivModUnique(a: int, m: int, q: int, r: int)
    requires m >= 1 && a == m * q + r && 0 <= r < m
    ensures a / m == q && a % m == r
  {
    var k := q - a / m;
    assert m * k == a % m - r;
    SmallMultiple(m, k);
  }

  lemma ModStep(n: nat, m: nat)
    requires m >= 1
    ensures n % m == m - 1 ==> (n + 1) % m == 0 && (n + 1) / m == n / m + 1
    ensures n % m < m - 1 ==> (n + 1) % m == n % m + 1 && (n + 1) / m == n / m
  {
    var q, r := n / m, n % m;
    if r == m - 1 {
      DivModUnique(n + 1, m, q + 1, 0);
    } else {
      DivModUnique(n + 1, m, q, r + 1);
    }
  }

  /**
   * Round robin spreads `n` workers evenly over `m` URLs: URL `j` gets
   * `n / m` of them, and one more when `j < n % m`.
   */
  lemma {:induction false} WorkersOnCount(m: nat, j: nat, n: nat)
    requires m >= 1 && j < m
    ensures WorkersOn(m, j, n) == n / m + (if j < n % m then 1 else 0)
    decreases n
  {
    if n > 0 {
      var p := n - 1;
      WorkersOnCount(m, j, p);
      ModStep(p, m);
      var q, r := p / m, p % m;
      assert WorkersOn(m, j, n) == WorkersOn(m, j, p) + (if r == j then 1 else 0);
      if r == m - 1 {
        assert n / m == q + 1 && n % m == 0;
      } else {
        assert n / m == q && n % m == r + 1;
      }
    }
  }

  /** Any two URLs get worker counts that differ by at most one. */
  lemma RoundRobinBalanced(m: nat, j1: nat, j2: nat, n: nat)
    requires m >= 1 && j1 < m && j2 < m
    ensures -1 <= WorkersOn(m, j1, n) - WorkersOn(m, j2, n) <= 1
  {
    WorkersOnCount(m, j1, n);
    WorkersOnCount(m, j2, n);
  }

  /** With at least as many workers as URLs, every URL gets a worker. */
  lemma RoundRobinCovers(m: nat, j: nat, n: nat)
    requires m >= 1 && j < m <= n
    ensures WorkersOn(m, j, n) >= 1
  {
    WorkersOnCount(m, j, n);
    QuotientPositive(n, m);
  }

  lemma QuotientPositive(n: nat, m: nat)
    requires 1 <= m <= n
    ensures n / m >= 1
  {
  }
}
