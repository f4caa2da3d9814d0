/**
 * The loader end to end, viewed sequentially with a single worker: `scan`
 * sends its batches on the channel, and the worker receives them in the
 * order they were sent. With several workers each batch goes to exactly
 * one of them; which one is a matter of scheduling and is not modelled.
 */
module BulkLoadPipeline {
  import opened Common
  import opened BulkLoadScan
  import opened BulkLoadWorker

  /**
   * The buffers `scan` hands over on the channel: for each batch a buffer
   * taken from the shared pool with `Get`, empty as every pooled buffer is,
   * and written with that batch. No two are the same, none is left in the
   * pool, and each was pooled before or is new.
   */
  method NewBatches(pool: BufferPool, datas: seq<seq<byte>>) returns (bs: seq<Buffer>)
    requires pool.Valid()
    modifies pool, pool.free
    ensures pool.Valid()
    ensures |bs| == |datas|
    ensures Untouched(bs, datas, pool, 0)
    ensures forall i | 0 <= i < |bs| :: bs[i] in old(pool.free) || fresh(bs[i])
    ensures forall i, j | 0 <= i < j < |bs| :: bs[i] != bs[j]
    ensures forall i | 0 <= i < |pool.free| :: pool.free[i] in old(pool.free)
    ensures old(pool.free) == [] ==> pool.free == [] && forall i | 0 <= i < |bs| :: fresh(bs[i])
  {
    bs := [];
    while |bs| < |datas|
      invariant pool.Valid()
      invariant |bs| <= |datas|
      invariant forall i | 0 <= i < |bs| :: bs[i].data == datas[i] && bs[i] !in pool.free
      invariant forall i | 0 <= i < |bs| :: bs[i] in old(pool.free) || fresh(bs[i])
      invariant forall i, j | 0 <= i < j < |bs| :: bs[i] != bs[j]
      invariant forall i | 0 <= i < |pool.free| :: pool.free[i] in old(pool.free)
      invariant old(pool.free) == [] ==> pool.free == [] && forall i | 0 <= i < |bs| :: fresh(bs[i])
    {
      var b := pool.Get();
      b.Write(datas[|bs|]);
      bs := bs + [b];
    }
  }

  /**
   * `scan` followed by one worker writing to `url`: the worker is handed
   * every batch the scan sent, and makes exactly the requests and reports
   * exactly the telemetry of those batches, up to the first failed write.
   */
  method LoadOneWorker(lines: seq<Line>, readFailed: bool, cfg: ScanConfig, url: string, opts: LoadOptions,
                       writeFails: nat -> bool)
    returns (outcome: ScanOutcome, sent: seq<seq<byte>>, handled: nat, fatal: bool,
             requests: seq<Request>, telemetry: seq<TelemetryPoint>)
    ensures ScanResult(sent, outcome) == ScanSpec(lines, readFailed, cfg)
    ensures handled <= |sent| && (!fatal ==> handled == |sent|)
    ensures fatal <==> handled >= 1 && opts.doLoad && writeFails(handled - 1)
    ensures requests == Requests(sent, handled, opts)
    ensures var ok := if fatal then handled - 1 else handled;
      telemetry == Points(url, "0", 1, sent, ok, opts)
  {
    sent, outcome := Scan(lines, readFailed, cfg);
    handled, fatal, requests, telemetry := Deliver(sent, url, opts, writeFails);
  }

  /** The batches handed, in order, to a new worker with label "0" and a new buffer pool. */
  method Deliver(sent: seq<seq<byte>>, url: string, opts: LoadOptions, writeFails: nat -> bool)
    returns (handled: nat, fatal: bool, requests: seq<Request>, telemetry: seq<TelemetryPoint>)
    ensures handled <= |sent| && (!fatal ==> handled == |sent|)
    ensures fatal <==> handled >= 1 && opts.doLoad && writeFails(handled - 1)
    ensures requests == Requests(sent, handled, opts)
    ensures telemetry == Points(url, "0", 1, sent, Delivered(fatal, handled), opts)
  {
    var pool := new BufferPool();
    var batches := NewBatches(pool, sent);
    var worker := new Worker(url, "0");
    assert worker.url == url && worker.workerLabel == "0" && worker.batchesSeen + 1 == 1;
    handled, fatal, requests, telemetry := worker.ProcessBatches(batches, sent, pool, opts, writeFails);
  }

  /**
   * A successful scan loaded uncompressed by a worker whose writes all
   * succeed: the daemon receives the data lines of the input, each once,
   * in input order and followed by a newline, and nothing else.
   */
  lemma PlainDelivery(lines: seq<Line>, readFailed: bool, cfg: ScanConfig, opts: LoadOptions)
    requires cfg.itemsPerBatch >= 1 && cfg.itemLimit != 0
    requires opts.doLoad && !opts.useGzip
    ensures var r := ScanSpec(lines, readFailed, cfg);
      r.outcome.Loaded? ==> BodyBytes(Requests(r.sent, |r.sent|, opts)) == Bytes(Consumed(lines, cfg))
  {
    var r := ScanSpec(lines, readFailed, cfg);
    if r.outcome.Loaded? {
      LoadedAccounting(lines, readFailed, cfg);
      PlainBodies(r.sent, |r.sent|, opts);
      assert r.sent[..|r.sent|] == r.sent;
    }
  }

  /**
   * When loading, one request is made per batch `scan` sent, and request
   * `i` carries batch `i`, gzipped exactly when `useGzip`: no batch is
   * delivered twice or skipped.
   */
  lemma OneRequestPerBatch(lines: seq<Line>, readFailed: bool, cfg: ScanConfig, opts: LoadOptions, i: nat)
    requires opts.doLoad
    requires i < |ScanSpec(lines, readFailed, cfg).sent|
    ensures var sent := ScanSpec(lines, readFailed, cfg).sent;
      && |Requests(sent, |sent|, opts)| == |sent|
      && Requests(sent, |sent|, opts)[i] == Request(if opts.useGzip then opts.gzip(sent[i]) else sent[i], opts.useGzip)
  {
    var sent := ScanSpec(lines, readFailed, cfg).sent;
    RequestAt(sent, |sent|, opts, i);
  }
}
