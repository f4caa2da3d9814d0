/**
 * `scan` of cmd/bulk_load_es: the producer side of the loader. It reads the
 * Elasticsearch bulk input line by line (two lines make one item), skips the
 * "totals" lines that the generator embeds in the stream, writes every other
 * line followed by a newline into the current buffer, cuts a batch when the
 * buffer holds `itemsPerBatch` items or the item limit is reached, sends the
 * last partial batch, and finally checks the line and item counts.
 *
 * The channel `batchChan` is an append-only sequence of sent batches. The
 * scan is specified by a left fold `Run` of a one-line step `Feed`, followed
 * by `Finish`; the method `Scan` is proved to compute exactly that, and the
 * lemmas below state what the fold does in terms of the input alone.
 */
module BulkLoadScan {
  import opened Common

  type Line = seq<byte>

  /** What `common.CheckTotalValues` reports for one input line. */
  datatype TotalsReport = TotalsReport(points: int, values: int, failed: bool)

  /**
   * The parameter of `scan`, the `itemLimit` flag (negative: no limit) and
   * `common.CheckTotalValues`, whose code is not part of this model.
   */
  datatype ScanConfig = ScanConfig(itemsPerBatch: int, itemLimit: int, checkTotals: Line -> TotalsReport)

  /** A line that announces the expected totals; `scan` skips it. */
  predicate IsTotals(r: TotalsReport) {
    r.points > 0 || r.values > 0
  }

  /** A line that `scan` writes into a batch. */
  predicate IsData(r: TotalsReport) {
    !IsTotals(r) && !r.failed
  }

  /** Why the loop stopped reading: it has not, the item limit, or a failed check at that input index. */
  datatype Stop = Scanning | LimitReached | BadLine(index: nat)

  /**
   * The local variables of `scan`. `position` counts the input lines the
   * scanner has delivered, totals lines included; `buf` is the content of the
   * current buffer and `sent` the batches sent on the channel so far.
   */
  datatype ScanState = ScanState(
    position: nat,
    linesRead: int,
    itemsRead: int,
    itemsThisBatch: int,
    bytesRead: int,
    buf: seq<byte>,
    sent: seq<seq<byte>>,
    totalPoints: int,
    totalValues: int,
    stop: Stop)

  /** The state before the first line: an empty buffer fresh from the pool and zero counters. */
  const Start := ScanState(0, 0, 0, 0, 0, [], [], 0, 0, Scanning)

  /**
   * One iteration of the loop of `scan` on one input line. A stopped loop
   * reads nothing more; otherwise the scanner delivers one more line, at
   * most one more data line is counted, and at most one batch is sent.
   */
  function Feed(st: ScanState, line: Line, cfg: ScanConfig): (s: ScanState)
    ensures !st.stop.Scanning? ==> s == st
    ensures st.stop.Scanning? ==> s.position == st.position + 1
    ensures st.stop.Scanning? ==> st.linesRead <= s.linesRead <= st.linesRead + 1
    ensures |st.sent| <= |s.sent| <= |st.sent| + 1
  {
    if !st.stop.Scanning? then st
    else
      var r := cfg.checkTotals(line);
      var st1 := st.(position := st.position + 1, totalPoints := r.points, totalValues := r.values);
      if IsTotals(r) then st1
      else if r.failed then st1.(stop := BadLine(st.position))
      else
        var linesRead := st.linesRead + 1;
        var buf := st.buf + line + [Newline];
        var itemsRead := if linesRead % 2 == 0 then st.itemsRead + 1 else st.itemsRead;
        var itemsThisBatch := if linesRead % 2 == 0 then st.itemsThisBatch + 1 else st.itemsThisBatch;
        var hitLimit := cfg.itemLimit >= 0 && itemsRead >= cfg.itemLimit;
        var cut := itemsThisBatch == cfg.itemsPerBatch || hitLimit;
        st1.(linesRead := linesRead,
             itemsRead := itemsRead,
             itemsThisBatch := if cut then 0 else itemsThisBatch,
             bytesRead := if cut then st.bytesRead + |buf| else st.bytesRead,
             buf := if cut then [] else buf,
             sent := if cut then st.sent + [buf] else st.sent,
             stop := if hitLimit then LimitReached else Scanning)
  }

  /** The state after the loop has been offered `lines` in order. */
  function Run(lines: seq<Line>, cfg: ScanConfig): (st: ScanState)
    ensures st.position <= |lines|
    ensures st.stop.Scanning? ==> st.position == |lines|
    decreases |lines|
  {
    if lines == [] then Start
    else Feed(Run(lines[..|lines| - 1], cfg), lines[|lines| - 1], cfg)
  }

  /** How `scan` ends: its result triple, or the fatal error that stops the process. */
  datatype ScanOutcome =
    | Loaded(itemsRead: int, bytesRead: int, valuesRead: int)
    | CheckFailed(index: nat)
    | ReadFailed
    | OddLineCount(linesRead: int)
    | PointCountMismatch(itemsRead: int, expected: int)

  /** Every batch sent on the channel, in order, and the outcome. */
  datatype ScanResult = ScanResult(sent: seq<seq<byte>>, outcome: ScanOutcome)

  /**
   * The two checks after `inputDone` is closed: an odd line count fails,
   * then a point count other than the announced total; only a state that
   * passes both loads, and it reports its counters.
   */
  function FinalCheck(st: ScanState): (o: ScanOutcome)
    ensures o.OddLineCount? <==> st.linesRead % 2 != 0
    ensures o.Loaded? <==> st.linesRead % 2 == 0 && st.itemsRead == st.totalPoints
    ensures o.Loaded? ==> o == Loaded(st.itemsRead, st.bytesRead, st.totalValues)
    ensures o.PointCountMismatch? ==> o.itemsRead == st.itemsRead != o.expected == st.totalPoints
    ensures !o.CheckFailed? && !o.ReadFailed?
  {
    if st.linesRead % 2 != 0 then OddLineCount(st.linesRead)
    else if st.itemsRead != st.totalPoints then PointCountMismatch(st.itemsRead, st.totalPoints)
    else Loaded(st.itemsRead, st.bytesRead, st.totalValues)
  }

  /**
   * What follows the loop: a failed line check has already ended the
   * process; a read error (possible only when the input ran out, not after a
   * break) ends it before the trailing batch; otherwise the partial batch is
   * sent when it holds an item, and the final checks decide.
   */
  function Finish(st: ScanState, readFailed: bool): (r: ScanResult)
    ensures r.outcome.CheckFailed? <==> st.stop.BadLine?
    ensures r.outcome.ReadFailed? <==> st.stop.Scanning? && readFailed
    ensures r.sent == st.sent || (r.sent == st.sent + [st.buf] && st.itemsThisBatch > 0)
  {
    match st.stop
    case BadLine(k) => ScanResult(st.sent, CheckFailed(k))
    case _ =>
      if st.stop.Scanning? && readFailed then ScanResult(st.sent, ReadFailed)
      else
        var sent := if st.itemsThisBatch > 0 then st.sent + [st.buf] else st.sent;
        ScanResult(sent, FinalCheck(st))
  }

  /**
   * The whole of `scan` on an input that delivers `lines` and then ends,
   * with a read error when `readFailed`.
   */
  function ScanSpec(lines: seq<Line>, readFailed: bool, cfg: ScanConfig): (r: ScanResult)
    ensures r.outcome.ReadFailed? ==> readFailed && Run(lines, cfg).position == |lines|
  {
    Finish(Run(lines, cfg), readFailed)
  }

  /** The loop of `scan` itself. */
  method Scan(lines: seq<Line>, readFailed: bool, cfg: ScanConfig) returns (sent: seq<seq<byte>>, outcome: ScanOutcome)
    ensures ScanResult(sent, outcome) == ScanSpec(lines, readFailed, cfg)
  {
    var buf: seq<byte> := [];
    var linesRead, itemsRead, bytesRead := 0, 0, 0;
    var totalPoints, totalValues := 0, 0;
    var itemsThisBatch := 0;
    var limited := false;
    sent := [];
    var i := 0;
    while i < |lines|
      invariant 0 <= i <= |lines|
      invariant Run(lines[..i], cfg)
        == ScanState(i, linesRead, itemsRead, itemsThisBatch, bytesRead, buf, sent, totalPoints, totalValues, Scanning)
      invariant !limited
    {
      ghost var st := ScanState(i, linesRead, itemsRead, itemsThisBatch, bytesRead, buf, sent,
                                totalPoints, totalValues, Scanning);
      var line := lines[i];
      RunFeed(lines, i, cfg);
      var report := cfg.checkTotals(line);
      totalPoints, totalValues := report.points, report.values;
      i := i + 1;
      if totalPoints > 0 || totalValues > 0 {
        continue;
      }
      if report.failed {
        StoppedPrefix(lines, i, cfg);
        outcome := CheckFailed(i - 1);
        return;
      }
      linesRead := linesRead + 1;
      buf := buf + line + [Newline];
      if linesRead % 2 == 0 {
        itemsRead := itemsRead + 1;
        itemsThisBatch := itemsThisBatch + 1;
      }
      var hitLimit := cfg.itemLimit >= 0 && itemsRead >= cfg.itemLimit;
      if itemsThisBatch == cfg.itemsPerBatch || hitLimit {
        bytesRead := bytesRead + |buf|;
        sent := sent + [buf];
        buf := [];
        itemsThisBatch := 0;
      }
      if hitLimit {
        limited := true;
        assert Feed(st, line, cfg)
          == ScanState(i, linesRead, itemsRead, itemsThisBatch, bytesRead, buf, sent, totalPoints, totalValues, LimitReached);
        StoppedPrefix(lines, i, cfg);
        break;
      }
    }
    assert !limited ==> lines[..i] == lines;
    ghost var st := Run(lines, cfg);
    assert st == ScanState(i, linesRead, itemsRead, itemsThisBatch, bytesRead, buf, sent, totalPoints, totalValues,
                           if limited then LimitReached else Scanning);
    if !limited && readFailed {
      outcome := ReadFailed;
      return;
    }
    // Finished reading input: the last partial batch goes out.
    if itemsThisBatch > 0 {
      sent := sent + [buf];
    }
    if linesRead % 2 != 0 {
      outcome := OddLineCount(linesRead);
    } else if itemsRead != totalPoints {
      outcome := PointCountMismatch(itemsRead, totalPoints);
    } else {
      outcome := Loaded(itemsRead, bytesRead, totalValues);
    }
  }

  /** The fold over one more line of the input. */
  lemma RunFeed(lines: seq<Line>, i: nat, cfg: ScanConfig)
    requires i < |lines|
    ensures Run(lines[..i + 1], cfg) == Feed(Run(lines[..i], cfg), lines[i], cfg)
  {
    assert lines[..i + 1][..i] == lines[..i];
  }

  /** A loop that has stopped after `i` lines ends with the state it stopped in. */
  lemma StoppedPrefix(lines: seq<Line>, i: nat, cfg: ScanConfig)
    requires i <= |lines| && !Run(lines[..i], cfg).stop.Scanning?
    ensures Run(lines, cfg) == Run(lines[..i], cfg)
  {
    StoppedStaysStopped(lines[..i], lines[i..], cfg);
    assert lines[..i] + lines[i..] == lines;
  }

  /** Once the loop has stopped (limit or failed check), no later line is read. */
  lemma {:induction false} StoppedStaysStopped(a: seq<Line>, b: seq<Line>, cfg: ScanConfig)
    requires !Run(a, cfg).stop.Scanning?
    ensures Run(a + b, cfg) == Run(a, cfg)
    decreases |b|
  {
    if b != [] {
      var b' := b[..|b| - 1];
      assert (a + b)[..|a + b| - 1] == a + b';
      StoppedStaysStopped(a, b', cfg);
      assert Run(a + b, cfg) == Feed(Run(a + b', cfg), (a + b)[|a + b| - 1], cfg);
    } else {
      assert a + b == a;
    }
  }

  /** The input lines that `scan` writes, in order: neither totals lines nor failing ones. */
  function DataLines(lines: seq<Line>, check: Line -> TotalsReport): seq<Line>
    decreases |lines|
  {
    if lines == [] then []
    else
      var last := lines[|lines| - 1];
      DataLines(lines[..|lines| - 1], check) + (if IsData(check(last)) then [last] else [])
  }

  /** The bytes a buffer holds after the lines `d` are written into it, each followed by a newline. */
  function Bytes(d: seq<Line>): seq<byte>
    decreases |d|
  {
    if d == [] then [] else Bytes(d[..|d| - 1]) + d[|d| - 1] + [Newline]
  }

  /** The data lines among the input lines the scanner has delivered. */
  ghost function Consumed(lines: seq<Line>, cfg: ScanConfig): seq<Line> {
    DataLines(lines[..Run(lines, cfg).position], cfg.checkTotals)
  }

  lemma {:induction false} BytesAppend(a: seq<Line>, b: seq<Line>)
    ensures Bytes(a + b) == Bytes(a) + Bytes(b)
    decreases |b|
  {
    if b == [] {
      assert a + b == a;
    } else {
      var b' := b[..|b| - 1];
      assert (a + b)[..|a + b| - 1] == a + b';
      BytesAppend(a, b');
    }
  }

  lemma {:induction false} FlattenAppend(a: seq<seq<byte>>, b: seq<seq<byte>>)
    ensures Flatten(a + b) == Flatten(a) + Flatten(b)
    decreases |b|
  {
    if b == [] {
      assert a + b == a;
    } else {
      var b' := b[..|b| - 1];
      assert (a + b)[..|a + b| - 1] == a + b';
      FlattenAppend(a, b');
    }
  }

  /**
   * The loop reads a prefix of the input and stops at its first stop: the
   * state after all lines is the state after that prefix, and before its
   * last line the loop was still reading.
   */
  lemma {:induction false} RunPosition(lines: seq<Line>, cfg: ScanConfig)
    ensures var st := Run(lines, cfg);
      && Run(lines[..st.position], cfg) == st
      && (st.position > 0 ==> Run(lines[..st.position - 1], cfg).stop.Scanning?)
    decreases |lines|
  {
    if lines != [] {
      var init := lines[..|lines| - 1];
      var st0 := Run(init, cfg);
      RunPosition(init, cfg);
      if st0.stop.Scanning? {
        assert lines[..|lines|] == lines;
        assert lines[..|lines| - 1] == init;
      } else {
        assert lines[..st0.position] == init[..st0.position];
        if st0.position > 0 {
          assert lines[..st0.position - 1] == init[..st0.position - 1];
        }
      }
    }
  }

  /** While the loop reads, `Consumed` grows by the line just read when it is a data line. */
  lemma ConsumedStep(lines: seq<Line>, cfg: ScanConfig)
    requires lines != []
    requires Run(lines[..|lines| - 1], cfg).stop.Scanning?
    ensures Consumed(lines, cfg) == Consumed(lines[..|lines| - 1], cfg)
      + (if IsData(cfg.checkTotals(lines[|lines| - 1])) then [lines[|lines| - 1]] else [])
  {
    var init := lines[..|lines| - 1];
    assert Run(lines, cfg).position == |lines|;
    assert lines[..|lines|] == lines;
    assert init[..|init|] == init;
  }

  /** After a stop `Consumed` does not change. */
  lemma ConsumedStopped(lines: seq<Line>, cfg: ScanConfig)
    requires lines != []
    requires !Run(lines[..|lines| - 1], cfg).stop.Scanning?
    ensures Consumed(lines, cfg) == Consumed(lines[..|lines| - 1], cfg)
  {
    var init := lines[..|lines| - 1];
    assert lines[..Run(init, cfg).position] == init[..Run(init, cfg).position];
  }

  /**
   * Every data line is counted in `linesRead`, no other line is, and an item
   * is counted on every second data line.
   */
  lemma {:induction false} RunCounts(lines: seq<Line>, cfg: ScanConfig)
    ensures Run(lines, cfg).linesRead == |Consumed(lines, cfg)|
    ensures Run(lines, cfg).itemsRead == Run(lines, cfg).linesRead / 2
    ensures |Run(lines, cfg).sent| <= Run(lines, cfg).linesRead
    decreases |lines|
  {
    if lines != [] {
      var init := lines[..|lines| - 1];
      RunCounts(init, cfg);
      if Run(init, cfg).stop.Scanning? {
        ConsumedStep(lines, cfg);
      } else {
        ConsumedStopped(lines, cfg);
      }
    }
  }

  /**
   * The batches sent so far followed by the current buffer are exactly the
   * data lines read, in input order, each followed by a newline; `bytesRead`
   * is the length of the batches cut so far.
   */
  lemma {:induction false} RunContents(lines: seq<Line>, cfg: ScanConfig)
    ensures Flatten(Run(lines, cfg).sent) + Run(lines, cfg).buf == Bytes(Consumed(lines, cfg))
    ensures Run(lines, cfg).bytesRead == |Flatten(Run(lines, cfg).sent)|
    decreases |lines|
  {
    if lines != [] {
      var init := lines[..|lines| - 1];
      var line := lines[|lines| - 1];
      RunContents(init, cfg);
      if Run(init, cfg).stop.Scanning? {
        ConsumedStep(lines, cfg);
        if IsData(cfg.checkTotals(line)) {
          ContentsData(Run(init, cfg), line, cfg, Consumed(init, cfg));
        } else {
          ContentsOther(Run(init, cfg), line, cfg);
          assert Consumed(init, cfg) + [] == Consumed(init, cfg);
        }
      } else {
        ConsumedStopped(lines, cfg);
      }
    }
  }

  /** A data line goes into the buffer, and with it possibly into the channel. */
  lemma ContentsData(st0: ScanState, line: Line, cfg: ScanConfig, d0: seq<Line>)
    requires st0.stop.Scanning? && IsData(cfg.checkTotals(line))
    requires Flatten(st0.sent) + st0.buf == Bytes(d0)
    requires st0.bytesRead == |Flatten(st0.sent)|
    ensures var st := Feed(st0, line, cfg);
      && Flatten(st.sent) + st.buf == Bytes(d0 + [line])
      && st.bytesRead == |Flatten(st.sent)|
  {
    var buf := st0.buf + line + [Newline];
    var st := Feed(st0, line, cfg);
    FeedData(st0, line, cfg);
    BytesPush(d0, line);
    if st.sent == st0.sent + [buf] {
      FlattenPush(st0.sent, buf);
      AppendLine(Flatten(st0.sent), st0.buf, line);
    } else {
      AppendLine(Flatten(st0.sent), st0.buf, line);
    }
  }

  lemma AppendLine(f: seq<byte>, b: seq<byte>, line: Line)
    ensures f + (b + line + [Newline]) + [] == f + b + line + [Newline]
    ensures f + (b + line + [Newline]) == f + b + line + [Newline]
  {
  }

  /** A data line is appended to the buffer, which is either kept or sent and replaced by an empty one. */
  lemma FeedData(st0: ScanState, line: Line, cfg: ScanConfig)
    requires st0.stop.Scanning? && IsData(cfg.checkTotals(line))
    ensures var st := Feed(st0, line, cfg); var buf := st0.buf + line + [Newline];
      || (st.sent == st0.sent + [buf] && st.buf == [] && st.bytesRead == st0.bytesRead + |buf|)
      || (st.sent == st0.sent && st.buf == buf && st.bytesRead == st0.bytesRead)
  {
  }

  lemma BytesPush(d: seq<Line>, line: Line)
    ensures Bytes(d + [line]) == Bytes(d) + line + [Newline]
  {
    assert (d + [line])[..|d|] == d;
  }

  lemma FlattenPush(bs: seq<seq<byte>>, b: seq<byte>)
    ensures Flatten(bs + [b]) == Flatten(bs) + b
  {
    assert (bs + [b])[..|bs|] == bs;
  }

  /** Any other line leaves the buffer and the channel as they are. */
  lemma ContentsOther(st0: ScanState, line: Line, cfg: ScanConfig)
    requires st0.stop.Scanning? && !IsData(cfg.checkTotals(line))
    ensures var st := Feed(st0, line, cfg);
      st.sent == st0.sent && st.buf == st0.buf && st.bytesRead == st0.bytesRead
  {
  }


  /**
   * `totalPoints` and `totalValues` hold what `CheckTotalValues` reported for the
   * last line the scanner delivered, whatever kind of line it was, and 0
   * when there was none.
   */
  lemma {:induction false} RunTotals(lines: seq<Line>, cfg: ScanConfig)
    ensures var st := Run(lines, cfg);
      && (st.position == 0 ==> st.totalPoints == 0 && st.totalValues == 0)
      && (st.position > 0 ==>
            && st.totalPoints == cfg.checkTotals(lines[st.position - 1]).points
            && st.totalValues == cfg.checkTotals(lines[st.position - 1]).values)
    decreases |lines|
  {
    if lines != [] {
      RunTotals(lines[..|lines| - 1], cfg);
    }
  }

  /**
   * A totals line leaves every counter, the buffer and the channel as they
   * were: it only overwrites `totalPoints` and `totalValues`.
   */
  lemma TotalsLineSkipped(lines: seq<Line>, t: Line, cfg: ScanConfig)
    requires Run(lines, cfg).stop.Scanning?
    requires IsTotals(cfg.checkTotals(t))
    ensures Run(lines + [t], cfg) == Run(lines, cfg).(
      position := |lines| + 1,
      totalPoints := cfg.checkTotals(t).points,
      totalValues := cfg.checkTotals(t).values)
  {
    assert (lines + [t])[..|lines|] == lines;
  }

  /**
   * Reference definition of the batches for `itemsPerBatch >= 1`: the data
   * lines cut from the front into groups of `2 * itemsPerBatch` lines; every
   * group that holds an item (two lines or more) is a batch, and a lone last
   * line is not.
   */
  function Batches(d: seq<Line>, itemsPerBatch: int): seq<seq<byte>>
    requires itemsPerBatch >= 1
    decreases |d|
  {
    var size := 2 * itemsPerBatch;
    if |d| < 2 then []
    else if |d| <= size then [Bytes(d)]
    else [Bytes(d[..size])] + Batches(d[size..], itemsPerBatch)
  }

  function Min(a: int, b: int): int {
    if a <= b then a else b
  }

  /** `k` is a whole number of groups of `size` lines. */
  predicate WholeGroups(k: int, size: int)
    requires size >= 1
    decreases k
  {
    k == 0 || (k >= size && WholeGroups(k - size, size))
  }

  /** The largest whole number of groups at or below `n`: where the current batch of a scan that has read `n` data lines starts. */
  function CutPoint(n: nat, size: nat): (c: nat)
    requires size >= 1
    ensures c <= n < c + size
    decreases n
  {
    if n < size then 0 else size + CutPoint(n - size, size)
  }

  /** The current batch starts after whole groups. */
  lemma {:induction false} CutWhole(n: nat, size: nat)
    requires size >= 1
    ensures WholeGroups(CutPoint(n, size), size)
    decreases n
  {
    if n >= size {
      CutWhole(n - size, size);
    }
  }

  lemma {:induction false} CutStep(n: nat, size: nat)
    requires size >= 1
    ensures n + 1 - CutPoint(n, size) == size ==> CutPoint(n + 1, size) == n + 1
    ensures n + 1 - CutPoint(n, size) < size ==> CutPoint(n + 1, size) == CutPoint(n, size)
    decreases n
  {
    if n >= size {
      CutStep(n - size, size);
    }
  }

  lemma {:induction false} WholeGroupsEven(k: int, size: int)
    requires size >= 1 && size % 2 == 0 && WholeGroups(k, size)
    ensures k % 2 == 0
    decreases k
  {
    if k != 0 {
      WholeGroupsEven(k - size, size);
      EvenSum(k - size, size);
    }
  }

  lemma EvenSum(a: int, b: int)
    requires a % 2 == 0 && b % 2 == 0
    ensures (a + b) % 2 == 0
  {
  }

  lemma ArithStep(size: int, k: int, k': int, m: int, n: int)
    requires size >= 2 && n == m + size && m >= 0 && k == k' + 1
    requires if m < 2 then k' == 0 else size * (k' - 1) + 2 <= m < size * k' + 2
    ensures size * (k - 1) + 2 <= n < size * k + 2
  {
    assert size * (k - 1) == size * k';
    assert size * k == size * k' + size;
  }

  lemma ShiftStep(size: int, i: int, j: int)
    requires size >= 2 && i == j + 1 && j >= 0
    ensures size * j >= 0
    ensures size * i == size * j + size
  {
  }

  /** How many batches there are: one per group of `2 * itemsPerBatch` lines holding an item. */
  lemma {:induction false} BatchesCount(d: seq<Line>, itemsPerBatch: int)
    requires itemsPerBatch >= 1
    ensures var size := 2 * itemsPerBatch; var k := |Batches(d, itemsPerBatch)|;
      if |d| < 2 then k == 0 else size * (k - 1) + 2 <= |d| < size * k + 2
    decreases |d|
  {
    var size := 2 * itemsPerBatch;
    if |d| > size {
      var d' := d[size..];
      BatchesCount(d', itemsPerBatch);
      BatchesUnfold(d, itemsPerBatch);
      ArithStep(size, |Batches(d, itemsPerBatch)|, |Batches(d', itemsPerBatch)|, |d'|, |d|);
    }
  }

  /** Batch `i` holds the lines from `2 * itemsPerBatch * i` on: at least 2 of them and at most `2 * itemsPerBatch`. */
  lemma {:induction false} BatchAt(d: seq<Line>, itemsPerBatch: int, i: nat)
    requires itemsPerBatch >= 1
    requires i < |Batches(d, itemsPerBatch)|
    ensures var size := 2 * itemsPerBatch;
      && size * i + 2 <= Min(size * i + size, |d|)
      && Batches(d, itemsPerBatch)[i] == Bytes(d[size * i .. Min(size * i + size, |d|)])
    decreases i
  {
    if |d| <= 2 * itemsPerBatch || i == 0 {
      BatchAtFirst(d, itemsPerBatch, i);
    } else {
      BatchAt(d[2 * itemsPerBatch..], itemsPerBatch, i - 1);
      BatchAtNext(d, itemsPerBatch, i);
    }
  }

  lemma BatchAtFirst(d: seq<Line>, itemsPerBatch: int, i: nat)
    requires itemsPerBatch >= 1
    requires i < |Batches(d, itemsPerBatch)|
    requires |d| <= 2 * itemsPerBatch || i == 0
    ensures var size := 2 * itemsPerBatch;
      && size * i + 2 <= Min(size * i + size, |d|)
      && Batches(d, itemsPerBatch)[i] == Bytes(d[size * i .. Min(size * i + size, |d|)])
  {
    var size := 2 * itemsPerBatch;
    if |d| <= size {
      assert d[size * 0 .. Min(size * 0 + size, |d|)] == d;
    } else {
      BatchesUnfold(d, itemsPerBatch);
      assert d[size * 0 .. Min(size * 0 + size, |d|)] == d[..size];
    }
  }

  lemma BatchAtNext(d: seq<Line>, itemsPerBatch: int, i: nat)
    requires itemsPerBatch >= 1 && |d| > 2 * itemsPerBatch && i >= 1
    requires i < |Batches(d, itemsPerBatch)|
    requires var size := 2 * itemsPerBatch; var d' := d[2 * itemsPerBatch..]; var j := i - 1;
      && i - 1 < |Batches(d', itemsPerBatch)|
      && size * j + 2 <= Min(size * j + size, |d'|)
      && Batches(d', itemsPerBatch)[j] == Bytes(d'[size * j .. Min(size * j + size, |d'|)])
    ensures var size := 2 * itemsPerBatch;
      && size * i + 2 <= Min(size * i + size, |d|)
      && Batches(d, itemsPerBatch)[i] == Bytes(d[size * i .. Min(size * i + size, |d|)])
  {
    var size := 2 * itemsPerBatch;
    var j := i - 1;
    BatchIndexShift(d, itemsPerBatch, i);
    ShiftStep(size, i, j);
    BatchAtShift(d, size, size * j, size * i, Batches(d, itemsPerBatch)[i]);
  }

  /** Past the first group, batch `i` of `d` is batch `i - 1` of the rest. */
  lemma BatchIndexShift(d: seq<Line>, itemsPerBatch: int, i: nat)
    requires itemsPerBatch >= 1 && |d| > 2 * itemsPerBatch && i >= 1
    requires i < |Batches(d, itemsPerBatch)|
    ensures i - 1 < |Batches(d[2 * itemsPerBatch..], itemsPerBatch)|
    ensures Batches(d, itemsPerBatch)[i] == Batches(d[2 * itemsPerBatch..], itemsPerBatch)[i - 1]
  {
    BatchesUnfold(d, itemsPerBatch);
    BatchShift(Bytes(d[..2 * itemsPerBatch]), Batches(d[2 * itemsPerBatch..], itemsPerBatch), i);
  }

  lemma BatchAtShift(d: seq<Line>, size: nat, lo: nat, lo': nat, b: seq<byte>)
    requires size >= 2 && |d| > size && lo' == lo + size
    requires lo + 2 <= Min(lo + size, |d[size..]|)
    requires b == Bytes(d[size..][lo .. Min(lo + size, |d[size..]|)])
    ensures lo' + 2 <= Min(lo' + size, |d|)
    ensures b == Bytes(d[lo' .. Min(lo' + size, |d|)])
  {
    var hi := Min(lo + size, |d[size..]|);
    assert hi + size == Min(lo' + size, |d|);
    SliceShift(d, size, lo, hi);
  }

  lemma BatchShift(x: seq<byte>, rest: seq<seq<byte>>, i: nat)
    requires 1 <= i <= |rest|
    ensures ([x] + rest)[i] == rest[i - 1]
  {
  }

  lemma SliceShift(d: seq<Line>, size: nat, lo: nat, hi: nat)
    requires size <= |d| && lo <= hi <= |d| - size
    ensures d[size..][lo..hi] == d[lo + size..hi + size]
  {
  }

  /**
   * Appending whole groups: after a prefix of whole groups, a group of 2 to
   * `2 * itemsPerBatch` lines adds one batch and a lone line adds none.
   */
  lemma {:induction false} BatchesAppend(x: seq<Line>, y: seq<Line>, itemsPerBatch: int)
    requires itemsPerBatch >= 1
    requires WholeGroups(|x|, 2 * itemsPerBatch)
    requires |y| <= 2 * itemsPerBatch
    ensures 2 <= |y| ==> Batches(x + y, itemsPerBatch) == Batches(x, itemsPerBatch) + [Bytes(y)]
    ensures |y| < 2 ==> Batches(x + y, itemsPerBatch) == Batches(x, itemsPerBatch)
    decreases |x|
  {
    var size := 2 * itemsPerBatch;
    if |x| == 0 {
      assert x + y == y;
    } else {
      assert |x| >= size;
      if |x + y| <= size {
        assert y == [] && x + y == x;
      } else {
        var x' := x[size..];
        assert (x + y)[..size] == x[..size];
        assert (x + y)[size..] == x' + y;
        BatchesAppend(x', y, itemsPerBatch);
        if |x| == size {
          assert x' + y == y && x' == [];
        }
      }
    }
  }

  /**
   * For `itemsPerBatch >= 1`: after the data lines `d`, the batches sent are
   * the whole groups of `d` and the buffer holds the rest, or, after a limit
   * stop, every group has been sent.
   */
  ghost predicate ChunkInv(st: ScanState, d: seq<Line>, cfg: ScanConfig)
    requires cfg.itemsPerBatch >= 1
  {
    var size := 2 * cfg.itemsPerBatch;
    var c := CutPoint(|d|, size);
    && (st.stop.LimitReached? ==>
          st.sent == Batches(d, cfg.itemsPerBatch) && st.buf == [] && st.itemsThisBatch == 0)
    && (!st.stop.LimitReached? ==>
          && st.sent == Batches(d[..c], cfg.itemsPerBatch)
          && st.buf == Bytes(d[c..])
          && st.itemsThisBatch == (|d| - c) / 2)
    && (st.stop.Scanning? ==> cfg.itemLimit < 0 || |d| < 2 * cfg.itemLimit)
  }

  lemma HalfBounds(k: int, b: int, limit: int)
    requires k >= 0 && b >= 1
    ensures k == 2 * b ==> k / 2 == b
    ensures k < 2 * b ==> k / 2 < b
    ensures k / 2 < limit ==> k < 2 * limit
  {
  }

  /** Writing one more data line: the buffer gains the line and a newline. */
  lemma BufferStep(d: seq<Line>, line: Line, c: nat)
    requires c <= |d|
    ensures (d + [line])[c..] == d[c..] + [line]
    ensures Bytes((d + [line])[c..]) == Bytes(d[c..]) + line + [Newline]
    ensures (d + [line])[..c] == d[..c]
    ensures d[..c] + (d + [line])[c..] == d + [line]
  {
    assert (d[c..] + [line])[..|d[c..]|] == d[c..];
  }

  /**
   * One data line while reading: the current group is closed when it is
   * full or the item limit is reached, and otherwise it grows.
   */
  lemma ChunkStep(st: ScanState, d: seq<Line>, line: Line, cfg: ScanConfig)
    requires cfg.itemsPerBatch >= 1 && cfg.itemLimit != 0
    requires st.stop.Scanning?
    requires st.linesRead == |d| && st.itemsRead == |d| / 2
    requires ChunkInv(st, d, cfg)
    requires IsData(cfg.checkTotals(line))
    ensures ChunkInv(Feed(st, line, cfg), d + [line], cfg)
  {
    var size := 2 * cfg.itemsPerBatch;
    var c := CutPoint(|d|, size);
    CutWhole(|d|, size);
    WholeGroupsEven(c, size);
    var st' := Feed(st, line, cfg);
    if cfg.itemLimit >= 0 && |d| + 1 >= 2 * cfg.itemLimit {
      FeedAtLimit(st, line, cfg, |d|, c);
      ChunkAfterLimit(st, st', d, line, cfg);
    } else if |d| + 1 - c == size {
      FeedClosesGroup(st, line, cfg, |d|, c);
      ChunkAfterFull(st, st', d, line, cfg);
    } else {
      FeedGrowsGroup(st, line, cfg, |d|, c);
      CutStep(|d|, size);
      CutLen(d, line, size);
      ChunkAfterGrow(st, st', d, line, cfg);
    }
  }

  /** A data line that reaches the item limit sends the buffer with it and stops the loop. */
  lemma FeedAtLimit(st: ScanState, line: Line, cfg: ScanConfig, n: int, c: int)
    requires st.stop.Scanning? && IsData(cfg.checkTotals(line))
    requires st.linesRead == n && st.itemsRead == n / 2 && st.itemsThisBatch == (n - c) / 2
    requires 0 <= c <= n < c + 2 * cfg.itemsPerBatch && c % 2 == 0
    requires cfg.itemLimit >= 0 && n + 1 >= 2 * cfg.itemLimit
    ensures var st' := Feed(st, line, cfg);
      && st'.stop == LimitReached && st'.buf == [] && st'.itemsThisBatch == 0
      && st'.sent == st.sent + [st.buf + line + [Newline]]
  {
    FeedFields(st, line, cfg, n);
    StepCounts(n, c, st.itemsRead, st.itemsThisBatch, cfg.itemsPerBatch, cfg.itemLimit);
  }

  /** A data line that completes a group below the limit sends the buffer with it. */
  lemma FeedClosesGroup(st: ScanState, line: Line, cfg: ScanConfig, n: int, c: int)
    requires st.stop.Scanning? && IsData(cfg.checkTotals(line))
    requires st.linesRead == n && st.itemsRead == n / 2 && st.itemsThisBatch == (n - c) / 2
    requires 0 <= c <= n < c + 2 * cfg.itemsPerBatch && c % 2 == 0
    requires cfg.itemLimit < 0 || n + 1 < 2 * cfg.itemLimit
    requires n + 1 - c == 2 * cfg.itemsPerBatch
    ensures var st' := Feed(st, line, cfg);
      && st'.stop == Scanning && st'.buf == [] && st'.itemsThisBatch == 0
      && st'.sent == st.sent + [st.buf + line + [Newline]]
  {
    FeedFields(st, line, cfg, n);
    StepCounts(n, c, st.itemsRead, st.itemsThisBatch, cfg.itemsPerBatch, cfg.itemLimit);
  }

  /** Any other data line joins the buffer. */
  lemma FeedGrowsGroup(st: ScanState, line: Line, cfg: ScanConfig, n: int, c: int)
    requires st.stop.Scanning? && IsData(cfg.checkTotals(line))
    requires st.linesRead == n && st.itemsRead == n / 2 && st.itemsThisBatch == (n - c) / 2
    requires 0 <= c <= n < c + 2 * cfg.itemsPerBatch && c % 2 == 0
    requires cfg.itemLimit < 0 || n + 1 < 2 * cfg.itemLimit
    requires n + 1 - c != 2 * cfg.itemsPerBatch
    ensures var st' := Feed(st, line, cfg);
      && st'.stop == Scanning && st'.buf == st.buf + line + [Newline] && st'.sent == st.sent
      && st'.itemsThisBatch == (n + 1 - c) / 2
  {
    FeedFields(st, line, cfg, n);
    StepCounts(n, c, st.itemsRead, st.itemsThisBatch, cfg.itemsPerBatch, cfg.itemLimit);
  }

  /** The fields of the state after a data line, as `Feed` computes them. */
  lemma FeedFields(st: ScanState, line: Line, cfg: ScanConfig, n: int)
    requires st.stop.Scanning? && IsData(cfg.checkTotals(line)) && st.linesRead == n
    ensures var st' := Feed(st, line, cfg);
      var even := (n + 1) % 2 == 0;
      var items := if even then st.itemsRead + 1 else st.itemsRead;
      var inBatch := if even then st.itemsThisBatch + 1 else st.itemsThisBatch;
      var hit := cfg.itemLimit >= 0 && items >= cfg.itemLimit;
      var cut := inBatch == cfg.itemsPerBatch || hit;
      var buf := st.buf + line + [Newline];
      && st'.stop == (if hit then LimitReached else Scanning)
      && st'.sent == (if cut then st.sent + [buf] else st.sent)
      && st'.buf == (if cut then [] else buf)
      && st'.itemsThisBatch == (if cut then 0 else inBatch)
  {
  }

  /**
   * The counters after data line `n + 1` of a group that started at line `c`:
   * the item limit and the full group stated on line counts.
   */
  lemma StepCounts(n: int, c: int, items: int, inBatch: int, itemsPerBatch: int, limit: int)
    requires 0 <= c <= n < c + 2 * itemsPerBatch && c % 2 == 0
    requires items == n / 2 && inBatch == (n - c) / 2
    ensures var even := (n + 1) % 2 == 0;
      var items' := if even then items + 1 else items;
      var inBatch' := if even then inBatch + 1 else inBatch;
      && (items' >= limit <==> n + 1 >= 2 * limit)
      && (inBatch' == itemsPerBatch <==> n + 1 - c == 2 * itemsPerBatch)
      && inBatch' == (n + 1 - c) / 2
  {
  }

  /** The item limit is reached: the current group is sent and reading stops. */
  lemma ChunkAfterLimit(st: ScanState, st': ScanState, d: seq<Line>, line: Line, cfg: ScanConfig)
    requires cfg.itemsPerBatch >= 1 && cfg.itemLimit >= 1
    requires st.stop.Scanning? && |d| < 2 * cfg.itemLimit && |d| + 1 >= 2 * cfg.itemLimit
    requires var c := CutPoint(|d|, 2 * cfg.itemsPerBatch);
      && st.sent == Batches(d[..c], cfg.itemsPerBatch)
      && st.buf == Bytes(d[c..])
    requires st'.stop == LimitReached && st'.buf == [] && st'.itemsThisBatch == 0
    requires st'.sent == st.sent + [st.buf + line + [Newline]]
    ensures ChunkInv(st', d + [line], cfg)
  {
    LimitGap(|d|, cfg.itemsPerBatch, cfg.itemLimit);
    GroupClose(st.sent, st.buf, d, line, cfg.itemsPerBatch);
    ChunkInvStopped(st', d + [line], cfg);
  }

  /** The line that reaches the limit is an even one, so the group it closes holds an item. */
  lemma LimitGap(n: nat, itemsPerBatch: int, limit: int)
    requires itemsPerBatch >= 1
    requires n < 2 * limit && n + 1 >= 2 * limit
    ensures 2 <= n + 1 - CutPoint(n, 2 * itemsPerBatch) <= 2 * itemsPerBatch
  {
    var size := 2 * itemsPerBatch;
    var c := CutPoint(n, size);
    CutWhole(n, size);
    WholeGroupsEven(c, size);
    EvenGap(n + 1, c);
  }

  lemma ChunkInvStopped(st: ScanState, d: seq<Line>, cfg: ScanConfig)
    requires cfg.itemsPerBatch >= 1
    requires st.stop == LimitReached && st.sent == Batches(d, cfg.itemsPerBatch) && st.buf == [] && st.itemsThisBatch == 0
    ensures ChunkInv(st, d, cfg)
  {
  }

  lemma EvenGap(m: int, c: int)
    requires m % 2 == 0 && c % 2 == 0 && c < m
    ensures m - c >= 2
  {
  }

  /** The line completes a group of `2 * itemsPerBatch` lines below the limit: the group is sent. */
  lemma ChunkAfterFull(st: ScanState, st': ScanState, d: seq<Line>, line: Line, cfg: ScanConfig)
    requires cfg.itemsPerBatch >= 1
    requires |d| + 1 - CutPoint(|d|, 2 * cfg.itemsPerBatch) == 2 * cfg.itemsPerBatch
    requires cfg.itemLimit < 0 || |d| + 1 < 2 * cfg.itemLimit
    requires var c := CutPoint(|d|, 2 * cfg.itemsPerBatch);
      && st.sent == Batches(d[..c], cfg.itemsPerBatch)
      && st.buf == Bytes(d[c..])
    requires st'.stop == Scanning && st'.buf == [] && st'.itemsThisBatch == 0
    requires st'.sent == st.sent + [st.buf + line + [Newline]]
    ensures ChunkInv(st', d + [line], cfg)
  {
    CutFull(d, line, 2 * cfg.itemsPerBatch);
    GroupClose(st.sent, st.buf, d, line, cfg.itemsPerBatch);
    ChunkInvWhole(st', d + [line], cfg);
  }

  lemma CutFull(d: seq<Line>, line: Line, size: nat)
    requires size >= 1 && |d| + 1 - CutPoint(|d|, size) == size
    ensures CutPoint(|d + [line]|, size) == |d + [line]|
  {
    CutStep(|d|, size);
  }

  /** After whole groups only, all of them sent, the buffer is empty. */
  lemma ChunkInvWhole(st: ScanState, d: seq<Line>, cfg: ScanConfig)
    requires cfg.itemsPerBatch >= 1
    requires CutPoint(|d|, 2 * cfg.itemsPerBatch) == |d|
    requires cfg.itemLimit < 0 || |d| < 2 * cfg.itemLimit
    requires st.stop == Scanning && st.sent == Batches(d, cfg.itemsPerBatch) && st.buf == [] && st.itemsThisBatch == 0
    ensures ChunkInv(st, d, cfg)
  {
    assert d[..|d|] == d;
    assert d[|d|..] == [];
  }

  lemma CutLen(d: seq<Line>, line: Line, size: nat)
    requires size >= 1
    ensures CutPoint(|d + [line]|, size) == CutPoint(|d| + 1, size)
  {
  }

  /** Neither condition holds: the line stays in the buffer. */
  lemma ChunkAfterGrow(st: ScanState, st': ScanState, d: seq<Line>, line: Line, cfg: ScanConfig)
    requires cfg.itemsPerBatch >= 1
    requires CutPoint(|d + [line]|, 2 * cfg.itemsPerBatch) == CutPoint(|d|, 2 * cfg.itemsPerBatch)
    requires cfg.itemLimit < 0 || |d| + 1 < 2 * cfg.itemLimit
    requires var c := CutPoint(|d|, 2 * cfg.itemsPerBatch);
      && st.sent == Batches(d[..c], cfg.itemsPerBatch)
      && st.buf == Bytes(d[c..])
      && st'.itemsThisBatch == (|d| + 1 - c) / 2
    requires st'.stop == Scanning && st'.buf == st.buf + line + [Newline] && st'.sent == st.sent
    ensures ChunkInv(st', d + [line], cfg)
  {
    GroupGrow(st.sent, st.buf, d, line, cfg.itemsPerBatch);
  }

  /** Closing the current group of 2 to `2 * itemsPerBatch` lines with `line` sends it as the next batch. */
  lemma GroupClose(sent: seq<seq<byte>>, buf: seq<byte>, d: seq<Line>, line: Line, itemsPerBatch: int)
    requires itemsPerBatch >= 1
    requires var c := CutPoint(|d|, 2 * itemsPerBatch);
      && sent == Batches(d[..c], itemsPerBatch)
      && buf == Bytes(d[c..])
      && 2 <= |d| + 1 - c <= 2 * itemsPerBatch
    ensures sent + [buf + line + [Newline]] == Batches(d + [line], itemsPerBatch)
  {
    var c := CutPoint(|d|, 2 * itemsPerBatch);
    CutWhole(|d|, 2 * itemsPerBatch);
    BufferStep(d, line, c);
    BatchesAppend(d[..c], (d + [line])[c..], itemsPerBatch);
  }

  /** Writing `line` into a group that stays open leaves the batches as they were. */
  lemma GroupGrow(sent: seq<seq<byte>>, buf: seq<byte>, d: seq<Line>, line: Line, itemsPerBatch: int)
    requires itemsPerBatch >= 1
    requires var c := CutPoint(|d|, 2 * itemsPerBatch);
      && sent == Batches(d[..c], itemsPerBatch)
      && buf == Bytes(d[c..])
      && CutPoint(|d| + 1, 2 * itemsPerBatch) == c
    ensures var c := CutPoint(|d + [line]|, 2 * itemsPerBatch);
      && sent == Batches((d + [line])[..c], itemsPerBatch)
      && buf + line + [Newline] == Bytes((d + [line])[c..])
  {
    BufferStep(d, line, CutPoint(|d|, 2 * itemsPerBatch));
  }

  /** For `itemsPerBatch >= 1` and an item limit other than 0, the scan keeps `ChunkInv` on the data lines it has read. */
  lemma {:induction false} RunBatches(lines: seq<Line>, cfg: ScanConfig)
    requires cfg.itemsPerBatch >= 1 && cfg.itemLimit != 0
    ensures ChunkInv(Run(lines, cfg), Consumed(lines, cfg), cfg)
    decreases |lines|
  {
    if lines == [] {
      assert Consumed(lines, cfg) == [];
    } else {
      var init := lines[..|lines| - 1];
      var line := lines[|lines| - 1];
      var st0 := Run(init, cfg);
      RunBatches(init, cfg);
      RunCounts(init, cfg);
      if st0.stop.Scanning? {
        ConsumedStep(lines, cfg);
        if IsData(cfg.checkTotals(line)) {
          ChunkStep(st0, Consumed(init, cfg), line, cfg);
        } else {
          assert Consumed(lines, cfg) == Consumed(init, cfg);
        }
      } else {
        ConsumedStopped(lines, cfg);
      }
    }
  }

  /**
   * For `itemsPerBatch >= 1` and an item limit other than 0, unless a line
   * check or the read fails, `scan` sends exactly `Batches` of the data lines
   * it read: every batch once, in order, none split or merged.
   */
  lemma ScanSendsBatches(lines: seq<Line>, readFailed: bool, cfg: ScanConfig)
    requires cfg.itemsPerBatch >= 1 && cfg.itemLimit != 0
    ensures var r := ScanSpec(lines, readFailed, cfg);
      !r.outcome.CheckFailed? && !r.outcome.ReadFailed? ==>
        r.sent == Batches(Consumed(lines, cfg), cfg.itemsPerBatch)
  {
    RunBatches(lines, cfg);
    var st := Run(lines, cfg);
    var d := Consumed(lines, cfg);
    if st.stop.Scanning? {
      var c := CutPoint(|d|, 2 * cfg.itemsPerBatch);
      CutWhole(|d|, 2 * cfg.itemsPerBatch);
      HalfBounds(|d| - c, cfg.itemsPerBatch, cfg.itemLimit);
      assert d[..c] + d[c..] == d;
      BatchesAppend(d[..c], d[c..], cfg.itemsPerBatch);
    }
  }

  /** The batches hold every data line once, in order, except a lone last line. */
  lemma {:induction false} FlattenBatches(d: seq<Line>, itemsPerBatch: int)
    requires itemsPerBatch >= 1
    ensures var rest := |d| - CutPoint(|d|, 2 * itemsPerBatch);
      Flatten(Batches(d, itemsPerBatch)) == if rest == 1 then Bytes(d[..|d| - 1]) else Bytes(d)
    decreases |d|
  {
    var size := 2 * itemsPerBatch;
    if |d| < 2 {
      assert CutPoint(|d|, size) == 0;
      if |d| == 1 {
        assert d[..0] == [];
      }
    } else if |d| <= size {
      assert Batches(d, itemsPerBatch) == [Bytes(d)];
      FlattenSingle(Bytes(d));
      assert |d| - CutPoint(|d|, size) != 1 by {
        CutSmall(|d|, size);
      }
    } else {
      FlattenBatches(d[size..], itemsPerBatch);
      FlattenBatchesUnfold(d, itemsPerBatch);
      CutUnfold(d, size);
      BytesSplit(d, size);
    }
  }

  /** The first group of more than one, and the rest. */
  lemma FlattenBatchesUnfold(d: seq<Line>, itemsPerBatch: int)
    requires itemsPerBatch >= 1 && |d| > 2 * itemsPerBatch
    ensures var size := 2 * itemsPerBatch;
      Flatten(Batches(d, itemsPerBatch)) == Bytes(d[..size]) + Flatten(Batches(d[size..], itemsPerBatch))
  {
    var size := 2 * itemsPerBatch;
    var x, rest := Bytes(d[..size]), Batches(d[size..], itemsPerBatch);
    BatchesUnfold(d, itemsPerBatch);
    FlattenFront(x, rest);
  }

  lemma CutUnfold(d: seq<Line>, size: nat)
    requires 1 <= size < |d|
    ensures CutPoint(|d|, size) == size + CutPoint(|d[size..]|, size)
  {
    assert |d[size..]| == |d| - size;
  }

  lemma BatchesUnfold(d: seq<Line>, itemsPerBatch: int)
    requires itemsPerBatch >= 1 && |d| > 2 * itemsPerBatch
    ensures Batches(d, itemsPerBatch) == [Bytes(d[..2 * itemsPerBatch])] + Batches(d[2 * itemsPerBatch..], itemsPerBatch)
  {
  }

  lemma FlattenSingle(x: seq<byte>)
    ensures Flatten([x]) == x
  {
    assert [x][..0] == [];
  }

  lemma FlattenFront(x: seq<byte>, rest: seq<seq<byte>>)
    ensures Flatten([x] + rest) == x + Flatten(rest)
  {
    FlattenAppend([x], rest);
    FlattenSingle(x);
  }

  lemma CutSmall(n: nat, size: nat)
    requires 2 <= n <= size
    ensures n - CutPoint(n, size) != 1
  {
    if n == size {
      assert CutPoint(n, size) == size + CutPoint(0, size);
    }
  }

  lemma BytesSplit(d: seq<Line>, k: nat)
    requires k < |d|
    ensures Bytes(d) == Bytes(d[..k]) + Bytes(d[k..])
    ensures Bytes(d[..|d| - 1]) == Bytes(d[..k]) + Bytes(d[k..][..|d[k..]| - 1])
  {
    SliceJoin(d, k);
    BytesAppend(d[..k], d[k..]);
    BytesAppend(d[..k], d[k..][..|d[k..]| - 1]);
  }

  lemma SliceJoin(d: seq<Line>, k: nat)
    requires k < |d|
    ensures d[..k] + d[k..] == d
    ensures d[..k] + d[k..][..|d[k..]| - 1] == d[..|d| - 1]
  {
  }

  /** While the loop reads, the item count is below a non-negative limit (or nothing has been read). */
  lemma {:induction false} ScanningBelowLimit(lines: seq<Line>, cfg: ScanConfig)
    ensures var st := Run(lines, cfg);
      st.stop.Scanning? && cfg.itemLimit >= 0 ==> st.itemsRead < cfg.itemLimit || st.linesRead == 0
    decreases |lines|
  {
    if lines != [] {
      ScanningBelowLimit(lines[..|lines| - 1], cfg);
      RunCounts(lines[..|lines| - 1], cfg);
    }
  }

  /** The state at the stop: reached from a reading state by the last line delivered. */
  lemma StopStep(lines: seq<Line>, cfg: ScanConfig)
    requires !Run(lines, cfg).stop.Scanning?
    ensures var st := Run(lines, cfg);
      && st.position > 0
      && Run(lines[..st.position - 1], cfg).stop.Scanning?
      && st == Feed(Run(lines[..st.position - 1], cfg), lines[st.position - 1], cfg)
  {
    var st := Run(lines, cfg);
    RunPosition(lines, cfg);
    var p := lines[..st.position];
    assert Run([], cfg) == Start;
    assert p[..|p| - 1] == lines[..st.position - 1];
  }

  /**
   * A stop at a positive item limit always ends in a point-count mismatch:
   * exactly `itemLimit` items from `2 * itemLimit` data lines have been read,
   * but the expected total is what `CheckTotalValues` reported for the last line
   * read, a data line, which is never positive.
   */
  lemma LimitStopFails(lines: seq<Line>, readFailed: bool, cfg: ScanConfig)
    requires cfg.itemLimit >= 1
    requires Run(lines, cfg).stop.LimitReached?
    ensures var st := Run(lines, cfg);
      && st.itemsRead == cfg.itemLimit
      && st.linesRead == 2 * cfg.itemLimit
      && st.totalPoints <= 0
      && ScanSpec(lines, readFailed, cfg).outcome == PointCountMismatch(cfg.itemLimit, st.totalPoints)
  {
    var st := Run(lines, cfg);
    StopStep(lines, cfg);
    var before := lines[..st.position - 1];
    ScanningBelowLimit(before, cfg);
    RunCounts(before, cfg);
    RunCounts(lines, cfg);
  }

  /**
   * With an item limit of 0 the first data line already reaches the limit:
   * it is sent alone, and the run fails on an odd line count.
   */
  lemma ZeroLimitStopsAtFirstLine(lines: seq<Line>, readFailed: bool, cfg: ScanConfig)
    requires cfg.itemLimit == 0
    ensures var st := Run(lines, cfg);
      && (st.stop.Scanning? ==> Consumed(lines, cfg) == [])
      && (st.stop.LimitReached? ==>
            && |Consumed(lines, cfg)| == 1
            && ScanSpec(lines, readFailed, cfg).sent == [Bytes(Consumed(lines, cfg))]
            && ScanSpec(lines, readFailed, cfg).outcome == OddLineCount(1))
  {
    var st := Run(lines, cfg);
    RunCounts(lines, cfg);
    ScanningBelowLimit(lines, cfg);
    if st.stop.LimitReached? {
      ZeroLimitState(lines, cfg);
      RunContents(lines, cfg);
      FlattenSingle(st.sent[0]);
      assert st.sent == [st.sent[0]];
      assert Flatten(st.sent) + st.buf == Flatten(st.sent);
      assert ScanSpec(lines, readFailed, cfg).sent == st.sent;
    }
  }

  /** The state after a stop at an item limit of 0: one line read, and sent alone. */
  lemma ZeroLimitState(lines: seq<Line>, cfg: ScanConfig)
    requires cfg.itemLimit == 0
    requires Run(lines, cfg).stop.LimitReached?
    ensures var st := Run(lines, cfg);
      st.linesRead == 1 && |st.sent| == 1 && st.buf == [] && st.itemsThisBatch == 0
  {
    var st := Run(lines, cfg);
    StopStep(lines, cfg);
    var before := lines[..st.position - 1];
    ScanningBelowLimit(before, cfg);
    RunCounts(before, cfg);
    var st0 := Run(before, cfg);
    assert st0.linesRead == 0 && st0.sent == [];
    assert st == Feed(st0, lines[st.position - 1], cfg);
  }

  /** Input whose line count is odd always fails, unless a line check or the read fails first. */
  lemma OddLineCountFails(lines: seq<Line>, readFailed: bool, cfg: ScanConfig)
    requires |Consumed(lines, cfg)| % 2 == 1
    ensures var o := ScanSpec(lines, readFailed, cfg).outcome;
      o.CheckFailed? || o.ReadFailed? || o == OddLineCount(|Consumed(lines, cfg)|)
  {
    RunCounts(lines, cfg);
  }

  /** A successful scan read the whole input; no item limit stopped it. */
  lemma LoadedReadAll(lines: seq<Line>, readFailed: bool, cfg: ScanConfig)
    requires cfg.itemLimit != 0
    requires ScanSpec(lines, readFailed, cfg).outcome.Loaded?
    ensures Run(lines, cfg).stop.Scanning?
    ensures Run(lines, cfg).position == |lines|
  {
    if Run(lines, cfg).stop.LimitReached? {
      LimitStopFails(lines, readFailed, cfg);
    }
  }

  /**
   * A successful scan (`itemsPerBatch >= 1`, no item limit reached): the
   * data lines are even in number, each delivered once and in order
   * across the batches; `itemsRead` is half of them and equals the points
   * announced by the last input line, `valuesRead` its values; `bytesRead`
   * counts the bytes of the full batches only, not the trailing one.
   */
  lemma LoadedAccounting(lines: seq<Line>, readFailed: bool, cfg: ScanConfig)
    requires cfg.itemsPerBatch >= 1 && cfg.itemLimit != 0
    ensures var r := ScanSpec(lines, readFailed, cfg); var d := Consumed(lines, cfg);
      r.outcome.Loaded? ==>
        && |d| % 2 == 0
        && Run(lines, cfg).position == |lines|
        && r.sent == Batches(d, cfg.itemsPerBatch)
        && Flatten(r.sent) == Bytes(d)
        && r.outcome.itemsRead == |d| / 2
        && (lines != [] ==>
              && r.outcome.itemsRead == cfg.checkTotals(lines[|lines| - 1]).points
              && r.outcome.valuesRead == cfg.checkTotals(lines[|lines| - 1]).values)
        && r.outcome.bytesRead == |Bytes(d[..CutPoint(|d|, 2 * cfg.itemsPerBatch)])|
  {
    var r := ScanSpec(lines, readFailed, cfg);
    if r.outcome.Loaded? {
      LoadedReadAll(lines, readFailed, cfg);
      LoadedCounts(lines, readFailed, cfg);
      LoadedBytes(lines, readFailed, cfg);
    }
  }

  lemma LoadedCounts(lines: seq<Line>, readFailed: bool, cfg: ScanConfig)
    requires Run(lines, cfg).stop.Scanning?
    requires ScanSpec(lines, readFailed, cfg).outcome.Loaded?
    ensures var r := ScanSpec(lines, readFailed, cfg); var d := Consumed(lines, cfg);
      && |d| % 2 == 0
      && r.outcome.itemsRead == |d| / 2
      && (lines != [] ==>
            && r.outcome.itemsRead == cfg.checkTotals(lines[|lines| - 1]).points
            && r.outcome.valuesRead == cfg.checkTotals(lines[|lines| - 1]).values)
  {
    RunCounts(lines, cfg);
    RunTotals(lines, cfg);
  }

  lemma LoadedBytes(lines: seq<Line>, readFailed: bool, cfg: ScanConfig)
    requires cfg.itemsPerBatch >= 1 && cfg.itemLimit != 0
    requires Run(lines, cfg).stop.Scanning?
    requires ScanSpec(lines, readFailed, cfg).outcome.Loaded?
    ensures var r := ScanSpec(lines, readFailed, cfg); var d := Consumed(lines, cfg);
      && r.sent == Batches(d, cfg.itemsPerBatch)
      && Flatten(r.sent) == Bytes(d)
      && r.outcome.bytesRead == |Bytes(d[..CutPoint(|d|, 2 * cfg.itemsPerBatch)])|
  {
    LoadedSent(lines, readFailed, cfg);
    LoadedBytesRead(lines, cfg);
  }

  lemma LoadedSent(lines: seq<Line>, readFailed: bool, cfg: ScanConfig)
    requires cfg.itemsPerBatch >= 1 && cfg.itemLimit != 0
    requires Run(lines, cfg).stop.Scanning?
    requires ScanSpec(lines, readFailed, cfg).outcome.Loaded?
    ensures var r := ScanSpec(lines, readFailed, cfg); var d := Consumed(lines, cfg);
      && r.sent == Batches(d, cfg.itemsPerBatch)
      && Flatten(r.sent) == Bytes(d)
  {
    var d := Consumed(lines, cfg);
    var c := CutPoint(|d|, 2 * cfg.itemsPerBatch);
    LoadedEven(lines, readFailed, cfg);
    CutWhole(|d|, 2 * cfg.itemsPerBatch);
    WholeGroupsEven(c, 2 * cfg.itemsPerBatch);
    EvenNotOne(|d|, c);
    ScanSendsBatches(lines, readFailed, cfg);
    FlattenBatches(d, cfg.itemsPerBatch);
  }

  /** A successful scan consumed an even number of data lines. */
  lemma LoadedEven(lines: seq<Line>, readFailed: bool, cfg: ScanConfig)
    requires ScanSpec(lines, readFailed, cfg).outcome.Loaded?
    ensures |Consumed(lines, cfg)| % 2 == 0
  {
    RunCounts(lines, cfg);
  }

  lemma EvenNotOne(n: int, c: int)
    requires n % 2 == 0 && c % 2 == 0
    ensures n - c != 1
  {
  }

  /** While the loop reads, `bytesRead` counts the bytes of the full batches sent so far. */
  lemma LoadedBytesRead(lines: seq<Line>, cfg: ScanConfig)
    requires cfg.itemsPerBatch >= 1 && cfg.itemLimit != 0
    requires Run(lines, cfg).stop.Scanning?
    ensures var d := Consumed(lines, cfg);
      Run(lines, cfg).bytesRead == |Bytes(d[..CutPoint(|d|, 2 * cfg.itemsPerBatch)])|
  {
    var d := Consumed(lines, cfg);
    var c := CutPoint(|d|, 2 * cfg.itemsPerBatch);
    CutWhole(|d|, 2 * cfg.itemsPerBatch);
    RunContents(lines, cfg);
    RunBatches(lines, cfg);
    assert |d[..c]| == c;
    FlattenWhole(d[..c], cfg.itemsPerBatch);
  }

  /** `Batches` of whole groups flatten to all their lines. */
  lemma FlattenWhole(d: seq<Line>, itemsPerBatch: int)
    requires itemsPerBatch >= 1 && WholeGroups(|d|, 2 * itemsPerBatch)
    ensures Flatten(Batches(d, itemsPerBatch)) == Bytes(d)
  {
    FlattenBatches(d, itemsPerBatch);
    WholeGroupsCut(|d|, 2 * itemsPerBatch);
  }

  lemma {:induction false} WholeGroupsCut(k: nat, size: nat)
    requires size >= 1 && WholeGroups(k, size)
    ensures CutPoint(k, size) == k
    decreases k
  {
    if k != 0 {
      WholeGroupsCut(k - size, size);
    }
  }

  /** With no item limit a run of data lines is read to the end, and every one of them is written. */
  lemma {:induction false} AllDataRead(data: seq<Line>, cfg: ScanConfig)
    requires cfg.itemLimit < 0
    requires forall i :: 0 <= i < |data| ==> IsData(cfg.checkTotals(data[i]))
    ensures Run(data, cfg).stop.Scanning?
    ensures Consumed(data, cfg) == data
    decreases |data|
  {
    if data != [] {
      var init := data[..|data| - 1];
      AllDataRead(init, cfg);
      ConsumedStep(data, cfg);
    } else {
      assert Consumed(data, cfg) == DataLines([], cfg.checkTotals);
    }
  }

  /**
   * Ten thousand data lines (5,000 items) followed by a totals line that
   * announces 5,000 points, with 1,000 items per batch and no limit: five
   * batches of 2,000 lines each are sent, and the load succeeds with 5,000
   * items and every byte counted.
   */
  lemma FullLoadScenario(data: seq<Line>, t: Line, cfg: ScanConfig)
    requires |data| == 10000 && cfg.itemsPerBatch == 1000 && cfg.itemLimit < 0
    requires forall i :: 0 <= i < |data| ==> IsData(cfg.checkTotals(data[i]))
    requires cfg.checkTotals(t).points == 5000
    ensures var r := ScanSpec(data + [t], false, cfg);
      && |r.sent| == 5
      && (forall i :: 0 <= i < 5 ==> r.sent[i] == Bytes(data[2000 * i..2000 * i + 2000]))
      && r.outcome == Loaded(5000, |Bytes(data)|, cfg.checkTotals(t).values)
  {
    var lines := data + [t];
    FullLoadConsumed(data, t, cfg);
    LoadedAccounting(lines, false, cfg);
    TenThousandLines();
    assert data[..10000] == data;
    FullLoadBatches(data);
  }

  /** The ten thousand data lines are read, and the totals line announces their item count. */
  lemma FullLoadConsumed(data: seq<Line>, t: Line, cfg: ScanConfig)
    requires |data| == 10000 && cfg.itemsPerBatch == 1000 && cfg.itemLimit < 0
    requires forall i :: 0 <= i < |data| ==> IsData(cfg.checkTotals(data[i]))
    requires cfg.checkTotals(t).points == 5000
    ensures Consumed(data + [t], cfg) == data
    ensures ScanSpec(data + [t], false, cfg).outcome.Loaded?
  {
    var lines := data + [t];
    AllDataRead(data, cfg);
    TotalsLineSkipped(data, t, cfg);
    assert Consumed(lines, cfg) == data by {
      assert lines[..Run(lines, cfg).position] == lines;
      assert lines[..|lines| - 1] == data;
      assert DataLines(lines, cfg.checkTotals) == DataLines(data, cfg.checkTotals);
      assert data[..Run(data, cfg).position] == data;
    }
    RunCounts(lines, cfg);
  }

  lemma TenThousandLines()
    ensures CutPoint(10000, 2000) == 10000
  {
    assert WholeGroups(2000, 2000) && WholeGroups(4000, 2000) && WholeGroups(6000, 2000);
    assert WholeGroups(8000, 2000) && WholeGroups(10000, 2000);
    WholeGroupsCut(10000, 2000);
  }

  /** Ten thousand lines in batches of a thousand items: five batches of two thousand lines. */
  lemma FullLoadBatches(data: seq<Line>)
    requires |data| == 10000
    ensures |Batches(data, 1000)| == 5
    ensures forall i :: 0 <= i < 5 ==> Batches(data, 1000)[i] == Bytes(data[2000 * i..2000 * i + 2000])
  {
    BatchesCount(data, 1000);
    forall i | 0 <= i < 5
      ensures Batches(data, 1000)[i] == Bytes(data[2000 * i..2000 * i + 2000])
    {
      BatchAt(data, 1000, i);
    }
  }

}
