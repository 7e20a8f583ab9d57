/**
 * The threshold batch collector inside `generate_smart_meter_readings_for_day`:
 * for each serial of its chunk the task submits one file write, appends the
 * file name to its deque `q`, and as soon as `q` holds 25 names it snapshots
 * `q`, clears it and hands the snapshot, with the `futures` list, to the
 * uploader.
 *
 * Write futures are opaque handles: the future of the `k`-th submission of a
 * task is `WriteFuture(k)`. A dispatched batch is the pair of arguments
 * `(futures, file_paths)` of one `upload_file_batches` submission; the
 * bucket, date and directory it also receives are the same for every batch
 * of a task.
 */
module Batching {
  import opened Naming

  /** `if len(q) >= 25`. */
  const BatchThreshold := 25

  /** The handle `executor.submit` returns for the write of the task's `submission`-th file. */
  datatype Future = WriteFuture(submission: nat)

  /** The futures to await and the file names to upload, as handed to the uploader. */
  datatype Batch = Batch(futures: seq<Future>, filePaths: seq<string>)

  /** The `collections.deque` of file names the caller creates and the task fills and clears. */
  class NameQueue {
    var items: seq<string>

    constructor ()
      ensures items == []
    {
      items := [];
    }

    /** `q.append(x)`. */
    method Append(x: string)
      modifies this
      ensures items == old(items) + [x]
    {
      items := items + [x];
    }

    /** `q.clear()`. */
    method Clear()
      modifies this
      ensures items == []
    {
      items := [];
    }
  }

  /** `[f"{s}.json" for s in serials]`. */
  function FileNames(serials: seq<string>): (r: seq<string>)
    ensures |r| == |serials|
  {
    seq(|serials|, k requires 0 <= k < |serials| => FileName(serials[k]))
  }

  /** The handles of `count` consecutive submissions starting with the `first`-th. */
  function WriteFutures(first: nat, count: nat): seq<Future>
  {
    seq(count, t requires 0 <= t < count => WriteFuture(first + t))
  }

  /** The file names of a list of batches, batch after batch. */
  function Flatten(bs: seq<Batch>): seq<string>
  {
    if bs == [] then [] else Flatten(bs[..|bs| - 1]) + bs[|bs| - 1].filePaths
  }

  /** The collector's state: the names in `q` and the batches dispatched so far. */
  datatype Collector = Collector(pending: seq<string>, dispatched: seq<Batch>)

  /**
   * One pass of the loop body for the serial at position `k`: the futures
   * list is rebuilt to hold only this serial's write, the name is appended,
   * and a full queue is dispatched with that one-element futures list.
   */
  function Step(c: Collector, serial: string, k: nat): Collector
  {
    var futures := [WriteFuture(k)];
    var q := c.pending + [FileName(serial)];
    if |q| >= BatchThreshold then Collector([], c.dispatched + [Batch(futures, q)])
    else Collector(q, c.dispatched)
  }

  /** The collector after the loop has processed `serials`, starting from `c`. */
  function Collect(c: Collector, serials: seq<string>): Collector
    decreases |serials|
  {
    if serials == [] then c
    else Step(Collect(c, serials[..|serials| - 1]), serials[|serials| - 1], |serials| - 1)
  }

  /**
   * The loop of `generate_smart_meter_readings_for_day` over one chunk of
   * serials, with `q` the deque its caller passed in. Returns the batches it
   * submits to the upload pool, in submission order. The write of each file
   * to `<temp_dir>/<filename>` is not modelled, so `dateStr` only names the
   * day.
   */
  method GenerateReadingsForDay(dateStr: string, serials: seq<string>, q: NameQueue)
    returns (dispatched: seq<Batch>)
    modifies q
    ensures Collector(q.items, dispatched) == Collect(Collector(old(q.items), []), serials)
  {
    dispatched := [];
    var i := 0;
    while i < |serials|
      invariant 0 <= i <= |serials|
      invariant Collector(q.items, dispatched) == Collect(Collector(old(q.items), []), serials[..i])
    {
      var filename := FileName(serials[i]);
      var futures := [WriteFuture(i)];
      q.Append(filename);
      if |q.items| >= BatchThreshold {
        var filePaths := q.items;
        q.Clear();
        dispatched := dispatched + [Batch(futures, filePaths)];
      }
      assert serials[..i + 1][..i] == serials[..i];
      i := i + 1;
    }
    assert serials[..i] == serials;
  }

  /** With `q` full batches dispatched and fewer than 25 names pending, the counts are the quotient and remainder. */
  lemma DivOf(n: nat, q: nat)
    requires BatchThreshold * q <= n < BatchThreshold * q + BatchThreshold
    ensures n / BatchThreshold == q && n % BatchThreshold == n - BatchThreshold * q
  {
  }

  lemma SliceSnoc(s: seq<string>, start: nat)
    requires start < |s|
    ensures s[..|s| - 1][start..] + [s[|s| - 1]] == s[start..]
  {
  }

  lemma FileNamesSnoc(s: seq<string>, x: string)
    ensures FileNames(s + [x]) == FileNames(s) + [FileName(x)]
  {
  }

  lemma WriteFuturesSnoc(first: nat, count: nat)
    ensures WriteFutures(first, count) + [WriteFuture(first + count)] == WriteFutures(first, count + 1)
  {
  }

  /**
   * Full batch `j` of `serials`: the names of serials `25 j` to `25 j + 24`,
   * awaiting either the writes of all 25 (`awaitAll`) or only the write of
   * the last of them.
   */
  function FullBatch(serials: seq<string>, j: nat, awaitAll: bool): Batch
    requires BatchThreshold * j + BatchThreshold <= |serials|
  {
    var start := BatchThreshold * j;
    Batch(if awaitAll then WriteFutures(start, BatchThreshold) else [WriteFuture(start + BatchThreshold - 1)],
          FileNames(serials[start..start + BatchThreshold]))
  }

  /** `bs` are the first `|bs|` full batches of `serials`. */
  predicate FullBatches(serials: seq<string>, bs: seq<Batch>, awaitAll: bool)
  {
    BatchThreshold * |bs| <= |serials|
    && forall j :: 0 <= j < |bs| ==> bs[j] == FullBatch(serials, j, awaitAll)
  }

  /** Full batches of a prefix are full batches of the whole. */
  lemma FullBatchesExtend(init: seq<string>, serials: seq<string>, bs: seq<Batch>, awaitAll: bool)
    requires |init| <= |serials| && init == serials[..|init|] && FullBatches(init, bs, awaitAll)
    ensures FullBatches(serials, bs, awaitAll)
  {
    forall j | 0 <= j < |bs|
      ensures FullBatch(init, j, awaitAll) == FullBatch(serials, j, awaitAll)
    {
      assert init[BatchThreshold * j..BatchThreshold * j + BatchThreshold]
          == serials[BatchThreshold * j..BatchThreshold * j + BatchThreshold];
    }
  }

  /** When the names after the full batches make 25, they form the next full batch. */
  lemma FullBatchesSnoc(serials: seq<string>, bs: seq<Batch>, awaitAll: bool, futures: seq<Future>)
    requires FullBatches(serials, bs, awaitAll) && BatchThreshold * |bs| + BatchThreshold == |serials|
    requires futures == if awaitAll then WriteFutures(BatchThreshold * |bs|, BatchThreshold)
                        else [WriteFuture(|serials| - 1)]
    ensures FullBatches(serials, bs + [Batch(futures, FileNames(serials[BatchThreshold * |bs|..]))], awaitAll)
  {
    var start := BatchThreshold * |bs|;
    assert serials[start..] == serials[start..start + BatchThreshold];
    assert Batch(futures, FileNames(serials[start..])) == FullBatch(serials, |bs|, awaitAll);
  }

  /**
   * Starting from an empty deque, after `m` serials exactly `m / 25` full
   * batches have been dispatched, batch `j` holding the names of serials
   * `25 j` to `25 j + 24` in order and, as its futures, only the write of
   * serial `25 j + 24`; the deque keeps the names of the last `m % 25`
   * serials.
   */
  lemma {:induction false} CollectShape(serials: seq<string>)
    ensures var c := Collect(Collector([], []), serials);
      var start := BatchThreshold * |c.dispatched|;
      start <= |serials| < start + BatchThreshold
      && |c.dispatched| == |serials| / BatchThreshold
      && c.pending == FileNames(serials[start..])
      && FullBatches(serials, c.dispatched, false)
    decreases |serials|
  {
    if serials != [] {
      var m := |serials| - 1;
      var init, last := serials[..m], serials[m];
      CollectShape(init);
      var c0 := Collect(Collector([], []), init);
      var start := BatchThreshold * |c0.dispatched|;
      SliceSnoc(serials, start);
      FileNamesSnoc(init[start..], last);
      var names := FileNames(serials[start..]);
      FullBatchesExtend(init, serials, c0.dispatched, false);
      var c := Collect(Collector([], []), serials);
      if m - start == BatchThreshold - 1 {
        assert c == Collector([], c0.dispatched + [Batch([WriteFuture(m)], names)]);
        FullBatchesSnoc(serials, c0.dispatched, false, [WriteFuture(m)]);
      } else {
        assert c == Collector(names, c0.dispatched);
      }
      DivOf(|serials|, |c.dispatched|);
    }
  }

  /** Each batch carries one future only: that of its 25th and last file. */
  lemma OnlyLastFutureAwaited(serials: seq<string>, j: nat)
    requires j < |Collect(Collector([], []), serials).dispatched|
    ensures var b := Collect(Collector([], []), serials).dispatched[j];
      BatchThreshold * j + BatchThreshold <= |serials|
      && |b.filePaths| == BatchThreshold && |b.futures| == 1
      && b.futures[0] == WriteFuture(BatchThreshold * j + BatchThreshold - 1)
      && b.filePaths[BatchThreshold - 1] == FileName(serials[BatchThreshold * j + BatchThreshold - 1])
  {
    CollectShape(serials);
  }

  /**
   * Starting from an empty deque, the dispatched batches followed by what is
   * left in the deque are the file names of all serials, in order; every
   * batch has exactly 25 names and fewer than 25 are left.
   */
  lemma BatchesPartitionInput(serials: seq<string>)
    ensures var c := Collect(Collector([], []), serials);
      Flatten(c.dispatched) + c.pending == FileNames(serials)
      && |c.pending| == |serials| % BatchThreshold
      && forall j :: 0 <= j < |c.dispatched| ==> |c.dispatched[j].filePaths| == BatchThreshold
  {
    CollectShape(serials);
    var c := Collect(Collector([], []), serials);
    DivOf(|serials|, |c.dispatched|);
    FullBatchesThenRest(serials, c.dispatched, c.pending, false);
  }

  /**
   * The names left in the deque when the loop ends are never dispatched:
   * only the first `m - m % 25` names reach a batch.
   */
  lemma RemainderNeverDispatched(serials: seq<string>)
    ensures var c := Collect(Collector([], []), serials);
      Flatten(c.dispatched) == FileNames(serials[..|serials| - |serials| % BatchThreshold])
  {
    BatchesPartitionInput(serials);
    var c := Collect(Collector([], []), serials);
    var n := |serials| - |serials| % BatchThreshold;
    var flat := Flatten(c.dispatched);
    assert |flat| == n;
    assert flat == (flat + c.pending)[..n];
    FileNamesPrefix(serials, n);
  }

  lemma FileNamesPrefix(serials: seq<string>, n: nat)
    requires n <= |serials|
    ensures FileNames(serials)[..n] == FileNames(serials[..n])
  {
  }

  /**
   * A corrected collector, proposed by this model: the futures list
   * accumulates the write of every file appended since the last flush, and
   * is cleared with the deque, so that a batch awaits all of its writes.
   */
  datatype AwaitingCollector = AwaitingCollector(pending: seq<string>, futures: seq<Future>, dispatched: seq<Batch>)

  function StepAwaitingAll(c: AwaitingCollector, serial: string, k: nat): AwaitingCollector
  {
    var futures := c.futures + [WriteFuture(k)];
    var q := c.pending + [FileName(serial)];
    if |q| >= BatchThreshold then AwaitingCollector([], [], c.dispatched + [Batch(futures, q)])
    else AwaitingCollector(q, futures, c.dispatched)
  }

  function CollectAwaitingAll(serials: seq<string>): AwaitingCollector
    decreases |serials|
  {
    if serials == [] then AwaitingCollector([], [], [])
    else StepAwaitingAll(CollectAwaitingAll(serials[..|serials| - 1]), serials[|serials| - 1], |serials| - 1)
  }

  /**
   * With the futures accumulated, batch `j` awaits the write of every one of
   * its 25 files, the futures list holds the writes of the names still in
   * the deque, and the batches and deque are otherwise those of the loop as
   * written.
   */
  lemma {:induction false} AwaitingAllCoversBatch(serials: seq<string>)
    ensures var c := CollectAwaitingAll(serials);
      var start := BatchThreshold * |c.dispatched|;
      start <= |serials| < start + BatchThreshold
      && |c.dispatched| == |serials| / BatchThreshold
      && c.pending == FileNames(serials[start..])
      && c.futures == WriteFutures(start, |serials| - start)
      && FullBatches(serials, c.dispatched, true)
    decreases |serials|
  {
    if serials != [] {
      var m := |serials| - 1;
      var init, last := serials[..m], serials[m];
      AwaitingAllCoversBatch(init);
      var c0 := CollectAwaitingAll(init);
      var start := BatchThreshold * |c0.dispatched|;
      SliceSnoc(serials, start);
      FileNamesSnoc(init[start..], last);
      WriteFuturesSnoc(start, m - start);
      var futures := WriteFutures(start, |serials| - start);
      var names := FileNames(serials[start..]);
      FullBatchesExtend(init, serials, c0.dispatched, true);
      var c := CollectAwaitingAll(serials);
      if m - start == BatchThreshold - 1 {
        assert c == AwaitingCollector([], [], c0.dispatched + [Batch(futures, names)]);
        FullBatchesSnoc(serials, c0.dispatched, true, futures);
      } else {
        assert c == AwaitingCollector(names, futures, c0.dispatched);
      }
      DivOf(|serials|, |c.dispatched|);
    }
  }

  /**
   * A corrected end of the loop, proposed by this model so that every file
   * written is uploaded and then deleted: whatever is left in the deque is
   * dispatched as a last, shorter batch with its futures.
   */
  function FlushRemainder(c: AwaitingCollector): seq<Batch>
  {
    if c.pending == [] then c.dispatched else c.dispatched + [Batch(c.futures, c.pending)]
  }

  /** With the remainder flushed, every file written is dispatched exactly once, in order. */
  lemma FlushedBatchesCoverInput(serials: seq<string>)
    ensures Flatten(FlushRemainder(CollectAwaitingAll(serials))) == FileNames(serials)
  {
    AwaitingAllCoversBatch(serials);
    var c := CollectAwaitingAll(serials);
    FullBatchesThenRest(serials, c.dispatched, c.pending, true);
    var bs := FlushRemainder(c);
    if c.pending != [] {
      assert bs[..|bs| - 1] == c.dispatched;
      assert Flatten(bs) == Flatten(c.dispatched) + c.pending;
    }
  }

  lemma FileNamesAppend(a: seq<string>, b: seq<string>)
    ensures FileNames(a + b) == FileNames(a) + FileNames(b)
  {
  }

  /**
   * With the remainder flushed, every batch is non-empty, has at most 25
   * names, and awaits the write of each of them.
   */
  lemma FlushedBatchesAwaitTheirWrites(serials: seq<string>, j: nat)
    requires j < |FlushRemainder(CollectAwaitingAll(serials))|
    ensures var b := FlushRemainder(CollectAwaitingAll(serials))[j];
      0 < |b.filePaths| <= BatchThreshold
      && BatchThreshold * j + |b.filePaths| <= |serials|
      && b.futures == WriteFutures(BatchThreshold * j, |b.filePaths|)
      && b.filePaths == FileNames(serials[BatchThreshold * j..BatchThreshold * j + |b.filePaths|])
  {
    AwaitingAllCoversBatch(serials);
    var c := CollectAwaitingAll(serials);
    var start := BatchThreshold * |c.dispatched|;
    var b := FlushRemainder(c)[j];
    if j < |c.dispatched| {
      assert b == c.dispatched[j];
      assert BatchThreshold * j + BatchThreshold <= start;
      assert |b.filePaths| == BatchThreshold;
    } else {
      assert j == |c.dispatched| && c.pending != [];
      assert b == Batch(c.futures, c.pending);
      assert |c.pending| == |serials| - start;
      assert serials[start..] == serials[start..start + |c.pending|];
    }
  }

  /** Full batches of consecutive serials, then the names of the rest, are the names of all serials. */
  lemma FullBatchesThenRest(serials: seq<string>, bs: seq<Batch>, rest: seq<string>, awaitAll: bool)
    requires FullBatches(serials, bs, awaitAll)
    requires rest == FileNames(serials[BatchThreshold * |bs|..])
    ensures Flatten(bs) + rest == FileNames(serials)
  {
    var start := BatchThreshold * |bs|;
    var done, left := serials[..start], serials[start..];
    assert done + left == serials;
    FlattenFull(serials, bs, awaitAll);
    FileNamesAppend(done, left);
  }

  /** Full batches of consecutive serials flatten to the names of those serials. */
  lemma {:induction false} FlattenFull(serials: seq<string>, bs: seq<Batch>, awaitAll: bool)
    requires FullBatches(serials, bs, awaitAll)
    ensures Flatten(bs) == FileNames(serials[..BatchThreshold * |bs|])
    decreases |bs|
  {
    if bs != [] {
      var n := |bs| - 1;
      FlattenFull(serials, bs[..n], awaitAll);
      assert serials[..BatchThreshold * n] + serials[BatchThreshold * n..BatchThreshold * n + BatchThreshold]
          == serials[..BatchThreshold * |bs|];
      assert FileNames(serials[..BatchThreshold * n]) + bs[n].filePaths == FileNames(serials[..BatchThreshold * |bs|]);
    }
  }
}
