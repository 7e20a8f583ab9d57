/**
 * The orchestration of `generate_smart_meter_readings`: the serials are split
 * round-robin into 8 chunks, the requested range of days is listed, and one
 * task is submitted per (day, chunk) pair, day by day.
 *
 * Dates are day numbers; parsing and formatting them is not modelled.
 */
module Orchestrator {

  /** `range((8))` in `serial_chunks = [serial_numbers[i::(8)] for i in range((8))]`. */
  const NumChunks := 8

  /** Python's `s[start::step]` for a non-negative start and a positive step. */
  function Stride<T>(s: seq<T>, start: nat, step: nat): seq<T>
    requires step > 0
    decreases |s| - start
  {
    if start >= |s| then [] else [s[start]] + Stride(s, start + step, step)
  }

  /** `serial_chunks`: chunk `i` is `serial_numbers[i::8]`. */
  function SerialChunks<T>(s: seq<T>): (r: seq<seq<T>>)
    ensures |r| == NumChunks
  {
    seq(NumChunks, i requires 0 <= i < NumChunks => Stride(s, i, NumChunks))
  }

  /** `s[start::8]` lists `s[start], s[start + 8], …` up to the end of `s`. */
  lemma {:induction false} StrideAt<T>(s: seq<T>, start: nat)
    ensures |Stride(s, start, NumChunks)| == if start < |s| then (|s| - start - 1) / NumChunks + 1 else 0
    ensures forall j :: 0 <= j < |Stride(s, start, NumChunks)| ==>
      start + NumChunks * j < |s| && Stride(s, start, NumChunks)[j] == s[start + NumChunks * j]
    decreases |s| - start
  {
    if start < |s| {
      StrideAt(s, start + NumChunks);
      var rest := Stride(s, start + NumChunks, NumChunks);
      forall j | 0 <= j < |Stride(s, start, NumChunks)|
        ensures start + NumChunks * j < |s| && Stride(s, start, NumChunks)[j] == s[start + NumChunks * j]
      {
        if j > 0 {
          assert Stride(s, start, NumChunks)[j] == rest[j - 1];
        }
      }
    }
  }

  /**
   * Element `j` of chunk `i` is element `i + 8 j` of the input, and every
   * element `k` of the input is element `k / 8` of chunk `k % 8`: the chunks
   * partition the input, each keeping its original order.
   */
  lemma ChunksPartition<T>(s: seq<T>)
    ensures forall i, j :: 0 <= i < NumChunks && 0 <= j < |SerialChunks(s)[i]| ==>
      i + NumChunks * j < |s| && SerialChunks(s)[i][j] == s[i + NumChunks * j]
    ensures forall k :: 0 <= k < |s| ==>
      k / NumChunks < |SerialChunks(s)[k % NumChunks]| && SerialChunks(s)[k % NumChunks][k / NumChunks] == s[k]
  {
    var c := SerialChunks(s);
    forall i | 0 <= i < NumChunks
      ensures forall j :: 0 <= j < |c[i]| ==> i + NumChunks * j < |s| && c[i][j] == s[i + NumChunks * j]
    {
      StrideAt(s, i);
    }
    forall k | 0 <= k < |s|
      ensures k / NumChunks < |c[k % NumChunks]| && c[k % NumChunks][k / NumChunks] == s[k]
    {
      StrideAt(s, k % NumChunks);
    }
  }

  /**
   * Chunk `i` has `|s| / 8` elements, plus one for the first `|s| % 8`
   * chunks; so any two chunk sizes differ by at most one.
   */
  lemma ChunkSizes<T>(s: seq<T>)
    ensures forall i :: 0 <= i < NumChunks ==>
      |SerialChunks(s)[i]| == |s| / NumChunks + (if i < |s| % NumChunks then 1 else 0)
    ensures forall i, j :: 0 <= i < NumChunks && 0 <= j < NumChunks ==>
      |SerialChunks(s)[i]| <= |SerialChunks(s)[j]| + 1
  {
    forall i | 0 <= i < NumChunks
      ensures |SerialChunks(s)[i]| == |s| / NumChunks + (if i < |s| % NumChunks then 1 else 0)
    {
      StrideAt(s, i);
    }
  }

  /** The summed lengths of a list of chunks. */
  function TotalLength<T>(chunks: seq<seq<T>>): nat
  {
    if chunks == [] then 0 else TotalLength(chunks[..|chunks| - 1]) + |chunks[|chunks| - 1]|
  }

  /** The chunk sizes add up to the input size: no serial is lost or repeated. */
  lemma ChunksCoverInput<T>(s: seq<T>)
    ensures TotalLength(SerialChunks(s)) == |s|
  {
    ChunkSizes(s);
    var c := SerialChunks(s);
    PrefixTotal(c, |s| / NumChunks, |s| % NumChunks, NumChunks);
    assert c[..NumChunks] == c;
  }

  /**
   * If the first `r` of some chunks have `q + 1` elements and the rest `q`,
   * the first `k` of them hold `k q + min(k, r)` elements.
   */
  lemma {:induction false} PrefixTotal<T>(chunks: seq<seq<T>>, q: nat, r: nat, k: nat)
    requires k <= |chunks|
    requires forall i :: 0 <= i < |chunks| ==> |chunks[i]| == q + (if i < r then 1 else 0)
    ensures TotalLength(chunks[..k]) == k * q + (if k < r then k else r)
  {
    if k > 0 {
      PrefixTotal(chunks, q, r, k - 1);
      assert chunks[..k][..k - 1] == chunks[..k - 1];
      assert (k - 1) * q + q == k * q;
    }
  }

  /**
   * `[start_date + timedelta(days=x) for x in range(total_days)]` with
   * `total_days = (end_date - start_date).days + 1`; empty when the end is
   * before the start.
   */
  function DateRange(startDay: int, endDay: int): (r: seq<int>)
    ensures |r| == if startDay <= endDay then endDay - startDay + 1 else 0
  {
    var total := endDay - startDay + 1;
    if total <= 0 then [] else seq(total, x requires 0 <= x < total => startDay + x)
  }

  /** The range lists each day from the start to the end inclusive, once, in order. */
  lemma DateRangeDays(startDay: int, endDay: int)
    ensures forall d :: d in DateRange(startDay, endDay) <==> startDay <= d <= endDay
    ensures forall k :: 0 <= k < |DateRange(startDay, endDay)| ==> DateRange(startDay, endDay)[k] == startDay + k
  {
    forall d | startDay <= d <= endDay
      ensures d in DateRange(startDay, endDay)
    {
      assert DateRange(startDay, endDay)[d - startDay] == d;
    }
  }

  /** One outer-pool submission: the day and the chunk of serials it covers. */
  datatype Task = Task(day: int, chunk: seq<string>)

  /** The tasks submitted for one day: one per chunk, in chunk order. */
  function DayTasks(day: int, chunks: seq<seq<string>>): (r: seq<Task>)
    ensures |r| == |chunks|
  {
    seq(|chunks|, i requires 0 <= i < |chunks| => Task(day, chunks[i]))
  }

  /** The tasks submitted for a list of days, day after day. */
  function TaskList(days: seq<int>, chunks: seq<seq<string>>): seq<Task>
  {
    if days == [] then [] else TaskList(days[..|days| - 1], chunks) + DayTasks(days[|days| - 1], chunks)
  }

  /**
   * The submission loops of `generate_smart_meter_readings`: for each day
   * of the range, for each chunk, one task. Returns the tasks in submission
   * order, and whether the final wait raises: with an empty range the
   * loops never bind `futures`, so `as_completed(futures)` raises
   * `UnboundLocalError`.
   */
  method GenerateSmartMeterReadings(serials: seq<string>, startDay: int, endDay: int)
    returns (submitted: seq<Task>, waitRaises: bool)
    ensures submitted == TaskList(DateRange(startDay, endDay), SerialChunks(serials))
    ensures waitRaises <==> endDay < startDay
    ensures waitRaises ==> submitted == []
  {
    var serialChunks := SerialChunks(serials);
    var dates := DateRange(startDay, endDay);
    submitted := [];
    var d := 0;
    while d < |dates|
      invariant 0 <= d <= |dates|
      invariant submitted == TaskList(dates[..d], serialChunks)
    {
      var c := 0;
      while c < |serialChunks|
        invariant 0 <= c <= |serialChunks|
        invariant submitted == TaskList(dates[..d], serialChunks) + DayTasks(dates[d], serialChunks[..c])
      {
        submitted := submitted + [Task(dates[d], serialChunks[c])];
        c := c + 1;
      }
      assert serialChunks[..c] == serialChunks;
      assert dates[..d + 1][..d] == dates[..d];
      d := d + 1;
    }
    assert dates[..d] == dates;
    waitRaises := |dates| == 0;
  }

  /**
   * Eight tasks per day: task `8 d + i` covers day `d` of the list and
   * chunk `i`, so every (day, chunk) pair is submitted exactly once.
   */
  lemma {:induction false} TaskListAt(days: seq<int>, chunks: seq<seq<string>>)
    requires |chunks| == 8
    ensures |TaskList(days, chunks)| == 8 * |days|
    ensures forall d, i :: 0 <= d < |days| && 0 <= i < 8 ==>
      TaskList(days, chunks)[8 * d + i] == Task(days[d], chunks[i])
    decreases |days|
  {
    if days != [] {
      var n := |days| - 1;
      var before := TaskList(days[..n], chunks);
      TaskListAt(days[..n], chunks);
      assert TaskList(days, chunks) == before + DayTasks(days[n], chunks);
      forall d, i | 0 <= d < |days| && 0 <= i < 8
        ensures TaskList(days, chunks)[8 * d + i] == Task(days[d], chunks[i])
      {
        if d < n {
          assert 8 * d + i < |before|;
          assert days[..n][d] == days[d];
        } else {
          assert 8 * d + i - |before| == i;
        }
      }
    }
  }
}
