# Fake smart-meter data generator, modelled in Dafny

This project models the core of a fake smart-meter data generator. The
generator:

- draws a cache of unique meter serials (`MAC` + 8 zero-padded digits),
  filtering the random draws through a membership filter;
- for every day of a date range, splits the serials round-robin into
  8 chunks and submits one task per (day, chunk);
- in each task, writes one JSON-lines file per meter into the day's scratch
  directory `/mnt/sm-disk/<date>`, each file holding one reading per
  ten-second slot of the day;
- collects the file names in a deque and, each time 25 have accumulated,
  hands the batch to an upload pool;
- in the upload pool, uploads the batch under the key prefix `dt=<date>/`,
  logs every per-file failure, then deletes the batch's local files.

Modules:

- `Naming`: serial, file-name, path and object-key formats.
- `Serials`: the generator and its process-wide cache (a class with the
  cache and flag as fields).
- `TimeSlots`: the time-slot grid and the readings of one file.
- `Batching`: the deque (a class) and the 25-name batch collector.
- `Upload`: the failure report, the scratch directory (a class) and the
  deletion.
- `Orchestrator`: the chunking, the date range and the task submissions.

Every sequential step of the core is modelled and its contract proved,
except the file I/O of `write_fake_data_file` (:61-67) and the progress
message at :96, listed under "## Left out"; the readings it builds
(:57-60) are modelled. Randomness, threads, the file system contents and the
cloud client are not modelled:

- The random integers the generator draws are an input sequence.
- The random reading values are an input sequence of thousandths.
- The bulk upload's outcome is an input.
- Write handles are opaque `WriteFuture(k)` values, where `k` is the
  position of the write within its task.

Where the code and its evident intent part ways, the model follows the
code:

- The attempt bound `10 * num_serials` is not enforced by the code (see
  Findings).
- A batch carries only the last write's future (see Findings).
- `os.remove` raises on a missing file, which stops the deletion of the
  rest of the batch; cleanup is not best-effort.

## Model

| member | source | states |
|---|---|---|
| Naming.ZeroPadRoundTrip | generate-fake-sm-data_threaded.py:37 | the `:08d` zero-padding of a number below 10^w reads back as that number |
| Naming.FileNameRoundTrip | generate-fake-sm-data_threaded.py:88 | the serial is recovered from `<serial>.json` |
| Naming.FileNameInjective | generate-fake-sm-data_threaded.py:88 | two serials share a file name only if they are equal |
| Naming.ZeroPad | generate-fake-sm-data_threaded.py:37 | `f"{n:0{w}d}"` for n below 10^w: exactly w decimal digits |
| Naming.FileName | generate-fake-sm-data_threaded.py:88 | `f"{serial}.json"`: the serial followed by the 5 characters of `.json` |
| Naming.FilePath | generate-fake-sm-data_threaded.py:89 | `f"{temp_dir}/{filename}"`: the directory, a slash and the name |
| Naming.ObjectKey | generate-fake-sm-data_threaded.py:118 | the key a file gets: the `dt=<date>/` prefix followed by its name |
| Naming.TempDir | generate-fake-sm-data_threaded.py:77 | a day's scratch directory is `/mnt/sm-disk/` followed by the date string |
| Naming.FilePathInjective | generate-fake-sm-data_threaded.py:89 | within one directory, distinct file names give distinct paths |
| Naming.BlobPrefix | generate-fake-sm-data_threaded.py:118 | the key prefix is `dt=`, then the date, then `/` |
| Serials.Serial | generate-fake-sm-data_threaded.py:36-37 | a serial drawn from 0..31,000,000 is 11 characters long |
| Serials.SerialRoundTrip | generate-fake-sm-data_threaded.py:36-37 | every serial is `MAC` plus 8 digits and parses back to the drawn integer |
| Serials.SerialInjective | generate-fake-sm-data_threaded.py:36-37 | two draws give the same serial iff they are equal |
| Serials.Accepted | generate-fake-sm-data_threaded.py:35-45 | the serials the loop accepts from a sequence of draws: a draw whose serial the filter holds is skipped, any other is accepted and added, and drawing stops after n |
| Serials.AcceptedAtMost | generate-fake-sm-data_threaded.py:35-45 | the generator never returns more serials than requested |
| Serials.AcceptedDistinctAndFresh | generate-fake-sm-data_threaded.py:39-45 | accepted serials are pairwise distinct, and none was in the filter before |
| Serials.AcceptedFromDraws | generate-fake-sm-data_threaded.py:36-45 | every accepted serial is the serial of some draw |
| Serials.AcceptedWellFormed | generate-fake-sm-data_threaded.py:36-45 | every accepted serial has the `MAC` + 8-digit format |
| Serials.UnderfillMeansExhausted | generate-fake-sm-data_threaded.py:35-45 | if fewer than n serials are returned, every draw's serial was already in the filter or in the result |
| Serials.AcceptedStops | generate-fake-sm-data_threaded.py:35 | once n serials are accepted, later draws change nothing |
| Serials.AcceptedSnoc | generate-fake-sm-data_threaded.py:36-45 | one more draw appends its serial iff fewer than n are accepted and the serial is new, and otherwise changes nothing |
| Serials.SerialCache.constructor | generate-fake-sm-data_threaded.py:19-21 | the cache starts empty and unfilled |
| Serials.SerialCache.GenerateUniqueSerialNumbers | generate-fake-sm-data_threaded.py:23-48 | a filled cache is returned unchanged; otherwise the cache becomes the serials accepted from the draws (at most n, distinct, well formed) and is marked filled |
| Serials.AttemptBoundIgnored | generate-fake-sm-data_threaded.py:33-42 | with 21 repeats of draw 0 and then draw 1, two serials are accepted although 22 > 10·2 draws were read |
| Serials.GenerateWithinBudget | generate-fake-sm-data_threaded.py:33-45 | with every draw counted as an attempt, at most 10·n draws are read, the result is what those draws yield, and an under-filled result means the budget or the draws ran out |
| TimeSlots.Range | generate-fake-sm-data_threaded.py:51 | Python's `range(start, stop, step)` for a positive step |
| TimeSlots.Product | generate-fake-sm-data_threaded.py:51 | `itertools.product` of three sequences, the rightmost component varying fastest |
| TimeSlots.TimeComponents | generate-fake-sm-data_threaded.py:51 | `time_components`: the product of `range(24)`, `range(60)` and `range(0, 60, 10)` |
| TimeSlots.HourAxis | generate-fake-sm-data_threaded.py:51 | `range(24)` is increasing, has 24 elements and holds exactly 0..23 |
| TimeSlots.MinuteAxis | generate-fake-sm-data_threaded.py:51 | `range(60)` is increasing, has 60 elements and holds exactly 0..59 |
| TimeSlots.SecondAxis | generate-fake-sm-data_threaded.py:51 | `range(0, 60, 10)` is 0, 10, …, 50 |
| TimeSlots.ProductSize | generate-fake-sm-data_threaded.py:51 | `product(xs, ys, zs)` has \|xs\|·\|ys\|·\|zs\| triples |
| TimeSlots.ProductMembers | generate-fake-sm-data_threaded.py:51 | the product holds a triple iff each component is in its input |
| TimeSlots.ProductSorted | generate-fake-sm-data_threaded.py:51 | the product of increasing inputs is in strictly increasing lexicographic order |
| TimeSlots.TimeGridSize | generate-fake-sm-data_threaded.py:51 | the grid has 8640 slots |
| TimeSlots.TimeGridSorted | generate-fake-sm-data_threaded.py:51 | the grid is in strictly increasing time order |
| TimeSlots.TimeGridMembers | generate-fake-sm-data_threaded.py:51 | a triple is on the grid iff it is a time of day whose second is a multiple of 10 |
| TimeSlots.Readings | generate-fake-sm-data_threaded.py:57-60 | one reading per slot |
| TimeSlots.DayReadings | generate-fake-sm-data_threaded.py:57-60 | a day's file has 8640 readings; the k-th is stamped with that day and the k-th grid slot and carries the k-th drawn value, so they are in strictly increasing time order |
| Batching.NameQueue.constructor | generate-fake-sm-data_threaded.py:161 | a fresh deque is empty |
| Batching.NameQueue.Append | generate-fake-sm-data_threaded.py:92 | appends the name at the end |
| Batching.NameQueue.Clear | generate-fake-sm-data_threaded.py:99 | empties the deque |
| Batching.FileNames | generate-fake-sm-data_threaded.py:88 | the file name of each serial, one per serial, in order |
| Batching.Step | generate-fake-sm-data_threaded.py:87-102 | one pass of the loop: the futures list becomes this serial's write only, the name is appended, and a deque of 25 is dispatched with that list and cleared |
| Batching.Collect | generate-fake-sm-data_threaded.py:87-102 | the collector after the loop has processed a sequence of serials |
| Batching.GenerateReadingsForDay | generate-fake-sm-data_threaded.py:86-103 | the deque and the batches submitted for upload are those of the collector specification run over the chunk |
| Batching.CollectShape | generate-fake-sm-data_threaded.py:87-102 | from an empty deque, after m serials exactly m/25 batches are dispatched; batch j holds the names of serials 25j..25j+24; the deque keeps the last m mod 25 names |
| Batching.OnlyLastFutureAwaited | generate-fake-sm-data_threaded.py:90 | each dispatched batch carries one future only, that of its 25th file |
| Batching.BatchesPartitionInput | generate-fake-sm-data_threaded.py:87-102 | the batches followed by the deque contents are all file names, in order; each batch has 25 names; m mod 25 are left |
| Batching.RemainderNeverDispatched | generate-fake-sm-data_threaded.py:87-106 | only the first m − m mod 25 names are ever dispatched |
| Batching.AwaitingAllCoversBatch | generate-fake-sm-data_threaded.py:90-102 | if the futures accumulate until each flush, batch j awaits the writes of all 25 of its files |
| Batching.FlushedBatchesCoverInput | generate-fake-sm-data_threaded.py:87-106 | if the remainder is flushed after the loop, every file name is dispatched exactly once, in order |
| Batching.FlushedBatchesAwaitTheirWrites | generate-fake-sm-data_threaded.py:87-106 | with the remainder flushed, every batch has 1 to 25 names and awaits the write of each of them |
| Upload.FailedUploads | generate-fake-sm-data_threaded.py:119-123 | the `(name, cause)` pairs of `zip(file_paths, results)` whose result is an exception, in order; no more than either list is long |
| Upload.FailureMessage | generate-fake-sm-data_threaded.py:123 | the line printed for one failed upload |
| Upload.FailedUploadsExact | generate-fake-sm-data_threaded.py:119-123 | a (name, cause) pair is reported iff some position of both lists holds that name and a failure with that cause |
| Upload.FailedUploadsCount | generate-fake-sm-data_threaded.py:119-123 | one report per failure among the pairs `zip` forms, so none when all uploads succeeded |
| Upload.UploadLog | generate-fake-sm-data_threaded.py:117-126 | a raised bulk call logs only its exception; otherwise line k is the message of the k-th reported failure |
| Upload.UploadLogLines | generate-fake-sm-data_threaded.py:119-123 | every line logged for a results list names a file and the cause of its failure, both from one position of the two lists |
| Upload.Paths | generate-fake-sm-data_threaded.py:134 | the path `<temp_dir>/<name>` of each name of the batch, in order |
| Upload.Removal | generate-fake-sm-data_threaded.py:133-134 | the directory after `os.remove` of each path in turn, and the first missing path, where the loop raises and stops |
| Upload.PathsDistinct | generate-fake-sm-data_threaded.py:134 | distinct names give distinct paths to remove |
| Upload.RemovalSucceeds | generate-fake-sm-data_threaded.py:133-134 | deletion raises nothing iff the paths are distinct and all present; it then leaves exactly the files not named |
| Upload.RemovalOnlyNamed | generate-fake-sm-data_threaded.py:133-134 | deletion only removes files, only named ones, and any error it reports names one of the paths |
| Upload.Directory.constructor | generate-fake-sm-data_threaded.py:77 | the day's scratch directory as the task finds it: `exist_ok=True` keeps whatever files it already holds |
| Upload.Directory.Remove | generate-fake-sm-data_threaded.py:134 | `os.remove` deletes a present file, and raises on a missing one, changing nothing |
| Upload.Directory.DeleteUploadedFiles | generate-fake-sm-data_threaded.py:130-134 | the directory and the error are those of the removal specification over the batch's paths |
| Upload.UploadFileBatches | generate-fake-sm-data_threaded.py:109-128 | the keys requested are `dt=<date>/<name>`; the log is that of the outcome; cleanup runs on the whole batch whatever the outcome |
| Upload.CleanupRemovesBatch | generate-fake-sm-data_threaded.py:128-134 | cleaning a batch of distinct files that are all present removes exactly them and raises nothing |
| Orchestrator.Stride | generate-fake-sm-data_threaded.py:147 | Python's `s[start::step]` |
| Orchestrator.SerialChunks | generate-fake-sm-data_threaded.py:147 | there are 8 chunks |
| Orchestrator.StrideAt | generate-fake-sm-data_threaded.py:147 | `s[i::8]` has the right length, and its j-th element is `s[i + 8j]` |
| Orchestrator.ChunksPartition | generate-fake-sm-data_threaded.py:147 | element j of chunk i is input element i + 8j, and input element k is element k/8 of chunk k mod 8 |
| Orchestrator.ChunkSizes | generate-fake-sm-data_threaded.py:147 | chunk i has \|s\|/8 elements, plus one for the first \|s\| mod 8 chunks; any two chunk sizes differ by at most one |
| Orchestrator.ChunksCoverInput | generate-fake-sm-data_threaded.py:147 | the chunk sizes add up to the number of serials |
| Orchestrator.PrefixTotal | generate-fake-sm-data_threaded.py:147 | the first k of chunks sized q+1 (first r) or q hold kq + min(k, r) elements |
| Orchestrator.DateRange | generate-fake-sm-data_threaded.py:143-152 | the range has end − start + 1 days, or none when the end precedes the start |
| Orchestrator.DateRangeDays | generate-fake-sm-data_threaded.py:143-152 | the range holds each day from start to end inclusive, the k-th being start + k |
| Orchestrator.DayTasks | generate-fake-sm-data_threaded.py:154-162 | the tasks of one day: one per chunk, in chunk order |
| Orchestrator.TaskList | generate-fake-sm-data_threaded.py:151-162 | the tasks of a list of days, day after day |
| Orchestrator.GenerateSmartMeterReadings | generate-fake-sm-data_threaded.py:136-166 | the tasks submitted are, day after day, one per chunk in chunk order; the wait at :165 raises iff the end date precedes the start, and then no task was submitted |
| Orchestrator.TaskListAt | generate-fake-sm-data_threaded.py:151-162 | there are 8 tasks per day, and task 8d + i covers day d and chunk i, so each (day, chunk) pair is submitted exactly once |

## Left out

- Thread pools, `as_completed` waits and scheduling are not modelled. Each
  task's loop is modelled sequentially. A write future is only a handle.
- The outer pool is a `with` block (:151), whose exit waits for every
  (day, chunk) task. When the date range is not empty, the wait at :165
  on the last task's future is therefore redundant. When the range is
  empty, `futures` is never bound, and :165 raises `UnboundLocalError`.
  `main` catches and prints that error (:198-199). The model captures
  this as the `waitRaises` result of
  `Orchestrator.GenerateSmartMeterReadings`.
- Each task's own write and upload pools (:80-81) are never shut down,
  and no code in the program waits for them. This is not modelled,
  because the model has no concurrency.
- The file I/O of `write_fake_data_file` is not modelled: `open`, the
  `orjson` encoding and the `except` that prints a write error (:61-67) are
  left out. `TimeSlots.Readings` models the readings it builds (:57-60). The progress message printed at :96 is left out too.
  `os.makedirs(temp_dir, exist_ok=True)` (:78) is modelled only as the
  directory the `Upload.Directory` constructor is given.
- A reading's value `round(random.uniform(0.0, 0.9), 3)` is an input
  integer of thousandths. Its range is not modelled, because floating point
  and randomness are out of scope.
- The Bloom filter is an exact set. Its false positives are not modelled:
  they only reject extra draws, as a true repeat does.
- Date parsing and formatting are not modelled: days are integers and date
  strings are given. The same holds for `argparse`, `main`,
  `multiprocessing.cpu_count` and the storage client.
- The exception handler at :105-106 is not modelled, because nothing in
  the modelled loop raises. At :198-199, only the raise at :165 for an
  empty date range is modelled, as `waitRaises`. An exception from the bulk upload
  (:125-126) is the `Raised` outcome.
- An exception from `os.remove` inside an upload task is not modelled
  beyond returning the missing path and stopping. The thread pool swallows
  it.
- Serials.SerialCache.GenerateUniqueSerialNumbers: the random draws are a
  finite sequence, so the loop also stops when they run out. The code
  draws for ever.
- Serials.SerialCache.GenerateUniqueSerialNumbers: the `|r| <= numSerials`
  and format facts are stated for the first call. A later call returns the
  cache unchanged, whatever it asks for.

## Findings

| source | as written | input that shows it | evidently intended | confidence | as-written member | corrected member |
|---|---|---|---|---|---|---|
| generate-fake-sm-data_threaded.py:33-42 | `max_iterations` is decremented only when a serial is accepted, so the `10 * num_serials` attempt bound never stops the loop. With more than 31,000,001 requested serials the loop never ends. | draws 0 (21 times) then 1, with 2 serials requested: 22 draws are read, more than 10·2 | every draw uses one attempt, so at most 10·n draws are read | not executed | Serials.AttemptBoundIgnored | Serials.GenerateWithinBudget |
| generate-fake-sm-data_threaded.py:90,101 | `futures` is rebuilt for every serial, so a batch awaits only the write of its 25th file | any 25 serials: the batch has one future, `WriteFuture(24)` | the batch awaits the writes of all its files | not executed | Batching.OnlyLastFutureAwaited | Batching.AwaitingAllCoversBatch |
| generate-fake-sm-data_threaded.py:87-106 | names left in the deque after the loop are never dispatched, so those files are never uploaded or deleted | 26 serials: one batch of 25 and one name left over; the default run (1,000,000 serials at :191, 125,000 = 5000·25 per chunk) never leaves a remainder | inferred from the program's purpose, since every file written is meant to be uploaded and then deleted: the remainder is flushed as a last, shorter batch | not executed | Batching.RemainderNeverDispatched | Batching.FlushedBatchesCoverInput |
