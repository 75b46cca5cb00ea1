# Bafload, modelled in Dafny

Bafload uploads big files to Amazon S3 as multipart uploads, using
Twisted. This project models its core and proves properties of it:

- **Parts.** A file is cut into numbered parts (`generate_parts`), which
  `count_parts` counts ahead of time. Each part is uploaded through a
  retry strategy, binary exponential backoff.
- **Accounting.** A progress counter logs one padded line per part sent.
  A throughput counter credits the bytes of each part to a sliding,
  time-bucketed window.
- **Settling.** Once every part has settled, the upload is completed with
  the parts' ETags, or it fails with the first part's error.

`throttle.py` offers throttlers that limit how many calls run at once.
The uploader itself does not use them.

Three more pieces are modelled:

- the manager's registry of running uploads;
- the original single-file uploader, `bafload.py`, which cuts a file into
  5 MiB chunks and uploads them as parts 1, 2, 3, ...;
- the requirements-file filter of `setup.py`. Its whitespace is Python 2's `str.strip()` set for byte strings: space, tab, newline, carriage return, vertical tab and form feed. Python 3's `strip()` also removes `\x1c`-`\x1f`, `\x85` and Unicode spaces.

Modules, one per source file:

- `Stats` (`bafload/stats.py`):
  - the window is a sequence of `(start, value)` slots;
  - `update` is specified by the pure function `UpdatedSlots`, with lemmas stating what a reading of the window returns after it;
  - `SlidingStats` and `ThroughputCounter` are classes whose methods are proved against those functions.
- `Throttle` (`bafload/throttle.py`):
  - the pass-through throttler is a function;
  - `MaxConcurrentThrottler` is a class. It makes explicit which calls are running, which are queued and what each caller received.
- `Retry` (`bafload/retry.py`): the backoff driven over a given list of attempt outcomes, proved against the schedule of delays `Schedule`.
- `Common` (`bafload/common.py`): the log, the progress line and `BaseCounter`.
- `Up` (`bafload/up.py`):
  - part generation and counting;
  - the ETag lookup;
  - the callbacks a `MultipartUpload` chains on its parts and on its completion;
  - `MultipartUploadsManager`.
- `Legacy` (`bafload.py`): chunking and part numbering.
- `Requirements` (`setup.py`): `load_requirements` over the lines of the file.
- Helpers with no source counterpart:
  - `Wrappers` (`Option`, `Result`);
  - `Bytes` (`byte` and `Flatten`);
  - `Text` (decimal rendering and `%-Ns` padding);
  - `Arith` (division lemmas).

Integers stand for the source's numbers:

- Python's `/` and `%` on `int` with a positive divisor agree with Dafny's.
- Times and the backoff's slot duration and scatter are integers; see "Left out".

## Model

| member | source | states |
|---|---|---|
| Stats.Align | bafload/stats.py:42 | the aligned time `t - t % dur` is a multiple of the slot duration within one slot before `t` |
| Stats.ResetWindow | bafload/stats.py:23-27 | `_reset_slots(t)` builds `size` empty, contiguous, aligned slots whose newest starts at `t` |
| Stats.ResetWindowStarts | bafload/stats.py:26-27 | slot `i` of a fresh window starts `size-1-i` slot durations before `t` |
| Stats.SlotAligned | bafload/stats.py:7-14 | every start time of a well-formed window is a multiple of the slot duration |
| Stats.SlotStart | bafload/stats.py:7-14 | slot `i` of a window without gaps starts `i` slot durations after the first |
| Stats.StartsDistinct | bafload/stats.py:7-14 | two slots of a window share a start time exactly when they are the same slot |
| Stats.FirstNotAfterLast | bafload/stats.py:43-45 | the oldest slot never starts after the newest |
| Stats.ValueAtIndex | bafload/stats.py:54-55 | reading a window at a slot's start time returns that slot's value |
| Stats.ValueAtAbsent | bafload/stats.py:43-44 | a time outside the window reads 0 |
| Stats.SlotIndexFinds | bafload/stats.py:47-53 | for an aligned time inside the window, the negative index computed from the newest slot names the slot starting at that time |
| Stats.WindowShape | bafload/stats.py:49-51 | the window ending at an aligned time is well formed |
| Stats.WindowOfSelf | bafload/stats.py:47-51 | a window read back over its own times is itself, so no append leaves it unchanged |
| Stats.WindowShift | bafload/stats.py:49-51 | one append to the bounded deque, which evicts the oldest slot and adds an empty one, moves the window one slot forward |
| Stats.ResetIsWindow | bafload/stats.py:45-46 | past one generation the reset window is exactly the window ending at the new time: nothing old survives |
| Stats.AddAtSlot | bafload/stats.py:54-55 | adding at a slot's start time changes exactly that slot |
| Stats.UpdateTail | bafload/stats.py:47-55 | after sliding, writing at the computed index is the specified update |
| Stats.UpdateStale | bafload/stats.py:43-44 | a point older than the oldest slot changes nothing |
| Stats.UpdateResets | bafload/stats.py:45-46 | a point more than a generation ahead leaves a fresh window ending at its aligned time, with `count` in the newest slot only |
| Stats.UpdateAddsInRange | bafload/stats.py:47-55 | a point inside the window adds `count` to exactly the slot starting at its aligned time |
| Stats.WindowReads | bafload/stats.py:49-51 | sliding preserves the value recorded for every time still in the window |
| Stats.AddAtReads | bafload/stats.py:54-55 | adding changes the reading at the aligned time alone, by `count` |
| Stats.UpdateReads | bafload/stats.py:29-55 | after `update`, a time before the window reads 0; any other slot time reads its old value, plus `count` at the updated time |
| Stats.InitialExample | bafload/test/test_stats.py:9-16 | `SlidingStats(200, 2, 100)` holds the times 2, 4, ..., 200, all empty |
| Stats.ResetExample | bafload/test/test_stats.py:33-38 | then `update(900, 10)` resets to 702, ..., 900 with 10 in the newest slot |
| Stats.SlideExample | bafload/test/test_stats.py:40-45 | instead `update(350, 7)` slides to 152, ..., 350 with 7 in the newest slot |
| Stats.SlotIndex | bafload/stats.py:47-53 | the index `update` writes at: -1, or for a point older than the newest slot `(tp - last) / dur - 1`, a negative Python index; `SlotIndexFinds` proves it names the slot starting at the point |
| Stats.Window | bafload/stats.py:47-51 | the `n` slots ending at a given newest start, each holding what the old window held for its time; `WindowShift` proves each append builds the next one, and `WindowReads` that nothing still covered is lost |
| Stats.AddAt | bafload/stats.py:54-55 | adds `count` to the slot starting at the point and keeps the length and every start time; `AddAtSlot` and `AddAtReads` say it changes exactly that slot |
| Stats.UpdatedSlots | bafload/stats.py:29-55 | `update(t, count)` as a function of the window; the result has the same length and is well formed; what it holds is stated by `UpdateStale`, `UpdateResets`, `UpdateAddsInRange` and `UpdateReads` |
| Stats.CreditTimes | bafload/stats.py:75-81 | the times `stop_entity` credits; `CreditTimesCoverElapsed` states how many and where |
| Stats.UpdateAll | bafload/stats.py:79-81 | a run of updates keeps the window's length and shape |
| Stats.UpdateAllStep | bafload/stats.py:79-81 | one more update in the run applies `update` to the result so far |
| Stats.SlidingStats.constructor | bafload/stats.py:16-21 | the window is the fresh window for the aligned construction time |
| Stats.SlidingStats.ResetSlots | bafload/stats.py:23-27 | the slots become the fresh window ending at `t` |
| Stats.SlidingStats.Update | bafload/stats.py:29-55 | the in-place update leaves exactly `UpdatedSlots` of the old window and keeps the window well formed |
| Stats.SlidingStats.SlideTo | bafload/stats.py:45-51 | the reset and append loop leave the window ending at the newer of the point and the old newest slot |
| Stats.CreditTimesCoverElapsed | bafload/stats.py:75-81 | under 5 seconds the stop time is credited once; otherwise once every 5 seconds back from the stop time, `ceil(elapsed/5)` times, all after the start |
| Stats.ThroughputCounter.constructor | bafload/stats.py:61-66 | a fresh default window (size 2048, 1-second slots) at the clock time and no started entities |
| Stats.ThroughputCounter.StartEntity | bafload/stats.py:68-70 | the entity's start time becomes the clock time; other entities keep theirs |
| Stats.ThroughputCounter.StopEntity | bafload/stats.py:72-81 | a started entity is removed and `size` credited at each credit time; an unknown entity raises (`found` false) and nothing changes |
| Throttle.PassThru | bafload/throttle.py:13-14 | the function is called at once and its own result handed back |
| Throttle.MaxConcurrentThrottler.constructor | bafload/throttle.py:20-23 | nothing pending, no backlog, nothing called |
| Throttle.MaxConcurrentThrottler.Throttle | bafload/throttle.py:25-32 | below `max` pending calls the function is called at once, otherwise the call joins the back of the backlog; `pending` grows by one; at most `max` calls ever run |
| Throttle.MaxConcurrentThrottler.DoCall | bafload/throttle.py:34-37 | the next submitted call is made and counts as running |
| Throttle.MaxConcurrentThrottler.FinishCall | bafload/throttle.py:39-44 | the caller receives the outcome, `pending` drops, the oldest queued call starts, and the outcome passes through unchanged |
| Throttle.MaxConcurrentThrottler.Idle | bafload/throttle.py:25-44 | nothing pending exactly when every submitted call was made and settled |
| Throttle.MaxConcurrentScenario | bafload/test/test_throttle.py:51-70 | with `max` 3, five calls start three; each of the first two completions starts one more; then nothing is pending and every caller got its result |
| Retry.Delay | bafload/retry.py:54 | the wait before a retry with slot count `count`; `DelayDoubles` gives its recurrence, and `DelayMonotone` shows it never shrinks |
| Retry.DefaultConfig | bafload/retry.py:30-37 | the defaults fail on truncation after 12 slots |
| Retry.Schedule | bafload/retry.py:53-55 | retry `i` waits the delay for slot count `min(i, max_slots)`, and the first attempt does not wait |
| Retry.Retry | bafload/retry.py:39-57 | every attempt calls `f` with the same arguments; the first success is delivered after failures only; with `fail_on_truncate` it gives up with the last error after `max_slots` failed calls; with no slots and `fail_on_truncate` (and only then) `retry` raises before any call, since `errback(None)` has no failure to build; the delays scheduled are exactly `Schedule` |
| Retry.DelayDoubles | bafload/retry.py:54 | each extra slot doubles the wait plus one slot's worth |
| Retry.DelayMonotone | bafload/retry.py:54 | more slots never mean a shorter wait |
| Retry.ScheduleNondecreasing | bafload/retry.py:45-55 | the waits never shrink, and from retry `max_slots` on they stay at the capped delay |
| Retry.ScheduleExample | bafload/test/test_retry.py:15-31 | one-second slots and no scatter give the waits 1, 3, 7, ..., 511 |
| Retry.NineFailuresScenario | bafload/test/test_retry.py:15-31 | nine failures then a success: ten calls with the same arguments, nine waits, and the success value delivered |
| Retry.TwelveFailuresScenario | bafload/test/test_retry.py:47-59 | twelve failures under the defaults: eleven waits, then failure with the last error |
| Retry.NoSlotsScenario | bafload/retry.py:45-48 | with `max_slots` 0 and `fail_on_truncate`, `retry` raises without calling the function |
| Common.ExpectedText | bafload/common.py:33-34 | an unknown total renders as `?` and only it does |
| Common.Verb | bafload/common.py:31 | `received` for a receiving counter, `transferred` otherwise |
| Common.ProgressText | bafload/common.py:33-34 | the unpadded progress text; `ProgressTextLayout` gives its parts in order |
| Common.ProgressMessage | bafload/common.py:32-34 | the progress line; `ProgressMessageLayout` gives its layout and `ProgressMessageDistinguishesCounts` shows it tells counts apart |
| Common.ProgressMessageLayout | bafload/common.py:31-34 | the line starts with the progress text, is padded with spaces to 40 columns and never truncated, then has a space and, for a terminal, a carriage return |
| Common.ProgressTextLayout | bafload/common.py:33-34 | the progress text is the context, the verb, ` parts ` and `completed/expected`, in that order |
| Common.CountTextHasNoSpace | bafload/common.py:33-34 | `completed/expected` contains no space |
| Common.ProgressMessageDistinguishesCounts | bafload/common.py:29-34 | different counts give different progress lines |
| Common.ReceivedExample | bafload/test/test_common.py:38-44 | a receiving counter expecting 365 parts logs `received parts 1/365` padded, then `\r` |
| Common.TransferredExample | bafload/test/test_common.py:45-51 | the same with `transferred` |
| Common.NotForStdoutExample | bafload/test/test_common.py:52-58 | without terminal formatting there is no carriage return |
| Common.BaseCounter.constructor | bafload/common.py:20-27 | the counter starts at 0 with no context, terminal formatting on and `receiving` unset |
| Common.BaseCounter.SetLog | bafload/common.py:11-14 | `None` keeps the log, anything else replaces it, and nothing else changes |
| Common.BaseCounter.IncrementCount | bafload/common.py:29-34 | the count goes up by one and exactly one progress line is logged; with `receiving` unset the verb lookup fails after the count went up, and nothing is logged |
| Common.IncrementingScenario | bafload/test/test_common.py:60-69 | three increments log the lines for 1/365, 2/365 and 3/365 in turn |
| Up.CountParts | bafload/up.py:41-49 | `?` exactly when the source has no byte length; otherwise the number of parts is the ceiling of length over part size |
| Up.CountPartsUnique | bafload/up.py:46-49 | that count is the only one that covers the length this tightly |
| Up.ReadingStep | bafload/up.py:35-39 | yielding a non-empty part and reading the next keeps the generator's invariant |
| Up.ReadingDone | bafload/up.py:36 | an empty read ends generation with the whole data yielded, as many parts as `count_parts` says |
| Up.GenerateParts | bafload/up.py:29-39 | parts are numbered from 1, none empty, all full but the last, and together exactly the data; their number is `count_parts`; a part size of 0 yields nothing |
| Up.HandleHeaders | bafload/up.py:66-67 | the result is the part number and the `ETag` header, and is absent exactly when the header is missing |
| Up.Successes | bafload/up.py:138 | the successes' numbers and ETags, in order, never more than the results |
| Up.Failures | bafload/up.py:139 | the failures' descriptions, in order, never more than the results |
| Up.Collate | bafload/up.py:138-141 | the first failure if there is one, else the parts list; `CollateMeaning` states the result against the results themselves |
| Up.FirstFailure | bafload/up.py:138-141 | the index of a failed result with no failure before it |
| Up.CollateMeaning | bafload/up.py:134-149 | the upload fails exactly when some part failed, with the error of the first failed part; otherwise it completes with every part's number and ETag in generation order |
| Up.CollateNumbersParts | bafload/up.py:138-147 | generated parts that all uploaded are completed with the part numbers 1, 2, ... in order |
| Up.StartAll | bafload/up.py:112-114 | the start times after dispatching a batch of parts; no entity already started is lost; `StartAllMeaning` gives every entry |
| Up.StartAllMeaning | bafload/up.py:112-114 | one dispatch takes one clock reading: every part of its batch starts at that time, and other entities keep their start times. Dispatching one part at a time, as `_generate_parts` does step by step, gives each part its own reading |
| Up.MultipartUpload.constructor | bafload/up.py:78-86 | a fresh upload not yet settled, with no completion requested |
| Up.MultipartUpload.DispatchParts | bafload/up.py:110-114 | with a throughput counter, each dispatched part's entity is started |
| Up.MultipartUpload.StopEntity | bafload/up.py:124-132 | a failed part is credited 0 bytes and an uploaded one its size; the result passes through; an entity never started makes it raise |
| Up.MultipartUpload.PartSettled | bafload/up.py:104-132 | the part's entity leaves the throughput counter and its bytes, 0 for a failed part, are credited at its credit times; an entity never started turns the result into `KeyError` and credits nothing. A success then raises the count and logs exactly one progress line, or becomes `TypeError` when the counter has no verb. The counter's log, total, verb, context and formatting are unchanged |
| Up.MultipartUpload.Completed | bafload/up.py:151-155 | the response is recorded and `finished` fires once with the upload. A second call still records the response, then raises without firing anything |
| Up.MultipartUpload.Error | bafload/up.py:157-160 | `finished` errbacks once with the failure |
| Up.MultipartUpload.PartsUploaded | bafload/up.py:134-149 | with a failed part the upload fails with the first error; otherwise completion is requested with all the parts' numbers and ETags, in order |
| Up.NewPartsTransferredCounter | bafload/up.py:20-21 | a counter of parts sent, not received |
| Up.MultipartUploadsManager.constructor | bafload/up.py:189-199 | no uploads, the given log or else the default |
| Up.MultipartUploadsManager.Upload | bafload/up.py:201-227 | logs the start; registers a fresh upload with a counter expecting `count_parts` parts, the object name as its context, and the shared throughput counter |
| Up.MultipartUploadsManager.RemoveUpload | bafload/up.py:233-235 | the upload is unregistered; removing an unregistered one raises |
| Up.EntityIdsDistinct | bafload/up.py:113 | two uploads registered with one manager never share a throughput entity id, whatever their part numbers |
| Legacy.GenerateChunkFiles | bafload.py:14-26 | `size // CHUNK_SIZE` full chunks, then the `size % CHUNK_SIZE` remaining bytes (an empty chunk when the size divides); together exactly the file; one progress line per chunk `n/total` |
| Legacy.ChunkMessage | bafload.py:25 | the progress line for chunk `n` of `total`, padded to 40 columns; `ChunkMessageExample` shows one |
| Legacy.ChunkStep | bafload.py:20-24 | reading the next chunk, full or the remainder, keeps the chunker's invariant |
| Legacy.UploadMultipart | bafload.py:28-37 | chunks are uploaded as parts numbered from 1 in order and together make the file; standard error gets the bucket line, one line per chunk and `done` |
| Legacy.ExtraEmptyChunk | bafload.py:16-23 | the legacy chunker uses the same 5 MiB as `count_parts` in `bafload/up.py`, and yields one extra, empty, chunk exactly when the size is a multiple of it, an empty file included |
| Legacy.ChunkMessageExample | bafload.py:25 | a one-chunk file writes `uploading chunk 1/1` padded to 40 columns, then a space and `\r` |
| Requirements.LStrip | setup.py:14 | `lstrip()`; `LStripMeaning` states what it removes |
| Requirements.RStrip | setup.py:14 | `rstrip()`; `RStripMeaning` states what it removes |
| Requirements.Strip | setup.py:14 | `strip()`; `StripMeaning` and `StripIdempotent` state what it removes |
| Requirements.LStripMeaning | setup.py:14 | `lstrip` removes exactly the leading whitespace |
| Requirements.RStripMeaning | setup.py:14 | `rstrip` removes exactly the trailing whitespace |
| Requirements.StripMeaning | setup.py:14 | a stripped line is a slice of the line with only whitespace around it, and neither starts nor ends with whitespace |
| Requirements.StripIdempotent | setup.py:14 | stripping twice is stripping once |
| Requirements.Split | setup.py:20-21 | `split('==')` yields at least one piece |
| Requirements.JoinSplit | setup.py:20-21 | joining the pieces of a split with `==` restores the string |
| Requirements.SplitFindsEq | setup.py:20-21 | the split has more than one piece exactly when `==` occurs |
| Requirements.Judge | setup.py:14-24 | one line's verdict: skipped when blank, an option, a comment or excluded; the unpacking error when it splits into more than two pieces; otherwise kept as its stripped text; `JudgeKeepsWanted` and `LoadOne` state it |
| Requirements.Collect | setup.py:12-24 | the kept entries of a run of verdicts, or the failure; `CollectAppend` and `CollectFails` state it |
| Requirements.Load | setup.py:10-26 | the entries of a file, or the failure; `LoadRequirements` computes it, `LoadFails`, `LoadKeepsWanted` and `LoadAppend` state it |
| Requirements.Verdicts | setup.py:13-24 | each line is judged on its own |
| Requirements.LoadRequirements | setup.py:10-26 | the loop with its `continue`s computes exactly `Load` of the lines, failing where the two-name unpacking raises |
| Requirements.CollectAppend | setup.py:13-24 | the entries of two runs of lines are the two runs' entries joined |
| Requirements.LoadAppend | setup.py:13-24 | loading two files one after the other is loading their concatenation |
| Requirements.LoadOne | setup.py:14-24 | a single line is skipped, kept as its stripped text, or fails |
| Requirements.SkippedLineIsInert | setup.py:15-18 | a blank, option, comment or excluded line changes nothing around it |
| Requirements.CollectFails | setup.py:20-21 | collecting fails exactly when some verdict is the unpacking error |
| Requirements.LoadFails | setup.py:15-21 | the load fails exactly when some line that is not skipped splits on `==` into more than two pieces |
| Requirements.JudgeKeepsWanted | setup.py:14-24 | a kept entry is the stripped line, non-empty, not an option or comment, with at most one `==`, and not excluded |
| Requirements.LoadKeepsWanted | setup.py:13-24 | every loaded entry is the stripped text of some line, and is wanted |
| Requirements.EntryKeepsVersion | setup.py:19-24 | a pinned entry is kept whole: name, `==`, version |
| Requirements.EntryWithoutVersion | setup.py:19 | an entry without `==` is its own dependency name |
| Requirements.NothingExcluded | setup.py:9-18 | with the script's empty `exclude` list, a line is skipped exactly when its stripped text is empty, an option or a comment |
| Requirements.LoadExample | setup.py:10-26 | a pinned line, a comment, a blank, an option and a padded name load as `a==1` and `b` |
| Requirements.TwoPinsFail | setup.py:20-21 | a line `a==1==2` anywhere makes the load fail |

## Left out

- Twisted's Deferreds, `DeferredList`, `coiterate` and the reactor are not modelled. What a Deferred finally fires with is passed to the method that handles it. Clock readings are parameters. Callbacks run in the order the source chains them.
- `retry.py`'s random `scatter` and float `slot_duration` (0.1 by default) are a single integer each. `Retry.Retry` takes the scatter as a constant for the whole run.
- `Retry.Retry`: when the given outcomes run out before the call settles, the result is `Unsettled`. The source would keep retrying.
- `Retry.Retry`: retrying `complete_multipart_upload` is not modelled as a retry. Its final outcome arrives through `Up.MultipartUpload.Completed` or `Up.MultipartUpload.Error`.
- Times in `stats.py` are integers, not floats.
  - `Stats.CreditTimes` therefore counts `ceil(elapsed / 5)` with integer arithmetic.
  - `Stats.SlidingStats.Update` uses Euclidean division, which matches Python's floor division for the int operands modelled.
- `Stats.SlidingStats.constructor` requires a positive slot duration and size. A zero duration divides by zero in the source. With size 0, `update` indexes an empty deque.
- `Stats.SlidingStats.Update` is split into `SlideTo` and the write at the index, so that its loop has its own contract.
- `ThroughputCounter.read` is not modelled: it calls `time.time()`, a name `stats.py` never imports.
- `Up.CountParts` requires a positive part size: the source divides by the part size.
- The S3 clients (txaws and boto), `AWSServiceRegion` and the network are not modelled. A part's upload is its outcome. The legacy uploader's store is the list of parts handed to it.
- `MultipartUpload.upload` and `_initialized` (the retried `init_multipart_upload`) are not modelled. `upload` sets the part handler's bucket and object name. `_initialized` stores the upload id and starts `_generate_parts` under `coiterate`. The model starts from the parts and their outcomes.
- The manager's pluggable `counter_factory`, `parts_generator` and `part_handler` arguments are not modelled. `Up.MultipartUploadsManager.Upload` always builds a `PartsTransferredCounter` expecting `CountParts(length, DEFAULT_PART_SIZE)`, with the default file generator and single-process part handler.
- `Up.MultipartUpload.DispatchParts` takes one clock reading per call. The source reads the clock once per `start_entity`, each in its own `coiterate` step: that is one call per part.
- The model does not capture that `_generate_parts` makes a part's first upload attempt, through `retry`, before calling `start_entity` for it.
- `on_part_generated` and `__str__` are left out: one is an optional user callback, the other a debug string.
- `MultipartUploadsManager._completed_upload` and its `log.err` errback are left out. `_completed_upload` only logs. `log.err` logs the failure and swallows it: it returns `None`, so `_remove_upload` runs as a callback and the Deferred `upload` returns fires with the task whichever way the upload settled. The model keeps the settlement on the upload (`settled`) and does not model what `upload`'s caller receives.
- `Retry.Retry` models the case where `retry` raises with no slots from outside any exception handler. Called while an exception is being handled, Twisted's `errback(None)` would errback with that unrelated exception instead.
- The adapters, the interfaces, `errors.py`, the test utilities, `scripts/upload.py` and `scripts/genbench.py` are not part of this model.
- `Throttle.MaxConcurrentThrottler.FinishCall` does not model re-entrant completion: a queued call finishing synchronously inside `_finish_call`.
- `Legacy.GenerateChunkFiles` reads the file's size from its contents, where the source uses `os.stat`. Opening and closing the file are not modelled.
- `Requirements.LoadRequirements` takes the file as its list of lines. Opening and closing it are not modelled.
- `Up.EntityId` is a pair `(upload, part)`, not the string `'%s-%s'`. Both forms tell two ids apart in the same cases, because a number's digits hold no `-`.
- `Up.MultipartUpload.id` stands for Python's `id(self)`. The manager hands these ids out, so they are distinct among registered uploads.
- A callback that raises (`KeyError` from `stop_entity` on an unknown entity, `TypeError` from a counter without `receiving`) turns the part's result into a failure described by `KEY_ERROR` or `TYPE_ERROR`. This is how a Deferred handles a raising callback.
