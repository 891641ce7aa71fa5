# MKV to MP4 converter — conversion queue model

The page in `script.js` converts Matroska (`.mkv`) files to MP4 in the browser.
The user drops or picks files. Each file of at most 2 GiB becomes a queue item
with status `pending` and progress 0. The queue is worked off one item at a
time, front first. The item being converted is `converting`. When the engine
succeeds it ends `completed`, with its converted bytes and output name stored
for download. When the engine throws it ends `error`. Either way it leaves the
queue and the next item starts, provided the page's own status updates do not
throw (see "## Left out"). A stats panel shows the queue length, the
number of completed rows and an estimated time of two minutes per waiting file.

This project models that queue manager in Dafny and proves what it promises:

- `wrappers.dfy`: `Option` and `Result`.
- `js_string.dfy`: the JavaScript string operations the page relies on:
  `indexOf`, `replace` with a string pattern and a replacement without `$`
  (first occurrence only),
  ASCII `toLowerCase` and `toUpperCase`, `endsWith`, and the decimal rendering
  of a number inside a template literal.
- `naming.dfy`: the output-name rule `name.replace('.mkv', '.mp4')`, the drop
  filter's name test and `capitalizeFirst`.
- `jobs.dfy`: files, statuses, queue items, the 2 GiB limit, admission of a
  batch, storing a result, the final status of a settled item and the guard
  of `downloadFile`. The FFmpeg engine is an `Outcome` parameter with three
  cases:
  - `Converted(data)`: the run succeeded.
  - `FailedAfterStore(data)`: the bytes were stored at lines 180-181, then a
    later step threw.
  - `Failed`: a step threw before anything was stored.
- `queue_spec.dfy`: the page's state as a value. It holds the queue, the busy
  flag `isConverting`, whether the engine loaded, the rows that left the queue
  but stay on the page, and the next item id. It defines one function per
  step:
  - `Start`: `processQueue` up to its `await`.
  - `Finish`: the code after the `await`.
  - `Progress`: the engine's progress callback.
  - `Add`: `addFilesToQueue`.
  - `Drain`: the queue run to the end with a list of outcomes.

  The invariant `Inv` captures what the page keeps true:
  - busy only when loaded and non-empty;
  - never idle with items waiting once loaded;
  - only the head converting;
  - waiting items pending with progress 0 and no data;
  - settled rows completed or error;
  - item ids strictly increasing.
- `manager.dfy`: the page as a class `QueueManager`. Its fields are updated in
  place by methods:
  - `StartNext`, `AddFiles`, `OnProgress`, `Settle` and `ProcessAll` are each
    proved equal to a step function of `queue_spec.dfy`.
  - The loop of `AppendAdmitted` is proved to append exactly the admitted
    items (`Enqueue` of `Admit`).
  - The constructor, `AddFiles`, `OnProgress`, `Settle` and `ProcessAll` keep
    `Valid()`, the invariant of `queue_spec.dfy`.
- `stats.dfy`: `updateStats` — queue count, completed count and estimated time.
- `scenario.dfy`: two worked runs. In the first, a batch has an oversized file
  in the middle. In the second, a failing conversion is followed by a
  successful one.

The `await convertFile(...)` in `processQueue` is modelled by splitting the
function in two. `StartNext` is everything before the suspension: it sets the
busy flag and marks the head `converting`. `Settle` is everything after it.
Other work can therefore only observe the state between those two steps.

Behaviour of the code worth knowing:

- The output name replaces the first `.mkv` anywhere in the name, and is
  case-sensitive. A name without `.mkv` keeps its name unchanged: `noext`
  stays `noext`, and it does not gain an extension. An upper-case
  `MOVIE.MKV` passes the drop filter, because that filter lower-cases the
  name first, but it keeps its name (`Naming.UpperCaseExtensionKeepsName`).
  The engine is then run with the same path as input and output and, if the
  run and the read succeed, that path is unlinked twice. Whether this fails is up to the engine, which is
  outside the source. The free `Outcome` parameter therefore also allows a
  successful conversion of such a file, which the page may never reach.
- Nothing clamps progress to 0..100 or keeps it monotone. The callback writes
  whatever percentage the engine reports.
- Whether an item holds converted data does not follow from its status. If
  the clean-up after lines 180-181 throws, the item ends `error` yet still
  holds data that `downloadFile`'s guard would accept. No button is offered
  for such an item, because it is wired only after the clean-up.
- Files picked through the file input are not filtered by name. Only the drop
  handler filters.

## Model

| member | source | states |
|---|---|---|
| JsString.IndexOf | script.js:161 | the result is present exactly when the pattern occurs, and it is then the first occurrence |
| JsString.Replace | script.js:161 | for a replacement without `$`: without an occurrence the string is unchanged; otherwise only the first occurrence is replaced |
| JsString.Decimal | script.js:242-243 | a number renders as a non-empty string of digits without a leading zero |
| JsString.DecimalRoundTrip | script.js:242-243 | parsing the rendered digits gives back the number |
| JsString.DecimalInjective | script.js:242-243 | distinct numbers render differently |
| Naming.OutputName | script.js:161 | length is preserved; a name without `.mkv` is unchanged; otherwise the first `.mkv` becomes `.mp4` and the rest is kept |
| Naming.OutputNameSwapsExtension | script.js:161 | a name ending in `.mkv` with no earlier `.mkv` gets its stem plus `.mp4`, and ends in `.mp4` |
| Naming.OutputNameOfMovie | script.js:161 | `movie.mkv` becomes `movie.mp4` |
| Naming.OutputNameOfDoubleExtension | script.js:161 | `archive.tar.mkv` becomes `archive.tar.mp4` |
| Naming.OutputNameWithoutExtension | script.js:161 | `noext` stays `noext`: no extension is appended |
| Naming.OutputNameReplacesFirstOnly | script.js:161 | `a.mkv.mkv` becomes `a.mp4.mkv`: only the first occurrence changes |
| Naming.IsMkvNameByCharacters | script.js:64 | the drop filter accepts a name exactly when its last four characters are `.`, `m`/`M`, `k`/`K`, `v`/`V` |
| Naming.UpperCaseExtensionKeepsName | script.js:64 | `MOVIE.MKV` passes the drop filter but its output name is unchanged |
| Naming.CapitalizeFirst | script.js:254-256 | the length and the tail are kept, and the first character is the same letter and not lower-case |
| Naming.CapitalizeFirstIdempotent | script.js:254-256 | capitalising twice is the same as once |
| Jobs.StatusLabels | script.js:123 | the four statuses display as `Pending`, `Converting`, `Completed`, `Error` |
| Jobs.SizeLimitBoundary | script.js:87-90 | a file of exactly 2 GiB is accepted, and one byte more is rejected |
| Jobs.Filter | script.js:64 | the kept elements all pass the test, and there are no more of them than the input has |
| Jobs.FilterMembership | script.js:64 | an element is kept exactly when it is in the input and passes the test |
| Jobs.FilterAppend | script.js:86-101 | filtering a concatenation is the concatenation of the filtered parts, so one rejected file does not affect the rest |
| Jobs.DropFilter | script.js:64 | every dropped file that is kept has a `.mkv` name in any letter case |
| Jobs.DropFilterKeepsMkv | script.js:64 | a dropped file is kept exactly when its name ends in `.mkv` in any letter case |
| Jobs.AdmitSpec | script.js:86-101 | the admitted items are, in order, the files within the limit, each a new pending item with progress 0 and consecutive ids |
| Jobs.AdmitOnlyWithinLimit | script.js:86-101 | a file is admitted exactly when it is in the batch and within 2 GiB |
| Jobs.StoreResult | script.js:177-181 | after a store the item holds the bytes and the output name of its file; without a store it is unchanged; id, file, status and progress are kept |
| Jobs.SettleItem | script.js:141-147 | a settled item is `completed` exactly when the conversion succeeded, and `error` otherwise; id, file and progress are kept |
| Jobs.Download | script.js:200-211 | download fails exactly when there is no converted data; otherwise it yields that data under the stored output name |
| Jobs.DownloadAfterSettle | script.js:200-204 | a new item cannot be downloaded; a completed one yields its bytes named by the output-name rule; an early failure yields nothing; a failure after the store ends `error` yet passes the guard |
| QueueSpec.InitialInv | script.js:19-45 | the initial page satisfies the invariant, whether or not the engine loaded |
| QueueSpec.StartSpec | script.js:133-139 | starting is a no-op exactly when the engine is not loaded, the queue is empty or a conversion is running; otherwise busy is set and only the head's status changes, to `converting`; the engine flag and the id counter stay |
| QueueSpec.StartInv | script.js:132-139 | starting preserves the invariant |
| QueueSpec.AtMostOneConverting | script.js:137-139 | in every reachable state exactly one queued item is converting while busy, none otherwise, and no settled row is |
| QueueSpec.ProgressSpec | script.js:23-27 | the callback writes the percentage to the head only while busy, leaving every other field of the head, the other items, the engine flag and the id counter as they were, and preserves the invariant |
| QueueSpec.FinishSpec | script.js:141-156 | after a settle the head is appended to the page rows as completed or error, the queue shifts by one, the next item is converting, busy holds exactly when items remain, row ids, the engine flag and the id counter are kept, and the invariant holds |
| QueueSpec.FinishShape | script.js:149-156 | the shift and the restart of the next item, under the weaker running condition |
| QueueSpec.AddSpec | script.js:85-107 | adding keeps the invariant and the earlier entries, appends one item per file within the limit, each pending with progress 0 unless it starts at once, leaves the manager busy exactly when the engine is loaded and the queue is non-empty, keeps the engine flag, and advances the id counter by the number of admitted files |
| QueueSpec.EnqueueInv | script.js:92-106 | appending fresh pending items and starting when idle preserves the invariant |
| QueueSpec.DrainWithoutEngine | script.js:133-135 | without a loaded engine nothing is ever processed |
| QueueSpec.DrainSpec | script.js:149-156 | running the queue with enough outcomes settles every item in order, each by its own outcome, and leaves the queue empty and idle |
| QueueSpec.DrainSettlesInOrder | script.js:149-156 | after draining, the earlier rows are kept and the k-th queued item is the k-th new row, with the same id, completed exactly when the k-th outcome succeeded, so a failure does not stall the rest |
| Stats.EstimatedTime | script.js:239-243 | the text is `--:--` exactly when nothing waits; otherwise it is a run of decimal digits without a leading zero followed by `min`, and that number is two minutes per waiting file |
| Stats.StatsOf | script.js:234-244 | the queue count is the queue length; the completed count is at most the number of rows and, in every reachable state, equals the number of completed settled rows (the page counts DOM rows, which agrees only while row ids are distinct, which the source's ids do not guarantee); the estimate is `--:--` exactly when the queue is empty |
| Stats.OnlySettledRowsComplete | script.js:236 | in every reachable state no waiting row is completed, so counting completed rows over the whole page counts settled rows only |
| Stats.CountCompletedAppend | script.js:236 | completed rows of two row lists add up |
| Stats.DrainFigures | script.js:234-243 | after draining, the queue count is 0, the estimate is `--:--` and the completed count grows by the number of successful outcomes |
| Manager.QueueManager.constructor | script.js:19-45 | a new page has an empty queue, is idle, and records whether the engine loaded |
| Manager.QueueManager.StartNext | script.js:132-139 | the method performs the start step and reports whether it started a conversion |
| Manager.QueueManager.AddFiles | script.js:85-107 | the method performs the add step and keeps the invariant |
| Manager.QueueManager.AppendAdmitted | script.js:86-101 | the loop appends exactly the admitted items and advances the id counter by their number |
| Manager.QueueManager.OnProgress | script.js:23-27 | the method performs the progress step and keeps the invariant |
| Manager.QueueManager.Settle | script.js:141-156 | the method stores the result, sets the final status, shifts the queue, clears busy and starts the next item, as the finish step does |
| Manager.QueueManager.ProcessAll | script.js:132-157 | the loop drains the queue as `Drain` does and only appends to the page rows |
| Scenario.BatchWithOversizedFile | script.js:85-107 | in a batch of three with an oversized middle file, the other two are queued in order and the first starts |
| Scenario.FailureDoesNotStallQueue | script.js:141-156 | after a failed head the next item converts and then completes; only the completed row can be downloaded |

## Left out

- `server.js` (static file server with cross-origin isolation headers) is not part of this model.
- The FFmpeg engine (`createFFmpeg`, `load`, `fetchFile`, `FS`, `run`) is an `Outcome` parameter. Its internals, and the clean-up with `unlink`, are not modelled.
- `initFFmpeg`'s failure alert: a failed load is modelled only as `loaded == false`.
- All DOM work is left out: rendering rows, showing the download button, object URLs, and the anchor click of `downloadFile`. The rows that stay on the page are modelled as the `settled` sequence.
- The theme toggle, `localStorage`, `initTheme` and `updateThemeIcon` are left out, as they play no part in the queue.
- `showError`/`alert` is left out: a rejection is modelled by the file not being admitted.
- `formatFileSize` is left out; it uses floating-point logarithms and affects only the display.
- QueueSpec.ProgressSpec: the percentage is an integer input; the `Math.round(ratio * 100)` floating-point rounding is not modelled.
- Item ids are a counter (`nextId`) instead of `Date.now() + Math.random()`, which needs a clock and randomness; the model proves the ids increase strictly. The source's ids are not guaranteed distinct: near 1.8e12 a double has a spacing of 2^-12, so two files queued in the same millisecond can get the same id. A row is found by `queue-item-${id}`, so with a collision a later item's status, progress and download button land on the earlier row, and the later item's own row stays `Pending`. The model does not capture this.
- Stats.StatsOf: the page counts DOM elements matching `.status.completed`, and the model counts item statuses. The two agree only while row ids are distinct and file names contain no markup. A colliding id can make the page show fewer completed rows. A name such as `x<b class="status completed"></b>.mkv` is inserted raw into the row's HTML and adds an element the page counts. Stats.DrainFigures and Stats.OnlySettledRowsComplete rest on the same assumption.
- QueueSpec.Start and QueueSpec.Finish assume `updateQueueItemStatus` does not throw. The source calls it after setting the busy flag and outside the `try`, and again inside the `catch`. Each call dereferences the row's `.status` element without a null check. A file name containing markup such as `a<!--.mkv` turns the rest of the row's template into a comment, so the row has no `.status` element. The first call then throws, `processQueue` rejects, the busy flag stays set and the head stays `converting`. Every later `addFilesToQueue` then skips `processQueue`, so the queue stalls for good. The model contains this stuck state only as an outcome that never arrives.
- Naming.IsMkvNameByCharacters: lower-casing is ASCII only; JavaScript's full Unicode case mapping is not modelled.
- Naming.CapitalizeFirst: upper-casing is ASCII only, and strings are sequences of characters, not UTF-16 code units.
- Concurrency: JavaScript's event loop is modelled only by the split at the `await`. Progress callbacks and additions may happen between the two steps. A second `processQueue` entering during a conversion hits the busy guard, and `StartSpec` shows that is a no-op.
- A retrieve-by-id operation and a dedicated engine-failed state do not exist in the code, so they are not modelled.
