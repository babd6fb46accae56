# Dext3r downloader — a verified model

Dext3r is a Python client for the Dext3r meteorological data service. This
project models the core of its downloader and proves properties of that
model:

- **Packer** (`lib/stack.py`, module `Stack`). A greedy first-fit packer turns
  the size-sorted work queue into request-sized batches. Every unit of a batch
  shares the timeline section, aggregation period and variable of the first
  unit. No two units share a station name. The estimated number of lines stays
  within `max_lines`. `pop_biggest_slice` is a method on a `WorkQueue` object
  whose list it pops in place. It is proved against the pure function `Pack`.
- **Queue builder** (`lib/download_manager.py`, module `QueueBuilder`). It
  cuts the timeline into sections of at most `max_days` days, then clips each
  series' availability window to each section. With `resume`, it drops the
  units already sent under a task that is not flagged invalid. It then sorts
  the queue by size. It also extracts task ids (UUIDs) from the invalid-tasks
  file. It reads the sent requests as the rows of the resume log's requests
  file (`Write.StoredRows`, none when the file is missing). Dataframes are
  sequences of records, and joins are filters.
- **Request payload** (`lib/requests.py`, module `Requests`). `slice_payload`
  builds the request window, the variable field and the station list.
- **Result files** (`lib/read.py`, module `Read`). It covers:
  - the segmentation of a result file into tables separated by blank lines
    (`_next_table`, `table_specs`, both loops);
  - the consistency checks `check_dext3r_meta` and `check_task_period`;
  - the flattening loop of `read_existing_requests`.
- **Resume log** (`lib/write.py`, module `Write`). A `Workspace` object holds
  the requests file (a list of rows) and the payloads file (a map from task id
  to payload). A missing file is `None`. `register_task` appends one row per
  station, tagged with the task id. It then overwrites one key of the payload
  map and mutates the caller's payload in place.
- **Submission loop** (`Dext3rDownloader.download`, module `Downloader`). It
  pops batches, retries each up to `max_tries` times, logs accepted batches
  and adapts the pause between attempts. The model abstracts three things:
  - The HTTP call is an oracle `respond(k)` that gives the outcome of the
    `k`-th attempt: a raised exception, or a status and the relevant body.
  - `datetime.now()` is an oracle `clock(k)`.
  - The pause is recorded in `pauses`, not slept.

  A negative pause makes Python's `sleep` raise `ValueError`. That `sleep`
  sits outside the `try`, so the run aborts; the model returns
  `Fail(ValueError)`. The lemma `DefaultPauseGoesNegative` shows that seven
  first-try acceptances from the default pause of 120 seconds reach −20.

Dates are day numbers (`int`). A datetime in a payload is a day and an hour.
A Python exception the code lets escape is an `Err`/`Fail` value naming it.

A unit too large for any batch is not emitted on its own. When no unit of
the queue fits, the code indexes `new_slice[-1]` on an empty slice and raises
`IndexError` (lib/stack.py:74-78). The model does the same: `Pack` returns
`Err(IndexError)`, and `download` stops with `Fail(IndexError)`.

Other behaviours of the code that the model keeps as written:
- Adjacent sections share their boundary day. The overlap filter is closed on
  both ends.
- A period of a single day yields no section at all.
- `email_index` is reset for every batch, and only a success advances it. A
  success also ends the batch. So every attempt uses the first address, and
  an empty address list makes every attempt raise `IndexError` inside the
  `try`, which is caught.

## Model

| member | source | states |
|---|---|---|
| Units.Extremes | lib/stack.py:12-14 | the earliest `from`, latest `to` and smallest `agg_period` of a non-empty list bound every unit and are attained by some unit |
| Stack.StationNameInSpec | lib/stack.py:66-70 | `station_name_in` holds iff some member's name equals the station's name after lower-casing and stripping |
| Stack.TotElementsSingleton | lib/stack.py:10-19 | the size of a single unit is its day count in seconds divided (floor) by its aggregation period |
| Stack.TotElementsCoversUnit | lib/stack.py:10-21 | the size of a list is at least the size of any one of its units alone |
| Stack.TotElementsGrows | lib/stack.py:10-19 | adding a unit to a list never lowers its size estimate |
| Stack.FirstFitting | lib/stack.py:74-77 | the first index whose `count` is within `max_size`, or none when no unit fits |
| Stack.FirstExtension | lib/stack.py:78-96 | the first index whose unit matches the slice's last section, period and variable, has a new name and keeps the size within `max_size`; none when no unit does |
| Stack.Choose | lib/stack.py:73-96 | raises `IndexError` exactly when the slice is empty and no unit fits; for an empty slice, the first fitting index; otherwise the first extending index, or none when nothing extends |
| Stack.FindBiggest | lib/stack.py:73-96 | the loops of `find_biggest` compute `Choose` |
| Stack.BatchExtends | lib/stack.py:78-95 | appending an extending unit keeps a batch a batch: shared section, period and variable, distinct names, size within `max_size` |
| Stack.GrowPermutes | lib/stack.py:102-104 | growing keeps the slice as a prefix; slice plus remaining queue is a permutation of the input; the remaining queue keeps its order |
| Stack.GrowIsMaximal | lib/stack.py:102-104 | when growing stops, no remaining unit extends the slice |
| Stack.GrowKeepsBatch | lib/stack.py:102-104 | growing a batch yields a batch |
| Stack.PackRaises | lib/stack.py:74-78 | packing raises exactly when no unit's `count` fits, and the error is `IndexError` |
| Stack.PackBatch | lib/stack.py:99-105 | a returned slice is a batch, starts with the first fitting unit and cannot be extended by any remaining unit |
| Stack.PackPermutes | lib/stack.py:99-105 | slice plus remaining queue is a permutation of the input; the remaining queue is shorter and keeps its order |
| Stack.ExtensionFits | lib/stack.py:91-92 | a unit that extends a slice within `max_size` also fits alone |
| Stack.GrowKeepsFitting | lib/stack.py:91-92 | growing a slice whose units fit alone adds only units that fit alone |
| Stack.PackedUnitsFit | lib/stack.py:99-105 | every unit of a returned slice has `count` within `max_size` |
| Stack.WorkQueue.Pop | lib/stack.py:103 | `pop(i)` returns element `i` and removes it, the rest in order |
| Stack.PopBiggestSlice | lib/stack.py:99-105 | returns the slice of `Pack` and leaves `Pack`'s remaining queue in the queue object; when `Pack` raises, returns the error with the queue unchanged |
| QueueBuilder.CutDatesShape | lib/download_manager.py:63-67 | the cut dates run from `from_date` in steps of `max_days` up to `to_date`, the last within one step of it; empty iff `from_date > to_date` |
| QueueBuilder.KeptShape | lib/download_manager.py:63-71 | the kept windows chain from `from_date` to `to_date`, each forward and at most `max_days` long; none iff the dates are equal |
| QueueBuilder.NumberedShape | lib/download_manager.py:72-73 | the sections are numbered 0, 1, 2, … in order |
| QueueBuilder.SectionsShape | lib/download_manager.py:62-74 | sections are indexed consecutively, each spans at most `max_days`, they chain end to start from `from_date` to `to_date`; none iff `from_date >= to_date` |
| QueueBuilder.SectionsCover | lib/download_manager.py:62-74 | every day of the period lies in some section |
| QueueBuilder.SeriesUnitsMembers | lib/download_manager.py:82-87 | a series yields exactly its clips to the sections it overlaps |
| QueueBuilder.CrossUnitsMembers | lib/download_manager.py:82-87 | the cross join yields exactly the clips of each series to each overlapping section |
| QueueBuilder.InitRequestQueueMembers | lib/download_manager.py:78-87 | a unit is in the initial queue iff it is the clip of a selected series to a section it overlaps |
| QueueBuilder.ClipShape | lib/download_manager.py:83-95 | a clip lies within both the section and the series window, carries the section index and period, and its `count` is its singleton size |
| QueueBuilder.InitRequestQueueUnits | lib/download_manager.py:62-95 | every unit of the initial queue lies inside its section and the requested period, has the requested period and a `count` equal to its size |
| QueueBuilder.UuidPositions | lib/download_manager.py:131-134 | the matches are lowercase-hex 8-4-4-4-12 strings, left to right and non-overlapping |
| QueueBuilder.UuidPositionsComplete | lib/download_manager.py:131-134 | every place where a UUID occurs overlaps a reported match |
| QueueBuilder.FindUuidsSpec | lib/download_manager.py:131-134 | the extracted ids are the text at the match positions; empty iff the text holds no UUID |
| QueueBuilder.ReadInvalidTasksSpec | lib/download_manager.py:126-135 | a missing file lists no invalid task; otherwise every listed id is a UUID occurring in the file's text, and none is listed exactly when the text holds no UUID |
| QueueBuilder.MatchesValid | lib/download_manager.py:170-172 | matching a valid sent row (task not invalid) on id, variable and section is being already sent |
| QueueBuilder.UnsentSpec | lib/download_manager.py:168-175 | the anti-join keeps queue order and keeps exactly the units not already sent |
| QueueBuilder.InsertPermutes | lib/download_manager.py:176 | inserting adds exactly one element |
| QueueBuilder.InsertSorted | lib/download_manager.py:176 | inserting into a queue sorted by descending `count`, then section, keeps it sorted |
| QueueBuilder.SortQueueSpec | lib/download_manager.py:176 | the sorted queue is sorted descending and a permutation of the input |
| QueueBuilder.MakeRequestQueueSpec | lib/download_manager.py:137-176 | the queue is sorted; without resume it is a permutation of the initial queue; with resume, of its unsent units; membership both ways |
| QueueBuilder.MakeRequestQueuePeriods | lib/download_manager.py:161-176 | every queued unit has the requested aggregation period |
| Requests.Distinct | lib/requests.py:16 | the distinct variables: no duplicates, the same values |
| Requests.SlicePayloadSpec | lib/requests.py:9-27 | an empty slice raises `ValueError`; otherwise the email passes through, `fmt` is csv, begin is 23:00 of the day before the earliest `from`, end is 00:00 of the day after the latest `to`, so the window is tight (some unit starts the day after it opens, some unit ends the day before it closes), and the stations are the ids in slice order |
| Requests.WindowEnclosesUnits | lib/requests.py:10-15 | the window strictly encloses every unit's days, and begin is before end when some unit has `from <= to` |
| Requests.VariableFieldSpec | lib/requests.py:16-18 | the variable is a single value iff all units share it; otherwise a duplicate-free list of at least two values, exactly those of the slice |
| Requests.BatchHasOneVariable | lib/requests.py:16-18 | the payload of a packed batch names its single variable |
| Read.SkipBlank | lib/read.py:61-62 | skips exactly the empty lines from `start` |
| Read.RunEnd | lib/read.py:64-66 | the run of non-empty lines ends at the end of the file or at an empty line |
| Read.NextTableOf | lib/read.py:60-68 | raises `IndexError` iff only empty lines follow `start`; otherwise the table start is the first non-empty line, and the table has at least one line, all non-empty, followed by an empty line or the end |
| Read.NextTable | lib/read.py:60-68 | the loops of `_next_table` compute `NextTableOf` |
| Read.TableSpecs | lib/read.py:71-76 | the loop of `table_specs` computes `TablesFrom` from line 1 |
| Read.TablesFromSucceeds | lib/read.py:71-76 | the scan succeeds iff a non-empty line follows `start` and the file does not end on two empty lines (otherwise a search runs off the end and raises) |
| Read.TablesPartition | lib/read.py:71-76 | the tables found are increasing and non-overlapping, and every non-empty line after the start lies in one of them |
| Read.CheckMeta | lib/read.py:79-85 | false exactly when some name occurs twice |
| Read.MinStartBound | lib/read.py:96 | the earliest start is after a day iff every start is |
| Read.MaxStopBound | lib/read.py:97 | the latest stop is before a day iff every stop is |
| Read.CheckTaskPeriodSpec | lib/read.py:88-103 | false iff the task has a payload, the table is non-empty, and the table starts after the payload's begin day or stops before its end day |
| Read.NatDigitsValue | lib/read.py:45-46 | the decimal digits of a number read back as that number |
| Read.ParseShowInt | lib/read.py:45-46 | `int()` of the decimal text of an integer gives it back |
| Read.RowsOf | lib/read.py:41-49 | the only error is `ValueError` |
| Read.RowsOfErrPersists | lib/read.py:45-46 | a failed `int()` aborts the whole read whatever follows |
| Read.ReadExistingRequests | lib/read.py:27-51 | the nested loops compute `ExistingRequests`; a missing file gives no rows |
| Read.RowsOfSpec | lib/read.py:37-50 | the read fails iff some truthy entry has a code or part that is not an integer; otherwise a row is returned iff it is some truthy entry with code and part converted |
| Read.RowsOfInOrder | lib/read.py:37-50 | on success, the rows are the truthy entries converted one by one, in loop order, duplicates kept: as many rows as truthy entries, the `i`-th being the row of the `i`-th |
| Write.TaggedSpec | lib/write.py:9-10 | tagging stations and dropping the tags gives the stations back; every tagged row carries the task id |
| Write.RowList.RegisterRequestTask | lib/write.py:9-10 | appends exactly one row, the station tagged with the task id |
| Write.Workspace.RegisterTaskContent | lib/write.py:25-37 | the requests file becomes the old rows (none if missing) followed by one tagged row per station; the other files are unchanged |
| Write.Workspace.RegisterTaskPayload | lib/write.py:13-22 | the caller's payload gains the request time; the payloads file becomes the old map (empty if missing) with only that task's key set |
| Write.Workspace.RegisterTask | lib/write.py:40-47 | both updates, the requests file written before the payloads file |
| Write.StorePayloadSpec | lib/write.py:14-21 | the stored map gains the task key with the new payload, and every other key keeps its value |
| Write.ContentSpec | lib/write.py:26-37 | the old rows are a prefix of the new file, and the rest untags to the stations, all with the task id |
| Downloader.Pauses | lib/download_manager.py:240-263 | one recorded pause per attempt |
| Downloader.PauseCapped | lib/download_manager.py:250 | from an initial pause of at most 210 seconds, no pause exceeds 210 |
| Downloader.AcceptedStreak | lib/download_manager.py:240-241 | after `k` first-try acceptances, the pause has dropped by `20·k`, with no floor |
| Downloader.DefaultPauseGoesNegative | lib/download_manager.py:185 | seven first-try acceptances from the default pause of 120 reach −20 |
| Downloader.RetryChainRetries | lib/download_manager.py:217-262 | attempts of a batch count up from 0, below `max_tries`; the first attempt is for batch 0, and the next batch (and only the next) starts after an acceptance, a 403 or the last try |
| Downloader.TryFollows | lib/download_manager.py:223-262 | one retry step keeps the retry counter and the sent flag in step with the attempts |
| Downloader.AddressedAll | lib/download_manager.py:220-227 | every attempt uses the first address and gets the oracle's reply, or none when the address list is empty |
| Downloader.BatchesAll | lib/download_manager.py:222 | every submitted batch is a legal batch: one section, period and variable, distinct station names, within `max_lines` |
| Downloader.PacksSpec | lib/download_manager.py:217-222 | popping `pop_biggest_slice` until the queue is empty passes iff nothing is left; otherwise it stops on `IndexError` with a non-empty rest none of whose units fits; every popped batch is legal; batches plus rest are a permutation of the queue, and the rest keeps its order |
| Downloader.PopNext | lib/download_manager.py:222 | after the first batches of `Packs(q0)` were popped, the call pops the next one, leaves a shorter queue whose own popping yields exactly the remaining batches and the same end, or raises `IndexError` exactly when those first batches are all that `Packs(q0)` pops before it stops on `IndexError` |
| Downloader.PoppedNext | lib/download_manager.py:217-222 | one more `pop_biggest_slice` on the queue left after the first batches of `Packs(q0)` continues that popping by exactly one batch, or stops it on `IndexError` |
| Downloader.EveryBatchTried | lib/download_manager.py:217-223 | with `max_tries > 0`, every popped batch gets at least one attempt |
| Downloader.LoggedContains | lib/download_manager.py:229-236 | every unit of an accepted batch is in the requests log under that task id |
| Downloader.ResumeSkipsLogged | lib/download_manager.py:168-175 | a unit logged under a valid task is not queued again on resume, whatever rows the requests file held before the run |
| Downloader.Dext3rDownloader.constructor | lib/download_manager.py:17-25 | keeps the workspace, start date and section length |
| Downloader.Dext3rDownloader.SendOnce | lib/download_manager.py:224-261 | one attempt: its reply, the new pause, the 403 cut-off, the next address, and the files updated iff the batch is accepted |
| Downloader.Dext3rDownloader.TryOnce | lib/download_manager.py:224-263 | one turn of the retry loop: its attempt extends the history of the batch and keeps the retry counter from going down; a negative pause ends the batch as a crash, otherwise the loop state still holds with the counter advanced |
| Downloader.Dext3rDownloader.TryBatch | lib/download_manager.py:218-263 | the retry loop of one batch keeps the earlier attempts and pauses and appends only attempts of this batch, at least one when `max_tries > 0`; it keeps the history and logs; it crashes iff a pause goes negative, and otherwise ends the batch |
| Downloader.Dext3rDownloader.SubmitNext | lib/download_manager.py:217-264 | one turn of the outer loop: it pops the next batch of `Packs` and runs its retry loop, leaving a shorter queue with the loop state intact, or ends the run with `IndexError` where `Packs` stops or with `ValueError` on a negative pause |
| Downloader.Dext3rDownloader.SubmitQueue | lib/download_manager.py:217-264 | the outer loop submits exactly the batches `Packs` pops off the queue and ends as it does (empty queue or `IndexError`), with the retry loop of the last batch run to its end (acceptance, 403 or last try), unless a negative pause stops it after a prefix of them |
| Downloader.Dext3rDownloader.Download | lib/download_manager.py:178-264 | pauses follow the adaptive rule; retry counters count up below `max_tries`, a batch gives way to the next only after an acceptance, a 403 or its last try, and unless the run crashed the last batch also ended that way; the batches are those `Packs` pops off the request queue, all of them unless a negative pause stops the run after a prefix; `IndexError` only on a non-empty rest none of whose units fits; a finished run submits a permutation of the request queue; with `max_tries > 0` every batch gets an attempt, with none no attempt is made; `ValueError` iff the last pause is negative; the log gains exactly the accepted batches; every accepted task has its payload |

## Left out

- The network call `request_slice` (lib/requests.py:30-35) is replaced by the oracle `respond`. A reply is reduced to its status and the JSON field the code reads.
- `sleep` is recorded, not performed. `datetime.now()` is the oracle `clock`. The progress bar and printed messages are dropped.
- The catalogue (lib/metas.py, `list_available_meta`, `force_meta_request`) is not part of this model. The series metadata is a parameter of `Download`.
- The CSV readers `read_dext3r_meta`, `read_dext3r_data`, `join_station_id`, `read_dext3r_tables`, the stubs `check_task_result` and `assoc_station_id`, and `read_payloads` (lib/read.py:54-57, 106-264) are file parsing with no logic of their own here.
- `read_invalid_tasks` of lib/read.py (its regex and the glob of `invalid/*.txt`) is not modelled. The downloader uses its own `read_invalid_tasks` (lib/download_manager.py:126-135), which is.
- Polars, CSV and JSON machinery: dataframes are sequences of records, joins are filters, and files are in-memory values (`None` when missing). Failures of file I/O are not modelled.
- Text rendering of datetimes (`strftime`) is not modelled. A payload datetime is a day number and an hour.
- Requests.VariableFieldSpec: `list(set(...))` has hash order; the contract states the set of values and no duplicates, not their order.
- QueueBuilder.SortQueueSpec: the polars sort does not keep the order of ties; the model sorts stably, and the contract states only sortedness and permutation.
- Stack.StationNameInSpec: `strip()` uses Python's whitespace set, but `lower()` is modelled for the ASCII and Latin-1 capitals only; other Unicode case mappings are not.
- Read.ParseShowInt: `int()` is modelled on optional-sign ASCII decimal digits; surrounding whitespace, underscores and non-ASCII Unicode decimal digits, which Python also accepts, are not.
- 32-bit columns are not modelled: polars stores `agg_code`, `timeline_section`, `agg_period` and `count` as Int32 (lib/download_manager.py:59, 73, 76, 118-120) and reads `agg_code` and `part` back as Int32 (lib/read.py:30-31); the model keeps them as unbounded integers, so an overflow or a cast failure on values outside 32 bits is not captured.
- Read.RowsOfSpec: a task value is `null` or a string; other JSON values are not modelled.
- Downloader.Dext3rDownloader.Download: requires `aggregation_span > 0` and `max_days > 0`; what polars does with a zero span or a zero section length is not modelled.
- Downloader.BatchesAll: states only that each batch is legal; that each is the batch `pop_biggest_slice` returns for the queue left so far is stated by Downloader.PopNext and the `Packs` clauses of Downloader.Dext3rDownloader.Download.
- Default arguments are not modelled as defaults: `max_days=15*365` (lib/download_manager.py:17) and `pause=120`, `max_lines=18000`, `resume=True`, `max_tries=5` (lib/download_manager.py:185-188) are explicit parameters of the constructor and of `Download`; Downloader.DefaultPauseGoesNegative uses the default pause.
- Downloader.Dext3rDownloader.Download: the task id of an accepted reply is a string; a `task` field holding another JSON type is not modelled.
