# mo-etl scheduler ETL, modelled in Dafny

This project models the core of `mo-etl`, the Mozilla ETL that fills
BigQuery tables with shadow-scheduler and regression data, and proves
properties of that model.

- **The two ETL drivers.** These are `mo_etl/etl-schedulers.py` and
  `mo_etl/schedulers.py`. Each does the following:
  - seeds a "done" watermark from the `etl-range` table;
  - plans work units: interval slots going forwards from the watermark's
    maximum and backwards from its minimum, crossed with the configured
    branches (and with the schedulers in `etl-schedulers.py`). The model
    starts the backward loop no later than the forward one, so no slot is
    planned twice; the source as written can plan the watermark's chunk
    twice (see Findings);
  - drains the work one unit at a time. Each unit widens the watermark,
    writes it back, fetches the pushes of its slot, builds one record per
    push and extends the destination;
  - merges the destination's shards.
- **The regression-indicator detector.** This is the loop at the end of
  `etl-schedulers.py`. It takes the before/during/after windows around a
  backed-out push, sums each label's results over each window, and applies
  the three-inequality rule.
- **Line tracking through a diff.** This is `vendor/mo_hg/apply.py`, with
  the `Line` and `SourceFile` objects, `apply_diff` and
  `apply_diff_backwards`. These change objects in place, so they are
  modelled as classes. Value-level functions specify them, and the
  properties are proved about those functions.
- **Helpers of `vendor/mo_hg/hg_mozilla_org.py`.**
  - `_trim`;
  - `_copy_but`;
  - the rewrite-and-retry chain of `_get_and_retry`, where `get` is a
    parameter;
  - `_extract_bug_id`.
- **Other modules.**
  - BigQuery SQL generation for equality (`EqOp.to_bq`) and its
    literal fold (`vendor/jx_bigquery/expressions/eq_op.py`);
  - `Schedule.next_run` (`mo_etl/schedule.py`);
  - `int2hex` and the `_map2url` table (`vendor/mo_logs/convert.py`).

Dates are whole seconds (`int`). Sets and lists of labels are sequences,
and `jx.sort` is a proved insertion sort on strings. The push provider,
`git.get_revision()` and `Date.now()` are parameters.

Files, one module each:

- `wrappers.dfy`: Option/Result.
- `intmath.dfy`: small arithmetic lemmas.
- `ordering.dfy`: string order and sorting.
- `strings.dfy`: `str.join`.
- `planner.dfy`: slots and work units.
- `rangestate.dfy`: the watermark, the `etl-range` table and the destination.
- `pushes.dfy`: the push data the provider yields.
- `runs.dfy`: a loop that stops at the first error.
- `etlschedulers.dfy` and `schedulers.dfy`: the two drivers.
- `indicators.dfy`: the detector.
- `diffvalues.dfy`: the value-level line tracking.
- `diffapply.dfy`: the classes.
- `hgurls.dfy`, `bugid.dfy`, `copybut.dfy`, `convert.dfy`, `eqop.dfy`,
  `schedule.dfy`: the remaining modules.

## Model

| member | source | states |
|---|---|---|
| Planner.Floor | mo_etl/etl-schedulers.py:64 | `Date.floor`: the largest multiple of the interval at or below `t`, within one interval of it |
| Planner.Ceiling | mo_etl/etl-schedulers.py:73 | `Date.ceiling`: the smallest multiple of the interval at or above `t`, within one interval of it |
| Planner.ForwardSlotsShape | mo_etl/etl-schedulers.py:62-70 | the forward loop yields consecutive interval-wide slots from `start`, none when `start >= limit`, and the last one contains the limit |
| Planner.BackwardSlotsShape | mo_etl/etl-schedulers.py:71-79 | the backward loop yields consecutive interval-wide slots ending at `end` and going down, none when `end <= limit`, and the last one contains the limit |
| Planner.ForwardSlotsCover | mo_etl/etl-schedulers.py:62-70 | every instant in `[start, limit)` lies in exactly one forward slot |
| Planner.BackwardSlotsCover | mo_etl/etl-schedulers.py:71-79 | every instant in `[limit, end)` lies in exactly one backward slot |
| Planner.PlanCovers | mo_etl/etl-schedulers.py:62-79 | every instant of the configured range outside the done range is covered by some planned slot |
| Planner.PlanEmptyWhenDone | mo_etl/etl-schedulers.py:62-79 | when the done range already contains the configured range, nothing is planned, by the plan as written or as corrected |
| Planner.ForwardSlotsOrdered | mo_etl/etl-schedulers.py:64-70 | the forward slots start at or after the loop's start, and each ends before the next begins |
| Planner.BackwardSlotsOrdered | mo_etl/etl-schedulers.py:73-79 | the backward slots end at or before the loop's end, and each begins after the next ends |
| Planner.DisjointConcat | mo_etl/etl-schedulers.py:62-79 | increasing forward slots followed by decreasing backward slots that all lie below them share no instant |
| Planner.PlanDisjoint | mo_etl/etl-schedulers.py:62-79 | when the ceiling of the minimum is at most the floor of the maximum, the as-written plan plans no chunk twice |
| Planner.PlanDisjointAligned | mo_etl/etl-schedulers.py:62-79 | with both bounds on interval boundaries, the as-written plan plans no chunk twice |
| Planner.PlanOverlapsWhenUnaligned | mo_etl/etl-schedulers.py:62-79 | when both loops run and no boundary lies between the bounds, the first forward slot is also the first backward slot, so the plan is not disjoint |
| Planner.PlanOverlapExample | mo_etl/etl-schedulers.py:62-79 | bounds 1800 and 1800, range 0 to 7200 and an hourly interval plan the chunk 0 to 3600 twice |
| Planner.CorrectedSlotsDisjoint | mo_etl/etl-schedulers.py:62-79 | the corrected plan never plans a chunk twice |
| Planner.CorrectedSlotsCover | mo_etl/etl-schedulers.py:62-79 | the corrected plan still covers every instant of the configured range outside the done range |
| Planner.CorrectedAgrees | mo_etl/etl-schedulers.py:62-79 | wherever the as-written plan plans no chunk twice, the corrected plan is the same plan |
| Planner.SchedulerUnitsAt | mo_etl/etl-schedulers.py:68-69 | the inner loop queues one unit per scheduler, in scheduler order, all for the same slot and branch |
| Planner.BranchUnitsAt | mo_etl/schedulers.py:69-70 | one unit per branch, in branch order, for the same slot and no scheduler |
| Planner.SlotUnitsLength | mo_etl/etl-schedulers.py:67-69 | one slot yields branches × schedulers units |
| Planner.CrossUnitsLength | mo_etl/etl-schedulers.py:62-79 | a list of slots yields slots × branches × schedulers units |
| Planner.CrossBranchesLength | mo_etl/schedulers.py:64-79 | a list of slots yields slots × branches units |
| Planner.CrossBranchesAt | mo_etl/schedulers.py:64-79 | the unit at position k times the number of branches plus b is slot k with branch b (slot-major order) |
| Planner.SlotUnitsSplit | mo_etl/etl-schedulers.py:67-69 | the units of one slot are grouped by branch, with branch `b`'s group between those of earlier and later branches |
| Planner.CrossUnitsSplit | mo_etl/etl-schedulers.py:62-79 | the units are grouped by slot, in slot order |
| Planner.SchedulerUnitsMember | mo_etl/etl-schedulers.py:68-69 | a unit is queued for a slot and branch iff it carries that slot and branch and a configured scheduler |
| Planner.SlotUnitsMember | mo_etl/etl-schedulers.py:67-69 | a unit is queued for a slot iff it carries that slot, a configured branch and a configured scheduler |
| Planner.CrossUnitsMember | mo_etl/etl-schedulers.py:62-79 | a unit is queued iff its slot is planned and its branch and scheduler are configured |
| Planner.BranchUnitsMember | mo_etl/schedulers.py:69-70 | a unit is queued for a slot iff it carries that slot, a configured branch and no scheduler |
| Planner.CrossBranchesMember | mo_etl/schedulers.py:64-79 | a unit is queued iff its slot is planned and its branch is configured |
| Planner.SlotUnitsAppend | mo_etl/etl-schedulers.py:67-69 | splitting the branch list splits the queued units the same way |
| Planner.CrossUnitsAppend | mo_etl/etl-schedulers.py:62-79 | splitting the slot list splits the queued units the same way |
| Planner.CrossBranchesAppend | mo_etl/schedulers.py:64-79 | splitting the slot list splits the queued units the same way |
| Planner.PlanWithSchedulers | mo_etl/etl-schedulers.py:62-79 | the planning loops, with the backward loop starting no later than the forward one, queue exactly the corrected slots crossed with branches and schedulers |
| Planner.QueueForward | mo_etl/etl-schedulers.py:64-70 | the forward `while` loop appends the forward slots' units to the queue |
| Planner.QueueBackward | mo_etl/etl-schedulers.py:73-79 | the backward `while` loop appends the backward slots' units to the queue |
| Planner.AddSlot | mo_etl/etl-schedulers.py:67-69 | the nested `for` loops append one slot's units |
| Planner.PlanBranches | mo_etl/schedulers.py:63-79 | the planning loops, with the backward loop starting no later than the forward one, build exactly the corrected slots crossed with branches |
| Planner.AppendForward | mo_etl/schedulers.py:66-71 | the forward loop appends the forward slots' units |
| Planner.AppendBackward | mo_etl/schedulers.py:74-79 | the backward loop appends the backward slots' units |
| Planner.AddBranches | mo_etl/schedulers.py:69-70 | the `for` loop appends one unit per branch |
| Ordering.StrLeTotal | mo_etl/etl-schedulers.py:139-141 | the string order `jx.sort` uses is total |
| Ordering.StrLeTransitive | mo_etl/etl-schedulers.py:139-141 | the string order is transitive |
| Ordering.StrLeAntisymmetric | mo_etl/etl-schedulers.py:139-141 | the string order is antisymmetric |
| Ordering.InsertBy | mo_etl/etl-schedulers.py:139-141 | insertion keeps a list sorted by key and adds exactly the new element |
| Ordering.SortBy | mo_etl/etl-schedulers.py:141 | `jx.sort(xs, key)` returns a permutation of its input, sorted by the key |
| Ordering.SortStrings | mo_etl/etl-schedulers.py:139-140 | `jx.sort(xs)` returns a sorted permutation of its input |
| Ordering.SortedMembers | mo_etl/etl-schedulers.py:139-141 | sorting keeps exactly the same members |
| Ordering.SortedUnique | mo_etl/etl-schedulers.py:139-140 | two sorted lists holding the same multiset are equal |
| Ordering.SortStringsPermutation | mo_etl/etl-schedulers.py:139-140 | the sorted output depends only on the multiset of its input, so set iteration order does not matter |
| RangeState.RangeStore.constructor | mo_etl/etl-schedulers.py:50-53 | the `etl-range` table holds the rows it was read with |
| RangeState.RangeStore.Add | mo_etl/etl-schedulers.py:59-60 | `add` appends one row |
| RangeState.RangeStore.Update | mo_etl/etl-schedulers.py:86 | `update({"set": done})` overwrites every row with the watermark |
| RangeState.OverwrittenTwice | mo_etl/etl-schedulers.py:86 | only the last update matters |
| RangeState.Watermark.constructor | mo_etl/etl-schedulers.py:55-58 | the watermark holds the seeded minimum and maximum |
| RangeState.Watermark.Advance | mo_etl/etl-schedulers.py:84-85 | `done.min = min(end, done.min)`, `done.max = max(start, done.max)` |
| RangeState.AdvanceMonotone | mo_etl/etl-schedulers.py:84-85 | advancing never raises the minimum or lowers the maximum, and each bound is either kept or taken from the unit |
| RangeState.AdvanceCommutes | mo_etl/etl-schedulers.py:84-85 | the order in which two units advance the watermark does not matter |
| RangeState.AdvanceIdempotent | mo_etl/etl-schedulers.py:84-85 | processing the same unit twice advances as once |
| RangeState.AdvancedAllBounds | mo_etl/etl-schedulers.py:152-159 | after a run, the minimum is at most every processed unit's end and the maximum at least every unit's start |
| RangeState.AdvancedAllAttained | mo_etl/etl-schedulers.py:152-159 | after a run, each bound is the seed's or some processed unit's |
| RangeState.AdvancedAllStep | mo_etl/etl-schedulers.py:152-159 | one more processed unit advances the watermark by that unit |
| RangeState.Load | mo_etl/etl-schedulers.py:53-60 | reads the table, seeds the watermark, and adds it as a row only when the table was empty |
| RangeState.SeedEmpty | mo_etl/etl-schedulers.py:55-58 | with no stored row, both bounds are the configured start, or else the start of the day two days ago |
| RangeState.SeedStored | mo_etl/etl-schedulers.py:54-58 | a stored bound wins over the configured start, and a missing one falls back as for an empty table |
| RangeState.DefaultStartBounds | mo_etl/etl-schedulers.py:56 | `"today-2day"` is midnight (UTC) and lies between three and two days before now |
| RangeState.Sink.constructor | mo_etl/etl-schedulers.py:150 | the destination starts with no batches and no merge |
| RangeState.Sink.Extend | mo_etl/etl-schedulers.py:150 | `extend` appends one batch |
| RangeState.Sink.MergeShards | mo_etl/etl-schedulers.py:163 | `merge_shards` counts one merge and keeps the batches |
| Runs.CollectValues | mo_etl/schedulers.py:105-136 | the record loop keeps the records built before the first failing push, and reports that push's error |
| Runs.CollectSucceeds | mo_etl/schedulers.py:105-136 | the loop ends without error iff every push builds a record |
| Runs.CollectStable | mo_etl/schedulers.py:105-136 | once a prefix has failed, later pushes change nothing |
| Runs.CollectSnoc | mo_etl/schedulers.py:105-136 | one more push after an error-free prefix appends its record or stops with its error |
| EtlSchedulers.StatusNameInjective | mo_etl/etl-schedulers.py:115-119 | the status table maps distinct statuses to distinct names |
| EtlSchedulers.ShapeCandidates | mo_etl/etl-schedulers.py:111-124 | one candidate entry per candidate regression, in order |
| EtlSchedulers.Intersects | mo_etl/etl-schedulers.py:127 | `likely_regressions & tasks` is non-empty iff some label is in both |
| EtlSchedulers.BackoutType | mo_etl/etl-schedulers.py:125-130 | no backout type iff the push was not backed out; `"primary"` iff backed out and a likely regression is among the scheduler's tasks; `"secondary"` iff backed out and none is |
| EtlSchedulers.MakeRecordShape | mo_etl/etl-schedulers.py:107-148 | a record is built iff the push knows the scheduler; then it carries the push id and changesets, the sorted tasks and likely regressions, the candidates sorted by name with named statuses, and the backout type |
| EtlSchedulers.RecordsInOrder | mo_etl/etl-schedulers.py:106-148 | the records succeed iff every push knows the scheduler, and then there is one record per push, in push order |
| EtlSchedulers.BuildRecords | mo_etl/etl-schedulers.py:106-148 | the `for push in pushes` loop builds exactly those records |
| EtlSchedulers.ProcessOne | mo_etl/etl-schedulers.py:81-150 | advances and writes back the watermark first; then extends the destination with the unit's records, or extends nothing and reports the error |
| EtlSchedulers.MissingDataIsEmpty | mo_etl/etl-schedulers.py:93-94 | a `MissingDataError` counts as no pushes, so the unit succeeds with no records |
| EtlSchedulers.Drained | mo_etl/etl-schedulers.py:152-161 | the drain loop attempts at most every unit |
| EtlSchedulers.DrainedCompletes | mo_etl/etl-schedulers.py:152-161 | without error, every unit is attempted and each contributes its records, in queue order |
| EtlSchedulers.DrainedStopsAtFirstError | mo_etl/etl-schedulers.py:152-161 | an error stops the loop at the first failing unit, after the batches of all earlier units |
| EtlSchedulers.DrainedStable | mo_etl/etl-schedulers.py:152-161 | units after a failure are never processed |
| EtlSchedulers.DrainedStep | mo_etl/etl-schedulers.py:152-161 | one more unit extends the run by its batch or stops it with its error |
| EtlSchedulers.DrainOne | mo_etl/etl-schedulers.py:155-159 | one loop iteration keeps the drain invariant: watermark, table row and destination agree with the units processed so far |
| EtlSchedulers.Drain | mo_etl/etl-schedulers.py:152-163 | the loop's batches, watermark and table match the run's specification, and the shards are merged once whether or not it failed |
| EtlSchedulers.Process | mo_etl/etl-schedulers.py:47-163 | `process` plans from the seeded watermark, drains exactly that plan, and merges once; the table is the loaded rows, every one overwritten with the seed advanced over the attempted units when any unit was attempted |
| Schedulers.TasksForContents | mo_etl/schedulers.py:110-115 | `tasks` has a key for exactly the configured schedulers the push knows, each holding its sorted task list |
| Schedulers.BuildTasks | mo_etl/schedulers.py:110-115 | the `for s in config.schedulers` loop builds exactly that mapping |
| Schedulers.MakeRecordShape | mo_etl/schedulers.py:117-136 | a record is built iff the push's regressions are known; it carries the push, the sorted indicators and the task mapping |
| Schedulers.UnitEffectKeepsEarlierRecords | mo_etl/schedulers.py:105-139 | a failing push does not lose the records built before it: `finally` extends with them |
| Schedulers.MissingDataExtendsNothing | mo_etl/schedulers.py:92-93 | a `MissingDataError` returns early: no batch and no error |
| Schedulers.BuildRecords | mo_etl/schedulers.py:105-136 | the record loop collects records up to the first failing push |
| Schedulers.ProcessOne | mo_etl/schedulers.py:81-139 | advances and writes back the watermark, then extends the destination with whatever records were built, and reports the error |
| Schedulers.Drained | mo_etl/schedulers.py:141-147 | the loop attempts at most every unit |
| Schedulers.DrainedCompleteIff | mo_etl/schedulers.py:141-147 | the run completes iff no unit fails, and then every unit is attempted |
| Schedulers.DrainedStopsAtFirstError | mo_etl/schedulers.py:141-147 | the run stops at the first failing unit |
| Schedulers.DrainedStable | mo_etl/schedulers.py:141-147 | units after a failure are never processed |
| Schedulers.DrainedStep | mo_etl/schedulers.py:141-143 | one more unit adds its batch and possibly its error |
| Schedulers.DrainOne | mo_etl/schedulers.py:142-143 | one iteration keeps the drain invariant |
| Schedulers.Drain | mo_etl/schedulers.py:141-147 | the loop matches the run's specification, and merges shards only when no unit failed |
| Schedulers.Process | mo_etl/schedulers.py:49-147 | `process` plans from the seeded watermark, drains that plan, and merges only on success; the table is the loaded rows, every one overwritten with the seed advanced over the attempted units when any unit was attempted |
| Indicators.WindowSumDefined | mo_etl/etl-schedulers.py:364-367 | a window's sum exists iff every push of the window has a count for the status |
| Indicators.WindowSumBound | mo_etl/etl-schedulers.py:364-367 | each push's count is at most the window's sum |
| Indicators.DescendingAt | mo_etl/etl-schedulers.py:345-347 | the look-back walk visits parents one id apart |
| Indicators.AscendingAt | mo_etl/etl-schedulers.py:350-355 | the forward walks visit children one id apart |
| Indicators.WindowsShape | mo_etl/etl-schedulers.py:343-355 | 30 ids before the bad push, the ids from the bad push up to the backout, and 30 ids from the later of the two |
| Indicators.BuildWindows | mo_etl/etl-schedulers.py:343-355 | the three walks build exactly those windows |
| Indicators.RuleExamples | mo_etl/etl-schedulers.py:370-374 | the rule holds for a clean pass/fail/pass pattern and fails when either inequality is only equal |
| Indicators.UnrecordedIsNoIndicator | mo_etl/etl-schedulers.py:362-374 | a label without results is never an indicator: every sum reads as 0 |
| Indicators.SumCounts | mo_etl/etl-schedulers.py:367 | the summing loop computes the window's sum, or no sum when a count is missing |
| Indicators.SelectedMembers | mo_etl/etl-schedulers.py:360-375 | the selected labels are exactly the input labels that satisfy the rule |
| Indicators.SelectedSorted | mo_etl/etl-schedulers.py:361 | selecting from sorted labels yields a sorted list |
| Indicators.DetectedSpec | mo_etl/etl-schedulers.py:358-375 | the indicators are exactly the labels that satisfy the rule, sorted, and independent of the order of the label set |
| Indicators.Classify | mo_etl/etl-schedulers.py:364-374 | computing the window sums and the rule classifies a label as the specification does |
| Indicators.Detect | mo_etl/etl-schedulers.py:339-375 | the detector loop collects exactly the specified indicators |
| Indicators.AsWrittenLosesIndicators | mo_etl/etl-schedulers.py:360-375 | as written, one indicator makes the loop fail, and the corrected detector reports it |
| DiffApply.Line.constructor | vendor/mo_hg/apply.py:19-22 | a line holds its number, new-line flag and file name |
| DiffApply.Line.MoveDown | vendor/mo_hg/apply.py:24-26 | adds one to the line number and changes nothing else |
| DiffApply.Line.MoveUp | vendor/mo_hg/apply.py:28-30 | subtracts one from the line number and changes nothing else |
| DiffApply.NewOf | vendor/mo_hg/apply.py:68-69 | keeps exactly the line objects flagged new |
| DiffApply.FormatLineObjects | vendor/mo_hg/apply.py:48-58 | numbers every line whose number is 0 by its position, in place, keeping the same objects |
| DiffApply.SourceFile.constructor | vendor/mo_hg/apply.py:37-46 | strips leading `/` from the file name and formats the given line objects |
| DiffApply.SourceFile.ResetNewLines | vendor/mo_hg/apply.py:60-62 | clears every new-line flag, so no line is new afterwards |
| DiffApply.SourceFile.SetFilenames | vendor/mo_hg/apply.py:64-66 | sets every line's file name to the file's |
| DiffApply.SourceFile.NewLines | vendor/mo_hg/apply.py:68-69 | returns the line objects flagged new, in order |
| DiffApply.SourceFile.AddOne | vendor/mo_hg/apply.py:71-77 | inserts the object at its line's position, with Python's slice clamping, and moves every later line down one |
| DiffApply.SourceFile.RemoveOne | vendor/mo_hg/apply.py:79-82 | drops the slice between `n-1` and `n`, with Python's slice clamping, and moves every later line up one |
| DiffApply.MoveFrom | vendor/mo_hg/apply.py:76 | moves every object from position `k` on by one line |
| DiffApply.ApplyChangesTo | vendor/mo_hg/apply.py:120-124 | the change loop applies each `+` as an insert of a new line and each `-` as a removal |
| DiffApply.ApplyChangeTo | vendor/mo_hg/apply.py:121-124 | one change as `add_one(Line(line+1, new))` or `remove_one(line+1)` |
| DiffApply.ApplyEntryTo | vendor/mo_hg/apply.py:110-125 | the matching entry renames the file or empties it on `dev/null`, then applies its changes |
| DiffApply.ApplyDiff | vendor/mo_hg/apply.py:85-126 | `apply_diff` leaves the file and the changed flag as the value-level specification says |
| DiffApply.BackwardsEntry | vendor/mo_hg/apply.py:137-158 | swaps old and new names, flips each change in place, and returns the flipped changes in reverse order |
| DiffApply.BackwardsDiffs | vendor/mo_hg/apply.py:136-159 | builds the reversed entries and flips every change object of the diff |
| DiffApply.ApplyDiffBackwards | vendor/mo_hg/apply.py:129-161 | `apply_diff_backwards` is `apply_diff` of the reversed diff, and every change object of the diff is left flipped |
| DiffValues.LStrip | vendor/mo_hg/apply.py:45 | `lstrip("/")` removes exactly the leading slashes |
| DiffValues.LStripIdempotent | vendor/mo_hg/apply.py:45 | stripping twice is stripping once |
| DiffValues.AddOneShape | vendor/mo_hg/apply.py:71-77 | the new line lands at its number, earlier lines stay, and later lines move down one |
| DiffValues.RemoveOneShape | vendor/mo_hg/apply.py:79-82 | line `n` goes, earlier lines stay, and later lines move up one; past the end nothing changes |
| DiffValues.AddOneNumbered | vendor/mo_hg/apply.py:71-77 | inserting keeps lines numbered 1, 2, … |
| DiffValues.RemoveOneNumbered | vendor/mo_hg/apply.py:79-82 | removing keeps lines numbered 1, 2, … |
| DiffValues.RemoveAfterAdd | vendor/mo_hg/apply.py:71-82 | removing the line just added restores the file |
| DiffValues.AddAfterRemove | vendor/mo_hg/apply.py:71-82 | adding back at a removed number restores the file, with that line replaced |
| DiffValues.FormattedLines | vendor/mo_hg/apply.py:48-58 | formatting gives unnumbered lines their position and changes nothing else |
| DiffValues.FormattedIdempotent | vendor/mo_hg/apply.py:48-58 | formatting twice is formatting once |
| DiffValues.FormattedNumbers | vendor/mo_hg/apply.py:48-58 | unnumbered lines come out numbered 1, 2, … |
| DiffValues.NewLinesV | vendor/mo_hg/apply.py:68-69 | the new lines are exactly the lines flagged new |
| DiffValues.ResetAndRename | vendor/mo_hg/apply.py:60-66 | clearing flags leaves no new line and keeps numbers and names; renaming keeps numbers and flags |
| DiffValues.AddedIsNew | vendor/mo_hg/apply.py:121-122 | an added line is reported as new |
| DiffValues.ApplyChangesAppend | vendor/mo_hg/apply.py:120-124 | applying two change lists in turn is applying their concatenation |
| DiffValues.ApplyChangesLength | vendor/mo_hg/apply.py:120-124 | the file grows by at most the additions and shrinks by at most the removals |
| DiffValues.ReversedCounts | vendor/mo_hg/apply.py:148-158 | reversing swaps the counts of additions and removals |
| DiffValues.ReversedAppend | vendor/mo_hg/apply.py:148-158 | the reverse of a concatenation is the concatenation of the reverses, swapped |
| DiffValues.ReversedTwice | vendor/mo_hg/apply.py:148-158 | reversing a change list of `+`/`-` twice gives it back |
| DiffValues.InsertsRoundTrip | vendor/mo_hg/apply.py:129-161 | applying a list of additions and then its reverse restores the lines |
| DiffValues.FirstMatch | vendor/mo_hg/apply.py:105-109 | finds the first entry naming the file as old or new name |
| DiffValues.ApplyDiffExits | vendor/mo_hg/apply.py:99-103 | a merge leaves the file unchanged; a `dev/null` file is emptied; neither counts as changed |
| DiffValues.ApplyDiffFirstEntry | vendor/mo_hg/apply.py:105-125 | only the first matching entry is applied, and the file is then changed |
| DiffValues.ApplyDiffUntouched | vendor/mo_hg/apply.py:105-126 | with no matching entry, the file is unchanged and not changed |
| DiffValues.BackwardsEntries | vendor/mo_hg/apply.py:137-159 | each reversed entry swaps names and reverses its flipped changes |
| DiffValues.BackwardsNet | vendor/mo_hg/apply.py:137-159 | a reversed entry swaps addition and removal counts and matches the same files |
| DiffValues.BackwardsTwice | vendor/mo_hg/apply.py:129-161 | reversing a `+`/`-` diff twice gives it back |
| HgUrls.BeforeSpec | vendor/mo_hg/hg_mozilla_org.py:850 | `s.split(m)[0]` is the prefix before the first occurrence of `m`, or all of `s` when there is none |
| HgUrls.TrimSpec | vendor/mo_hg/hg_mozilla_org.py:849-850 | the trimmed URL is a prefix with none of the three JSON endpoints in it, and a URL without them is unchanged |
| HgUrls.TrimIdempotent | vendor/mo_hg/hg_mozilla_org.py:849-850 | trimming twice is trimming once |
| HgUrls.SplitPieces | vendor/mo_hg/hg_mozilla_org.py:619 | no piece of `url.split("/")` contains `/` |
| HgUrls.JoinSplit | vendor/mo_hg/hg_mozilla_org.py:619-624 | `"/".join(url.split("/")) == url` |
| HgUrls.SplitJoin | vendor/mo_hg/hg_mozilla_org.py:619-624 | splitting a join of slash-free segments gives the segments back |
| HgUrls.RewriteFails | vendor/mo_hg/hg_mozilla_org.py:619-646 | the rewrite fails iff the URL has at most three segments or no rule matches; past three segments the error is "Tried … twice.  Both failed." |
| HgUrls.RewriteJoin | vendor/mo_hg/hg_mozilla_org.py:619-646 | the rewritten URL is the join of the rewritten segments, or the error when no rule applies |
| HgUrls.RewriteL10nCentral | vendor/mo_hg/hg_mozilla_org.py:620-624 | `…/l10n-central/<locale>/…` becomes `…/mozilla-central/…` |
| HgUrls.RewriteReleases | vendor/mo_hg/hg_mozilla_org.py:625-639 | `…/<group>/<l10n>/mozilla-{aurora,beta,release}/<locale>/…` becomes `…/<group>/<channel>/…`; release needs a segment after the locale |
| HgUrls.RewriteAutoland | vendor/mo_hg/hg_mozilla_org.py:640-644 | `…/<group>/autoland/…` becomes `…/try/…` when no earlier rule applies |
| HgUrls.NextPathCloser | vendor/mo_hg/hg_mozilla_org.py:619-644 | every rewrite shortens the path, counting `l10n-central` as one extra |
| HgUrls.RewriteCloser | vendor/mo_hg/hg_mozilla_org.py:619-644 | every rewrite lowers a measure, so the retry recursion terminates |
| HgUrls.ReplaceAbsent | vendor/mo_hg/hg_mozilla_org.py:615 | replacing a pattern that does not occur changes nothing |
| HgUrls.GetAndRetrySound | vendor/mo_hg/hg_mozilla_org.py:601-646 | a first answer is returned as is; an unknown push fails at once; with both requests failed and no rule, the chain fails with the rewrite's error; any success is some request's answer |
| BugId.SkipSpaces | vendor/mo_hg/hg_mozilla_org.py:697 | `\s*` consumes exactly the run of white space |
| BugId.Digits | vendor/mo_hg/hg_mozilla_org.py:697 | reads the longest run of at most `n` digits |
| BugId.MatchAt | vendor/mo_hg/hg_mozilla_org.py:697 | a match of `[Bb](?:ug)?\s*([0-9]{5,7})` captures five to seven digits |
| BugId.FirstMatch | vendor/mo_hg/hg_mozilla_org.py:697-699 | finds the leftmost position where the pattern matches, or none |
| BugId.ExtractBugIdBound | vendor/mo_hg/hg_mozilla_org.py:691-700 | no description gives no bug id, and a bug id has at most seven digits |
| BugId.ExtractBugIdLeftmost | vendor/mo_hg/hg_mozilla_org.py:695-700 | a bug id is found iff the pattern matches somewhere, and it is the value of the leftmost match |
| BugId.DigitsValueBound | vendor/mo_hg/hg_mozilla_org.py:699 | `int` of `n` digits is below `10^n` |
| BugId.ExtractBugIdExample | vendor/mo_hg/hg_mozilla_org.py:697-699 | `"b12345"` gives bug 12345 |
| CopyBut.PutKeys | vendor/mo_hg/hg_mozilla_org.py:914-916 | `output[k] = v` adds the key and keeps the others |
| CopyBut.CopyButOf | vendor/mo_hg/hg_mozilla_org.py:906-917 | the loop over the pairs computes `_copy_but` |
| CopyBut.CopyFieldsKeys | vendor/mo_hg/hg_mozilla_org.py:908-916 | every kept key is a key of the input that is not excluded with `True` |
| CopyBut.CopyFieldsClean | vendor/mo_hg/hg_mozilla_org.py:908-916 | no kept value is `None` or an empty mapping, at any depth |
| CopyBut.CopiedButClean | vendor/mo_hg/hg_mozilla_org.py:906-917 | the copy is `None` or a clean non-empty mapping |
| CopyBut.PutLookup | vendor/mo_hg/hg_mozilla_org.py:914-916 | after `output[k] = v` the key reads `v` and the others are unchanged |
| CopyBut.CopyFieldsLookup | vendor/mo_hg/hg_mozilla_org.py:908-916 | each input key reads what the copy keeps for it, and other keys are absent |
| CopyBut.CopiedButLookup | vendor/mo_hg/hg_mozilla_org.py:906-917 | each key of the copy reads the kept copy of the input's value; a `None` result means nothing was kept |
| Convert.HexDigitsBounds | vendor/mo_logs/convert.py:66-67 | `hex(n)[2:]` has the fewest digits that represent `n` |
| Convert.ParseHexDigits | vendor/mo_logs/convert.py:66-67 | the hex digits read back as `n` |
| Convert.Int2HexPadded | vendor/mo_logs/convert.py:66-67 | `int2hex` takes the last `size` characters of zeros followed by the hex digits |
| Convert.Int2HexShort | vendor/mo_logs/convert.py:66-67 | a value that fits is zero-padded to `size` digits |
| Convert.Int2HexLong | vendor/mo_logs/convert.py:66-67 | a value that does not fit keeps only its last `size` digits |
| Convert.Int2HexValue | vendor/mo_logs/convert.py:66-67 | the result has `size` hex digits and reads back as `value mod 16^size` |
| Convert.Int2HexSizeZero | vendor/mo_logs/convert.py:66-67 | with `size` 0, `[-0:]` keeps the whole of `hex(value)[2:]` |
| Convert.Int2HexNegative | vendor/mo_logs/convert.py:66-67 | a negative value keeps the `x` of `-0x…`, since `[2:]` drops only `-0` |
| Convert.Map2Url | vendor/mo_logs/convert.py:70-77 | the table covers codes 32–255; reserved characters map to `%` and two hex digits, and the rest map to themselves |
| Convert.EscapeRoundTrip | vendor/mo_logs/convert.py:72-73 | every escape is `%` and two hex digits reading back as the code |
| Convert.EscapeExamples | vendor/mo_logs/convert.py:72-73 | space, `%` and `{` escape as `%20`, `%25`, `%7b` |
| EqOp.ToBqLoop | vendor/jx_bigquery/expressions/eq_op.py:33-72 | the nested loops over columns and types compute the specified SQL or error |
| EqOp.TypeClausesFailure | vendor/jx_bigquery/expressions/eq_op.py:41-62 | a ZERO/ZERO pair raises "Expecting expression to have been simplified already" |
| EqOp.ColumnClausesFailure | vendor/jx_bigquery/expressions/eq_op.py:40-62 | an unsimplified pair in any column makes the whole translation fail |
| EqOp.TypeClausesEmpty | vendor/jx_bigquery/expressions/eq_op.py:41-62 | fails iff some type has ZERO on both sides; yields nothing iff every type letter is missing on both sides |
| EqOp.ColumnClausesEmpty | vendor/jx_bigquery/expressions/eq_op.py:40-62 | no clause at all iff no column yields a clause |
| EqOp.ColumnClausesFailureIff | vendor/jx_bigquery/expressions/eq_op.py:40-62 | the translation fails iff some column and type has ZERO on both sides |
| EqOp.ToBqFalseIff | vendor/jx_bigquery/expressions/eq_op.py:37-64 | the result is `FALSE` iff the sides have the same dimension and every type letter of every column is missing on both sides |
| EqOp.ZeroAgainstExpression | vendor/jx_bigquery/expressions/eq_op.py:47-60 | ZERO against an expression yields the expression, on either side |
| EqOp.JoinTwo | vendor/jx_bigquery/expressions/eq_op.py:67 | two clauses are joined with `" OR "` |
| EqOp.FoldLiterals | vendor/jx_bigquery/expressions/eq_op.py:79-80 | folds iff both sides are literals; literals that can never be equal under Python's `==` (null, number or boolean, string) fold to FALSE, and literals of the same kind fold to TRUE iff their values are equal |
| EqOp.FoldBoolNumber | vendor/jx_bigquery/expressions/eq_op.py:79-80 | a boolean and a number fold to TRUE iff the number is 1 for `True` or 0 for `False`, as Python's `==` compares them |
| EqOp.FoldTransitive | vendor/jx_bigquery/expressions/eq_op.py:79-80 | folding equal is transitive |
| EqOp.FoldSymmetric | vendor/jx_bigquery/expressions/eq_op.py:79-80 | the fold is symmetric |
| Schedule.FloorDiv | mo_etl/schedule.py:48 | `mo_math.floor(a / b)` is floor division, for either sign of `b` |
| Schedule.NextRun | mo_etl/schedule.py:43-50 | fails exactly when the duration is 0 (division by zero) |
| Schedule.NextRunLatestBoundary | mo_etl/schedule.py:43-50 | for a positive duration, the result is a whole number of durations from the start, at or before now, and less than one duration before it |
| Schedule.NextRunOnBoundary | mo_etl/schedule.py:48-49 | at a boundary, the result is now itself |
| Schedule.NextRunBeforeStart | mo_etl/schedule.py:48-49 | before the start, the interval count is negative and the result is still at or before now |
| Schedule.NextRunIsLatest | mo_etl/schedule.py:48-49 | no boundary at or before now is later than the result |
| Schedule.NextRunNegativeDuration | mo_etl/schedule.py:48-49 | with a negative duration, the result is at or after now, less than one duration away |

## Left out

- The `Queue`, threads and `please_stop` are not modelled. The drain loop
  of `etl-schedulers.py` is modelled as running until the queue is empty or
  a unit fails. The queue's `max=10000` bound is not modelled.
- Planner.PlannedSlots: the model requires a positive interval. The
  source's behaviour for a zero or negative interval is not modelled.
- The push provider (`make_push_objects`), the destination table's
  storage, BigQuery, `git.get_revision()` and `Date.now()` are parameters.
  Timers, `Log.note` and `Log.warning` are not modelled.
- EtlSchedulers.Process: the source calls `Date.now()` once per record.
  Here one `timestamp` parameter stands for it, so all records of a run
  share one timestamp.
- Schedulers.Process: all records of a run share one `timestamp`, in the
  same way.
- EtlSchedulers.Process: drains the corrected plan of
  `Planner.PlanWithSchedulers`, not the source's plan as written (see
  Findings).
- Schedulers.Process: drains the corrected plan of `Planner.PlanBranches`,
  not the source's plan as written (see Findings).
- Indicators.WindowSum: `mo_dots` is not part of this model. Its `Null`
  is assumed to absorb addition (`0 + Null` and `Null + x` are `Null`), so
  one missing count makes a window's sum missing.
- Indicators.BuildWindows: `parts.before += [...]` on an unset `Data` key
  is assumed to start from the empty list, as `mo_dots`' `Null.__iadd__`
  is taken to do.
- Dates are whole seconds. `Date.floor` and `Date.ceiling` are modelled
  on integers. The date parsing and formatting of `Date` is not modelled.
- Planner.Ceiling: `mo_times` is not part of this model. `Date.ceiling` is
  taken to return an instant that is already on a boundary unchanged, as
  `Date.floor` does.
- Planner.PlanWithSchedulers: the backward loop starts at the forward
  loop's first slot when that is below the ceiling of the minimum (see
  Findings). The source as written starts it at the ceiling; that plan is
  `Planner.PlannedSlots`, and the two agree whenever an interval boundary
  lies between the watermark's bounds (`Planner.CorrectedAgrees`).
- Planner.PlanBranches: corrected the same way as
  `Planner.PlanWithSchedulers`.
- `get_parents` and the label-collecting part of the detector are not
  modelled. The detector takes the label set, the results table and the
  backed-out push's id as inputs. Push ids are taken as consecutive, so
  `parent` and `child` are `id - 1` and `id + 1`.
- Exceptions are modelled as `Failure` values with their message. The
  exception chain (`cause=`) is not modelled.
- HgUrls.GetAndRetry: under Python 3, `e` and `f` are unbound at line 646,
  so the final `Log.error` would itself raise `UnboundLocalError`. The
  model fails with the intended "Tried … twice" message instead.
- HgUrls.GetAndRetry: the 5-second sleep, the timeout and the `branch`
  argument are not modelled.
- HgUrls.GetAndRetry: `get` is a function of the URL alone. A retry that
  requests the same URL again gets the first answer again. This happens
  for the `http://` retry of a URL that already starts with `http://`. An
  unreliable server that answers a repeated request differently is not
  modelled.
- `_get_url`, the request cache and the rest of `hg_mozilla_org.py` are not
  part of this model.
- CopyBut.CopiedBut: an exclusion entry is `True` or a mapping. A value
  such as `False` or a string in the exclusion mapping would compare
  `!= True` and be passed on as an exclusion. That is not modelled.
- CopyBut.CopiedBut: `exclude.get` is a plain key lookup. The dotted-path
  lookup of `mo_dots` is not modelled.
- CopyBut.CopiedBut: values that are not mappings are opaque leaves.
- EqOp.ToBq: the SQL of each side comes already translated, as a
  per-type value, expression or ZERO. `BQLang[...].to_bq` is not modelled.
  The result is the SQL text, not a `BQLScript` object.
- EqOp.Clause: `sql_iso(ZERO)` is rendered as `(0)`. How `ZERO` prints as
  SQL is not part of this model.
- EqOp.FoldLiterals: only the literal fold of `partial_eval` is modelled.
  The `CaseOp` built for non-literal sides is not modelled.
- EqOp.FoldLiterals: numbers are integers. Floats, and `1 == 1.0`, are not
  modelled. Python's `==` on lists and mappings is not modelled.
- Schedule.NextRun: `mo_math.floor` of a float quotient is exact integer
  floor division here. Float rounding is not modelled. The `Signal` is
  replaced by its time.
- Convert.Map2Url: only the Python 3 branch is modelled. Keys are the
  latin-1 codes rather than one-byte `bytes` objects.
- DiffApply.FormatLineObjects: the `hasattr` check and its error are not
  modelled. Every line object is a `Line`.
- DiffApply.ApplyDiffBackwards: the `wrap` of the new diff and the
  `.copy()` of the change list are not modelled. The flips change the same
  change objects in place, as the source does.
- `jx.sort` is modelled as a stable sort on code-point order of strings.
  For the candidate regressions it sorts by name.

## Findings

| source | as written | input that shows it | evidently intended | confidence | as-written member | corrected member |
|---|---|---|---|---|---|---|
| mo_etl/etl-schedulers.py:360-375 | `indicators = []`, then `indicators.add(label)`: a list has no `add`, so the first indicator raises `AttributeError` | one label whose results pass before the bad push, fail during it and pass after the backout | collect the label, e.g. `indicators.append(label)`, giving the sorted list of indicator labels | high (not executed) | Indicators.AsWrittenLosesIndicators | Indicators.Detect |
| mo_etl/etl-schedulers.py:62-79 | the forward loop starts at `Date.floor(done.max)` and the backward loop at `Date.ceiling(done.min)`; when no interval boundary lies between the two, both loops plan the chunk that holds the watermark | `done.min = done.max = 1800`, range 0 to 7200, interval 3600: the plan is the chunks 0-3600, 3600-7200 and 0-3600 again, so the chunk 0-3600 is processed and its records added twice | each chunk planned once: the backward loop starts no later than the forward one | medium (not executed) | Planner.PlanOverlapsWhenUnaligned | Planner.CorrectedSlotsDisjoint |
