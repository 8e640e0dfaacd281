# Proofs about the measurement and artifact tools

Dafny models of the algorithms under `tools/` whose correctness is not visible from one
function, with the theorems they rest on. `dafny verify dfyconfig.toml` checks everything.

| part | files | what it models |
|---|---|---|
| Engram table builder | `Bytes`, `EngramPlan`, `EngramBuild`, `EngramSteps`, `EngramSafety`, `EngramFinish`, `EngramWindows`, `EngramLoss`, `EngramCheck`, `EngramCopy`, `EngramPacked` | planning of output files and segments, the fetch/record/crash/resume/publish state machine, the offline check, ranged copies, and the packed 264-byte writer |
| Diarization scorer | `Diarize`, `DiarizeSearch`, `DiarizeScore`, `DiarizeLaws`, `DiarizeJer` | the cut-point sweep with collars, the backtracking assignment search, the error accounting, and the laws of both error rates |
| RTTM text | `Rttm` | the fixture's printer and the scorer's parser |
| Call checker | `Bfcl`, `BfclCalls` | greedy matching of parallel calls, and the accept relation for text and integer parameters |
| Ensemble statistics | `Tandem`, `McNemar` | argmax, pooling, Brier score, paired counts and the exact p-value |
| Forecast scoring | `Forecast` | pinball loss, quantile-grid CRPS, crossing check, seasonal-naive baseline |
| Word error rate | `Wer` | opcode costs against edit distance |
| Boot watchdog | `Watchdog` | the monitor's loop over runs of any length |
| Planning environment | `PlanEnv` | requirement sentences, the order check, satisfiability for every size |
| Needle planter | `Needle` | splicing facts at sentence ends and taking them out again |
| Calibration error | `Calibration` | ten confidence bins |
| Shared | `Results`, `Sorting`, `Text`, `Quotients` | options and results, `sorted`, string order and decimals, order of quotients |

## How the builder is modelled

`EngramBuild.State` is a directory (final files, partial files, progress file) that survives,
and a process that does not. One step is one system call: discarding, creating, sizing or
heading a partial; one write of at most 4 MiB by one worker; replacing the progress file;
one rename; removing the progress file. Workers interleave freely, any worker may fail, a
read may be shorter than asked, and the process may stop between any two steps.

Three results need no hypothesis on the directory. `EngramSafety.PublishedExactly`: whatever was
found there, a run publishes the promised file (header, weight plane, scale plane) if and only
if what it took on trust was already right. `EngramSafety.RestartDelivers`: a `--no-resume` run
takes nothing on trust, so it always publishes the promised files. `EngramFinish.NoDeadEnd`:
after any history at all, some continuation delivers every layer of a complete checkpoint.

The whole-run theorem `EngramSafety.BuildsAreSafe` covers every schedule of starts, restarts,
ticks, failures, stops and publishes under these hypotheses:

- every start is given the same layers, row limit and segment size (one `Build`), so that a resume
  rebuilds the plan the recorded indices belong to. `SegmentSizeMayChange` lets the segment size differ
  while nothing is recorded or everything is published;
- it starts from a directory of the build's own files (`DiskOk`): finished, or with recorded
  indices that are true under the whole plan and from which a resume plans every layer, or with
  nothing recorded. Any selection of published layers and nothing else is such a directory;
- a process stops, killed or because a segment failed, only where `MayStop` says: not between the
  first rename and the last; not before the first record of a restart with `--no-resume` over
  recorded indices; and, for a run that skipped published layers, not between its first record and its last rename.
  A run that is never stopped is not restricted.

Outside them the claim can fail, and `EngramWindows` proves exactly when. `ResumedExactly` is the
general answer: a resume over any directory, left by whatever arguments, publishes a layer
rightly if and only if the partial's header is right and each recorded index, read under the new
plan, names a range that is already source bytes. The other lemmas there turn this into a
condition on the checkpoint and on how far each segment had arrived, for each excluded stop.
`EngramLoss` shows that each excluded history happens and loses data: `SmallBuildLoses` does so
for one concrete build of two layers.

## Where the code and its own words differ

- `tools/boot-watchdog.py:135-137` says both deltas are zero for the whole stall window. The
  idle clock also runs through failed probes, so the first sighting of a live child can end a
  run although no two samples were compared (`Watchdog.FirstSightingStopsExactly`, and
  `Watchdog.LateSightingIsStopped` with two concrete checks); `Watchdog.StallObservedExactly`
  says when a stop for stalling does rest on observed silence.
  `tools/boot-watchdog.py:230-231` calls container memory a third signal; the loop prints it
  and does not use it, and the model has none.
- `tools/bfcl-eval.py:951` asserts that parallel scoring is order-independent. It is exactly when
  every earlier answer is nested in every later one, or some answer accepts nothing at all, and
  exactly then is the verdict always right (`Bfcl.OrderIgnoredExactly`, for any number of answers).
  `BfclCalls.OrderCanMatter` has calls and answers for which it is not.
- `tools/forecast-bench.py:127` takes the levels of the eleventh horizon step where the median column
  would be expected (`Forecast.ModelMaeReadsOneStep`); `Forecast.RightMedianIsCharged` has a forecast
  with a right median that is charged an error. With ten steps or fewer the index does not exist.
- `tools/build-dsv41-engram.py:638-650` resumes a packed partial that another `--limit-rows` left, and
  keeps its header: the published file holds the right records under the wrong row range
  (`EngramPacked.OtherLimitKeepsHeader`, `EngramPacked.SmallTableKeepsHeader`).

## Model

| member | source | states |
|---|---|---|
| EngramPlan.BuildSafetensorsHeader | tools/build-dsv41-engram.py:422-431 | the loop produces the padded header of the planes in order, or refuses a body whose length does not fit eight bytes |
| EngramPlan.HeaderReadsBack | tools/build-dsv41-engram.py:422-431 | a written header announces its own length, keeps the data 8-byte aligned, and decodes to the document that was written |
| EngramPlan.PlanTasks | tools/build-dsv41-engram.py:479-511 | one output layout per layer in order, or the first layer's error (missing tensor, row counts differ, wrong row sizes) |
| EngramPlan.PlannedTasksWf | tools/build-dsv41-engram.py:479-511 | for distinct layers every planned layout has a self-describing header and abutting planes, and announces its own layer only |
| EngramPlan.PlanSegments | tools/build-dsv41-engram.py:526-537 | the nested loops build the global segment list of all files |
| EngramPlan.PlanBounds | tools/build-dsv41-engram.py:526-537 | every segment is a positive piece of at most the segment size, past its file's header and inside its file |
| EngramPlan.PlanTiles | tools/build-dsv41-engram.py:526-537 | every byte after a header lies in exactly one segment of the global list |
| EngramPlan.FileComplete | tools/build-dsv41-engram.py:503-511 | a file of the right size is header, weight plane and scale plane if and only if its header and each of its segments are in place |
| EngramPlan.ReaderFindsHeader | tools/build-dsv41-engram.py:691-695 | a reader of the promised file finds the header length and both tensor entries |
| EngramPlan.ReaderFindsRow | tools/build-dsv41-engram.py:699-705 | the reader's address 8 + header length + data_offsets[0] + r * row bytes holds source row r, for every row of both planes |
| EngramCopy.Range.Read | tools/build-dsv41-engram.py:208-215 | a bounded read hands out a prefix of the response, never more than is left, and is empty only at the end or for a zero request |
| EngramCopy.CopyRange | tools/build-dsv41-engram.py:434-452 | the copy succeeds if and only if the shard holds the whole range, for any sizes of short reads; the destination changes only where it was written |
| EngramCopy.CopiedSegment | tools/build-dsv41-engram.py:584-590 | a successful copy leaves exactly the source range that the progress file may then claim, and no other byte changed |
| EngramCheck.CheckLayers | tools/build-dsv41-engram.py:806-876 | the loops over the files, whatever they are called, in name order and over the layers answer true exactly when every file is readable, no partial is left, and for every layer some file holds it whole with no truncated one before it |
| EngramCheck.CheckIsLoop | tools/build-dsv41-engram.py:515-525 | the check that decides which layers a resume plans is that loop over the directory's files |
| EngramCheck.ListingExists | tools/build-dsv41-engram.py:500-501 | different layers have different file names, so every directory has the listing that the check goes through |
| EngramSteps.StepInv | tools/build-dsv41-engram.py:541-604 | every step of a process, from whatever directory it found, keeps the invariant that ties every byte of every partial and final file to the checkpoint or to what was found |
| EngramSafety.PublishedExactly | tools/build-dsv41-engram.py:541-569 | for any directory, interleaving and progress file: a published file is the promised one if and only if what the run took on trust was already right |
| EngramSafety.HistoriesPublishExactly | tools/build-dsv41-engram.py:541-569 | the same at every point of every possible history from any directory, for what the process at work has renamed |
| EngramSafety.RestartDelivers | tools/build-dsv41-engram.py:541-569 | a run with --no-resume publishes the promised file, whatever the directory held |
| EngramSafety.RestartRecordsTruth | tools/build-dsv41-engram.py:553-597 | every index such a run has recorded names source bytes, whatever the directory held |
| EngramSafety.ExpectedPasses | tools/build-dsv41-engram.py:806-876 | the promised file passes the offline check for its own layer and provides no other |
| EngramSafety.PublishedOnlyOk | tools/build-dsv41-engram.py:541-554 | a directory with any selection of published layers and nothing else, the empty one included, meets the starting hypothesis |
| EngramSafety.SegmentSizeMayChange | tools/build-dsv41-engram.py:526-556 | while nothing is recorded, or when all is published, the directory stays good for any other segment size |
| EngramSafety.SettledKeepsNone | tools/build-dsv41-engram.py:515-525 | in a finished directory a resume has nothing left to do |
| EngramSafety.SteadyStep | tools/build-dsv41-engram.py:513-604 | every step keeps the directory finished or truthfully resumable, if processes stop only where they may |
| EngramSafety.BuildsAreSafe | tools/build-dsv41-engram.py:475-604 | after any schedule with such stops every published file is the promised one, and every recorded index names a range equal to the source under the plan of the process at work, except until a restart over recorded indices makes its first record |
| EngramFinish.NoDeadEnd | tools/build-dsv41-engram.py:475-604 | after any history from any directory some continuation delivers every layer, if the checkpoint is complete |
| EngramFinish.BuildsCanFinish | tools/build-dsv41-engram.py:475-604 | after an allowed history some continuation that discards nothing ends with every layer published as promised, unless a segment has failed where the process may not stop |
| EngramWindows.ResumedExactly | tools/build-dsv41-engram.py:513-569 | a resume over any directory, whatever plan its progress file was written under, publishes a layer rightly if and only if the partial's header is right and each recorded index names source bytes under the new plan |
| EngramWindows.HistoriesResumeExactly | tools/build-dsv41-engram.py:513-569 | the same at the end of every possible history from any directory whose last process is a resume |
| EngramWindows.CrashBetweenRenames | tools/build-dsv41-engram.py:566-570 | after a stop between two renames a resume replaces an already published layer, rightly if and only if the recorded ranges of it, which are all when no layer was skipped, are zero |
| EngramWindows.LaterLayersSurvive | tools/build-dsv41-engram.py:566-570 | the layers not yet renamed at a stop while publishing come out right |
| EngramWindows.PublishedLayerShiftsNumbering | tools/build-dsv41-engram.py:513-537 | wherever a run that skipped a published layer is stopped leaving a partial, that layer is republished right if and only if the ranges that the shifted numbers name are zero |
| EngramWindows.InterruptedLayer | tools/build-dsv41-engram.py:513-569 | a layer that an interrupted run was fetching comes out right if and only if the recorded numbers, as the resume reads them, name segments that had arrived or are zero from where they had |
| EngramWindows.NoResumeStoppedPreparing | tools/build-dsv41-engram.py:541-554 | after --no-resume and a stop anywhere in the preparation, an emptied layer is right if and only if the stale ranges are zero, and one not reached yet exactly when it would have been without the restart |
| EngramWindows.NoResumeKeepsStaleProgress | tools/build-dsv41-engram.py:541-604 | after --no-resume and a stop while fetching, a resumed layer is right if and only if every range the progress file lists had arrived or is zero from where it had |
| EngramLoss.CrashLosesLayer | tools/build-dsv41-engram.py:566-570 | from the empty directory, a possible run with one stop between two renames ends with a wrong published layer, for every build of several layers whose first has a nonzero byte |
| EngramLoss.RestartLosesLayer | tools/build-dsv41-engram.py:541-554 | so does a build stopped before its first rename, restarted with --no-resume, stopped and resumed |
| EngramLoss.ShiftLosesLayer | tools/build-dsv41-engram.py:513-537 | so does a build over an already published first layer, stopped before its first rename and resumed |
| EngramLoss.SegmentSizeLosesLayer | tools/build-dsv41-engram.py:526-556 | so does a build stopped after one record and resumed with a larger segment size, if the added range has a nonzero byte |
| EngramLoss.SmallBuildLoses | tools/build-dsv41-engram.py:475-604 | one concrete build of two one-row layers loses its first layer in each of these four ways |
| EngramPacked.RanksPartition | tools/build-dsv41-engram.py:629-632 | the rank ranges are consecutive, cover the table, and differ in size by at most one row |
| EngramPacked.Interleave | tools/build-dsv41-engram.py:657-661 | the loop interleaves two plane blocks into the 264-byte records of their rows |
| EngramPacked.BuildPacked | tools/build-dsv41-engram.py:617-672 | a rank out of range is an error; a short read is one exactly when rows are missing and the checkpoint ends before the last of them; else the result is the header and records of the rank's range over what the partial held, if it has the expected size |
| EngramPacked.RecordAt | tools/build-dsv41-engram.py:723-728 | the reader's rule: the record of row r is at 4096 + (r - lo) * 264 and is weight row then scale row |
| EngramPacked.ResumeExactly | tools/build-dsv41-engram.py:638-672 | a resume yields the complete file if and only if it starts over or the header and records it keeps are the right ones |
| EngramPacked.TornPrefixResumes | tools/build-dsv41-engram.py:638-672 | resuming from any truncated prefix of the right file gives the same bytes as an uninterrupted run |
| EngramPacked.AllRanksGiveBackTable | tools/build-dsv41-engram.py:617-672 | stripping the 4096-byte headers off the bytes of all ranks' files, in order, and de-interleaving the rest gives back both planes of the whole table |
| EngramPacked.OtherLimitKeepsHeader | tools/build-dsv41-engram.py:638-650 | a torn file of the same rank under another row limit is completed with the right records and published under its old header, so rightly if and only if the limits agree |
| EngramPacked.SmallTableKeepsHeader | tools/build-dsv41-engram.py:638-650 | a concrete two-row table for which the published header names the wrong row range |
| DiarizeSearch.AnswerIsOptimum | tools/diarize-score.py:177-203 | the search's answer is the maximum total over all partial injections, and the first one of its value in visiting order |
| DiarizeSearch.AnswerPairsWeigh | tools/diarize-score.py:177-203 | with non-negative weights the answer contains no pair without weight |
| DiarizeSearch.Search.Walk | tools/diarize-score.py:187-199 | the backtracking walk restores `used` and `assign` and leaves the best leaf below its node |
| DiarizeSearch.SearchInjection | tools/diarize-score.py:177-203 | above eight speakers on a side it refuses, otherwise it returns the exact optimum |
| Diarize.Sweep | tools/diarize-score.py:219-260 | every label and pair total of the cut-point sweep is the number of instants of the region, outside collars and excluded overlap, at which those labels are active |
| DiarizeScore.InstantAccounting | tools/diarize-score.py:279-295 | at every instant missed, false alarm, speaker error and correct labels add up to the longer side |
| DiarizeScore.AccountingIdentity | tools/diarize-score.py:276-295 | the same over the whole scored region |
| DiarizeScore.Account | tools/diarize-score.py:279-295 | the accounting loop computes the per-instant totals of all four kinds |
| DiarizeScore.OptimalMapping | tools/diarize-score.py:267-277 | the optimal assignment of label indices is the optimal one-to-one mapping over all labels |
| DiarizeScore.ScorePair | tools/diarize-score.py:206-325 | each error is raised on exactly its condition; otherwise the reported times, mapping, DER and JER are those of the per-instant definition |
| DiarizeLaws.ComponentsAddUp | tools/diarize-score.py:276-295 | missed + false alarm + speaker error + correct is the sum over scored time of the longer side |
| DiarizeLaws.DerIsMinimum | tools/diarize-score.py:276-319 | the reported DER is the minimum over all one-to-one mappings, and is attained |
| DiarizeLaws.NamesDoNotMatter | tools/diarize-score.py:206-325 | renaming the speakers of either side leaves every error and the DER unchanged |
| DiarizeLaws.RelabelledCopyScoresZero | tools/diarize-score.py:206-325 | any relabelled copy of the reference scores zero |
| DiarizeJer.JerIsOptimum | tools/diarize-score.py:302-310 | the reported Jaccard error rate is one minus the best overlap-over-union total of any one-to-one mapping of labels, per speaker of the larger side |
| DiarizeJer.NamesDoNotMatterToJer | tools/diarize-score.py:302-310 | renaming the speakers of either side leaves the Jaccard error rate and both speaker counts unchanged |
| DiarizeJer.RelabelledCopyJerIsZero | tools/diarize-score.py:302-310 | any relabelled copy of the reference has a Jaccard error rate of zero |
| DiarizeLaws.JerInUnit | tools/diarize-score.py:302-310 | the Jaccard error rate lies between 0 and 1 |
| DiarizeLaws.PooledBetween | tools/diarize-score.py:328-342 | the pooled error rate lies between any bounds of the pairs' rates |
| DiarizeLaws.PooledAddsUp | tools/diarize-score.py:328-342 | the pooled rate times the pooled speech is the sum of the pooled missed, false alarm and speaker error times |
| DiarizeLaws.PooledJerBetween | tools/diarize-score.py:328-342 | the pooled Jaccard rate, a plain mean, lies between any bounds of the pairs' rates |
| Rttm.CollectSegments | tools/diarize-score.py:98-134 | the loop stops at the first bad line, and only at the end refuses several file ids or no segments |
| Rttm.ParseSegments | tools/diarize-score.py:94-134 | if some line cannot be read, the first such line's error with its number; else several file ids, with those ids; else no segments; else a list of what all spoken lines say, in their order |
| Rttm.ParsedSegmentsForward | tools/diarize-score.py:124-134 | whatever the text, a successful parse is not empty and every segment ends after it starts |
| Rttm.BackwardTurnRefused | tools/diarize-score.py:124-125 | the first printed turn that does not end after it starts is refused with its line number |
| Rttm.RoundTripExactly | tools/diarize-fixture.py:151-156 | for file names without comment sign or line break, parsing the printed text gives back exactly the sorted turns if and only if there are turns, the name reads as one field, every label is one word, and each turn ends after it starts |
| Rttm.ParsedLabelsAreWords | tools/diarize-score.py:98-134 | whatever the text, every parsed label is one word without blank or comment sign |
| Rttm.HashInName | tools/diarize-fixture.py:151-156 | with a comment sign in the file name, the printed text of any turn can be read as an arbitrary other turn |
| Bfcl.ParallelChecker | tools/bfcl-eval.py:432-455 | the two loops report a wrong count, the first answer that finds no output, or acceptance, as taking the first fitting output in turn decides |
| Bfcl.AcceptedIsMatchable | tools/bfcl-eval.py:432-455 | acceptance implies a bijection of outputs to answers with every pair accepted |
| Bfcl.NestedIsExact | tools/bfcl-eval.py:432-455 | when earlier accepted sets are disjoint from or contained in later ones, acceptance is equivalent to such a bijection |
| Bfcl.NestedIgnoresOrder | tools/bfcl-eval.py:942-951 | under the same condition the verdict is the same for every order of the outputs |
| Bfcl.OrderIgnoredExactly | tools/bfcl-eval.py:942-951 | for any answers and any outputs that may occur, the verdict is independent of output order if and only if every earlier answer is nested in every later one or some answer accepts nothing; and the verdict is always right under exactly the same condition |
| Bfcl.PairIgnoresOrderExactly | tools/bfcl-eval.py:942-951 | so two answers are scored independently of the order of two outputs of a pool if and only if they are nested |
| BfclCalls.FixedAnswersExact | tools/bfcl-eval.py:352-429 | answers with one value per parameter and nothing optional are always scored exactly and independently of order |
| BfclCalls.OrderCanMatter | tools/bfcl-eval.py:942-951 | concrete calls and answers that are accepted in one order and rejected in the other |
| Tandem.Argmax | tools/decision-tandem.py:89-90 | no label has more mass, and none of equal mass comes later in the alphabet |
| Tandem.AnyOrderSameBest | tools/decision-tandem.py:89-90 | the order in which the labels are visited does not change the answer |
| Tandem.NormaliseSumsToOne | tools/decision-tandem.py:93-95 | a normalised distribution sums to one |
| Tandem.LinearIsAverage | tools/decision-tandem.py:98-100 | the pool of two distributions is the average of their masses on every label |
| Tandem.BrierOfPool | tools/decision-tandem.py:98-115 | the pool's Brier score is the mean of the members' scores less a quarter of their squared distance |
| Tandem.PoolKeepsAgreement | tools/decision-tandem.py:89-100 | when both members' argmax is the same positive-mass label, it is the pool's argmax, tie-break included |
| McNemar.ScorePool | tools/decision-tandem.py:118-133 | the loop's correct count and Brier total, turned into a score; no records is the division error |
| McNemar.ScoreOf | tools/decision-tandem.py:127-133 | the percentage times the number of records is a hundred times the correct count, and the mean Brier score times it the total |
| McNemar.FixesLessBreaks | tools/decision-tandem.py:118-144 | fixes minus breaks is the difference of the two correct counts |
| McNemar.McNemarP | tools/decision-tandem.py:136-151 | the loop counts exactly the fixed and the broken records, and the sum over one tail gives their p-value |
| McNemar.PValueShape | tools/decision-tandem.py:145-151 | the p-value is symmetric, one exactly when fixes and breaks differ by at most one, and strictly between 0 and 1 otherwise |
| McNemar.PValueIsExact | tools/decision-tandem.py:145-151 | the p-value is the share of all equally likely sequences of as many coin flips that are at least as lopsided |
| Forecast.CrpsFromQuantiles | tools/forecast-bench.py:73-78 | the loop computes the grid's CRPS, never negative, and zero exactly when every level hits the value |
| Forecast.SortingLowersCrps | tools/forecast-bench.py:64-78 | sorting a grid never raises its CRPS, and lowers it if and only if two levels cross |
| Forecast.CheckMonotone | tools/forecast-bench.py:111-117 | one failure per unsorted grid, naming its first crossing, and none for the others |
| Forecast.ConstantGridScoresError | tools/forecast-bench.py:156-163 | a grid whose levels all say q scores exactly the absolute error of q |
| Forecast.BaselineScoresItsError | tools/forecast-bench.py:156-163 | the baseline's CRPS over a horizon equals its absolute error |
| Forecast.ModelMaeReadsOneStep | tools/forecast-bench.py:127 | the reported model error is zero exactly when the levels of the eleventh step hit the values one after the other, while the median column's error is zero exactly when it hits every value |
| Forecast.RightMedianIsCharged | tools/forecast-bench.py:127 | a concrete forecast whose median is right at every step and whose reported model error is not zero |
| Forecast.SeasonalNaive | tools/forecast-bench.py:81-85 | for every horizon, longer than the series included: an error exactly when less than a week of context is left and the horizon is longer than it; else each step repeats a value of the last seven, or the short context itself |
| Forecast.SeasonalNaiveKeepsWeekday | tools/forecast-bench.py:81-85 | the repeated value has the same position in the week as the step |
| Wer.ErrorRate | tools/audio-asr-tts-probe.py:72-82 | over any valid opcode list: an error for an empty reference, never below the true rate, zero only for equal texts and for all-equal opcodes |
| Wer.CostFrom | tools/audio-asr-tts-probe.py:78-81 | any opcode list that tiles both texts costs at least the edit distance |
| Wer.BestOpcodes | tools/audio-asr-tts-probe.py:78-81 | the bound is tight: some valid opcode list costs exactly the edit distance |
| Wer.LevIsFewestEdits | tools/audio-asr-tts-probe.py:72-73 | the edit distance is the least number of single-word insertions, deletions and replacements |
| Watchdog.Watch | tools/boot-watchdog.py:457-519 | for runs of any length: the loop ends on the first check with a healthy endpoint or a justified stop and on no other, and its verdict is the justified one |
| Watchdog.ActsExactly | tools/boot-watchdog.py:90-143 | what a check does with the carried counters and clocks is exactly what the trace alone justifies |
| Watchdog.FailedProbesNeverEnd | tools/boot-watchdog.py:100-104 | a run of failed probes is never stopped, however long |
| Watchdog.SeenDeathEnds | tools/boot-watchdog.py:105-109 | a child seen alive and then absent twice in a row ends the run by the second absence |
| Watchdog.FirstSightingStopsExactly | tools/boot-watchdog.py:488-493 | after only failed probes the first sighting of a live child ends the run if and only if the stall span has passed |
| Watchdog.LateSightingIsStopped | tools/boot-watchdog.py:488-493 | a concrete run of one failed probe and one sighting of a busy child at 640 seconds is stopped as stalled with the default limits |
| Watchdog.StallObservedExactly | tools/boot-watchdog.py:127-143 | a stop for stalling rests on observed silence over the whole span if and only if every check of the span could compare both samples |
| PlanEnv.ConstraintReadsBack | tools/agentic-horizon-probe.py:110-124 | every requirement sentence parses back to the requirement it states |
| PlanEnv.Check | tools/agentic-horizon-probe.py:134-150 | VALID exactly for permutations that satisfy every requirement issued; otherwise the permutation error or the first violated requirement |
| PlanEnv.OrderSatisfies | tools/agentic-horizon-probe.py:100-132 | for every number of jobs some order is a permutation that satisfies every requirement |
| Needle.Plant | tools/needle-haystack.py:298-321 | facts stand whole and in order at the returned strictly increasing positions, each at its cut point, and taking them out gives back the haystack |
| Needle.CutsNeverGoBack | tools/needle-haystack.py:310-314 | cut points never go backwards |
| Needle.FactsFollowSentences | tools/needle-haystack.py:310-314 | each cut is right after the first ". " at or after its depth, or at the end of the haystack |
| Calibration.ExpectedCalibrationError | tools/jev-decision-bench.py:103-118 | no samples give 0; otherwise the error is the weighted bin gaps and lies between the gap of the overall means and the mean of the single gaps |
| Calibration.MembersPartition | tools/jev-decision-bench.py:105-107 | each index is in its own confidence bin once and in no other |
| Calibration.BinHolds | tools/jev-decision-bench.py:105-107 | bin b holds the confidences from b/10 up to (b+1)/10, the last one 1 as well |

## Left out

- HTTP, retries, rate limits, file locking, fsync and page-cache advice: the builder's reads are modelled as arbitrary short reads of the right bytes.
- Power loss and two builders at once: completed writes and renames survive a stop, and one process runs at a time.
- JSON text: a pair of functions with a stated contract (decoding an encoded document, blanks appended, gives it back).
- Repeated layers in one call, and, in the step system, foreign files in the output directory: layers are distinct and final files are those of layers. `EngramCheck.CheckLayers` takes files of any name.
- EngramPacked.BuildPacked: models the table after the shape lookup, with row sizes 256 and 8; the rename at the end and the header re-check of `verify_rows` are not modelled.
- The packed half of `check_output`, `verify_rows`' random sampling and the logging.
- Floating-point rounding everywhere: times are integer ticks (so the scorer's tolerance is zero), the other arithmetic is over the reals, and `2 ** n` does not overflow.
- Rttm.ParseSegments: numbers are plain decimals; exponents, digit separators, infinities and NaN count as not a number, and upper-casing is ASCII. `load_segments`, the JSON form and file errors are not modelled.
- Rttm.RoundTripExactly: file names with a comment sign or a line break are outside its if-and-only-if; `Rttm.HashInName` shows what the text of such a name can be read as.
- `build_splice`, `render` and all WAV handling of the fixtures.
- BfclCalls.FixedAnswersExact: parameters are text or integers; floats, booleans, lists, tuples and nested dictionaries, the category dispatch of `ast_checker` and the error texts are not modelled, and lower-casing is ASCII.
- McNemar.ScorePool: leaves out the mean KL divergence, which rests on the logarithm.
- The logarithmic pool, the Gaussian oracle, MASE and coverage of the forecast report.
- Wer.ErrorRate: takes the word lists and an opcode list; text normalisation and the matcher that chooses the opcodes are not modelled beyond the opcodes tiling both texts.
- Watchdog.Watch: one check is a record of what the probes returned and of four clock readings that never go back; ssh, docker, log capture, stopping the container and sleeping are not modelled.
- Needle.Plant: takes the facts only; choosing codewords, questions and the haystack is not modelled.
- Campaign control, report rendering, humanizer heuristics and the other tools: orchestration or simple folds.
