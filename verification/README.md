# Verified models of belt's core logic

belt runs scripted scenarios against coding agents, scores the outcomes with rules and LLM
judges, and aggregates, compares, exports and prunes runs. This project models the parts of it
where a mistake would be silent, and proves what its code and documentation promise about them.
`dafny verify dfyconfig.toml` checks everything.

**The run manifest as a protocol.** Any number of processes share one file under a lock, register,
unregister and clean up after each other, may die between any two steps, and have their PIDs
handed to other processes. `ManifestDoc.dfy` says what a read makes of the file and what each
operation makes of that; `Manifest.dfy` proves the class with its stale private copy against
those functions; `ManifestProtocol.dfy` is the transition system, its invariant and the theorems
about every run; `InterruptedSweep.dfy` is a run in which a sweep is cut short; `Retention.dfy` is
the `gc` planner on top, and `LateRegistration.dfy` a run registered behind its back.

**Aggregation.** `Trials.dfy` and `Reliability.dfy` (trial groups, pass@k and pass^k, Jensen's
inequality), `TaskQuality.dfy` (splitting a run between agent, judge and task failures),
`Thresholds.dfy` (failure budgets, with a judge's turns rolled up to the worst one),
`Compare.dfy` (two runs side by side) and `ComparisonMeaning.dfy` (what such a comparison shows).

**Text.** `Sanitize.dfy` and `EscapedText.dfy` (escape stripper), `Markdown.dfy` (escaper),
`Redact.dfy` and `ArgumentReading.dfy` (argument vectors, and how argparse reads them), `Truncate.dfy` (UTF-8 byte budget).

**Adapters.** `BoundedStream.dfy`, `Flags.dfy`, `Codex.dfy` (session over a history of calls),
`Copilot.dfy`, `ClaudeCode.dfy`, `Cursor.dfy` (folds over event streams), `ErrorTypes.dfy`,
`Ndjson.dfy`; and `Filter.dfy` for scenario selection.

Where the source updates things in place, a method with the same loop is proved equal to a
specification function, and the lemmas are about that function.

## Main results

- The manifest under any interleaving, with crashes and PID reuse: `Serializable`,
  `RegisteredRunStays`, `RegisteredThenSwept`, `EveryEntryAccounted`, `ExactlyOnceIff`; on top of it
  `LiveDirsIff`, `LiveRunNeverDeleted`, `AbandonedRunDeletedIff` and `ReplanDeletesNothing`.
- Aggregation: `Jensen`, `GroupingsAgree`, `ReportConserves`, `UnroundedReport`, `SplitMeaning`,
  `FailsIff`, `EnforcedOnRun`, `LargerFailSetFailsMore`, `NestedFoldsAreOne`, `ScoreShown`,
  `PlainComparison`, `Antisymmetric`, `DeltasAdd`.
- Text: `StripAnsiShowsVisible`, `CleanIdempotent`, `MdSafeRoundTrip`, `ScrubRevealsExactly`,
  `RedactedIff`, `TruncateSpec`.
- Adapters: `ReceivedSpec`, `CheckDeniedFlags`, `PairInResultIff`, `SessionIsFirst`,
  `RecordedExact`, and `ResultsLand` for either agent.

## Where the code and what is said of it differ

The models follow the code. Each difference comes with the inputs that show it and, where the
promise is met under a condition, with that condition.

- `_sanitize.py:42-46` presents both OSC terminators as equals. With ESC `\` the pattern's body is
  not bounded: it runs to the next BEL or, without one, to the last ESC `\`, and visible text on
  the way is dropped (`TerminatorSwallowsText`). None is dropped if and only if the pieces are
  `Intact` (`StripAnsiShowsVisible`).
- `thresholds.py:157-159` says that a single failing turn fails the whole scenario. Turns are
  rolled up to the worst-ranked one first, so a failing turn can be hidden by a worse-ranked turn
  that is not in the fail set (`TwoTurnsHideTheSecond`). This cannot happen if and only if the fail
  set is closed downwards in rank (`FailingVotesCountIff`); the default set is, `{fail}` is not
  (`DefaultClosed`).
- `ndjson.py:27-28` promises to reject nesting deeper than `max_depth`. The depth computation
  saturates at 65, so under a larger limit nothing is ever too deep (`NeverTooDeep`) and a deeper
  document is loaded (`LargeLimitMissed`). With a decoder that yields one, the limit holds for every
  document if and only if it is at most 64 (`DepthEnforcedIff`).
- `gc.py:12-16` counts only the runs that are not live towards `--keep-last`; the loop's index
  (`gc.py:101-109`) counts the live ones as well, so with one run to keep a newer live run costs the
  newest of the others its place (`LiveRunTakesAPlace`). The plan is the documented one if and only
  if no run that is neither live nor too old stands at a position past the cut-off with fewer runs
  before it, not counting live ones, than are to be kept (`PlanAsDocumentedIff`).
- `base.py:275-276` says that a name-only entry covers `--flag value`. The code drops the flag's
  token and judges the next one on its own (`BlockedValueGoesThrough`, `NextTokenOnItsOwn`). The
  filter does what is documented if and only if every token that the agent reads as the value of a
  blocked bare flag is denied itself (`AsDocumentedIff`), in particular when the flags denied by
  name are switches (`SwitchesAsDocumented`).
- `base.py:277-279` says that a `--flag=value` entry blocks the two-token form. It does in the
  input. In the result such a pair can arise by dropping what stood between (`DeniedNameBetween`),
  and does if and only if a kept bare flag and the next kept token are such a pair
  (`PairInResultIff`); filtering the result again changes nothing if and only if none has arisen
  (`RefilterIff`).
- `_safe.py:107` says that the result is always one code span. A value made of controls only
  leaves two bare backticks (`MdInlineOfControls`); it is a span if and only if something printable
  is left (`MdInlineIsSpanIff`).
- `_redact.py:188-194` claims every shape argparse accepts. It accepts `-X=key=value` as well
  (`ShortFormWithEquals`), and clusters: with an option without an argument such as `-v`
  (`eval.py:270`) before `X`, the payload may stand in the same token (`ClusterGoesThrough`) or in the
  next one (`ClusterBeforePayload`). All of these go through as they are. A payload that argparse
  delivers is redacted if and only if no letter stands before `X` and no equals sign right behind it
  (`ArgumentReading.RedactedIff`); the long option is always recognised.
- `filter.py:66` reads an empty set of names as "all allowed". A filter with an empty scenario
  name therefore selects the whole group, but only while no other filter names a scenario in it
  (`SelectedIff`).
- `gc.py:13-14` says never to delete an in-flight run. Runs on record when the manifest was read are
  spared however long the deletion takes (`LiveLaterNeverDeleted`). One registered after that is not
  looked up again (`LateRegistration.RegisteredAfterRead`); as the newest directory it is deleted
  exactly when none is to be kept or it is too old (`NewestUnregisteredDeletedIff`).
- A manifest that says `"runs": null` survives validation. Register and unregister then fail before
  writing, and clean-up does nothing, for ever (`NullRunsStuck`).
- `delete_fn` can receive a group twice: when a process dies in a sweep after handing it over, the
  next sweep hands it over again (`InterruptedSweep.DeliveredTwice`). A run's groups are delivered
  exactly once if and only if no process died or failed in a sweep that had delivered one of them
  (`ExactlyOnceIff`).

## Model

| member | source | states |
|---|---|---|
| ManifestDoc.ValidateValid | src/belt/manifest.py:44-87 | every read gives a well-typed document, and validating twice is validating once |
| ManifestDoc.WrittenReadsBack | src/belt/manifest.py:133-158 | whatever any of the three operations writes is read back unchanged |
| ManifestDoc.KeptSpec | src/belt/manifest.py:155-155 | survivors are exactly the entries with a true verdict, in their old order |
| ManifestDoc.ReadExact | src/belt/manifest.py:44-87 | a read keeps every field but `runs`; of a list it keeps, in order, the objects whose PID, directory and groups have a possible type, each with a numeric creation time or null and with those of its groups that are objects |
| Manifest.Manifest.Clean | src/belt/manifest.py:53-87 | the validation loop computes `Validate` |
| Manifest.Manifest.Lock | src/belt/manifest.py:104-109 | taking the lock replaces the stale copy by what is on disk |
| Manifest.Manifest.RegisterRun | src/belt/manifest.py:119-149 | however stale the copy was, the new file has the runs of the old one and behind them a record with the PID, creation time or null, directory, and per group its name and everything its info says; that directory is the latest; nothing else differs; raises without writing exactly on null runs |
| Manifest.Manifest.UnregisterRun | src/belt/manifest.py:151-158 | takes every run with the PID (`True` counts as 1) and nothing else from what is on disk; the others stay in order and as often as they were |
| Manifest.Manifest.CleanupOrphans | src/belt/manifest.py:202-236 | delivers all groups of the runs judged dead in order, keeps the others in order, returns the number of calls that did not raise, writes nothing when there is no run |
| Manifest.DeadEntriesAppend | src/belt/manifest.py:215-226 | the calls of a sweep, run by run: none for a run that is kept, all groups in order for one that is not |
| ManifestProtocol.StepKeeps | src/belt/manifest.py:104-236 | every step of any process keeps the whole invariant: mutual exclusion, fresh copy inside the lock, file equals history, accounting of deliveries, ownership |
| ManifestProtocol.RunKeeps | src/belt/manifest.py:104-236 | so does every interleaving of any length |
| ManifestProtocol.Serializable | src/belt/manifest.py:89-91 | no lost update: the file reads as the completed operations applied one after another in lock order, with crashes and stale copies anywhere |
| ManifestProtocol.RegisteredRunStays | src/belt/manifest.py:119-149 | from its registration on, while its process lives and has completed no unregister, a run stays on disk and none of its groups is deleted, whatever PIDs are reused and whatever requests time out or fail |
| ManifestProtocol.VerdictIff | src/belt/manifest.py:180-200 | a run with a positive PID survives exactly when some live process has that PID and either cannot be signalled, or no creation time can be compared, or they differ by less than a second, the recorded one read off the entry |
| ManifestProtocol.VerdictOtherwise | src/belt/manifest.py:189-218 | a run without a PID is dead, and one whose PID is not positive survives as the answers of the system say |
| ManifestProtocol.EveryEntryAccounted | src/belt/manifest.py:151-158 | every entry ever written is on disk, unregistered or swept, in one of these only, and has been delivered accordingly |
| ManifestProtocol.ExactlyOnceIff | src/belt/manifest.py:215-235 | a swept run's groups were each delivered once in order, and any other run's not at all, if and only if no process died or failed in a sweep that had delivered a group of it |
| ManifestProtocol.ExactlyOnce | src/belt/manifest.py:215-230 | in particular when no sweep is cut short at all |
| ManifestProtocol.RegisteredThenSwept | src/belt/manifest.py:119-236 | from registration to deletion under any interleaving: the entry says for good what was registered, and once it was swept the deletions received are one per registered group, each with name and info, in order, if and only if no sweep was cut short after delivering one |
| InterruptedSweep.DeliveredTwice | src/belt/manifest.py:223-235 | a run in which the group of an orphan is delivered twice |
| ManifestProtocol.SweepTakesTheDead | src/belt/manifest.py:232-235 | a completed sweep takes off the disk exactly the entries judged dead |
| ManifestProtocol.NullRunsStuck | src/belt/manifest.py:55-57 | no operation ever completes on a file with null runs |
| Retention.LiveRunDirs | src/belt/commands/gc.py:40-61 | collects exactly the resolved directories of the entries that count as live; fails on null runs; `LiveDirsIff` says which entries count |
| Retention.LiveDirsIff | src/belt/commands/gc.py:51-60 | in every state of the processes, with truthful probes, a directory is live exactly when some entry has a non-empty directory that resolves to it and an integer PID, and a live process holds the PID and may be the recorded one, or the PID is not positive and the system answers for it |
| Retention.AbandonedRunDeletedIff | src/belt/commands/gc.py:101-114 | a directory whose entries all have positive PIDs that no live process holds is deleted exactly when it stands past the cut-off or is too old |
| Retention.NewestFirstStable | src/belt/commands/gc.py:93-93 | runs of one modification time stay in listing order |
| Retention.PlanDeletions | src/belt/commands/gc.py:78-115 | the two lists interleave to the sorted listing, nothing live is deleted, and the deletions are a tail of the non-live runs newest first |
| Retention.PlanLosesNothing | src/belt/commands/gc.py:101-115 | every listed run is in exactly one list, as often as listed |
| Retention.ReplanDeletesNothing | src/belt/commands/gc.py:78-115 | planning again over the survivors keeps them in the same order and deletes nothing |
| Retention.LiveRunNeverDeleted | src/belt/commands/gc.py:40-115 | in every reachable state of the protocol, the directory of a run that is live and registered when the manifest is read is never planned for deletion, for any policy and listing |
| Retention.LiveLaterNeverDeleted | src/belt/commands/gc.py:40-115 | nor, after any further steps, that of a run live and registered by then, if it was on record at the read |
| Retention.NewestUnregisteredDeletedIff | src/belt/commands/gc.py:101-114 | the newest directory, if not on record at the read, is deleted exactly when none is to be kept or it is too old |
| LateRegistration.RegisteredAfterRead | src/belt/commands/gc.py:91-112 | a run registered after the read whose directory is deleted |
| Retention.DoomedAsDocumentedIff | src/belt/commands/gc.py:101-112 | position by position, the code decides as documented if and only if the run is not displaced by live ones |
| Retention.PlanAsDocumentedIff | src/belt/commands/gc.py:12-22 | the plan deletes what the documented policy deletes if and only if no run is displaced |
| Retention.LiveRunTakesAPlace | src/belt/commands/gc.py:101-109 | the family of inputs that shows the difference |
| Trials.BaseIff | src/belt/constants.py:86-86 | the suffix is stripped from exactly the names of the form base, `__trial_`, digits, and leaves the base |
| Trials.SameKeyIff | src/belt/exporter/helpers.py:40-41 | for names without a slash, two scores share a key exactly when they have the same group and the same base name |
| Trials.GroupOutcomes | src/belt/aggregator/stats.py:697-712 | each key gets the outcomes of its scores in order, and the flag says whether some name has the suffix |
| Trials.CollapseTrials | src/belt/exporter/helpers.py:38-43 | the exporters' loop, an insertion-ordered dict |
| Trials.CollapsedGroups | src/belt/exporter/helpers.py:38-43 | its groups have distinct keys, the keys of the scores, and under each the scores with that key in order |
| Trials.GroupingsAgree | src/belt/aggregator/stats.py:701-712 | the two independent groupings have the same keys and the same outcomes per key |
| Trials.CollapsedPermutes | src/belt/exporter/helpers.py:38-43 | flattening the groups gives a permutation of the scores |
| Trials.CollapsedInOrder | src/belt/exporter/helpers.py:35-43 | and the groups come in the order in which their keys were first seen |
| Reliability.PassOrder | src/belt/aggregator/stats.py:690-693 | p^k falls and 1-(1-p)^k rises in k, with p between them and all in [0, 1] |
| Reliability.Jensen | src/belt/aggregator/stats.py:736-746 | for any rates and any k, the power of the mean is at most the mean of the powers, and dually for pass@k |
| Reliability.ComputeReliability | src/belt/aggregator/stats.py:685-748 | a report exists exactly when a name has the suffix; one row per key in sorted order with the numbers of trials and passes of that key; for some rate p with p times trials equal to passes, its seven numbers are the rounded p, 1-(1-p)^k and p^k; and those of the run come from the mean of these rates likewise |
| Reliability.UnroundedReport | src/belt/aggregator/stats.py:717-748 | without rounding: pass rate times trials is passes, at_k is 1-(1-rate)^k and pow_k is rate^k in every row; the mean pass rate times the rows is the sum of their pass rates, with the same formulas for the other means |
| Reliability.SmallPowers | src/belt/aggregator/stats.py:727-746 | the powers of the report, multiplied out: three and eight factors |
| Reliability.MeansOrdered | src/belt/aggregator/stats.py:740-746 | any monotone rounding keeps the means of the run in order: pow8 <= pow3 <= pow1 = pass rate = at1 <= at3 <= at8 |
| Reliability.HasTrialsIff | src/belt/aggregator/stats.py:699-712 | there is a report exactly when some scenario name has the suffix |
| Reliability.ReportConserves | src/belt/aggregator/stats.py:717-733 | the columns of trials and passes sum to the scores and to those that passed |
| Reliability.RowOrdered | src/belt/aggregator/stats.py:721-732 | any monotone rounding keeps pow8 <= pow3 <= pass rate <= at3 <= at8 in every row |
| Reliability.ReportedMeans | src/belt/aggregator/stats.py:735-746 | Jensen's inequalities for the rates of any non-empty run |
| TaskQuality.JudgeFailureSpec | src/belt/aggregator/stats.py:194-200 | a row exists exactly when some judge errored, and names the alphabetically first error type |
| TaskQuality.JudgeFailureTyped | src/belt/aggregator/stats.py:191-197 | with "other" for a judge without an error type |
| TaskQuality.RowsExact | src/belt/aggregator/stats.py:251-281 | there is a row for exactly the scenarios with a failed turn, with name, outcome and types, and for exactly those with a failed judge |
| TaskQuality.TurnInPlace | src/belt/aggregator/stats.py:256-265 | whatever turns surround it, a failed one adds its type in place, "unknown" when it has none, and any other nothing |
| TaskQuality.BlockedByTurn | src/belt/aggregator/stats.py:358-366 | a scenario is blocked on the agent's side exactly when a failed turn has one of the four environmental types, on the judge's exactly when a judge failed; and passes vacuously exactly when it passes with a failed turn |
| TaskQuality.CollectJudgeErrors | src/belt/aggregator/stats.py:159-213 | no summary exactly when no judge failed; rows in order, and a histogram that counts each type and sums to the rows |
| TaskQuality.CollectAgentErrors | src/belt/aggregator/stats.py:216-315 | no summary exactly when neither side failed, a minimal one when only judges did; histogram over erroring turns, vacuous passes, and the split of both sides' rows |
| TaskQuality.BuildTaskQualitySplit | src/belt/aggregator/stats.py:358-392 | the cells from the two sets of blocked names; none when nothing is blocked |
| TaskQuality.SplitMeaning | src/belt/aggregator/stats.py:318-392 | the split of a run is a partition of its scenarios, the floor never applies, and there is none exactly when nobody was blocked |
| TaskQuality.SplitPercent | src/belt/aggregator/stats.py:382-382 | the percentage lies in [0, 100] and is missing exactly when nothing ran |
| TaskQuality.PercentExact | src/belt/aggregator/stats.py:382-382 | it is the rounding of the number whose product with the scenarios that ran is a hundred times those that passed |
| Thresholds.FailsIff | src/belt/aggregator/thresholds.py:154-185 | a scenario fails a dimension exactly when some judge's verdict is in the fail set |
| Thresholds.VerdictByLevel | src/belt/scorer/payloads.py:511-534 | a judge's verdict is inconclusive exactly when some vote is, fails or is low exactly when some vote is and none is inconclusive, and is high or pass exactly when all votes are |
| Thresholds.JudgeOrderIrrelevant | src/belt/aggregator/thresholds.py:168-177 | permuting the judges changes nothing |
| Thresholds.FailingVotesCountIff | src/belt/aggregator/thresholds.py:154-180 | a failing turn fails its scenario in every run if and only if the fail set is closed downwards in rank |
| Thresholds.TwoTurnsHideTheSecond | src/belt/scorer/payloads.py:527-534 | for any other fail set, two turns whose failing one is hidden |
| Thresholds.DefaultClosed | src/belt/scorer/entities.py:93-103 | the default fail set is closed downwards, `{fail}` alone is not |
| Thresholds.CountLlmFailures | src/belt/aggregator/thresholds.py:154-185 | failed and judged scenarios per discovered dimension |
| Thresholds.LlmCounts | src/belt/aggregator/thresholds.py:163-185 | failed <= total, total positive, and a larger fail set fails no fewer over the same dimensions |
| Thresholds.CountRulesFailures | src/belt/aggregator/thresholds.py:132-152 | the nested loops compute the table and its counts |
| Thresholds.RulesCounts | src/belt/aggregator/thresholds.py:132-152 | the counts are those of the sets of scenario keys with a check and with a failed check, and failed <= total |
| Thresholds.NamedCheck | src/belt/aggregator/thresholds.py:140-140 | a check without a dimension counts as one on "unknown" |
| Thresholds.ThresholdEnforcer.GetRulesFailures | src/belt/aggregator/thresholds.py:118-123 | memoising changes no count, and what is memoised is a fresh count unless filled in from outside |
| Thresholds.ThresholdEnforcer.GetLlmFailures | src/belt/aggregator/thresholds.py:125-130 | memoising changes no count, and what is memoised is a fresh count unless filled in from outside |
| Thresholds.ThresholdEnforcer.Enforce | src/belt/aggregator/thresholds.py:187-204 | on counts not filled in from outside, the run passes exactly when of the scenario keys with a check on a budgeted dimension at most that percentage has a failed one, for "rules", and of the scenarios judged on it at most that percentage fails, for every other mode; where nothing was counted the budget must not be negative; otherwise one check per mode and dimension over the counts in force |
| Thresholds.EnforceThresholds | src/belt/aggregator/thresholds.py:220-228 | for counts given from outside, the run passes exactly when 100 * failed <= budget * total in the first of them for every budget of "rules", and in the second for every other mode |
| Thresholds.EnforcedOnRun | src/belt/aggregator/thresholds.py:187-204 | the checks of a run all pass exactly when it keeps every budget, counted in scenarios, in whatever order the budgets come |
| Thresholds.ChecksReport | src/belt/aggregator/thresholds.py:192-198 | there is a check for every budget and no other; it names mode and dimension, gives the budget and the percentage p with p * total = 100 * failed, and passes exactly when p is no larger |
| Ordering.LeExact | src/belt/aggregator/thresholds.py:192-194 | modes and dimensions, like rows and lines elsewhere, are sorted lexicographically: the first difference decides, and a prefix comes first |
| Thresholds.RaisingBudgetsKeepsPasses | src/belt/aggregator/thresholds.py:192-200 | raising budgets never turns a pass into a fail |
| Thresholds.ActualFollowsFailures | src/belt/aggregator/thresholds.py:196-196 | the percentage is monotone in failures, lies in [0, 100], and is 0 only without failures |
| Thresholds.LargerFailSetFailsMore | src/belt/aggregator/thresholds.py:154-204 | a run within budget for a fail set is within budget for every smaller one |
| Compare.NestedFoldsAreOne | src/belt/commands/compare.py:81-130 | the folds over turns and over payloads equal one fold over all tokens |
| ComparisonMeaning.ScoreShown | src/belt/commands/compare.py:81-130 | the score of a dimension is "inconclusive" if some judge gave that on some turn; else the first "fail" or "low"; else the first token that is neither "high" nor "pass"; else the first token; and none exactly when there is no token |
| ComparisonMeaning.TokensExact | src/belt/commands/compare.py:71-104 | a token competes exactly when a payload recognised by version or shape gives it: not empty and on some turn if it lists turns, else on the whole |
| Compare.CompareRuns | src/belt/commands/compare.py:146-215 | the loops compute the comparison; labels and totals are those of either run |
| ComparisonMeaning.PlainComparison | src/belt/commands/compare.py:148-192 | without normalisation there is one line per scenario key of either run, in order; it shows outcome and scores of the last scenario with the key on either side, or nothing when there is none, and the differences |
| ComparisonMeaning.NamedComparison | src/belt/commands/compare.py:157-192 | with normalisation, one line per name, showing the last entry of either run whose key ends in it |
| ComparisonMeaning.NormalizedIff | src/belt/commands/compare.py:151-161 | names are compared exactly when no two scenarios of the runs share a key and some two share a name |
| ComparisonMeaning.ComparedDims | src/belt/commands/compare.py:165-167 | the dimensions compared are those on which either run has a token on a turn or a score on the whole, even a null one |
| ComparisonMeaning.DeltaExact | src/belt/commands/compare.py:178-180 | a difference exists exactly between two of low, medium and high; low to high is 2, low to medium and medium to high are 1, equal ones 0, and the other way round negative |
| Compare.Antisymmetric | src/belt/commands/compare.py:146-215 | swapping the runs swaps every a/b field, negates every difference and keeps keys, dimensions and normalisation |
| Compare.SaysOfScenarios | src/belt/commands/compare.py:148-181 | without normalisation a difference is reported of two scenarios with one key exactly when both scores are on the scale, and is their distance; the last of a key counts |
| Compare.SaysOfNames | src/belt/commands/compare.py:152-181 | with normalisation, the same of two scenarios with one name; the last full key of a name counts |
| Compare.DeltasAdd | src/belt/commands/compare.py:172-180 | differences add along any three runs compared by full keys |
| Sanitize.CsiLengthExact | src/belt/_sanitize.py:40-40 | the scanner finds a control sequence at the front exactly when there is one, and its only length |
| Sanitize.OscLengthLongest | src/belt/_sanitize.py:46-46 | the match found is one of the pattern's and the longest |
| Sanitize.AfterLastEraseSpec | src/belt/_sanitize.py:73-75 | what is kept is the suffix behind the last erase sequence, free of it |
| Sanitize.CleanRemovesControls | src/belt/_sanitize.py:93-101 | for every text the result is a control-free subsequence of it |
| Sanitize.CleanKeepsTheRest | src/belt/_sanitize.py:82-101 | of a text without escape characters, every character that is no control stays as often as it was |
| Sanitize.CleanIdempotent | src/belt/_sanitize.py:93-101 | sanitising again, in either mode, changes nothing |
| EscapedText.StripAnsiShowsVisible | src/belt/_sanitize.py:62-79 | text assembled from plain pieces, control sequences and both kinds of OSC is reduced to its plain pieces if and only if it is `Intact` |
| EscapedText.BelTerminatedTextSurvives | src/belt/_sanitize.py:62-79 | with BEL-terminated OSC only, that is always so |
| EscapedText.TerminatorSwallowsText | src/belt/_sanitize.py:42-46 | any text between two OSC closed by ESC `\` is lost |
| EscapedText.StripAnsiShowsLastLine | src/belt/_sanitize.py:73-79 | with the erase pre-pass, what is shown is the visible text behind the last erase sequence without carriage returns, under the same condition |
| Truncate.RoundTrip | src/belt/exporter/helpers.py:89-92 | decoding an encoding gives the text back, lone surrogates as question marks |
| Truncate.TruncateSpec | src/belt/exporter/helpers.py:78-93 | unchanged within budget; over budget the longest fitting prefix, at most one U+FFFD, at most two bytes over, and the marker |
| Markdown.EscapeForMarkdown | src/belt/_safe.py:81-101 | the loop computes `MdSafe` |
| Markdown.MdSafeRoundTrip | src/belt/_safe.py:81-101 | undoing backslash escapes gives the value without controls and with whitespace collapsed, and every Markdown character is escaped |
| Markdown.WordsExact | src/belt/_safe.py:101-101 | the words are the runs of characters that are no space: one run is one word, and a space ends one |
| Markdown.MarksExact | src/belt/_safe.py:67-67 | the eighteen characters that are escaped |
| Markdown.MdInlineIsSpanIff | src/belt/_safe.py:104-127 | the result is one code span if and only if something of the value is printable; bars are escaped and no control is left |
| Markdown.MdInlineReads | src/belt/_safe.py:123-127 | between the backticks stands what reads, with bars unescaped, as the value without controls and with quotes for backticks; no value gives the stand-in |
| Markdown.MdInlineOfControls | src/belt/_safe.py:123-127 | of a value made of controls only, two bare backticks are left |
| Redact.ScrubArgv | src/belt/_redact.py:208-248 | the loop scrubs each position according to its slot, length preserved |
| Redact.OnlyValuesChange | src/belt/_redact.py:208-248 | for any flags, an argument comes out unchanged, or with the mark for the value of a pair in it whose name is secret |
| Redact.KvExact | src/belt/_redact.py:126-141 | a pair keeps name and equals sign and loses its value to the mark exactly when the name, up to the first equals sign, is secret; what is no pair stays |
| Redact.ScrubIdempotent | src/belt/_redact.py:180-248 | a second pass changes nothing |
| Redact.ScrubRevealsExactly | src/belt/_redact.py:180-248 | two vectors scrub to the same if and only if they differ only in the values of secret-keyed pairs |
| Redact.FlagWithEqualsNotIdempotent | src/belt/_redact.py:219-234 | with a flag that contains an equals sign a second pass can change the result |
| ArgumentReading.DeliveredInside | src/belt/_redact.py:225-245 | a payload that argparse delivers from inside a token is scrubbed in place in the recognised shapes, and the token goes through in the others |
| ArgumentReading.DeliveredNext | src/belt/_redact.py:213-223 | one delivered from the next token is scrubbed exactly when the flag stands alone |
| ArgumentReading.RedactedIff | src/belt/_redact.py:188-248 | a secret payload that argparse delivers in any shape is redacted if and only if no letter stands before `X` and no equals sign right behind it |
| ArgumentReading.ClusterGoesThrough | src/belt/_redact.py:225-234 | with a letter before `X`, a payload in the same token goes through |
| ArgumentReading.ClusterBeforePayload | src/belt/_redact.py:219-223 | with a letter before `X`, a payload in the next token goes through |
| Redact.ShortFormWithEquals | src/belt/_redact.py:228-229 | `-X=key=value` goes through as it is |
| BoundedStream.IterBoundedStream | src/belt/agent/base.py:151-171 | yields `Received`, and leaves the stream empty unless a read fails |
| BoundedStream.ReceivedSpec | src/belt/agent/base.py:153-171 | the longest prefix of clamped lines within the cap, with exactly one marker if and only if a line was dropped |
| BoundedStream.ReceivedLines | src/belt/agent/base.py:152-163 | each piece but the final marker is the line itself when it is short, and else its head and the marker |
| BoundedStream.LinesExact | src/belt/agent/base.py:153-153 | the lines of a text are what it is the concatenation of, each with a newline at its end, except the last, and nowhere else |
| BoundedStream.DigitsRead | src/belt/agent/base.py:163-163 | the marker gives the cap in decimal |
| BoundedStream.ReceivedBounded | src/belt/agent/base.py:154-160 | every piece and the whole are bounded by cap plus marker |
| BoundedStream.WithinCapsUnchanged | src/belt/agent/base.py:151-171 | output within the caps comes through unchanged |
| Flags.CheckDeniedFlags | src/belt/agent/base.py:305-328 | keeps exactly the input positions that are not denied by name, denied in equals form, or part of a denied adjacent pair |
| Flags.KeptSubsequence | src/belt/agent/base.py:304-328 | the result is a subsequence of the input |
| Flags.KeptClean | src/belt/agent/base.py:308-318 | no flag in the result has a denied name or is a denied equals form |
| Flags.PairInResultIff | src/belt/agent/base.py:277-328 | a denied pair stands in the result if and only if a kept bare flag and the next kept token of the input are one, and then a dropped token stood between them |
| Flags.RefilterIff | src/belt/agent/base.py:304-328 | filtering the result again changes nothing if and only if it holds no denied pair |
| Flags.DeniedNameBetween | src/belt/agent/base.py:308-328 | the family of inputs for which one does |
| Flags.NextTokenOnItsOwn | src/belt/agent/base.py:308-311 | the token after a flag denied by name is dropped exactly when it is denied itself |
| Flags.AsDocumentedIff | src/belt/agent/base.py:275-276 | for any reading of which tokens are values, the filter covers every two-token form if and only if each value of a blocked bare flag is denied itself |
| Flags.SwitchesAsDocumented | src/belt/agent/base.py:275-276 | it does for every list when the flags denied by name take no value |
| Flags.BlockedValueGoesThrough | src/belt/agent/base.py:308-311 | the family of inputs that shows the difference |
| Codex.SessionIsFirst | src/belt/agent/codex.py:379-419 | the session is the id of the first fetch since the last reset that carried one, which is the last id announced in that output; missing exactly when no fetch did |
| Codex.ThreadIsLast | src/belt/agent/codex.py:382-385 | the thread of an output is the last non-empty one announced in it |
| Codex.SessionStays | src/belt/agent/codex.py:418-419 | once known it does not change before the next reset |
| Codex.CodexAgentAdapter.SetUp | src/belt/agent/codex.py:228-234 | a new scenario starts without session and without last message |
| Codex.CodexAgentAdapter.BuildCommand | src/belt/agent/codex.py:248-287 | the resume form exactly when the history has a session; ends with the filtered flags, `--` and the message; the sandbox default only in the first form and only without a sandbox flag |
| Codex.CodexAgentAdapter.Execute | src/belt/agent/codex.py:236-246 | one turn keeps the session and replaces the last message |
| Codex.EventInPlace | src/belt/agent/codex.py:387-408 | whatever surrounds it, a non-empty message adds its text, a command one call of the shell, and any other event nothing |
| Codex.FailureIsLast | src/belt/agent/codex.py:415-420 | the failure is the last one reported |
| Codex.TrimExact | src/belt/agent/codex.py:428-428 | the reply file loses the newlines at its end and nothing else |
| Codex.CodexAgentAdapter.FetchResults | src/belt/agent/codex.py:368-466 | a sound output for well-typed events in any order, and the session advances as the history says |
| Copilot.RecordedExact | src/belt/agent/copilot.py:319-327 | calls recorded are those of the first named request for each id over all event sources, and of every named one without an id |
| Copilot.RecordedDistinct | src/belt/agent/copilot.py:319-327 | non-empty ids are pairwise distinct and names non-empty |
| Copilot.RecordedNext | src/belt/agent/copilot.py:319-327 | one more request is recorded behind the others, unless it has no name or an id that was recorded |
| Copilot.EventInPlace | src/belt/agent/copilot.py:336-415 | whatever surrounds it, an event adds in place what it asks for: by its list of requests, by its single request, or by its blocks in the legacy shape; and the text it says |
| Copilot.BlockInPlace | src/belt/agent/copilot.py:390-399 | and a block its request or its text |
| Copilot.SessionIsLast | src/belt/agent/copilot.py:361-361 | the session is the last non-empty one of a result event |
| Copilot.FailureIsLast | src/belt/agent/copilot.py:362-378 | the last result event with an exit code or a failure named decides: failed if one is named or the code is not zero |
| Copilot.LabelIsLast | src/belt/agent/copilot.py:374-376 | the label is that of the last result event with an error |
| Copilot.CopilotAgentAdapter.FetchResults | src/belt/agent/copilot.py:287-457 | a sound output with those calls for well-typed events in any order, and error flag and label by the stated precedence |
| ClaudeCode.ResultsLand | src/belt/agent/claude_code.py:280-350 | every call ends up with the last result the stream has for its id before the id is recorded again |
| ClaudeCode.EventInPlace | src/belt/agent/claude_code.py:289-350 | whatever surrounds it, an event adds in place the calls and texts of its blocks, its one call, or the results it carries, in order |
| ClaudeCode.BlockInPlace | src/belt/agent/claude_code.py:297-312 | and a block its call or its text |
| ClaudeCode.VerdictIsLast | src/belt/agent/claude_code.py:352-354 | session and error flag are those of the last result event |
| ClaudeCode.LabelIsLast | src/belt/agent/claude_code.py:357-358 | the label is that of the last result event with an error |
| ClaudeCode.AttachResult | src/belt/agent/claude_code.py:346-350 | in place, exactly the latest call with the id changes |
| ClaudeCode.RunActions | src/belt/agent/claude_code.py:280-350 | the objects end up as the actions say, and the sequence is their names |
| ClaudeCode.ClaudeCodeAgentAdapter.FetchResults | src/belt/agent/claude_code.py:265-404 | a sound output for well-typed events in any order, with each result on the latest earlier call, and the session carried over when none is given |
| Cursor.ResultsLand | src/belt/agent/cursor.py:441-458 | the first call of an id ends up with the last result for it, later ones with none |
| Cursor.EventInPlace | src/belt/agent/cursor.py:266-299 | whatever surrounds it, an event adds in place the calls of its blocks, its one call, or its one result; and its texts, unless a result event follows |
| Cursor.BlockInPlace | src/belt/agent/cursor.py:274-284 | and a block its call or its text |
| Cursor.ResultText | src/belt/agent/cursor.py:305-307 | a result's own text counts only when nothing was said before it |
| Cursor.OutcomeIsLast | src/belt/agent/cursor.py:301-303 | chat and error flag are those of the last result event |
| Cursor.AttachFirst | src/belt/agent/cursor.py:449-455 | in place, exactly the first call with the id changes |
| Cursor.CursorAgentAdapter.FetchResults | src/belt/agent/cursor.py:242-339 | a sound output for well-typed events in any order, with each result on the first call, and a result's own text used only without other parts |
| ErrorTypes.ScanDecides | src/belt/agent/error_types.py:125-144 | the token is that of the first category with a pattern in the text, none if no pattern is |
| ErrorTypes.ClassifiedIff | src/belt/agent/error_types.py:123-144 | a text is classified by the first category with a pattern in the text in lower case; a missing or empty one is not |
| ErrorTypes.NormalizedToken | src/belt/agent/error_types.py:147-178 | only taxonomy tokens come out, a token goes through unchanged, and `unknown` only if it was given |
| ErrorTypes.NormalizedFirst | src/belt/agent/error_types.py:172-178 | a label outside the taxonomy is read like the texts after it, and the first that is classified decides |
| TurnOutput.ErrorInIff | src/belt/agent/claude_code.py:381-381 | without an error flag, a turn failed when "error" occurs in the output in lower case |
| TurnOutput.NonBlankPartsExact | src/belt/agent/copilot.py:420-420 | a reply is made of all parts that are not blank, in order and as often as they came |
| Prelude.JoinAppend | src/belt/agent/copilot.py:420-420 | one more part comes behind a separator, except the first |
| Ndjson.MaxDepthExact | src/belt/parser/ndjson.py:41-53 | the computed depth is the true depth cut off at 65 |
| Ndjson.ChildrenExact | src/belt/parser/ndjson.py:45-52 | what nests are the values of objects and the elements of lists |
| Ndjson.LoadedIff | src/belt/parser/ndjson.py:33-38 | under a limit up to 64, too large, too deep and loaded are decided exactly by size, decoder and true depth |
| Ndjson.DepthEnforcedIff | src/belt/parser/ndjson.py:24-38 | for every decoder, the caller's limit is enforced on every document if and only if it is at most 64 or the decoder yields nothing deeper |
| Ndjson.NeverTooDeep | src/belt/parser/ndjson.py:36-53 | under a limit above 64 no text is rejected for its depth, whatever the decoder |
| Ndjson.LargeLimitMissed | src/belt/parser/ndjson.py:36-53 | so every admissible text whose value is nested deeper is loaded |
| Ndjson.EventIff | src/belt/parser/ndjson.py:69-83 | a line is an event exactly when it has at most 1048576 characters and decodes to an object without a path down through 65 containers; the event is that object |
| Ndjson.ParseNdjson | src/belt/parser/ndjson.py:56-85 | raises exactly when the decoder fails otherwise than by syntax; else the accepted lines in order, every non-blank line an event or counted as skipped, and every event an object nested at most 64 deep |
| Filter.MatchesGroup | src/belt/filter.py:62-82 | the early-return loop computes a function of the set of filters, so their order does not matter |
| Filter.ChoosesIff | src/belt/filter.py:75-81 | in its own directory a filter chooses the scenario it names, or all when it has no name; in every directory above or below it, all |
| Filter.SelectedIff | src/belt/filter.py:62-82 | a scenario is selected exactly when a filter selects its whole group or names it, or when the filters that reach the group give only empty names |
| Filter.MoreFiltersSelectMore | src/belt/filter.py:62-82 | without empty names, one more filter never deselects a scenario |

## Left out

- Time and the operating system are parameters: a probe is what `os.kill` and psutil answer, and is assumed to tell the truth about live processes (`ManifestProtocol.Truthful`).
- A manifest write is one atomic replacement; a lock that times out is a step that does nothing. File permissions, directories and torn writes are not modelled.
- A decoded JSON object is a map: key order and NaN are not modelled.
- Redact.ScrubIdempotent: for flags without an equals sign, as the default ones are; `FlagWithEqualsNotIdempotent` shows that it fails with one.
- Redact.ScrubRevealsExactly: for flags without an equals sign, as the default ones are; with one, scrubbing can change what a position is.
- ArgumentReading.RedactedIff: for the two agent-argument options and a parser that takes no abbreviations, as the commands' parsers do not; other options appear as the letters that take no argument, and of tokens that follow one, only what the claim needs is assumed (`CanBePayload`).
- The secret-name pattern and `str.lower` are uninterpreted functions.
- Trials.BaseIff: digits are ASCII and the suffix ends the name, where Python's `\d` also takes other digits and `$` also matches before a final newline; scenario names admit neither.
- Reliability.ComputeReliability: in exact reals with an arbitrary rounding function; floating-point rounding is not modelled.
- Texts outside `Truncate.dfy` are sequences of Dafny characters, without lone surrogates.
- Codex.CodexAgentAdapter.FetchResults: from well-typed events; an event with a value of the wrong type, on which the code may raise, is not modelled, nor are usage, timing and turn counts, which the code passes through.
- Copilot.CopilotAgentAdapter.FetchResults: from well-typed events; an event with a value of the wrong type, on which the code may raise, is not modelled, nor are cost, timing, thinking text and turn counts, which the code passes through.
- ClaudeCode.ClaudeCodeAgentAdapter.FetchResults: from well-typed events; an event with a value of the wrong type, on which the code may raise, is not modelled, nor are cost, timing, thinking text and turn counts, which the code passes through.
- Cursor.CursorAgentAdapter.FetchResults: from well-typed events; an event with a value of the wrong type, on which the code may raise, is not modelled, nor are timing and thinking text, which the code passes through.
- BoundedStream.IterBoundedStream: the generator is run to its end.
- TaskQuality.CollectJudgeErrors: the order in which the histogram is listed is not modelled.
- TaskQuality.CollectAgentErrors: the order in which the histogram is listed, first reply lines and the remediation hint are not modelled.
- `build_stats`, `compute_partial_score`, `scrub_dict`, `scrub_url`, `csv_safe`, `xml_safe`, `build_subprocess_env`, `_parse_path_filter`, tag filters and option readers: single-pass counting, look-ups and string tests, whose results can be read off their bodies.
- Scorers, runner, command-line drivers, rendering, progress display, registries and schema validation.
