# Signal evaluator: a verified model

A signal carries one or more trading scenarios: a direction, an entry rule, ordered take-profit levels, a stop and
an expiry. The signal evaluator polls prices every ten seconds, every sixth time for waiting scenarios too, and
decides who enters and how each position ends. What it remembers between polls lives in Redis and may vanish; what
it decided lives in the database, written as one batch per poll that may fail as a whole. A restart rebuilds Redis
from the database. This project models that machine and the code around it, and proves what holds over whole runs.

Prices are exact reals, instants are integer seconds (real seconds in the tick buffer), and `round(x, 4)` is Python's
half-to-even rounding on exact reals.

## Layout

- `Domain`, `Rounding`, `Prelude`: rows, keys, candles; rounding; options and keyed lists.
- `Evaluation`: what one evaluation of one scenario decides, as functions on values.
- `Machine`: the whole evaluator as a state machine. A `World` is the cycle counter, the signals and one `Slice` per
  scenario (its rows in all four tables and its Redis keys). The steps are: insert a signal with all its scenarios, an
  evaluation cycle (clock, row order, candles, and whether the batch commits), a cycle whose SELECT fails, loss of any
  Redis keys at any time, and a restart with or without a successful recovery read. A run is any legal sequence of steps
  from the empty state.
- `Tables`, `Evaluator`: the code itself, statement by statement, as a class over Redis maps and tables that it updates
  in place. Its `EvaluateCycle` is proved to take the state to exactly `Machine.Cycle` of the old state, and its
  `RecoverRedisState` to take every scenario to `Machine.Recover`.
- `Audit`, `Exclusion`, `Outcomes`, `Ledger`, `History`, `Rivalry`, `Rules`, `Records`, `Durability`, `Cadence`,
  `CrashTransparency`, `Targets`, `Levels`, `Percentages`, `Payouts`, `Mirror`: the theorems about runs of the machine.
- `Witnesses`: complete runs from the empty state in which a tempting claim fails.
- `Normaliser`, `TickBuffer`, `Performance`, `RateLimit`, `Backfill`: the code that feeds the evaluator, reads its rows
  or runs beside it, with its own theorems and the ones that join it to the evaluator.

## How the theorems fit together

Every run theorem quantifies over all legal runs. `Audit.Sound` is the invariant of one scenario and
`Exclusion.Consistent` that of a whole state; both survive arbitrary key loss and failed commits. `History.LocalStep`
is a cycle as one scenario sees it, with the rest of the world reduced to one bit: another scenario of the signal gets
in. `History.Localized` shows nothing else leaks in, and the remaining theorems are proved scenario by scenario.
`Rivalry.TakenMeansRivalEntry` then removes the bit: it is set exactly where a sibling's own history reads as an entry.

The history theorem compares the machine with a direct reading that has no memory at all: `EntryRule`, `Decides`,
`ExitsAt` and so on are quantified statements over the whole sequence of inputs. For a consolidation entry `EntryRule`
reads: some earlier poll started a stretch, unbroken up to now, of closes inside the zone that is at least one timeframe
long.

`Rules` then spells every rule out in candle fields: `Rules.EntriesInPrices` says per entry type which of high, low and
close has to come to the entry point, and `Rules.StoryInPrices` tells the whole course in such terms. `Levels` reads the
same off the stored row: an open long has stayed above its stop and below its targets, and a row's extremes say how its
position ended. `Ledger` does it for the audit log.

## Facts worth knowing

Where code and comments disagree the model follows the code.

- A candle that touches both a target and the stop is a success (`services/processors/signal_evaluator/main.py:603-606`),
  although the file's header announces the stop first (line 25). Any target touch closes the scenario in the same
  evaluation, so `eval:besttp` never survives a cycle; `Audit.CourseFacts` is where this is proved.
- The SETNX named in the header (line 30) does not exist. Exclusivity comes from the rows and sets of the cycle alone,
  and `Exclusion.SiblingExclusion` shows they suffice.
- `scenarios.status` and `scenario_results.result` can disagree. The sibling cancellation always writes `cancelled` into
  the result column, but leaves the status alone if the scenario's own evaluation has closed it in the same cycle. That
  happens to a waiting scenario that is overdue (`Witnesses.ExpiredButCancelled`), and to one whose entry batch failed
  earlier, which left it the Redis entered flag, if it touches a level (`Witnesses.SucceededButCancelled`: status
  `success`, result `cancelled`, no percentage). `Outcomes.ResultColumn` proves that these are the only ways: over all
  runs the columns disagree exactly if some committed cycle was such a collision. The result column itself says
  `cancelled` exactly when a cancelled event was logged, and the status otherwise (`Outcomes.AuditReplay`).
- A failed batch on the entry cycle leaves the Redis entered flag set and the database inactive. Such a scenario can
  end as a success or failure without an entered event, and `Records.SwallowedEntry` says exactly when: some committed
  cycle finds it not active, with the flag, and touching a level. The audit, exclusion, result-column and read-model
  theorems, the exit signs of `Payouts.ExitSigns` and the bound of `Percentages.RunRanged` include such runs; the
  history and rivalry theorems and `Payouts.ClosedPays` include every failed batch but this one.
- A failed batch on the closing cycle leaves the database active although the Redis keys have been cleaned (lines
  673-676 come before the write of lines 1056-1064). The next candle that touches no level then stores a price point at
  once and may let drawdown shrink (`Witnesses.LostClosing`: two points ten seconds apart for a one-hour timeframe, and
  drawdown from -20 to -1, with no key lost and no restart). `Cadence.PointSpacing` and `Percentages.FiguresWiden` show
  that no other failed batch of an entered scenario does that. Status, entry, exit and percentage do not notice it
  (`CrashTransparency.FailuresAreTransparent`).
- Recovery rebuilds `eval:min` and `eval:max` from the sparse price points, so drawdown and max favorable may shrink
  after a restart (`Witnesses.DrawdownShrinks`: from -20 to -1). Before rounding, the percentages are again those of the
  stored extremes exactly when the price points and the next candle reach these (`Percentages.FiguresAfterRestart`;
  `Percentages.FiguresReturn` for any key loss and any failed batches); then the stored, rounded ones are too, but
  rounding can hide a shortfall (`Witnesses.RoundingHidesShortfall`). The stored highest and lowest price never shrink.
- A market or consolidation entry is booked at the close, which can lie beyond a target: then the scenario succeeds at
  once with a loss (`Witnesses.SuccessCosts`). `Payouts.ClosedPays` gives the rule for every entry type: a closed
  scenario has gained exactly when its exit lies on the paying side of its booked entry.
- The tick buffer keeps one timestamp per price, so the open of a candle can differ from that of the tick log. High, low
  and close cannot. `TickBuffer.OpenOfBuffer` says exactly when the open is right, and `TickBuffer.OpenCanDiffer` gives
  inputs for which it is wrong. Nothing in the evaluator reads the open.
- A candle that gaps over a level books the exit at the level, outside the observed range, and then drawdown <= pnl <= max
  favorable fails (`Witnesses.GapBreaksBound`). For running and expired rows it always holds (`Percentages.RunRanged`);
  for a success or failure the exact percentages satisfy it exactly when the exit price lies between the stored
  extremes (`Percentages.ExitBound`).

## Model

| member | source | states |
|---|---|---|
| Rounding.Round4IsNearest | services/processors/signal_evaluator/main.py:90-93 | Rounding to four decimals yields the one multiple of 0.0001 that is nearest, ties going to the even one. |
| Rounding.Round4Monotone | services/processors/signal_evaluator/main.py:90-93 | Rounding keeps order and fixes zero, so a sign can be blunted but never flipped. |
| Evaluation.BestReached | services/processors/signal_evaluator/main.py:297-309 | The index is that of a reached target, and no target after it is reached. |
| Evaluation.SkipIndifferent | services/processors/signal_evaluator/main.py:545-555 | If a scenario would not enter anyway, barring it from entering changes nothing in what is reported. |
| Machine.WinnerIsCandidate | services/processors/signal_evaluator/main.py:992-1027 | A signal's winner of the cycle is a selected scenario of that signal that would enter on its own. |
| Machine.CandidateHasWinner | services/processors/signal_evaluator/main.py:992-1027 | If some scenario of a signal would enter on its own, some scenario of the signal does enter. |
| Machine.LowestPrice | services/processors/signal_evaluator/main.py:190-191 | Recovery's minimum is attained by a stored price point and exceeds none. |
| Machine.HighestPrice | services/processors/signal_evaluator/main.py:190-192 | Recovery's maximum is attained by a stored price point and is exceeded by none. |
| Machine.LatestAt | services/processors/signal_evaluator/main.py:153-203 | Recovery's timer base is the time of a stored point and no point is later. |
| Tables.ExecuteUpserts | services/processors/signal_evaluator/main.py:771-802 | Executing the upsert for a list of rows leaves, per scenario, the fold of its own rows over its stored one. |
| Tables.ExecutePoints | services/processors/signal_evaluator/main.py:806-810 | Inserting price points keeps, per scenario, the stored ones and appends the new ones whose time is not taken. |
| Tables.ExecuteActivations | services/processors/signal_evaluator/main.py:836-842 | Exactly the listed scenarios that are running become active. |
| Tables.ExecuteTerminals | services/processors/signal_evaluator/main.py:855-868 | Per scenario the first terminal status wins, over a running scenario only, and clears active. |
| Tables.ExecuteSignalActivations | services/processors/signal_evaluator/main.py:845-852 | Each signal points at the last scenario listed for it, if any. |
| Tables.ExecuteSignalTerminals | services/processors/signal_evaluator/main.py:871-877 | A signal is cleared exactly when the scenario it points at is listed for it. |
| Tables.ExecuteCancels | services/processors/signal_evaluator/main.py:880-885 | Exactly the listed scenarios that are running and not active become cancelled. |
| Tables.SplitMarks | services/processors/signal_evaluator/main.py:836-858 | The status changes fall apart, per scenario, into activations and terminal statuses in their order. |
| Tables.CancelParameters | services/processors/signal_evaluator/main.py:887-916 | Every cancelled sibling gets exactly one cancelled row and one cancelled event, nobody else any. |
| Tables.Collect | services/processors/signal_evaluator/main.py:1011-1018 | A row's writes are appended to the batch under its own scenario and change nobody else's. |
| Evaluator.SignalEvaluator.TrackExtremes | services/processors/signal_evaluator/main.py:264-275 | Widens the scenario's two extreme keys to the candle, returns them, and touches no other scenario's keys. |
| Evaluator.SignalEvaluator.FindBestTp | services/processors/signal_evaluator/main.py:277-317 | The loop over the targets returns the best reached one against the stored index and stores it when it is new. |
| Evaluator.SignalEvaluator.ShouldRecordPrice | services/processors/signal_evaluator/main.py:339-372 | True on entry, when the timer key is missing, or a timeframe after it; the key is set to now exactly then. |
| Evaluator.SignalEvaluator.Cleanup | services/processors/signal_evaluator/main.py:374-386 | All ten keys of the scenario are gone, and no other scenario's. |
| Evaluator.SignalEvaluator.NoteDataGap | services/processors/signal_evaluator/main.py:390-400 | Opens a gap at now exactly if none is open, and says so. |
| Evaluator.SignalEvaluator.CloseDataGap | services/processors/signal_evaluator/main.py:402-411 | Returns when the open gap began, if any, and closes it. |
| Evaluator.SignalEvaluator.CheckConsolidation | services/processors/signal_evaluator/main.py:415-440 | The zone clock starts at the first close inside, is cleared by one outside, and says when a timeframe has passed. |
| Evaluator.SignalEvaluator.Confirm | services/processors/signal_evaluator/main.py:442-497 | Entry is confirmed exactly when the entry rules say so, spelled out per entry type in high, low and close, at the price the type books, and the keys follow. |
| Evaluator.SignalEvaluator.CheckTerminal | services/processors/signal_evaluator/main.py:592-624 | The checks in the order of the code give the verdict of `Evaluation.Settle`; without a target hit an entered scenario fails at its stop exactly if a long's low, or a short's high, has come to it. |
| Evaluator.SignalEvaluator.Enter | services/processors/signal_evaluator/main.py:532-567 | The entered flag is restored from the row, entry is tried unless barred, and the effective entry price is found. |
| Evaluator.SignalEvaluator.Decide | services/processors/signal_evaluator/main.py:528-624 | Entry, extremes, targets and verdict, worked out on Redis in place, are those of `Evaluation.CourseOf`. |
| Evaluator.SignalEvaluator.CollectTpHits | services/processors/signal_evaluator/main.py:706-717 | One tp_hit event per newly reached level, numbered and priced by position. |
| Evaluator.SignalEvaluator.CollectEvents | services/processors/signal_evaluator/main.py:684-734 | The events of one evaluation: gap end, entry, targets, stop and completion, in this order. |
| Evaluator.SignalEvaluator.Record | services/processors/signal_evaluator/main.py:647-767 | Price point, first-seen key, cleanup, marks and events of a decided course are those of `Evaluation.Conclude`. |
| Evaluator.SignalEvaluator.Eval | services/processors/signal_evaluator/main.py:501-767 | One evaluation reports, and leaves in Redis, what `Evaluation.Evaluate` says of the scenario's rows and keys; without a price, nothing. |
| Evaluator.SignalEvaluator.BatchWrite | services/processors/signal_evaluator/main.py:817-921 | All tables after the batch, per scenario and per signal, as functions of the lists; nothing else changes. |
| Evaluator.SignalEvaluator.CancelSiblings | services/processors/signal_evaluator/main.py:1044-1054 | Lists exactly the running, not entered siblings of those that entered, and clears exactly their keys. |
| Evaluator.RowWins | services/processors/signal_evaluator/main.py:989-1027 | In the loop a row enters exactly when it is its signal's winner, although the loop only sees the rows before it. |
| Evaluator.SkipsCompared | services/processors/signal_evaluator/main.py:991-992 | The loop's skip flag agrees with the specification's except on rows that are cancelled later in the cycle anyway. |
| Evaluator.SiblingTest | services/processors/signal_evaluator/main.py:1046-1052 | The test of the cancellation loop picks exactly the scenarios the specification cancels. |
| Evaluator.SliceWritten | services/processors/signal_evaluator/main.py:1056-1064 | The batch the loop collected writes, per scenario, what the specification says. |
| Evaluator.SignalWritten | services/processors/signal_evaluator/main.py:844-877 | The two signal updates leave each signal as the specification says. |
| Evaluator.EmptyBatch | services/processors/signal_evaluator/main.py:1056 | Skipping the write when all lists are empty loses nothing. |
| Evaluator.SignalEvaluator.EvaluateRows | services/processors/signal_evaluator/main.py:974-1042 | The loop over the rows leaves in the lists, the sets and Redis what the observations of all rows ask for. |
| Evaluator.SignalEvaluator.Commit | services/processors/signal_evaluator/main.py:1056-1064 | A committed batch takes every scenario and signal to its specified state; a failed one leaves the tables alone. |
| Evaluator.SignalEvaluator.EvaluateCycle | services/processors/signal_evaluator/main.py:925-1064 | The whole state after a cycle is `Machine.Cycle` of the state before it, committed or not; a failed SELECT only counts the cycle. |
| Evaluator.SignalEvaluator.RecoverRedisState | services/processors/signal_evaluator/main.py:126-224 | Every scenario's state afterwards is `Machine.Recover` of the one before; a failed read changes nothing. |
| Audit.EventsCarryCourse | services/processors/signal_evaluator/main.py:684-734 | The events of one evaluation replay to exactly the transition it decided on, one lifecycle event each. |
| Audit.CourseFacts | services/processors/signal_evaluator/main.py:577-624 | With no target remembered, a target touch closes at once as a success at that target, and nothing else is a success. |
| Audit.ObservationLawful | services/processors/signal_evaluator/main.py:501-767 | What an evaluation asks of the batch is consistent: mark, row, events and target index all tell the same transition. |
| Audit.StepSound | services/processors/signal_evaluator/main.py:925-1064 | Every cycle, committed or not, cancelled or not, keeps the invariant that ties status, active flag, row and events. |
| Audit.RecoverSound | services/processors/signal_evaluator/main.py:126-224 | Recovery keeps that invariant. |
| Exclusion.NewlyWins | services/processors/signal_evaluator/main.py:974-1027 | A scenario enters exactly when it is its signal's winner; an active one is never cancelled for a sibling. |
| Exclusion.CycleEffect | services/processors/signal_evaluator/main.py:835-885 | What a committed cycle does to one scenario's entered count, active flag and status. |
| Exclusion.NextConsistent | services/processors/signal_evaluator/main.py:925-1064 | Every step of the machine keeps the invariants on events, siblings and the signal rows. |
| Exclusion.RunConsistent | services/processors/signal_evaluator/main.py:126-1064 | They hold in every reachable state, under any key loss, failed writes and restarts. |
| Exclusion.SiblingExclusion | services/processors/signal_evaluator/main.py:835-885 | Two scenarios of one signal never both enter; once one has, the other is closed; a signal is active exactly while the scenario it names is active and running. |
| Outcomes.AuditReplay | shared/models/signals.py:257-264 | In every run status and active flag equal the fold of the committed events, each lifecycle event occurs at most once, the result column is cancelled exactly when a cancelled event exists and else the status, and the tp_hit events are TpHit(1..n) at the first n target prices and at completion time, with n the stored index and the n-th the exit. |
| Ledger.LogMatchesRow | services/processors/signal_evaluator/main.py:684-734 | In every run each event bears the price and time of the row: the entry event its entry, stop and completion events its exit, a cancellation its time; failed goes with a stop event. |
| Ledger.GapsInTurn | services/processors/signal_evaluator/main.py:390-411 | While only committed cycles move the gap key, data gaps start and end in turn, each end names its start, there are none before entry or after the close, and an open position is in a gap exactly while its last cycle had no price. |
| Exclusion.TerminalAbsorbing | shared/models/signals.py:92-93 | Once closed, none of a scenario's rows in any table ever changes. |
| Outcomes.ClosesItself | services/processors/signal_evaluator/main.py:592-624 | A scenario that is not active and barred from entry is closed by its own evaluation exactly if it is overdue, or holds the entered flag and touches a level. |
| Outcomes.CycleDisagrees | services/processors/signal_evaluator/main.py:855-907 | A cycle makes status and result column disagree exactly if it commits, cancels the scenario for a sibling, and the scenario's own evaluation closes it. |
| Outcomes.ResultColumn | services/processors/signal_evaluator/main.py:855-907 | In every run status and result column disagree exactly if some committed cycle was such a collision; the result then says cancelled. |
| Witnesses.ExpiredButCancelled | services/processors/signal_evaluator/main.py:616-618 | A run in which a scenario expires as its sibling enters: status expired, result cancelled. |
| Witnesses.SucceededButCancelled | services/processors/signal_evaluator/main.py:538-543 | A run in which a scenario whose entry batch failed touches its target as its sibling enters: status success, result cancelled, no percentage. |
| History.Localized | services/processors/signal_evaluator/main.py:974-1064 | A committed cycle is, for one scenario, a function of its own state, clock, candle and one bit about its siblings. |
| History.EverySixth | services/processors/signal_evaluator/main.py:925-961 | Of six cycles in a row exactly one looks at waiting scenarios, and none of the first five does. |
| History.EnteredVerdict | services/processors/signal_evaluator/main.py:592-624 | An entered scenario closes exactly on a touched target, a touched stop or expiry, in this order of precedence, as success, failed or expired at the target, the stop or the close. |
| History.EntersIsEntryRule | services/processors/signal_evaluator/main.py:415-486 | With the clock kept, the incremental zone clock enters exactly when the whole history meets the entry rule. |
| History.FailedFollows | services/processors/signal_evaluator/main.py:1056-1064 | A failed batch that was not to record the scenario's own entry leaves no trace in its reading. |
| History.RunFollows | services/processors/signal_evaluator/main.py:545-767 | In every run that loses no entry of the scenario to a failed batch, whatever Redis loses, the stored state is the one the history's phase prescribes. |
| History.PhaseIsDirect | services/processors/signal_evaluator/main.py:442-624 | The incremental phase is the direct, quantified reading of the history. |
| History.HistoryRefinement | services/processors/signal_evaluator/main.py:442-682 | The stored state is what the direct reading of the committed cycles says: who enters when and at what price, when it closes, how, and at what price; a dropped scenario's status, result and time. |
| History.ReadingDetermines | services/processors/signal_evaluator/main.py:545-626 | The direct reading leaves no freedom: two states that fit one history agree in status, active flag, result, entry and exit price and both times. |
| Rivalry.LosesToSibling | services/processors/signal_evaluator/main.py:989-1054 | A scenario loses a cycle exactly if a sibling enters in it. |
| Rivalry.NewlyIsEntry | services/processors/signal_evaluator/main.py:442-497 | A machine that follows its history enters in a cycle exactly if the direct reading does. |
| Rivalry.EqualLengths | services/processors/signal_evaluator/main.py:936-961 | The scenarios of a signal, inserted together, have histories of equal length: position i is one cycle for all of them. |
| Rivalry.TakenMeansRivalEntry | services/processors/signal_evaluator/main.py:974-1054 | In every run whose failed batches swallowed no sibling's entry, a scenario is taken in a cycle exactly if the history of some sibling reads as an entry there. |
| Rules.TimeframeUnits | services/processors/signal_evaluator/main.py:58-62 | A timeframe is as many seconds long as its text says, an hour if it is unknown or missing. |
| Rules.EntryInPrices | services/processors/signal_evaluator/main.py:442-497 | The entry rule at a cycle, as comparisons of high, low or close with the entry point, two percent either way for range prices. |
| Rules.ClosesInPrices | services/processors/signal_evaluator/main.py:592-624 | An entered scenario lives through a cycle, or dies in it and how and at what price, as comparisons of high, low and close with targets, stop and expiry. |
| Rules.StoryInPrices | services/processors/signal_evaluator/main.py:442-682 | In every run of the history theorem the stored state is told in candle fields: which cycle let it in at what price, that every cycle until its exit left its levels alone, and what the exit cycle passed. |
| Rules.EntriesInPrices | services/processors/signal_evaluator/main.py:457-497 | Per entry type: an entered scenario entered on the first candle whose high, low or close met its entry point (for a consolidation the first stretch of closes a timeframe long), and a waiting one has seen none. |
| Records.RunRecorded | services/processors/signal_evaluator/main.py:653-682 | In every run an entered scenario has entry time, entry price, extremes and a price point on record, and no entry price in Redis but that one; a waiting one has no entry on record. |
| Records.RunIdle | services/processors/signal_evaluator/main.py:545-567 | In every run that loses no entry of it, a waiting scenario has no entered flag, entry price, timer, extremes or price points. |
| Records.RecoveryRestores | services/processors/signal_evaluator/main.py:126-224 | Whatever the crash took, after a restart with a successful read every active scenario has the flags, entry price, extremes and timer its rows and price points call for, and no row has changed. |
| Records.SwallowedEntry | services/processors/signal_evaluator/main.py:538-614 | In every run a scenario ends as success or failed without an entered event exactly if a committed cycle found it not active, flagged as entered and touching a level, which takes a failed batch that was to record its entry. |
| Durability.StoredExtremes | services/processors/signal_evaluator/main.py:794-801 | A committed evaluation widens the stored extremes by exactly the candle, whatever the min and max keys hold. |
| Durability.RunDurable | services/processors/signal_evaluator/main.py:186-224 | While all batches commit, the keys of an entered scenario never leave the range its row stores, through losses and recoveries. |
| Durability.DurableExtremes | services/processors/signal_evaluator/main.py:794-801 | While all batches commit, highest_price and lowest_price are the maximum high and minimum low of all candles evaluated since entry. |
| Cadence.ThinGaps | services/processors/signal_evaluator/main.py:352-370 | Greedy thinning of samples at most delta apart leaves gaps below timeframe plus delta. |
| Cadence.PointSpacing | shared/models/signals.py:293-297 | In every run, failed batches included, points start with the entry and are at least a timeframe apart, if the timer key is spared or rebuilt and no failed batch was to enter the scenario or to close it while active. |
| Cadence.PointsAreThinned | services/processors/signal_evaluator/main.py:339-372 | While all batches commit, the stored price points are the evaluated prices, thinned by the timeframe, across any key losses and crashes that spare or rebuild the timer key; that key is the last of them. |
| Cadence.PointCadence | shared/models/signals.py:293-297 | While all batches commit and the timer key is spared or rebuilt, the first point is at entry, consecutive points are at least a timeframe and less than timeframe plus delta apart, and the last is less than a timeframe old at the last evaluation. |
| Cadence.LostTimer | services/processors/signal_evaluator/main.py:362-366 | With the timer key gone, for whatever reason, the next evaluation keeps the points thinned, and keeps them spaced, exactly if a point was due anyway or its time is already taken; the timer fits again exactly if it was due or the taken time is that of the last point. |
| Witnesses.LostClosing | services/processors/signal_evaluator/main.py:673-676 | A run without key loss or restart in which the batch that was to close a scenario fails: the next candle stores a point ten seconds after the last, and drawdown rises from -20 to -1. |
| CrashTransparency.ActiveCourse | services/processors/signal_evaluator/main.py:545-654 | What is decided about an entered scenario is a function of its database rows, not of its Redis keys. |
| CrashTransparency.AlikeStep | services/processors/signal_evaluator/main.py:538-802 | Two entered scenarios with the same rows but any keys stay alike over a cycle with the same candle. |
| CrashTransparency.RecoverCommitted | services/processors/signal_evaluator/main.py:126-224 | Recovery after losing any keys changes no row and restores what later cycles rely on. |
| CrashTransparency.RunLikeReference | services/processors/signal_evaluator/main.py:126-1064 | A run with crashes leaves an entered scenario like the crash-free one over the same candles. |
| CrashTransparency.CrashesAreTransparent | services/processors/signal_evaluator/main.py:126-224 | Two continuations with the same candles whose batches all commit, each losing keys, crashing and recovering at will as long as the timer key is spared or rebuilt, store the same status, entry, exit, percentage, points, extremes and non-gap events. |
| CrashTransparency.FailuresAreTransparent | services/processors/signal_evaluator/main.py:1056-1064 | Two continuations whose committed cycles show an entered scenario the same candles store the same status, entry, exit, percentage and non-gap events, whatever keys either loses, whenever it crashes and whatever batches it fails. |
| Targets.NormalisedIsPlaced | services/workers/final_store/repository.py:255-266 | Every long or short output of the normaliser meets the geometry the evaluator's theorems rely on. |
| Targets.ReachedIsPrefix | services/processors/signal_evaluator/main.py:297-309 | On ordered targets a candle reaches exactly the first n levels, with or without range tolerance; n counts them and the n-th is the best. |
| Targets.HitsAreReal | services/processors/signal_evaluator/main.py:706-717 | Every tp_hit event names, by position, a level its own candle reached, at that level's price. |
| Targets.TargetExitIsBest | services/processors/signal_evaluator/main.py:597-624 | A row is a success exactly when it names a target: then it counts the reached levels and exits at the most favourable one. |
| Levels.ExtremesTell | services/processors/signal_evaluator/main.py:592-624 | In every run over sane prices: an open long's lowest price is above its stop and its highest below every target, an open short mirrored, and its last evaluation before expiry; a failure's extremes have passed the stop it is booked at and no target; a success's have come to the target it is booked at. |
| Percentages.PnlOrder | services/processors/signal_evaluator/main.py:90-93 | A higher price is worth more to a long and less to everything else, exactly and after rounding. |
| Percentages.RunAnchored | services/processors/signal_evaluator/main.py:466-645 | Under any losses and failed batches a success exits at a price of positive exact profit, a failure at one of negative profit. |
| Payouts.ExitSigns | services/processors/signal_evaluator/main.py:597-645 | In every run a success of a fix or break entry has a positive exact profit and a failure a negative one; the rounded percentage has the same weak sign, and is on record unless a failed batch swallowed the entry. |
| Payouts.ClosedPays | services/processors/signal_evaluator/main.py:556-645 | For every entry type, unless a failed batch swallowed the entry: only entered scenarios succeed, fail or have a percentage; it is that of the booked entry and exit prices, and a profit exactly when the exit is on the paying side of the entry. |
| Payouts.OpenPays | services/processors/signal_evaluator/main.py:628-645 | The percentage stored for an open position is that of the latest close against the booked entry, unless a failed batch swallowed the entry. |
| Payouts.RunPointsPay | services/processors/signal_evaluator/main.py:760-766 | Each price point has the percentage of its own price; only one taken at the close of the scenario may have that of the exit. |
| Witnesses.SuccessCosts | services/processors/signal_evaluator/main.py:457-462 | A run in which a market entry is booked beyond its target: status success, percentage below -7. |
| Percentages.RunRanged | services/processors/signal_evaluator/main.py:319-337 | Every running or expired row with percentages has max_drawdown <= pnl <= max_favorable, under any losses and failed batches. |
| Percentages.RowBound | services/processors/signal_evaluator/main.py:628-645 | In any evaluation the exact percentages satisfy the bound exactly if the booked price lies in the tracked range; then the rounded ones do too. |
| Percentages.OnlyGapsBreakIt | services/processors/signal_evaluator/main.py:597-614 | With exact levels an exit breaks the bound exactly if the whole tracked range lies beyond the level. |
| Percentages.ExitBound | services/processors/signal_evaluator/main.py:628-645 | In every run that keeps the extreme keys and whose failed batches were not to enter or close the scenario, a success or failure satisfies the bound before rounding exactly if its exit price lies between its stored extremes; then also after rounding. |
| Witnesses.GapBreaksBound | services/processors/signal_evaluator/main.py:597-610 | A run in which a candle below the stop makes the stored pnl exceed max_favorable. |
| Percentages.StepCovered | services/processors/signal_evaluator/main.py:264-275 | One committed cycle with Redis at or beyond the stored extremes keeps it there, keeps the percentages those of the stored extremes, and widens them. |
| Percentages.FiguresWiden | services/processors/signal_evaluator/main.py:319-337 | While the extreme keys are kept and no failed batch was to enter or close the scenario, other failed batches included, drawdown never rises, max favorable never falls, and both are the percentages of the stored extremes. |
| Percentages.FiguresReturn | services/processors/signal_evaluator/main.py:264-275 | After any losses, restarts and failed batches, a committed evaluation stores the percentages of the tracked prices: before rounding those of the stored extremes exactly if keys and candle reach these, and then also after rounding, widened if they were so before. |
| Percentages.FiguresAfterRestart | services/processors/signal_evaluator/main.py:189-192 | In the first priced cycle after a crash, keys and candle reach the stored extremes exactly if price points and candle do, so the same is decided by the rows alone. |
| Witnesses.RoundingHidesShortfall | services/processors/signal_evaluator/main.py:90-93 | Two prices with different percentages before rounding and one after. |
| Witnesses.DrawdownShrinks | services/processors/signal_evaluator/main.py:189-192 | A run in which drawdown rises from -20 to -1 after a recovery. |
| Mirror.EvaluationImage | services/processors/signal_evaluator/main.py:425-624 | One evaluation of the mirrored scenario on the mirrored candle decides the mirror image. |
| Mirror.CycleImage | services/processors/signal_evaluator/main.py:925-1064 | A whole cycle maps mirror images to mirror images, winners and cancellations included. |
| Mirror.MirrorSymmetry | services/processors/signal_evaluator/main.py:297-624 | Runs on a market and on its reflection have the same statuses, events, times and target indices at reflected prices. |
| Normaliser.InferDirection | services/workers/final_store/repository.py:430-457 | The votes of stop and average target give the inferred direction, or none on a draw. |
| Normaliser.FixGeometry | services/workers/final_store/repository.py:460-495 | Keeps the targets on the profitable side, drops an inverted stop, and flags either correction. |
| Normaliser.NormalizeScenario | services/workers/final_store/repository.py:220-266 | The numeric core computes `Normaliser.NormalizeSpec`; given with any of the words for long (or short) and levels that fit, a scenario comes out as a long (short) with everything kept, in order, and no correction. |
| Normaliser.GivenDirection | services/workers/final_store/repository.py:31-36 | For the words long, up and buy with targets above and a stop below the entry, and short, down and sell the other way round: the direction is stored as said, nothing is dropped, nothing corrected. |
| Normaliser.NeutralIsKept | services/workers/final_store/repository.py:243-266 | A neutral scenario keeps every positive target in the order given and every positive stop, and is not corrected. |
| Normaliser.WordsMatter | services/workers/final_store/repository.py:243-247 | Synonyms give the same output for every input, and a word that is none of the seven the same as a missing one. |
| Normaliser.NormalisedGeometry | services/workers/final_store/repository.py:255-266 | Output targets are a sorted permutation of exactly the positive ones on the profitable side; a stop is dropped only if inverted. |
| Normaliser.InferenceRule | services/workers/final_store/repository.py:436-457 | The stop's vote always outweighs the average target's, which counts only when the stop is missing or on the entry. |
| Normaliser.InferredKeepsEvidence | services/workers/final_store/repository.py:438-455 | An inferred direction keeps a stop that differs from the entry, and otherwise at least one target. |
| Normaliser.AverageHasWitness | services/workers/final_store/repository.py:447-451 | If the average target is beyond the entry, some target is. |
| Normaliser.AverageBalances | services/workers/final_store/repository.py:447-449 | The average is the one price from which the targets deviate by nothing in total. |
| Normaliser.CorrectionFlag | services/workers/final_store/repository.py:248-258 | The flag is raised exactly for an inferred direction, a target on the wrong side, or an inverted stop. |
| Normaliser.SecondPassIsIdentity | services/workers/final_store/repository.py:220-266 | Normalising a normalised scenario changes nothing and corrects nothing. |
| Normaliser.SortSorts | services/workers/final_store/repository.py:262-266 | The sort orders the targets for the direction and permutes them. |
| Normaliser.SortStable | services/workers/final_store/repository.py:262-266 | Targets of equal price keep their order. |
| TickBuffer.PriceKeys.Publish | services/processors/price_streamer/main.py:92-108 | After each publish the sorted set is the full log with each price at its latest time, trimmed at 60 s. |
| TickBuffer.PublishStep | services/processors/price_streamer/main.py:103-108 | Adding to the sorted set and trimming it keeps it the compressed, trimmed log. |
| TickBuffer.LexLessMeans | services/processors/price_streamer/main.py:103-107 | Members of equal score are ordered by the first character in which they differ, a beginning before its continuation. |
| TickBuffer.WindowOfCompressed | services/processors/signal_evaluator/main.py:235-242 | The last 12 s of the compressed log are the compression of the last 12 s of the log. |
| TickBuffer.CompressedCandle | services/processors/signal_evaluator/main.py:242-250 | Compression keeps high, low and close of a non-empty window. |
| TickBuffer.BufferShowsVisible | services/processors/signal_evaluator/main.py:235-242 | What a reader gets from the sorted set is the compression of the ticks of its window that the writer has not trimmed. |
| TickBuffer.VisibleTicks | services/processors/signal_evaluator/main.py:235-242 | The visible ticks are those at most 12 s old for the reader and less than 60 s old at the last publication. |
| TickBuffer.CandleSummarises | services/processors/signal_evaluator/main.py:242-250 | A candle's high and low bound the prices of its ticks and are attained, and its close is the last. |
| TickBuffer.VisibleIsWindow | services/processors/signal_evaluator/main.py:235-242 | Unless the reader's clock lags the writer's by 48 s or more, these are all ticks of the window. |
| TickBuffer.PriceKeys.ReadCandle | services/processors/signal_evaluator/main.py:228-262 | Over visible ticks the candle's high and low bound every price published and are attained, and its close is the last one; else it is the last price while that is less than 90 s old, else there is none. |
| TickBuffer.OpenOfBuffer | services/processors/signal_evaluator/main.py:244-246 | The candle's open is that of the log exactly when the first tick not published again has the first tick's price. |
| TickBuffer.OpenCanDiffer | services/processors/price_streamer/main.py:105 | A price that comes back within the window gives a wrong open. |
| Performance.ParseTakeProfitPrices | services/api/internal/repository/performance.go:171-188 | Keeps exactly the positive prices in order. |
| Performance.TargetPricesPositive | services/api/internal/repository/performance.go:171-188 | Exactly the positive prices are kept, each as often as given. |
| Performance.FillTimes | services/api/internal/repository/performance.go:123-164 | The i-th timestamp is that of the i-th tp_hit event, as far as there are any; the history is all events. |
| Performance.ComputePerformance | services/api/internal/repository/performance.go:72-167 | The snapshot, assembled field by field, is `Performance.Snap` of targets, row and events, and truthful: a profit is a positive percentage, a loss a negative one, every figure the row's own, both histories whole. |
| Performance.SoundIsAligned | services/api/internal/repository/performance.go:116-164 | On a scenario with positive targets whose log tells its targets, hits and times have equal length, every time is that of the completion, progress times targets is 100 times hits, and the stop flag means failed, at the completion. |
| Performance.ReadModelAligned | services/api/internal/repository/performance.go:92-164 | That holds, and the snapshot is truthful, in every reachable state of the evaluator over normalised long or short scenarios. |
| Performance.ReadModelCoherent | services/api/internal/repository/performance.go:92-114 | In every run over sane prices an anchored success is never shown as a loss nor a failure as a profit, lowest is at most highest, and drawdown <= percentage <= max profit while the scenario runs or has expired. |
| RateLimit.FixedWindow.Allow | services/api/internal/middleware/ratelimit.go:18-29 | State and answer after a request are those of `RateLimit.Allowed`. |
| RateLimit.EpochAdmits | services/api/internal/middleware/ratelimit.go:18-29 | Between two resets at most max requests are admitted. |
| RateLimit.AdmitsFirst | services/api/internal/middleware/ratelimit.go:22-28 | A request is admitted exactly when fewer than max requests came before it since the last reset. |
| RateLimit.EpochsAreShort | services/api/internal/middleware/ratelimit.go:22-26 | The count is reset in time: no epoch outlives the window that began with its first request. |
| RateLimit.SlidingBound | services/api/internal/middleware/ratelimit.go:18-29 | For requests in time order any closed interval of one window length admits at most 2 * max. |
| RateLimit.BoundIsTight | services/api/internal/middleware/ratelimit.go:18-29 | Every limiter with a positive window reaches the bound. |
| Backfill.BackfillInverts | migrations/versions/b5c6d7e8f9a0_signal_tracking_active.py:71-90 | From the evaluator's rounded percentages the backfill recovers both extremes to within entry * 0.0000005, for long and short. |
| Backfill.BackfillInvertsExactly | migrations/versions/b5c6d7e8f9a0_signal_tracking_active.py:71-90 | Without rounding the backfill is the exact inverse. |
| Backfill.BackfillSurroundsEntry | migrations/versions/b5c6d7e8f9a0_signal_tracking_active.py:71-90 | The backfilled range contains the entry if drawdown is at most zero and max favorable at least, and is the entry where both are missing or the direction is neither long nor short. |
| Backfill.StoredRowBackfills | migrations/versions/b5c6d7e8f9a0_signal_tracking_active.py:71-90 | In every run that keeps the extreme keys and whose failed batches were not to enter or close the scenario, on every row of an entered long or short scenario it reproduces the stored extremes to the same accuracy. |

## Left out

- History.HistoryRefinement: leaves out runs in which a failed batch swallowed the scenario's own entry, which leaves
  the entered flag behind; for consolidation entries it asks that only committed cycles move the consolidation key and
  that the clock does not run backwards, since the code measures the zone by that key.
- Rules.StoryInPrices: has the same provisos, and so has Rules.EntriesInPrices.
- Rivalry.TakenMeansRivalEntry: has the same provisos, for the siblings; which of several siblings that could enter in
  one cycle does is decided by the row order, an input.
- Cadence.PointSpacing: leaves out the two ways to lose the timer for good, a loss without a recovery and a failed
  closing batch; Cadence.LostTimer says when either shows.
- Cadence.PointsAreThinned: leaves out those and all failed batches, since a failed batch can move the timer without
  storing its point; so does Cadence.PointCadence.
- CrashTransparency.CrashesAreTransparent: leaves out the same; without points and extremes,
  CrashTransparency.FailuresAreTransparent needs no proviso.
- Payouts.OpenPays: leaves out scenarios whose entry a failed batch swallowed, and so does Payouts.RunPointsPay.
- Levels.ExtremesTell: is about prices between the SQL sentinels 0 and 9e15, with low <= close <= high.
- Ledger.GapsInTurn: leaves out failed batches and losses that move the gap key; a gap whose start was not written has an
  end without a start.
- Payouts.ExitSigns: covers fix and break entries with a positive entry point, whose levels lie on known sides of it;
  Payouts.ClosedPays covers the others.
- Payouts.ClosedPays: says nothing of an exit at a level of price zero, which the code takes for a missing one.
- Percentages.ExitBound: reads the range from the row and therefore keeps the extreme keys; Percentages.RowBound is the
  form for any state.
- Performance.ComputePerformance: leaves percentages unformatted and leaves out the descriptions of events.
- Exceptions inside one evaluation (the row is skipped) and Redis errors between two keys of one evaluation.
- Lifetimes of the evaluator's Redis keys (40 days, 2 hours for gaps); losing keys at any time covers their expiry.
- The key `sig:*:active_sc`, which recovery writes and nothing reads.
- Parsing of directions, entry types, price types, expiry durations and the fallbacks to the raw JSON; the model starts
  from the parsed values. An entry type without a rule of its own behaves like `fix`.
- `signals.status`, which only follows `signals.active`, and the statuses `invalid`, `rejected` and `skipped`, which
  only the office panel sets; manual edits of scenarios are not steps of the machine.
- The order of rows returned by the SELECT, the clock and the candles are inputs of a cycle.
- The tick count of a candle, time zones, and floating-point rounding other than `round(x, 4)`.
- Timsort: the normaliser's sort is a stable insertion sort, with the same result.
- The confidence, timeframe, expiry and text fields of the normaliser, and all JSON decoding.
- The concurrency limiter of the API, the Kafka workers, the scrapers, the price feeds, the model gateway, the office
  panel and the other migrations.
