# Microhook: a verified model

Microhook runs configured commands on request and records every run in SQLite.
This project models four parts of it in Dafny and proves what their combination
guarantees.

**The run lifecycle.** `Lifecycle` is a transition system. Persistent state is the
two tables; volatile state is the set of taken reject slots, the live invocations
(each with its program counter, its two contexts and its process) and the phase of
the service (down, three booting phases, serving). Labels carry every choice of the
scheduler and of the environment: process exits, timers, departing clients, store
failures, crashes, restarts, clock readings. `Invariant`, `Preservation` and
`Booting` establish one invariant of every reachable state. From it follow:

- `Ownership`: a running row belongs to exactly one live invocation or was orphaned
  by one of exactly two faults; slots are neither leaked nor stolen; no validation
  or lookup error can hit a live run.
- `History`: terminal statuses are write-once over whole runs with crashes and
  restarts, although the SQL update never looks at the old status; only recovery or
  a synchronous invocation cancels.
- `Intervals`: under a clock that never goes back, of two runs of a reject action whose
  recorded intervals overlap one was orphaned at some step; without the two faults all
  intervals are disjoint, across restarts too.
- `Faults`: both faults can happen, and each really breaks the guarantee; a fault-free
  continuation can run a reject action twice if and only if one of its rows is
  already orphaned.
- `Restart`: what a boot makes of any state the previous process left behind, and when
  a boot can succeed at all.
- `Progress`: a termination measure for every invocation, exactly one terminal write
  attempt, and settlement once the process is gone.

**The program.** `Repository.Store`, `ExecutionService.Service` and `App.Bootstrap`
run the same operations statement by statement. They are proved against the functions
of `Queries` and `Invocation`. `Simulation` and `BootSimulation` prove that what
`Invoke`, its background part, the recovery loop and a whole boot do, failing ones
included, is a run of the transition system. `RecoveryRows` says what recovery writes
into each row, wherever it stops. Results are exact: which error,
or which row read back, is a function of what the environment did.

**The run store.** `Queries` gives the meaning of the SQL statements on two tables.
`StoreRefinement` shows that they behave as one map from ids to runs; `Listings`,
`Retention` and `RunListing` say exactly what is listed, kept, deleted and shown to a
caller; `RetentionArithmetic` says for which settings the 64-bit arithmetic on the
retention age keeps its promise, and what happens for the others.

**Output, environment, configuration.** `TailBuffer` is the in-place sliding window.
`Environment` is the environment list of a process. `Config`, `Validation`,
`ValidationExact` and `Loading` cover normalization, validation and the registry.

**Meanings.** Statuses, policies and modes are texts to the outside. `FileMeaning`,
`StoreMeaning` and `Reports` state what each text of a file, a filter or a call means,
which call is let in, and exactly which problems are reported, in terms of the data
alone; `Text` does the same for trimming and for the order of strings.

Conventions: times are Unix nanoseconds. Texts with a fixed vocabulary (statuses,
policies, modes) are datatypes whose last case carries any other text. Error messages
are values that carry what the message prints. Faults of the database, clock readings,
random ids, process exits and context errors are arguments or labels. A fact about the
transition system that holds for `Inv(s)` holds for every reachable state by
`Booting.ReachableInv`. A boot takes any registry whose actions can all be run;
`Loading.AcceptedActionsRun` proves that of every accepted configuration.

Where code and documentation disagree the code is followed: an absent invocation mode
means synchronous, although the API documentation asks for one.

`dafny verify dfyconfig.toml` checks the whole project.

## Model

| member | source | states |
|---|---|---|
| Ownership.RunningRowsAreOwned | internal/execution/scheduler.go:14-62 | in every reachable serving state a running row has exactly one live owner if and only if it is not an orphan |
| Ownership.OrphansAreRunning | internal/execution/service.go:152-166 | an orphan exists only while serving, is a running row, and no invocation owns it |
| Ownership.OrphansComeFromFaults | internal/execution/service.go:124-150 | every orphan of a run was made at some step of it by a failed terminal update or by an insert that was stored but not read back, and its recorded kind says which |
| Ownership.NoFaultsNoOrphans | internal/storage/repository.go:100-105 | without the two faults no reachable state has an orphan |
| Ownership.RejectRunsOnce | internal/execution/scheduler.go:29-53 | of two running rows of a reject action one has been orphaned |
| Ownership.FaultFreeRejectRunsOnce | internal/execution/scheduler.go:29-53 | without the two faults a reject action has at most one running row |
| Ownership.SlotTakenIffHeld | internal/execution/scheduler.go:82-99 | a slot is taken exactly while one live invocation of that action is between begin and finish |
| Ownership.NoInvocationsNoSlots | internal/execution/scheduler.go:29-62 | with no live invocation every slot is free |
| Ownership.OnlyHolderReleases | internal/execution/scheduler.go:94-99 | a slot is given back only by its own holder's last step, or with the whole process |
| Ownership.OnlyClaimTakes | internal/execution/scheduler.go:82-92 | a slot is taken only by a claim, for the claimer, and only when no invocation held it |
| Ownership.ConflictLeavesNoTrace | internal/execution/scheduler.go:30-32 | a conflicting invocation ends without touching tables, slots or orphans, and another one holds the slot |
| Ownership.RejectProcessesExclude | internal/execution/scheduler.go:29-53 | two processes of one reject action are never alive together, even after faults |
| Ownership.LiveRunStaysStored | internal/storage/repository.go:222-243 | a live invocation's run is in the view exactly as it was read, still running, so retention never removed it |
| Ownership.TerminalUpdateAccepted | internal/storage/repository.go:108-141 | the terminal update of a live run is never refused: no validation error and no missing row |
| Ownership.InsertRefusedIffTaken | internal/storage/repository.go:20-60 | the insert the service sends is refused only when the generated id is already stored |
| Ownership.LaunchAlwaysBuilds | internal/execution/runner.go:165-182 | the command of every stored action can be built when it is launched |
| Ownership.EveryRowConsistent | internal/execution/runner.go:44-136 | every stored row: finish time exactly when not running, timed-out flag exactly with the status `timed_out`, an exit code only with `succeeded` or `failed`, exit code 0 for success, tails within the limit |
| Ownership.EveryRunIsListed | internal/storage/repository.go:167-204 | every run stored in a reachable state is listed under its own action name, under its own status, and under both |
| Ownership.AcceptedConfigAdmits | internal/execution/service.go:76-117 | a service over an accepted configuration never meets an unsupported policy and admits only enabled actions of that configuration |
| FileMeaning.AdmissionExact | internal/execution/service.go:76-117 | each refusal of a call has exactly its cause, in the order of the checks; a call that is let in runs the action of its trimmed name, asynchronously exactly for the mode `async` |
| FileMeaning.AcceptedFileAdmitsIff | internal/execution/service.go:76-117 | over an accepted file a call is let in if and only if its payloads are valid, its mode is empty, `sync` or `async`, and the file has an action of that name that is not disabled; the slot is asked for exactly if the file says `reject` |
| Ownership.AcceptedEnvironmentReadsBack | internal/config/validate.go:142-165 | the environment list of every accepted action is in strictly increasing order of names and reads back as what it was built from: the service's three variables, the other configured ones, the path |
| History.StepKeepsRow | internal/storage/sql/storage_queries.sql:53-64 | a step leaves a stored row alone, finishes it, or prunes it; it is finished only while running and by its owner or by recovery, and pruned only when not running |
| History.RowsAreBornRunning | internal/execution/service.go:124-150 | a row comes into being running, by an invocation's insert, under that invocation's action |
| History.TimesAreRead | internal/execution/service.go:124-174 | the creation time and the finish time an invocation stores are readings of the clock at that step |
| History.CancelledOnlyByRecoveryOrClient | internal/execution/scheduler.go:55-80 | only recovery or a run's own synchronous invocation turns it `cancelled`; an asynchronous one never does |
| History.TerminalRowsAreWriteOnce | internal/storage/sql/storage_queries.sql:53-64 | between any two moments of any run of the system a stored row is unchanged, or was running and is now the same run with an outcome; action, creation time, metadata and snapshot never change |
| Intervals.OverlappingRunWasOrphaned | internal/execution/runner.go:121-136 | under a nondecreasing clock alone, with any faults, crashes and restarts: of two runs of a reject action one was finished before the other was created, or one was orphaned at some step of the history |
| Intervals.LostByAStep | internal/execution/service.go:124-174 | what counts as orphaned in that history was orphaned at a definite step of it, by one of the two faults |
| Intervals.RejectRunsAreDisjoint | internal/execution/runner.go:121-136 | under a nondecreasing clock and without the two faults, of any two runs of a reject action one was finished before the other was created, across restarts |
| Intervals.FreeSlotMeansFree | internal/execution/scheduler.go:82-92 | in a serving state with ordered recorded times (`Timeline`), while a reject slot is free every recorded run of the action that was not orphaned has been finished, at a time that has passed |
| Intervals.StepKeepsTimeline | internal/app/app.go:52-70 | every step that does not set the clock back keeps recorded times ordered, and apart the intervals of all runs that were not orphaned before or by this step |
| Faults.FaultAdmitsOverlap | internal/execution/scheduler.go:50-61 | from every reachable state in which an invocation meets either fault, some continuation has two running, overlapping rows of the same reject action; nothing else is assumed |
| Faults.FaultsAreReachable | internal/execution/service.go:124-174 | for each of the two faults some reachable state is met by it |
| Faults.RunsTwiceIffOrphaned | internal/execution/scheduler.go:82-99 | for every reachable serving state and enabled reject action of its registry: some fault-free continuation has two running rows of the action if and only if one of its rows is already orphaned |
| Faults.FaultReleases | internal/execution/scheduler.go:35-38 | either fault leaves a running row behind and still gives the slot back |
| Restart.BootRestoresCleanState | internal/app/app.go:52-70 | a boot from any reachable down state that ends in serving: no row runs, every row that ran is there and cancelled, finished rows are exactly the survivors of retention, at most `maxRuns` plus the interrupted ones remain |
| Restart.CrashedRecoveryIsRepaired | internal/execution/scheduler.go:64-80 | what a crash in the middle of recovery left pending is present and cancelled after the next boot |
| Restart.RecoveryCompletes | internal/execution/scheduler.go:70-77 | from every recovering state one step per pending run and one more reach serving |
| Restart.BootServesIff | internal/app/app.go:52-70 | from every reachable down state and for every usable configuration, some boot without interruption reaches serving if and only if the retention age is not negative |
| Restart.NegativeAgeNeverServes | internal/storage/repository.go:206-209 | with a negative age no sequence of boot steps ever serves |
| Restart.SurvivorsBounded | internal/storage/sql/storage_queries.sql:105-113 | with a positive `maxRuns` at most that many rows survive besides the running ones |
| Booting.StepKeeps | internal/execution/scheduler.go:14-99 | every step of the system keeps the invariant |
| Booting.ReachableInv | internal/app/app.go:33-81 | every reachable state satisfies the invariant |
| Booting.InterruptedListed | internal/execution/scheduler.go:65-68 | the list that recovery starts from holds exactly the running rows, once each, as stored |
| Booting.RecoveryAccepted | internal/execution/scheduler.go:70-76 | recovery's update of a pending run is accepted and turns it into its cancelled version |
| RecoveryRows.RecoveredRows | internal/execution/scheduler.go:70-77 | after any number of rounds each of their runs is cancelled with the time read in its own round as finish time, no exit code, no output and the sentence of a restart; no other row has changed |
| RecoveryRows.RecoveryLeavesExact | internal/execution/scheduler.go:64-80 | wherever recovery stops: a row is cancelled at its round's time exactly if no earlier round failed and its own update did not, and is otherwise as it was |
| RecoveryRows.BootLeavesRows | internal/app/app.go:52-70 | the same of the tables a boot leaves, from those that retention left; without retention nothing changes |
| RecoveryRows.RoundCancelsAtClock | internal/execution/scheduler.go:70-76 | in the transition system a round cancels the first pending row at the clock, and no other |
| Preservation.CreationAccepted | internal/storage/repository.go:20-56 | no validation of `CreateRun` can reject what the service sends for an accepted action |
| Preservation.InsertReadsBack | internal/execution/runner.go:212-245 | an insert under a new id succeeds and reads back as a run whose stored action is the inserted one |
| Preservation.UpdateAccepted | internal/storage/repository.go:108-141 | the update of an owned run succeeds and changes exactly that row |
| Progress.StepsUnlessBlocked | internal/execution/runner.go:75-95 | an invocation can take a step of its own if and only if it is not waiting on a live process |
| Progress.OwnStepsBounded | internal/execution/runner.go:44-119 | in any interleaving with crashes and restarts an invocation takes at most as many own steps as its rank, which no other step raises |
| Progress.ExactlyOneAttempt | internal/execution/service.go:152-174 | in any interleaving without a crash an invocation that owns a run attempts its terminal write exactly once before it ends |
| Progress.SettlesOnceProcessIsGone | internal/execution/scheduler.go:26-53 | once its process is gone an invocation can, by its own steps alone and whatever its client did, record the outcome, release its slot and end |
| Progress.EveryRunSettles | internal/execution/runner.go:75-118 | after its process has exited, in any interleaving with others that has no crash: once the invocation has no step left it is gone, it gave its slot back at one of the steps, and it attempted exactly the terminal write it owed |
| Invocation.OutcomeIsRecorded | internal/execution/service.go:152-174 | the row read back after the update carries the process's own exit code, the tails of its own streams and the times as read; what creation fixed is unchanged; an interrupted run has no exit code |
| Invocation.StatusIsRecorded | internal/execution/runner.go:75-118 | the finished row carries `succeeded` exactly after a clean wait, `failed` exactly after a failed wait that left an exit code or needed no kill, and otherwise `timed_out` exactly if the deadline expired while the client was still there, else `cancelled` |
| Invocation.SummaryIsRecorded | internal/execution/runner.go:107-136 | the sentence in the finished row of a started process: none after success, the exit code, the wait error, the timeout or the cause of the cancellation, and the failed kill added to either of the last two |
| Invocation.FailureToStartIsRecorded | internal/execution/runner.go:48-73 | a run whose command cannot be built or started is `failed` without exit code, output or timed-out flag, finished at the time read, with the sentence of the one that happened; nothing else of it changes |
| Invocation.CreationIsRecorded | internal/execution/service.go:124-150 | a created run is running under the new id, with the time read as creation and start time, the caller's metadata and every field of the action |
| Invocation.CreatedTablesExact | internal/storage/repository.go:58-106 | creation adds exactly this run if it commits, a lost reply notwithstanding, else it changes nothing |
| Invocation.AnswerReadsBack | internal/execution/service.go:152-174 | a successful call returns the run that the tables hold after it under the new id: finished at the time read for a synchronous call, still running for an asynchronous one |
| Invocation.FinishedRunReadsBack | internal/execution/service.go:152-174 | a successful update is read back from the tables after it, with the new status |
| Invocation.ExecutedReadsBack | internal/execution/runner.go:44-119 | so is the outcome of a successful execution, which is terminal |
| Invocation.AnswerErrorExact | internal/execution/service.go:124-174 | which error a failing call returns: no id, creation, update or read, and a failed kill only if nothing else failed |
| Invocation.AnswerSucceedsIff | internal/execution/service.go:124-174 | an admitted call succeeds if and only if its new id is fresh and creation meets no fault and, for a synchronous one, the terminal update and its read succeed and a needed kill did not fail |
| ExecutionService.Service.constructor | internal/execution/service.go:56-66 | a new service has every slot free |
| ExecutionService.Service.BeginRejectAction | internal/execution/scheduler.go:82-92 | claims the slot if and only if it was free |
| ExecutionService.Service.FinishRejectAction | internal/execution/scheduler.go:94-99 | frees that slot and no other |
| ExecutionService.Service.CreateRun | internal/execution/service.go:124-150 | the tables and the result, run or error, are exactly those of one creation, with every fault |
| ExecutionService.Service.FinishRun | internal/execution/service.go:152-174 | one update, applied unless it fails; the result is exactly the row read back after it or the error of the update or of the read |
| ExecutionService.Service.Execute | internal/execution/runner.go:44-119 | however the race ends: exactly one terminal update with the captured tails of both streams, and exactly the row read back, the error of the update or read, or the failed kill |
| ExecutionService.Service.FinishInBackground | internal/execution/scheduler.go:55-62 | the background part finishes the run and then gives back the slot it was handed |
| ExecutionService.Service.InvokeAllow | internal/execution/scheduler.go:14-27 | exact tables and result: synchronous, those of the whole invocation; asynchronous, those of creation |
| ExecutionService.Service.InvokeReject | internal/execution/scheduler.go:29-53 | a conflict changes nothing; otherwise exact tables and result, and every path gives back exactly the slot it claimed, except that an accepted asynchronous run keeps it |
| ExecutionService.Service.Invoke | internal/execution/service.go:76-117 | the exact tables, slots and result for every admission, mode, policy and observation: a refusal or conflict changes nothing, only an accepted asynchronous reject run keeps a slot |
| ExecutionService.Service.CancelInterruptedRuns | internal/execution/scheduler.go:64-80 | fails if and only if listing or some round fails; the tables and the error are exactly those of the rounds up to the first failing one, whose update counts when only its read failed |
| Simulation.InvocationSimulated | internal/execution/service.go:76-117 | the effect of an admitted invocation on tables and slots, for every observation it can make, is that of a run of the transition system from the same state |
| Simulation.SyncCallSimulated | internal/execution/scheduler.go:14-53 | the tables that the contract of a synchronous call promises are left by a run of the transition system too |
| Simulation.AsyncReturnSimulated | internal/execution/scheduler.go:14-48 | the state in which an asynchronous call returns (row created, slot kept, execution pending) is reached by a run of the transition system |
| Simulation.BackgroundSimulated | internal/execution/scheduler.go:55-62 | what the background part does from that state is a run of the transition system that ends with the slot free |
| Simulation.ConflictSimulated | internal/execution/scheduler.go:30-32 | so is the effect of a conflict, which is none |
| Simulation.RecoverySimulated | internal/execution/scheduler.go:70-77 | so is every prefix of the recovery loop |
| BootSimulation.BootSimulated | internal/app/app.go:33-81 | from every reachable down state, for every usable configuration and every combination of faults: a run of the transition system leaves the tables of the boot, serving and idle if the boot gets through, down if it does not |
| Simulation.ExecutionAt | internal/execution/runner.go:44-119 | every way in which an execution can be observed is a run of the transition system that ends before the same update |
| App.Bootstrap | internal/app/app.go:33-81 | the exact tables, and a service with free slots if and only if every phase gets through; from tables the service can leave that is: ages and counts not negative and no fault of retention, authentication or any round of recovery; the tables are then clean, and after any failure the next boot can start from them |
| App.BootOutcome | internal/app/app.go:52-70 | the same about the boot as a function, for all start tables, policies and faults |
| App.RecoveryEnds | internal/execution/scheduler.go:64-80 | recovery gets through if and only if no update and no read of a round fails, and then leaves no running row; wherever it stops the tables can be booted from |
| App.RecoveredKeeps | internal/execution/scheduler.go:70-77 | each round of recovery keeps what retention established and takes one run off the list |
| Repository.Store.CreateRun | internal/storage/repository.go:20-106 | all or nothing under every fault, with the exact error; a lost reply still leaves the run stored |
| Repository.Store.UpdateRun | internal/storage/repository.go:108-144 | changes exactly the named row, or nothing, with the exact error |
| Repository.Store.ReadRun | internal/storage/repository.go:146-165 | the run of the join view, or the exact error, a failing database included |
| Repository.Store.ListRuns | internal/storage/repository.go:167-204 | the full list filtered by both trimmed texts, or the exact error |
| Repository.Store.ApplyRetention | internal/storage/repository.go:206-256 | both passes and the metadata, or no change at all and the exact error; it succeeds if and only if the policy is accepted and no fault strikes a statement that is run |
| Repository.Store.DeleteCascading | internal/storage/sql/storage_schemas.sql:21-33 | deletes from both tables and counts the run rows only |
| StoreMeaning.CreationRefused | internal/storage/repository.go:20-56 | a creation is refused before the database for exactly these causes, in this order: state, start time, metadata |
| StoreMeaning.ChangeRefused | internal/storage/repository.go:108-124 | a change is refused for exactly these causes: state, times |
| StoreMeaning.CreationStores | internal/storage/repository.go:58-106 | a creation fails exactly for those causes or a taken id, and otherwise adds one run with every column as sent |
| StoreMeaning.ChangeStores | internal/storage/repository.go:125-144 | a change fails exactly for those causes or a missing id, and otherwise sets these columns of this row and no other |
| StoreMeaning.ReadingExact | internal/storage/repository.go:146-165 | reading returns the two rows of the id, or says whether the id is blank or unknown |
| StoreMeaning.FaultsThatStrike | internal/storage/repository.go:212-256 | a fault of one pass strikes only if the policy issues that pass |
| StoreRefinement.StepRefines | internal/storage/sql/storage_schemas.sql:44-69 | each operation keeps the id sets of the tables equal and acts on the view as on one map |
| StoreRefinement.StoreRefinesOneMap | internal/storage/repository.go:58-141 | so does every sequence of operations |
| StoreRefinement.IdentityFixed | internal/storage/repository.go:125-141 | no operation after creation changes a run's action, creation time, request metadata or snapshot |
| Listings.SelectExact | internal/storage/sql/storage_queries.sql:72-94 | a listing holds exactly the matching runs, strictly newest first |
| Listings.SelectFiltersFullList | internal/storage/sql/storage_queries.sql:72-94 | filtering in the query equals filtering the full list |
| Listings.ListRunsRefinesFilter | internal/storage/repository.go:167-204 | the four branches meet one specification |
| StoreMeaning.ListingOnTexts | internal/storage/repository.go:167-204 | a status text other than the five, once trimmed, is refused; else exactly the stored runs whose action name and status text equal the trimmed filters are listed, newest first and by descending id at equal times |
| Listings.CreatedRunListedIffTrimmed | internal/storage/repository.go:24-29 | a created run is found by the status text it was accepted as if and only if that text was already trimmed, by its action name if and only if that was, and by both if and only if both were |
| Records.StatusTexts | internal/storage/types.go:9-15 | each of the five status texts, and no other, is its own status |
| Retention.RetentionExact | internal/storage/repository.go:222-255 | the survivors are exactly the running rows and the finished ones that are recent enough and among the newest, unchanged; the count reported is the number of rows removed |
| Retention.OverflowExact | internal/storage/sql/storage_queries.sql:105-113 | the overflow query selects exactly the finished rows with at least `maxRuns` newer ones |
| Retention.PassesCommute | internal/storage/repository.go:222-243 | pruning by count first deletes the same rows |
| Retention.NoNewerRowDeleted | internal/storage/sql/storage_queries.sql:96-113 | no deleted row is newer than a kept finished one |
| StoreMeaning.DeletedRowsAreOlder | internal/storage/sql/storage_queries.sql:96-113 | in times: a finished row that retention keeps was not created before one that it deletes, and has the greater id at equal times |
| StoreMeaning.CountPassKeepsExactly | internal/storage/sql/storage_queries.sql:105-113 | the count pass keeps exactly `maxRuns` finished rows, or all if there are no more |
| StoreMeaning.RetentionRefusedIff | internal/storage/repository.go:206-209 | retention is refused exactly for a negative setting, and records its time otherwise |
| RetentionArithmetic.RetentionDaysHonouredIff | internal/app/app.go:53-56 | for any positive setting and a clock after 1970: on all tables retention by age succeeds and keeps exactly the running rows and those created within that many days, if and only if the days are at most 106751 |
| RetentionArithmetic.WordRetentionExact | internal/storage/repository.go:206-232 | for a clock after 1970 retention with the 64-bit cutoff equals the model of retention, for every policy |
| RetentionArithmetic.BeyondTheBound | internal/storage/repository.go:206-232 | beyond that, by the sign of the wrapped age: the pass fails, deletes nothing, or deletes finished rows by an age shorter than asked, at the 64-bit cutoff |
| RetentionArithmetic.ZeroDaysKeepEverything | internal/storage/repository.go:224-232 | zero days delete nothing |
| RetentionArithmetic.WrappedAges | internal/app/app.go:53-56 | each of the three happens: 106752 days give a negative age, 2 to the 48 days give zero, 213504 days give less than 26 minutes |
| RunListing.NewIdentity | internal/auth/service.go:137-153 | a token without actions allows every action, any other exactly the ones it names |
| RunListing.Compact | internal/httpapi/server.go:335-343 | the in-place compaction leaves exactly the allowed runs in their order |
| RunListing.ListVisibleRuns | internal/httpapi/server.go:303-351 | the exact answer or error for every filter and identity |
| RunListing.AnswerExact | internal/httpapi/server.go:324-348 | the answer holds exactly the stored runs that match and are allowed, strictly newest first |
| TailBuffer.TailBuffer.Write | internal/execution/runner.go:142-159 | the window becomes the tail of the longer stream, and the whole length is reported |
| TailBuffer.TailBuffer.ShiftLeft | internal/execution/runner.go:153-155 | the overlapping move within one array drops exactly the oldest bytes |
| TailBuffer.Capture | internal/execution/runner.go:138-163 | for every chunking the captured text is the tail of the concatenated stream: its last `limit` bytes, or all of it if it is shorter, or nothing without a positive limit |
| TailBuffer.TailExact | internal/execution/runner.go:142-159 | the tail is the end of the stream, and its length is the smaller of the stream's length and the non-negative limit |
| Environment.BuildEnv | internal/execution/runner.go:184-210 | the entries of the layered variables, by key |
| Environment.EnvironmentRoundTrip | internal/execution/runner.go:184-210 | cutting every entry at its first `=` gives back the layered variables if and only if no configured name contains `=` |
| Environment.EnvironmentSeen | internal/execution/runner.go:184-210 | with such names a process sees `MICROHOOK_RUN_ID`, `MICROHOOK_ACTION` and `MICROHOOK_REQUEST_ID`, the other configured names and a path, each with the right value, in strictly increasing order of names |
| Text.LessByFirstDifference | internal/execution/runner.go:198-202 | that order is decided by the first position at which two names differ |
| Text.TrimSpaceCuts | internal/execution/service.go:81-84 | trimming removes spaces from both ends and nothing else |
| Text.SpaceCodePoints | internal/execution/service.go:81-84 | which characters count as spaces, by code point |
| Validation.Validate | internal/config/validate.go:11-20 | the loops report exactly the specified problems, in order |
| ValidationExact.ValidateExact | internal/config/validate.go:11-165 | nothing is reported if and only if the configuration is well-formed, stated without loops |
| Reports.ReportedIff | internal/config/validate.go:22-165 | each problem is reported if and only if it holds of the configuration, with its positions and names |
| Reports.TimeoutReportedIff | internal/config/load.go:190-197 | a timeout is reported if and only if it is given and does not parse |
| Reports.ReportedInFileOrder | internal/config/validate.go:11-165 | problems come in the order server, storage, actions, tokens, and by position within each |
| ValidationExact.DuplicatesNameFirstUse | internal/config/validate.go:50-68 | a duplicate action name is reported exactly once for each repetition and never otherwise, naming the first use |
| ValidationExact.TokenDuplicatesNameFirstUse | internal/config/validate.go:105-115 | the same for token names |
| ValidationExact.ScopeDuplicatesNameFirstUse | internal/config/validate.go:123-138 | the same for the names in one token's scope |
| Loading.Load | internal/config/load.go:25-52 | a file is accepted if and only if its timeouts parse and its normal form is well-formed; the registry then holds exactly its actions |
| Loading.NormalizeActions | internal/config/load.go:157-212 | every action in its normal form, every timeout that does not parse reported |
| Loading.NormalizeTokens | internal/config/load.go:125-142 | every token with trimmed texts, in order |
| FileMeaning.LoadedAction | internal/config/load.go:157-212 | every field of a loaded action from the file's own: `reject` rejects, `allow` or nothing allows; no timeout, 65536 bytes and enabled unless given; the mode by which command is there |
| FileMeaning.LoadedSettings | internal/config/load.go:96-123 | the server and storage settings: trimmed, `127.0.0.1:9464` and `json` unless given, both retention numbers as given |
| FileMeaning.LoadedToken | internal/config/load.go:125-155 | name, value and each scope entry of a token, trimmed, at its position |
| Loading.NewActionRegistry | internal/config/registry.go:67-103 | the registry of all actions, or every name problem |
| Loading.RegisteredExact | internal/config/registry.go:67-103 | with distinct names the registry finds each action, and only those, under its own name |
| Loading.NamesAreTrimmed | internal/config/load.go:45-48 | registry construction cannot fail after validation |
| Loading.AcceptedActionsRun | internal/config/registry.go:67-103 | every action of an accepted configuration can be looked up, dispatched, stored and started |

## Left out

- HTTP routing, middleware, request decoding, request ids, logging and response encoding, except the list handler's filter logic.
- Responses to callers of an invocation in the transition system: only tables, slots and processes are modelled there; the class methods do return results.
- Real processes, signals and pipes: a process is alive until it ends with an exit that the contract of `os/exec` allows, a kill is an attempt that may fail, and children that outlive a killed service are not part of the model.
- SQLite itself: transactions are atomic, foreign keys are enforced, affected-row counts exclude cascades, one process uses the database, and an update that reports an error has not been applied.
- JSON encoding of commands, environments and snapshots is the identity; a payload is only valid or malformed.
- YAML decoding, duration parsing and the token format are uninterpreted: decoding is left out, the other two are function parameters.
- Wording of error messages and summaries: they are values that carry what is printed.
- Panics: a slot is released without `defer`, so a panic inside an execution that something recovered from would leak it; the model has no panics.
- Graceful shutdown: the executor's `Close` does nothing, so a shutdown is a crash of the transition system; a failed authentication bootstrap is one too.
- Memory-model races: each step of an invocation is atomic, and a clock reading happens in the same step as the decision that uses it.
- Random run ids: any nonblank id may be generated, a taken one included.
- Bearer token matching, digests, command line, build information and packaging.
- Intervals.RejectRunsAreDisjoint: intervals may share one instant, because two readings of a clock that never goes back may be equal.
- Intervals.OverlappingRunWasOrphaned: a run id that was orphaned once counts as orphaned for good, even if retention removes its row and the id is drawn again.
- Queries.ApplyRetention: subtracts the age without bounds; `RetentionArithmetic.WordRetentionExact` proves that exact for a clock after 1970, and before that the 64-bit cutoff may wrap.
- Progress.ExactlyOneAttempt: a crash ends an invocation without its terminal write; the next boot's recovery writes that row instead (`Restart.BootRestoresCleanState`).
- ExecutionService.Service.Invoke: two method calls never overlap; interleaving is the subject of the transition system, to which `Simulation` ties single calls.
