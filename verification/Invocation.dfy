/**
 One invocation and one recovery from the service's own point of view: what the
 environment shows them, and what they do to the tables. `ExecutionService` runs
 the same sequences statement by statement and is proved against these functions.
 */
module Invocation {
  import opened Prelude
  import opened Text
  import opened Records
  import opened Queries
  import opened Repository
  import opened Loading
  import opened TailBuffer
  import opened Execution
  import opened Lifecycle

  /** How the race between the process, the timer and the client ended. */
  datatype Ending =
    | NeverStarts
    | Completes(exit: Exit)
    | CompletesLate(exit: Exit)
    | Killed(exit: Exit, killFailed: bool)

  /** Everything one invocation learns from outside: ids, times, store faults, the process, both contexts. */
  datatype Observation = Observation(
    newId: Option<Id>, createdAt: int, creation: CreateFault,
    ending: Ending, execError: Option<ContextError>, runError: Option<ContextError>,
    finishedAt: int, updateFails: bool, unread: bool)

  predicate ExitsPossibly(e: Ending) {
    e.NeverStarts? || ExitPossible(e.exit)
  }

  /** Which context errors an invocation can see once its execution context has ended. */
  predicate ContextsPossible(mode: InvokeMode, timeout: int,
                             execError: Option<ContextError>, runError: Option<ContextError>)
  {
    && execError.Some?
    && (runError.None? ==> execError == Some(DeadlineExceeded) && timeout > 0)
    && (runError.Some? ==>
          mode == Sync && (execError == runError || (execError == Some(DeadlineExceeded) && timeout > 0)))
  }

  predicate Possible(mode: InvokeMode, action: Action, o: Observation) {
    && ExitsPossibly(o.ending)
    && (o.ending.CompletesLate? || o.ending.Killed? ==> ContextsPossible(mode, action.timeout, o.execError, o.runError))
    && o.createdAt != ZERO_TIME && o.finishedAt != ZERO_TIME
  }

  /** The one terminal update that `execute` sends. */
  function TerminalUpdate(run: Run, o: Observation): UpdateRunParams {
    var action := StoredAction(run);
    if !CommandBuilds(action) then NotStarted(run, CommandInvalid, o.finishedAt)
    else match o.ending
      case NeverStarts => NotStarted(run, StartFailed, o.finishedAt)
      case Completes(exit) => Completion(run, action.maxOutputBytes, exit, o.finishedAt)
      case CompletesLate(exit) => Completion(run, action.maxOutputBytes, exit, o.finishedAt)
      case Killed(exit, killFailed) =>
        AfterKill(run, action.maxOutputBytes, action.timeout, exit, o.execError, o.runError, killFailed, o.finishedAt)
  }

  /** Which status the race leads to, case by case; an exit code or a clean wait always wins over a context error. */
  lemma TerminalStatusExact(run: Run, o: Observation)
    requires CommandBuilds(StoredAction(run)) && !o.ending.NeverStarts?
    ensures var status, exit := TerminalUpdate(run, o).status, o.ending.exit;
            var signalled := o.ending.Killed? && exit.waitFailed && exit.exitCode.None?;
            var expired := StoredAction(run).timeout > 0 && o.execError == Some(DeadlineExceeded) && o.runError.None?;
            && (status == Succeeded <==> !exit.waitFailed)
            && (status == Failed <==> exit.waitFailed && !signalled)
            && (status == TimedOut <==> signalled && expired)
            && (status == Cancelled <==> signalled && !expired)
  {
  }

  function Finished(t: Tables, run: Run, o: Observation): Tables {
    var result := UpdateRun(t, TerminalUpdate(run, o));
    if o.updateFails || result.Failure? then t else result.value
  }

  lemma UpdateSaysWhatHappened(run: Run, o: Observation)
    requires CommandBuilds(StoredAction(run)) && !o.ending.NeverStarts?
    ensures var u, exit := TerminalUpdate(run, o), o.ending.exit;
            var interrupted := u.status in {TimedOut, Cancelled};
            && u.id == run.id && Terminal(u.status)
            && u.stdoutTail == Tail(exit.stdout, run.snapshot.maxOutputBytes)
            && u.stderrTail == Tail(exit.stderr, run.snapshot.maxOutputBytes)
            && u.exitCode == (if interrupted then None else exit.exitCode)
            && u.finishedAt == Some(o.finishedAt) && u.startedAt == run.row.startedAt
            && (interrupted ==> exit.exitCode.None?)
  {
  }

  /**
   What the finished row says is what happened: the process's own exit code and the
   tails of its own streams, the times as read, and everything else as it was created.
   */
  lemma OutcomeIsRecorded(t: Tables, run: Run, o: Observation)
    requires run.id in View(t) && View(t)[run.id] == run && !IsBlank(run.id)
    requires run.row.startedAt != Some(ZERO_TIME) && o.finishedAt != ZERO_TIME
    requires CommandBuilds(StoredAction(run)) && !o.ending.NeverStarts? && !o.updateFails
    ensures GetRun(Finished(t, run, o), run.id).Success?
    ensures var after, exit := GetRun(Finished(t, run, o), run.id).value, o.ending.exit;
            var interrupted := after.row.status in {TimedOut, Cancelled};
            && after.row.stdoutTail == Tail(exit.stdout, run.snapshot.maxOutputBytes)
            && after.row.stderrTail == Tail(exit.stderr, run.snapshot.maxOutputBytes)
            && after.row.exitCode == (if interrupted then None else exit.exitCode)
            && after.row.finishedAt == Some(o.finishedAt) && after.row.startedAt == run.row.startedAt
            && after.row.createdAt == run.row.createdAt && after.row.actionName == run.row.actionName
            && after.row.requestMetadata == run.row.requestMetadata && after.snapshot == run.snapshot
            && (interrupted ==> exit.exitCode.None?)
  {
    UpdateSaysWhatHappened(run, o);
    assert UpdateRun(t, TerminalUpdate(run, o)).Success?;
  }

  /** The status that the finished row carries is decided by the exit first, then by the deadline and the client. */
  lemma StatusIsRecorded(t: Tables, run: Run, o: Observation)
    requires run.id in View(t) && View(t)[run.id] == run && !IsBlank(run.id)
    requires run.row.startedAt != Some(ZERO_TIME) && o.finishedAt != ZERO_TIME
    requires CommandBuilds(StoredAction(run)) && !o.ending.NeverStarts? && !o.updateFails
    ensures run.id in Finished(t, run, o).runs
    ensures var status, exit := Finished(t, run, o).runs[run.id].status, o.ending.exit;
            var signalled := o.ending.Killed? && exit.waitFailed && exit.exitCode.None?;
            var expired := StoredAction(run).timeout > 0 && o.execError == Some(DeadlineExceeded) && o.runError.None?;
            && (status == Succeeded <==> !exit.waitFailed)
            && (status == Failed <==> exit.waitFailed && !signalled)
            && (status == TimedOut <==> signalled && expired)
            && (status == Cancelled <==> signalled && !expired)
  {
    TerminalStatusExact(run, o);
    FinishedStatus(t, run, o);
  }

  lemma FinishedStatus(t: Tables, run: Run, o: Observation)
    requires run.id in View(t) && View(t)[run.id] == run && !IsBlank(run.id)
    requires run.row.startedAt != Some(ZERO_TIME) && o.finishedAt != ZERO_TIME
    requires CommandBuilds(StoredAction(run)) && !o.ending.NeverStarts? && !o.updateFails
    ensures run.id in Finished(t, run, o).runs
    ensures Finished(t, run, o).runs[run.id].status == TerminalUpdate(run, o).status
  {
    UpdateSaysWhatHappened(run, o);
    assert UpdateRun(t, TerminalUpdate(run, o)).Success?;
  }

  /** No command can be built: the mode is unknown, or what the mode asks for is missing. */
  predicate NothingToRun(a: Action) {
    || a.mode.OtherMode?
    || (a.mode == CommandMode && a.command == [])
    || (a.mode == ShellMode && forall c :: c in a.shellCommand ==> IsSpace(c))
  }

  /** A run whose command cannot be built or started has failed, and says which of the two it was. */
  lemma FailureToStartIsRecorded(t: Tables, run: Run, o: Observation)
    requires run.id in View(t) && View(t)[run.id] == run && !IsBlank(run.id)
    requires run.row.startedAt != Some(ZERO_TIME) && o.finishedAt != ZERO_TIME
    requires (NothingToRun(StoredAction(run)) || o.ending.NeverStarts?) && !o.updateFails
    ensures run.id in View(Finished(t, run, o))
    ensures var after := View(Finished(t, run, o))[run.id];
            && after.row.status == Failed && after.row.exitCode == None && !after.row.timedOut
            && after.row.stdoutTail == [] && after.row.stderrTail == []
            && after.row.finishedAt == Some(o.finishedAt) && after.row.startedAt == run.row.startedAt
            && after.row.errorSummary == (if NothingToRun(StoredAction(run)) then CommandInvalid else StartFailed)
            && after.row.createdAt == run.row.createdAt && after.row.actionName == run.row.actionName
            && after.row.requestMetadata == run.row.requestMetadata && after.snapshot == run.snapshot
  {
    assert CommandBuilds(StoredAction(run)) <==> !NothingToRun(StoredAction(run));
    var u := TerminalUpdate(run, o);
    assert UpdateRun(t, u) == Success(t.(runs := t.runs[run.id := UpdatedRow(run.row, u)]));
  }

  /** The sentence that the finished row of a started process carries, by how the process ended. */
  lemma SummaryIsRecorded(t: Tables, run: Run, o: Observation)
    requires run.id in View(t) && View(t)[run.id] == run && !IsBlank(run.id)
    requires run.row.startedAt != Some(ZERO_TIME) && o.finishedAt != ZERO_TIME
    requires CommandBuilds(StoredAction(run)) && !o.ending.NeverStarts? && !o.updateFails
    ensures run.id in Finished(t, run, o).runs
    ensures var row, exit := Finished(t, run, o).runs[run.id], o.ending.exit;
            var signalled := o.ending.Killed? && exit.waitFailed && exit.exitCode.None?;
            var expired := o.execError == Some(DeadlineExceeded) && o.runError.None? && run.snapshot.timeout > 0;
            var cause := if expired then TimedOutAfter(run.snapshot.timeout) else ExecutionCancelled(o.execError);
            && (!exit.waitFailed ==> row.errorSummary == NoSummary)
            && (exit.waitFailed && exit.exitCode.Some? ==> row.errorSummary == ExitedWithCode(exit.exitCode.value))
            && (exit.waitFailed && exit.exitCode.None? && !signalled ==> row.errorSummary == WaitFailed)
            && (signalled ==> row.errorSummary == if o.ending.killFailed then WithKillFailure(cause) else cause)
            && (row.timedOut <==> signalled && expired)
  {
    var u := TerminalUpdate(run, o);
    UpdateSaysWhatHappened(run, o);
    assert UpdateRun(t, u) == Success(t.(runs := t.runs[run.id := UpdatedRow(run.row, u)]));
  }

  // ---- what the caller is told ----

  datatype InvokeFailure =
    | NotAdmitted(error: InvokeError)
    | Conflict
    | NoRunId
    | NotCreated(cause: StoreError)
    | NotFinished(cause: StoreError)
    | KillFailed

  /** The tables a call leaves and the result it returns. */
  datatype Answer = Answer(tables: Tables, result: Result<Run, InvokeFailure>)

  /** `createRun`: a lost reply leaves the run stored and still returns an error. */
  function Created(t: Tables, action: Action, metadata: Json, o: Observation): Answer {
    if o.newId.None? then Answer(t, Failure(NoRunId))
    else
      var p := CreationParams(action, metadata, o.newId.value, o.createdAt);
      var outcome := CreateRun(t, p, o.createdAt);
      var cause := if CreateError(p).Some? then CreateError(p).value else DatabaseError;
      if outcome.Failure? || o.creation !in {NoFault, LostReply} then Answer(t, Failure(NotCreated(cause)))
      else if o.creation == LostReply then Answer(outcome.value, Failure(NotCreated(DatabaseError)))
      else
        var read := GetRun(outcome.value, p.id);
        Answer(outcome.value, if read.Success? then Success(read.value) else Failure(NotCreated(read.error)))
  }

  /** `finishRun`: one update, then a read of the updated row. */
  function FinishedRun(t: Tables, p: UpdateRunParams, updateFails: bool, unread: bool): Answer {
    var outcome := UpdateRun(t, p);
    if UpdateError(p).Some? then Answer(t, Failure(NotFinished(UpdateError(p).value)))
    else if updateFails then Answer(t, Failure(NotFinished(DatabaseError)))
    else if outcome.Failure? then Answer(t, Failure(NotFinished(outcome.error)))
    else if unread then Answer(outcome.value, Failure(NotFinished(DatabaseError)))
    else
      var read := GetRun(outcome.value, p.id);
      Answer(outcome.value, if read.Success? then Success(read.value) else Failure(NotFinished(read.error)))
  }

  /** The process was killed and left no exit code. */
  predicate Signalled(run: Run, o: Observation) {
    CommandBuilds(StoredAction(run)) && o.ending.Killed? && o.ending.exit.waitFailed && o.ending.exit.exitCode.None?
  }

  /** `execute`: a failed kill is reported only once the outcome is recorded and read back. */
  function Executed(t: Tables, run: Run, o: Observation): Answer {
    var answer := FinishedRun(t, TerminalUpdate(run, o), o.updateFails, o.unread);
    if answer.result.Success? && Signalled(run, o) && o.ending.killFailed then answer.(result := Failure(KillFailed))
    else answer
  }

  /** `invokeAllow`, and `invokeReject` once it holds the slot, up to the return to the caller. */
  function Answered(t: Tables, action: Action, mode: InvokeMode, metadata: Json, o: Observation): Answer {
    var created := Created(t, action, metadata, o);
    if created.result.Failure? || mode == Async then created
    else Executed(created.tables, created.result.value, o)
  }

  /** The tables once the invocation has run to its end, in the caller or in the background. */
  function Invoked(t: Tables, action: Action, metadata: Json, o: Observation): Tables {
    var created := Created(t, action, metadata, o);
    if created.result.Failure? then created.tables else Finished(created.tables, created.result.value, o)
  }

  lemma ExecutedTables(t: Tables, run: Run, o: Observation)
    ensures Executed(t, run, o).tables == Finished(t, run, o)
  {
  }

  /** The tables a synchronous call leaves are those of the finished invocation. */
  lemma AnsweredTables(t: Tables, action: Action, metadata: Json, o: Observation)
    ensures Answered(t, action, Sync, metadata, o).tables == Invoked(t, action, metadata, o)
  {
    var created := Created(t, action, metadata, o);
    if created.result.Success? { ExecutedTables(created.tables, created.result.value, o); }
  }

  lemma TerminalUpdateValid(run: Run, o: Observation)
    requires !IsBlank(run.id) && run.row.startedAt != Some(ZERO_TIME) && o.finishedAt != ZERO_TIME
    ensures UpdateError(TerminalUpdate(run, o)) == None && TerminalUpdate(run, o).id == run.id
  {
  }

  /**
   When an invocation of an accepted action succeeds: there is a fresh id, the store
   creates and, for a synchronous caller, updates and reads the run, and no kill failed.
   */
  lemma AnswerSucceedsIff(t: Tables, action: Action, mode: InvokeMode, metadata: Json, o: Observation)
    requires Matched(t) && Runnable(action, action.name) && !metadata.Malformed?
    requires o.newId.Some? ==> !IsBlank(o.newId.value)
    requires o.createdAt != ZERO_TIME && o.finishedAt != ZERO_TIME
    ensures var killFailed := o.ending.Killed? && o.ending.killFailed
                              && o.ending.exit.waitFailed && o.ending.exit.exitCode.None?;
            Answered(t, action, mode, metadata, o).result.Success? <==>
              && o.newId.Some? && o.newId.value !in t.runs && o.creation == NoFault
              && (mode == Sync ==> !o.updateFails && !o.unread && !killFailed)
  {
    BlankTrimsToNothing(action.name);
    var created := Created(t, action, metadata, o);
    if created.result.Success? {
      var run := created.result.value;
      assert run.id in created.tables.runs && run.id in created.tables.snapshots && StoredAction(run) == action;
      TerminalUpdateValid(run, o);
    }
  }

  /** A created run is running, carries the times, the metadata and the whole action it was created from. */
  lemma CreationIsRecorded(t: Tables, action: Action, metadata: Json, o: Observation)
    requires Matched(t) && o.createdAt != ZERO_TIME && Created(t, action, metadata, o).result.Success?
    ensures var run, s := Created(t, action, metadata, o).result.value,
                          Created(t, action, metadata, o).result.value.snapshot;
            && o.newId == Some(run.id) && run.id !in t.runs
            && run.row.actionName == action.name && run.row.status == Running
            && run.row.createdAt == o.createdAt && run.row.startedAt == Some(o.createdAt)
            && run.row.finishedAt == None && run.row.exitCode == None && !run.row.timedOut
            && run.row.stdoutTail == [] && run.row.stderrTail == [] && run.row.errorSummary == NoSummary
            && run.row.requestMetadata == (if metadata.Payload? then Some(metadata.text) else None)
            && s.description == action.description && s.mode == action.mode && s.command == action.command
            && s.shellCommand == action.shellCommand && s.cwd == action.cwd && s.timeout == action.timeout
            && s.env == action.env && s.policy == action.policy
            && s.maxOutputBytes == action.maxOutputBytes && s.enabled == action.enabled
            && StoredAction(run) == action
  {
  }

  /** Creation adds one row to each table exactly if it commits, a lost reply notwithstanding. */
  lemma CreatedTablesExact(t: Tables, action: Action, metadata: Json, o: Observation)
    requires Matched(t) && Runnable(action, action.name) && !metadata.Malformed?
    requires (o.newId.Some? ==> !IsBlank(o.newId.value)) && o.createdAt != ZERO_TIME
    ensures var after := Created(t, action, metadata, o).tables;
            if o.newId.None? || o.newId.value in t.runs || o.creation !in {NoFault, LostReply} then after == t
            else
              && View(after).Keys == View(t).Keys + {o.newId.value}
              && (forall id :: id in View(t) ==> View(after)[id] == View(t)[id])
              && View(after)[o.newId.value].row.status == Running
              && View(after)[o.newId.value].snapshot == SnapshotOf(action)
  {
    BlankTrimsToNothing(action.name);
  }

  /** `a` answers with a run exactly as its own tables hold it. */
  predicate ReadsBack(a: Answer) {
    a.result.Success? ==>
      a.result.value.id in View(a.tables) && View(a.tables)[a.result.value.id] == a.result.value
  }

  lemma FinishedRunReadsBack(t: Tables, p: UpdateRunParams, updateFails: bool, unread: bool)
    ensures var a := FinishedRun(t, p, updateFails, unread);
            ReadsBack(a) && (a.result.Success? ==> a.result.value.id == p.id && a.result.value.row.status == p.status)
  {
  }

  lemma ExecutedReadsBack(t: Tables, run: Run, o: Observation)
    ensures var a := Executed(t, run, o);
            ReadsBack(a) && (a.result.Success? ==> a.result.value.id == run.id && Terminal(a.result.value.row.status))
  {
    FinishedRunReadsBack(t, TerminalUpdate(run, o), o.updateFails, o.unread);
    TerminalUpdateTerminal(run, o);
  }

  lemma TerminalUpdateTerminal(run: Run, o: Observation)
    ensures TerminalUpdate(run, o).id == run.id && Terminal(TerminalUpdate(run, o).status)
  {
  }

  /**
   A successful call returns the run that its own tables hold under the new id: finished
   if the call was synchronous, still running if it was not.
   */
  lemma AnswerReadsBack(t: Tables, action: Action, mode: InvokeMode, metadata: Json, o: Observation)
    ensures var a := Answered(t, action, mode, metadata, o);
            && ReadsBack(a)
            && (a.result.Success? ==>
                  && o.newId == Some(a.result.value.id)
                  && (mode == Sync ==> Terminal(a.result.value.row.status) && a.result.value.row.finishedAt.Some?)
                  && (mode == Async ==> a.result.value.row.status == Running))
  {
    var created := Created(t, action, metadata, o);
    if created.result.Success? {
      ExecutedReadsBack(created.tables, created.result.value, o);
      ExecutedIsFinished(created.tables, created.result.value, o);
    }
  }

  lemma ExecutedIsFinished(t: Tables, run: Run, o: Observation)
    ensures Executed(t, run, o).result.Success? ==>
              Executed(t, run, o).result.value.row.finishedAt == Some(o.finishedAt)
  {
  }

  /** Which error a call returns: the first thing that went wrong, and a failed kill only if nothing else did. */
  lemma AnswerErrorExact(t: Tables, action: Action, mode: InvokeMode, metadata: Json, o: Observation)
    requires Matched(t) && Runnable(action, action.name) && !metadata.Malformed?
    requires o.newId.Some? ==> !IsBlank(o.newId.value)
    requires o.createdAt != ZERO_TIME && o.finishedAt != ZERO_TIME
    requires Answered(t, action, mode, metadata, o).result.Failure?
    ensures Answered(t, action, mode, metadata, o).result.error ==
            if o.newId.None? then NoRunId
            else if o.newId.value in t.runs || o.creation != NoFault then NotCreated(DatabaseError)
            else if o.updateFails || o.unread then NotFinished(DatabaseError)
            else KillFailed
  {
    BlankTrimsToNothing(action.name);
    var created := Created(t, action, metadata, o);
    if created.result.Success? {
      var run := created.result.value;
      assert run.id in created.tables.runs && run.id in created.tables.snapshots && StoredAction(run) == action;
      TerminalUpdateValid(run, o);
    }
  }

  // ---- recovery ----

  /** What recovery learns from outside: `now(i)`, `fails(i)`, `unread(i)` are the clock and the faults of round `i`. */
  datatype RecoveryWorld = RecoveryWorld(listFails: bool, now: nat -> int, fails: nat -> bool, unread: nat -> bool)

  /** The tables after the first `n` rounds of recovery, the round `i` at time `now(i)`. */
  function Recovered(t: Tables, pending: seq<Run>, n: nat, now: nat -> int): Tables
    requires n <= |pending|
  {
    if n == 0 then t
    else
      var before := Recovered(t, pending, n - 1, now);
      var result := UpdateRun(before, Recovery(pending[n - 1], now(n - 1)));
      if result.Success? then result.value else before
  }

  lemma FinishedRunFailsIff(t: Tables, p: UpdateRunParams, updateFails: bool, unread: bool)
    requires Matched(t) && UpdateRun(t, p).Success?
    ensures var answer := FinishedRun(t, p, updateFails, unread);
            && (answer.result.Failure? <==> updateFails || unread)
            && answer.tables == if updateFails then t else UpdateRun(t, p).value
  {
  }

  /** Round `i`, after all earlier rounds have been applied. */
  function Round(t: Tables, pending: seq<Run>, i: nat, w: RecoveryWorld): Answer
    requires i < |pending|
  {
    FinishedRun(Recovered(t, pending, i, w.now), Recovery(pending[i], w.now(i)), w.fails(i), w.unread(i))
  }

  /** The first round at or after `i` that fails, or the number of rounds if none does. */
  function FirstFailure(t: Tables, pending: seq<Run>, i: nat, w: RecoveryWorld): (n: nat)
    requires i <= |pending|
    ensures i <= n <= |pending|
    ensures forall j | i <= j < n :: Round(t, pending, j, w).result.Success?
    ensures n < |pending| ==> Round(t, pending, n, w).result.Failure?
    decreases |pending| - i
  {
    if i == |pending| || Round(t, pending, i, w).result.Failure? then i else FirstFailure(t, pending, i + 1, w)
  }

  /** The tables that recovery leaves: those of all rounds before the first failing one, and what that one still did. */
  function RecoveredUntil(t: Tables, pending: seq<Run>, w: RecoveryWorld): Tables {
    var n := FirstFailure(t, pending, 0, w);
    if n == |pending| then Recovered(t, pending, n, w.now) else Round(t, pending, n, w).tables
  }
}
