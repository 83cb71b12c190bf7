/** The decisions of `execute`: which terminal update follows from how a process ended. */
module Execution {
  import opened Prelude
  import opened Records
  import opened TailBuffer

  /** `cmd.Wait` and `ProcessState`: the exit code is absent after a signal. */
  datatype Exit = Exit(waitFailed: bool, exitCode: Option<int>, stdout: Bytes, stderr: Bytes)

  /** The contract of `os/exec`: waiting fails unless the process exited with code 0. */
  predicate ExitPossible(e: Exit) {
    && (!e.waitFailed ==> e.exitCode == Some(0))
    && (e.exitCode.Some? ==> e.exitCode.value >= 0)
  }

  /** The update that `finishRun` sends: it keeps the run's id and start time. */
  function Finish(run: Run, status: Status, exitCode: Option<int>, finishedAt: int, stdout: Bytes, stderr: Bytes,
                  summary: Summary)
    : UpdateRunParams
  {
    UpdateRunParams(
      run.id, status, exitCode, run.row.startedAt, Some(finishedAt), status == TimedOut, stdout, stderr, summary)
  }

  /** The process could not be built or started. */
  function NotStarted(run: Run, summary: Summary, finishedAt: int): UpdateRunParams {
    Finish(run, Failed, None, finishedAt, [], [], summary)
  }

  /** `finishCompletion`. */
  function Completion(run: Run, limit: int, e: Exit, finishedAt: int): UpdateRunParams {
    var summary :=
      if !e.waitFailed then NoSummary
      else if e.exitCode.Some? then ExitedWithCode(e.exitCode.value)
      else WaitFailed;
    Finish(run, if e.waitFailed then Failed else Succeeded, e.exitCode, finishedAt,
           Tail(e.stdout, limit), Tail(e.stderr, limit), summary)
  }

  /** A status with its error summary. */
  datatype Verdict = Verdict(status: Status, summary: Summary)

  /** `interruptedStatus`, reading both contexts after the process is gone. */
  function InterruptedStatus(execError: Option<ContextError>, runError: Option<ContextError>, timeout: int): Verdict {
    if timeout > 0 && execError == Some(DeadlineExceeded) && runError.None?
    then Verdict(TimedOut, TimedOutAfter(timeout))
    else Verdict(Cancelled, ExecutionCancelled(execError))
  }

  /** The last branch of `execute`: a process that was killed and left no exit code. */
  function Interruption(run: Run, limit: int, timeout: int, e: Exit, execError: Option<ContextError>,
                        runError: Option<ContextError>, killFailed: bool, finishedAt: int): UpdateRunParams
  {
    var verdict := InterruptedStatus(execError, runError, timeout);
    Finish(run, verdict.status, None, finishedAt, Tail(e.stdout, limit), Tail(e.stderr, limit),
           if killFailed then WithKillFailure(verdict.summary) else verdict.summary)
  }

  /** After a kill: an exit that still has a code counts as a completion. */
  function AfterKill(run: Run, limit: int, timeout: int, e: Exit, execError: Option<ContextError>,
                     runError: Option<ContextError>, killFailed: bool, finishedAt: int): UpdateRunParams
  {
    if !e.waitFailed || e.exitCode.Some? then Completion(run, limit, e, finishedAt)
    else Interruption(run, limit, timeout, e, execError, runError, killFailed, finishedAt)
  }

  /** The update that recovery sends for a run the previous process left behind. */
  function Recovery(run: Run, finishedAt: int): UpdateRunParams {
    Finish(run, Cancelled, None, finishedAt, [], [], ServiceRestarted)
  }

  /** What every terminal row of the service satisfies. */
  predicate OutcomeConsistent(p: UpdateRunParams, limit: int) {
    var bound := if limit > 0 then limit else 0;
    && Terminal(p.status)
    && p.finishedAt.Some?
    && (p.timedOut <==> p.status == TimedOut)
    && (p.exitCode.Some? ==> p.status in {Succeeded, Failed})
    && (p.status == Succeeded ==> p.exitCode == Some(0))
    && |p.stdoutTail| <= bound && |p.stderrTail| <= bound
  }

  lemma CompletionConsistent(run: Run, limit: int, e: Exit, finishedAt: int)
    requires ExitPossible(e)
    ensures OutcomeConsistent(Completion(run, limit, e, finishedAt), limit)
    ensures Completion(run, limit, e, finishedAt).status != Cancelled
  {
  }

  lemma AfterKillConsistent(run: Run, limit: int, timeout: int, e: Exit, execError: Option<ContextError>,
                            runError: Option<ContextError>, killFailed: bool, finishedAt: int)
    requires ExitPossible(e)
    ensures OutcomeConsistent(AfterKill(run, limit, timeout, e, execError, runError, killFailed, finishedAt), limit)
  {
  }
}
