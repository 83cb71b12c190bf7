/**
 The values that the service stores and exchanges. Times are Unix nanoseconds.
 Texts with a fixed vocabulary are datatypes whose last case carries any other
 text. A value stands for the text it was made from by `StatusOf` or `PolicyOf`;
 between such values equality is equality of the texts (`StatusOfInjective`).
 */
module Records {
  import opened Prelude
  import opened Text

  newtype byte = x: int | 0 <= x < 256
  type Bytes = seq<byte>
  type Id = string

  datatype Status = Running | Succeeded | Failed | TimedOut | Cancelled | Other(text: string)

  function StatusOf(text: string): Status {
    match text
    case "running" => Running
    case "succeeded" => Succeeded
    case "failed" => Failed
    case "timed_out" => TimedOut
    case "cancelled" => Cancelled
    case _ => Other(text)
  }

  lemma StatusOfInjective(a: string, b: string)
    ensures StatusOf(a) == StatusOf(b) <==> a == b
  {
  }

  /** The five status texts, and no other, name a status of their own. */
  lemma StatusTexts(text: string)
    ensures StatusOf(text) == Running <==> text == "running"
    ensures StatusOf(text) == Succeeded <==> text == "succeeded"
    ensures StatusOf(text) == Failed <==> text == "failed"
    ensures StatusOf(text) == TimedOut <==> text == "timed_out"
    ensures StatusOf(text) == Cancelled <==> text == "cancelled"
    ensures StatusOf(text).Other? <==> text !in {"running", "succeeded", "failed", "timed_out", "cancelled"}
    ensures StatusText(StatusOf(text)) == text
  {
  }

  function TrimStatus(status: Status): Status {
    match status
    case Other(text) => StatusOf(TrimSpace(text))
    case _ => status
  }

  function StatusText(status: Status): string {
    match status
    case Running => "running"
    case Succeeded => "succeeded"
    case Failed => "failed"
    case TimedOut => "timed_out"
    case Cancelled => "cancelled"
    case Other(text) => text
  }

  /** The canonical texts carry no outer spaces. */
  lemma StatusTextTrimmed(status: Status)
    requires !status.Other?
    ensures TrimSpace(StatusText(status)) == StatusText(status) && StatusText(status) != ""
    ensures StatusOf(StatusText(status)) == status && !IsBlank(StatusText(status))
  {
    var text := StatusText(status);
    assert text[0] in text && !IsSpace(text[0]);
  }

  lemma TrimStatusOfText(text: string)
    ensures TrimStatus(StatusOf(text)) == StatusOf(TrimSpace(text))
  {
    match StatusOf(text)
    case Other(other) =>
      assert other == text;
    case status =>
      assert text == StatusText(status);
      StatusTextTrimmed(status);
  }

  lemma BlankIsNoStatus()
    ensures StatusOf("") == Other("") && TrimSpace("") == ""
  {
  }

  /** `validateRunStatus`: the trimmed text must be one of the five statuses. */
  predicate StatusAccepted(status: Status) {
    !TrimStatus(status).Other?
  }

  predicate Terminal(status: Status) {
    status in {Succeeded, Failed, TimedOut, Cancelled}
  }

  datatype Policy = Allow | Reject | OtherPolicy(text: string)

  function PolicyOf(text: string): Policy {
    match text
    case "allow" => Allow
    case "reject" => Reject
    case _ => OtherPolicy(text)
  }

  datatype Mode = CommandMode | ShellMode | OtherMode(text: string)

  /** `config.Action`. */
  datatype Action = Action(
    name: string, description: string, mode: Mode, command: seq<string>, shellCommand: string, cwd: string,
    timeout: int, env: map<string, string>, policy: Policy, maxOutputBytes: int, enabled: bool)

  /** `storage.ActionSnapshot`: an action without its name. */
  datatype Snapshot = Snapshot(
    description: string, mode: Mode, command: seq<string>, shellCommand: string, cwd: string,
    timeout: int, env: map<string, string>, policy: Policy, maxOutputBytes: int, enabled: bool)

  /** Why a context ended. */
  datatype ContextError = Canceled | DeadlineExceeded

  /** The sentences that the service writes to `error_summary`. */
  datatype Summary =
    | NoSummary
    | CommandInvalid
    | StartFailed
    | ExitedWithCode(code: int)
    | WaitFailed
    | TimedOutAfter(timeout: int)
    | ExecutionCancelled(cause: Option<ContextError>)
    | WithKillFailure(summary: Summary)
    | ServiceRestarted

  /** A JSON payload as the caller sent it; only its validity matters here. */
  datatype Json = NoPayload | Payload(text: string) | Malformed(text: string)

  /** A row of `microhook_runs` without its key. */
  datatype RunRow = RunRow(
    actionName: string, status: Status, exitCode: Option<int>,
    createdAt: int, startedAt: Option<int>, finishedAt: Option<int>, timedOut: bool,
    requestMetadata: Option<string>, stdoutTail: Bytes, stderrTail: Bytes, errorSummary: Summary)

  /** `storage.Run`: a row of the view `microhook_run_records`. */
  datatype Run = Run(id: Id, row: RunRow, snapshot: Snapshot)

  datatype CreateRunParams = CreateRunParams(
    id: Id, actionName: string, status: Status, createdAt: int, startedAt: Option<int>,
    requestMetadata: Json, stdoutTail: Bytes, stderrTail: Bytes, errorSummary: Summary, snapshot: Snapshot)

  datatype UpdateRunParams = UpdateRunParams(
    id: Id, status: Status, exitCode: Option<int>, startedAt: Option<int>, finishedAt: Option<int>,
    timedOut: bool, stdoutTail: Bytes, stderrTail: Bytes, errorSummary: Summary)

  /** Filter texts as the caller sent them. */
  datatype RunFilter = RunFilter(actionName: string, status: string)

  datatype RetentionPolicy = RetentionPolicy(maxAge: int, maxRuns: int)

  datatype StoreError =
    InvalidRunState | InvalidRetention | InvalidTimestamp | InvalidJson | RunNotFound | DatabaseError

  /** `actionSnapshotFromConfig`. */
  function SnapshotOf(action: Action): Snapshot {
    Snapshot(action.description, action.mode, action.command, action.shellCommand, action.cwd,
             action.timeout, action.env, action.policy, action.maxOutputBytes, action.enabled)
  }

  /** `actionFromStoredRun`. */
  function StoredAction(run: Run): Action {
    var s := run.snapshot;
    Action(run.row.actionName, s.description, s.mode, s.command, s.shellCommand, s.cwd,
           s.timeout, s.env, s.policy, s.maxOutputBytes, s.enabled)
  }
}
