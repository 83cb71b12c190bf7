/**
 The run lifecycle as a transition system: many invocations interleave with each
 other, with their processes, contexts and timers, with crashes at any point and
 with restarts that prune, recover and serve again. A step is deterministic given
 its label, so labels carry every choice of the scheduler and of the environment.
 */
module Lifecycle {
  import opened Prelude
  import opened Text
  import opened Records
  import opened Queries
  import opened Loading
  import opened Execution

  // ---- invocations ----

  datatype InvokeMode = Sync | Async

  /** An invocation request; `mode` is the caller's text. */
  datatype Request = Request(actionName: string, mode: string, input: Json, metadata: Json)

  datatype InvokeError =
    NameRequired | ActionNotFound | ActionDisabled | InvalidPayload | InvalidMode | UnsupportedPolicy

  datatype Admission = Admitted(action: Action, mode: InvokeMode) | Refused(error: InvokeError)

  function ModeOf(text: string): Option<InvokeMode> {
    match TrimSpace(text)
    case "" => Some(Sync)
    case "sync" => Some(Sync)
    case "async" => Some(Async)
    case _ => None
  }

  /** The checks of `Invoke` before it dispatches on the concurrency policy. */
  function Admit(registry: Registry, q: Request): Admission {
    var name := TrimSpace(q.actionName);
    if name == "" then Refused(NameRequired)
    else if name !in registry.byName then Refused(ActionNotFound)
    else
      var action := registry.byName[name];
      if !action.enabled then Refused(ActionDisabled)
      else if q.input.Malformed? || q.metadata.Malformed? then Refused(InvalidPayload)
      else if ModeOf(q.mode).None? then Refused(InvalidMode)
      else if action.policy.OtherPolicy? then Refused(UnsupportedPolicy)
      else Admitted(action, ModeOf(q.mode).value)
  }

  datatype Process = Unstarted | Alive | Ended(exit: Exit)

  /** Where an invocation stands. A state that follows the insert carries the run that the insert returned. */
  datatype Pc =
    | Entering
    | Preparing
    | Inserting(id: Id, createdAt: int)
    | Launching(run: Run)
    | Waiting(run: Run)
    | Interrupted(run: Run)
    | Draining(run: Run, killFailed: bool)
    | Writing(run: Run, update: UpdateRunParams)
    | Releasing

  /** `attempts` counts the terminal updates the invocation has tried; the program has no such variable. */
  datatype Thread = Thread(
    action: Action, mode: InvokeMode, metadata: Json, pc: Pc,
    runError: Option<ContextError>, execError: Option<ContextError>, process: Process, attempts: nat)

  // ---- the service ----

  datatype BootConfig = BootConfig(registry: Registry, retention: RetentionPolicy)

  /** Booting phases remember the tables found at the start of the boot; the program does not. */
  datatype Phase =
    | Down
    | Opened(config: BootConfig, start: Tables)
    | Pruned(config: BootConfig, start: Tables, prunedAt: int)
    | Recovering(config: BootConfig, start: Tables, prunedAt: int, pending: seq<Run>)
    | Serving(registry: Registry)

  /** The two ways a `running` row can lose its invocation while the service keeps serving. */
  datatype Fault = FailedUpdate | LostCreate

  /** `orphans` records which fault left which row behind; the program has no such variable. */
  datatype State = State(
    db: Tables, phase: Phase, rejectRunning: set<string>, threads: map<nat, Thread>, clock: int,
    orphans: map<Id, Fault>)

  datatype InsertOutcome = Stored | NotStored | StoredButUnread

  datatype CancelOutcome = Cancels | CancelsUnread | CancelFails

  datatype Event =
    | Claim | Prepare(newId: Option<Id>) | Insert(inserted: InsertOutcome) | Launch(starts: bool)
    | TakeExit | SeeDone | Kill(fails: bool) | Reap | Write(ok: bool) | Release
    | ClientGone(cause: ContextError) | TimerFires | ProcessEnds(exit: Exit)

  datatype Label =
    | Tick(now: int)
    | Crash
    | Boot(config: BootConfig) | Prune(ok: bool) | ListInterrupted(ok: bool)
    | CancelNext(outcome: CancelOutcome) | Serve
    | Accept(tid: nat, request: Request)
    | Step(tid: nat, event: Event)

  /** Steps of the invocation itself, as opposed to its client, timer and process. */
  predicate Own(e: Event) {
    !e.ClientGone? && !e.TimerFires? && !e.ProcessEnds?
  }

  /** The two fault edges. */
  predicate Faulty(l: Label) {
    l.Step? && (l.event == Write(false) || l.event == Insert(StoredButUnread))
  }

  predicate ConfigUsable(c: BootConfig) {
    c.retention.maxRuns >= 0
  }

  predicate Initial(s: State) {
    s.db == EMPTY && s.phase == Down && s.rejectRunning == {} && s.threads == map[] && s.orphans == map[]
    && s.clock != ZERO_TIME
  }

  /** What `createRun` sends: a run that is running from the moment it is created. */
  function CreationParams(action: Action, metadata: Json, id: Id, createdAt: int): CreateRunParams {
    CreateRunParams(id, action.name, Running, createdAt, Some(createdAt), metadata, [], [], NoSummary,
                    SnapshotOf(action))
  }

  /** Both contexts exist once the process has been started. */
  predicate Started(th: Thread) {
    th.pc.Waiting? || th.pc.Interrupted? || th.pc.Draining?
  }

  predicate EventEnabled(th: Thread, e: Event) {
    match e
    case Claim => th.pc.Entering?
    case Prepare(newId) => th.pc.Preparing? && (newId.Some? ==> !IsBlank(newId.value))
    case Insert(_) => th.pc.Inserting?
    case Launch(_) => th.pc.Launching?
    case TakeExit => (th.pc.Waiting? || th.pc.Interrupted?) && th.process.Ended?
    case SeeDone => th.pc.Waiting? && th.execError.Some?
    case Kill(_) => th.pc.Interrupted? && th.process.Alive?
    case Reap => th.pc.Draining? && th.process.Ended?
    case Write(_) => th.pc.Writing?
    case Release => th.pc.Releasing?
    case ClientGone(_) => th.mode == Sync && th.runError.None?
    case TimerFires => Started(th) && th.action.timeout > 0 && th.execError.None?
    case ProcessEnds(exit) => th.process.Alive? && ExitPossible(exit)
  }

  ghost predicate Enabled(s: State, l: Label) {
    match l
    case Tick(now) => now != ZERO_TIME
    case Crash => true
    case Boot(config) => s.phase.Down? && RegistryRunnable(config.registry) && ConfigUsable(config)
    case Prune(_) => s.phase.Opened?
    case ListInterrupted(_) => s.phase.Pruned?
    case CancelNext(_) => s.phase.Recovering? && s.phase.pending != []
    case Serve => s.phase.Recovering? && s.phase.pending == []
    case Accept(tid, q) => s.phase.Serving? && tid !in s.threads && Admit(s.phase.registry, q).Admitted?
    case Step(tid, e) => s.phase.Serving? && tid in s.threads && EventEnabled(s.threads[tid], e)
  }

  /** An invocation that has been let in and has done nothing yet. */
  function Entered(admission: Admission, q: Request): Thread
    requires admission.Admitted?
  {
    Thread(admission.action, admission.mode, q.metadata, Entering, None, None, Unstarted, 0)
  }

  /** The process is gone: nothing volatile survives, the tables do. */
  function Stopped(s: State): State {
    s.(phase := Down, rejectRunning := {}, threads := map[], orphans := map[])
  }

  function Apply(s: State, l: Label): State {
    match l
    case Tick(now) => s.(clock := now)
    case Crash => Stopped(s)
    case Boot(config) => s.(phase := Opened(config, s.db))
    case Prune(ok) => ApplyPrune(s, ok)
    case ListInterrupted(ok) => ApplyList(s, ok)
    case CancelNext(outcome) => ApplyCancel(s, outcome)
    case Serve =>
      if !s.phase.Recovering? then s
      else s.(phase := Serving(s.phase.config.registry), rejectRunning := {}, threads := map[], orphans := map[])
    case Accept(tid, q) =>
      if !s.phase.Serving? then s
      else
        var admission := Admit(s.phase.registry, q);
        if admission.Refused? then s
        else SetThread(s, tid, Entered(admission, q))
    case Step(tid, e) => if tid !in s.threads then s else ApplyEvent(s, tid, s.threads[tid], e)
  }

  function ApplyPrune(s: State, ok: bool): State {
    if !s.phase.Opened? then s
    else
      var result := ApplyRetention(s.db, s.phase.config.retention, s.clock);
      if !ok || result.Failure? then Stopped(s)
      else s.(db := result.value.tables, phase := Pruned(s.phase.config, s.phase.start, s.clock))
  }

  /** `cancelInterruptedRuns` lists first; `execution.New` has just made an empty service. */
  function ApplyList(s: State, ok: bool): State {
    if !s.phase.Pruned? then s
    else if !ok then Stopped(s)
    else s.(phase := Recovering(s.phase.config, s.phase.start, s.phase.prunedAt, Select(s.db, ByStatus(Running))))
  }

  /** One round of the recovery loop; any error ends the boot. */
  function ApplyCancel(s: State, outcome: CancelOutcome): State {
    if !s.phase.Recovering? || s.phase.pending == [] then s
    else
      var result := UpdateRun(s.db, Recovery(s.phase.pending[0], s.clock));
      if outcome == CancelFails || result.Failure? then Stopped(s)
      else
        var updated := s.(db := result.value);
        if outcome == CancelsUnread then Stopped(updated)
        else updated.(phase := s.phase.(pending := s.phase.pending[1..]))
  }

  function SetThread(s: State, tid: nat, th: Thread): State {
    s.(threads := s.threads[tid := th])
  }

  function DropThread(s: State, tid: nat): State {
    s.(threads := s.threads - {tid})
  }

  function ApplyEvent(s: State, tid: nat, th: Thread, e: Event): State {
    match e
    case Claim => ApplyClaim(s, tid, th)
    case Insert(outcome) => ApplyInsert(s, tid, th, outcome)
    case Write(ok) => ApplyWrite(s, tid, th, ok)
    case Release =>
      var dropped := DropThread(s, tid);
      if th.action.policy == Reject then dropped.(rejectRunning := s.rejectRunning - {th.action.name}) else dropped
    case _ => SetThread(s, tid, Local(th, e, s.clock))
  }

  /** `beginRejectAction` for the reject policy; the allow policy takes no slot. */
  function ApplyClaim(s: State, tid: nat, th: Thread): State {
    if th.action.policy != Reject then SetThread(s, tid, th.(pc := Preparing))
    else if th.action.name in s.rejectRunning then DropThread(s, tid)
    else SetThread(s.(rejectRunning := s.rejectRunning + {th.action.name}), tid, th.(pc := Preparing))
  }

  function ApplyInsert(s: State, tid: nat, th: Thread, outcome: InsertOutcome): State {
    if !th.pc.Inserting? then s
    else
      var id := th.pc.id;
      var result := CreateRun(s.db, CreationParams(th.action, th.metadata, id, th.pc.createdAt), s.clock);
      var failed := th.(pc := Releasing);
      if result.Failure? || outcome == NotStored then SetThread(s, tid, failed)
      else if outcome == StoredButUnread then
        SetThread(s.(db := result.value, orphans := s.orphans[id := LostCreate]), tid, failed)
      else
        var read := GetRun(result.value, id);
        SetThread(s.(db := result.value), tid, if read.Success? then th.(pc := Launching(read.value)) else failed)
  }

  /** The final update: its failure is not retried, and the slot is released either way. */
  function ApplyWrite(s: State, tid: nat, th: Thread, ok: bool): State {
    if !th.pc.Writing? then s
    else
      var result := UpdateRun(s.db, th.pc.update);
      var done := th.(pc := Releasing, attempts := th.attempts + 1);
      if !ok then SetThread(s.(orphans := s.orphans[th.pc.run.id := FailedUpdate]), tid, done)
      else if result.Failure? then SetThread(s, tid, done)
      else SetThread(s.(db := result.value), tid, done)
  }

  /** Events that change nothing but the invocation's own state. */
  function Local(th: Thread, e: Event, now: int): Thread {
    match e
    case Prepare(newId) => th.(pc := if newId.Some? then Inserting(newId.value, now) else Releasing)
    case Launch(starts) => if th.pc.Launching? then Launched(th, th.pc.run, starts, now) else th
    case TakeExit =>
      if (th.pc.Waiting? || th.pc.Interrupted?) && th.process.Ended? then
        var run := th.pc.run;
        th.(pc := Writing(run, Completion(run, StoredAction(run).maxOutputBytes, th.process.exit, now)))
      else th
    case SeeDone => if th.pc.Waiting? then th.(pc := Interrupted(th.pc.run)) else th
    case Kill(fails) => if th.pc.Interrupted? then th.(pc := Draining(th.pc.run, fails)) else th
    case Reap =>
      if th.pc.Draining? && th.process.Ended? then
        var run := th.pc.run;
        var action := StoredAction(run);
        th.(pc := Writing(run, AfterKill(run, action.maxOutputBytes, action.timeout, th.process.exit,
                                         th.execError, th.runError, th.pc.killFailed, now)))
      else th
    case ClientGone(cause) =>
      th.(runError := Some(cause),
          execError := if Started(th) && th.execError.None? then Some(cause) else th.execError)
    case TimerFires => th.(execError := Some(DeadlineExceeded))
    case ProcessEnds(exit) => th.(process := Ended(exit))
    case _ => th
  }

  /** `execute` up to the first select, on the action read back from the store. */
  function Launched(th: Thread, run: Run, starts: bool, now: int): Thread {
    if !CommandBuilds(StoredAction(run)) then th.(pc := Writing(run, NotStarted(run, CommandInvalid, now)))
    else if !starts then th.(pc := Writing(run, NotStarted(run, StartFailed, now)))
    else th.(pc := Waiting(run), process := Alive, execError := th.runError)
  }

  // ---- runs of the system ----

  /** `labels` can be taken one after the other from `s`. */
  ghost predicate Executes(s: State, labels: seq<Label>)
    decreases |labels|
  {
    labels == [] || (Enabled(s, labels[0]) && Executes(Apply(s, labels[0]), labels[1..]))
  }

  function Final(s: State, labels: seq<Label>): State
    decreases |labels|
  {
    if labels == [] then s else Final(Apply(s, labels[0]), labels[1..])
  }

  lemma FirstStep(s: State, l: Label, rest: seq<Label>)
    requires Enabled(s, l) && Executes(Apply(s, l), rest)
    ensures Executes(s, [l] + rest) && Final(s, [l] + rest) == Final(Apply(s, l), rest)
  {
  }

  lemma HeadAppended<T>(a: seq<T>, b: seq<T>)
    requires a != []
    ensures a + b == [a[0]] + (a[1..] + b)
  {
  }

  lemma {:induction false} RunsCompose(s: State, first: seq<Label>, second: seq<Label>)
    requires Executes(s, first) && Executes(Final(s, first), second)
    ensures Executes(s, first + second) && Final(s, first + second) == Final(Final(s, first), second)
    decreases |first|
  {
    if first == [] {
      assert first + second == second;
    } else {
      RunsCompose(Apply(s, first[0]), first[1..], second);
      FirstStep(s, first[0], first[1..] + second);
      HeadAppended(first, second);
    }
  }

  /** Some steps lead from `s` to `after`. */
  ghost predicate Leads(s: State, after: State) {
    exists labels :: Executes(s, labels) && Final(s, labels) == after
  }

  lemma OneStep(s: State, l: Label)
    requires Enabled(s, l)
    ensures Leads(s, Apply(s, l))
  {
    FirstStep(s, l, []);
    assert Executes(s, [l] + []);
  }

  lemma LeadsThrough(s: State, middle: State, after: State)
    requires Leads(s, middle) && Leads(middle, after)
    ensures Leads(s, after)
  {
    var first :| Executes(s, first) && Final(s, first) == middle;
    var second :| Executes(middle, second) && Final(middle, second) == after;
    RunsCompose(s, first, second);
  }

  /** Some steps without either fault lead from `s` to `after`. */
  ghost predicate LeadsCleanly(s: State, after: State) {
    exists labels :: Executes(s, labels) && (forall l :: l in labels ==> !Faulty(l)) && Final(s, labels) == after
  }

  lemma OneCleanStep(s: State, l: Label)
    requires Enabled(s, l) && !Faulty(l)
    ensures LeadsCleanly(s, Apply(s, l))
  {
    FirstStep(s, l, []);
    assert Executes(s, [l] + []);
  }

  lemma CleanlyThrough(s: State, middle: State, after: State)
    requires LeadsCleanly(s, middle) && LeadsCleanly(middle, after)
    ensures LeadsCleanly(s, after)
  {
    var first :| Executes(s, first) && (forall l :: l in first ==> !Faulty(l)) && Final(s, first) == middle;
    var second :| Executes(middle, second) && (forall l :: l in second ==> !Faulty(l))
                  && Final(middle, second) == after;
    RunsCompose(s, first, second);
    assert forall l :: l in first + second ==> l in first || l in second;
  }

  lemma CleanlyLeads(s: State, after: State)
    requires LeadsCleanly(s, after)
    ensures Leads(s, after)
  {
  }

  ghost predicate Reachable(s: State) {
    exists init, labels :: Initial(init) && Executes(init, labels) && Final(init, labels) == s
  }

  lemma ReachesFurther(s: State, after: State)
    requires Reachable(s) && Leads(s, after)
    ensures Reachable(after)
  {
    var init, first :| Initial(init) && Executes(init, first) && Final(init, first) == s;
    var second :| Executes(s, second) && Final(s, second) == after;
    RunsCompose(init, first, second);
  }
}
