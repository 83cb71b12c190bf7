/** What every reachable state of the service satisfies. */
module Invariant {
  import opened Prelude
  import opened Text
  import opened Records
  import opened Queries
  import opened Retention
  import opened Loading
  import opened Execution
  import opened Lifecycle

  /** What every stored row satisfies: a running row carries no outcome, a finished one a consistent outcome. */
  predicate RowConsistent(row: RunRow, snapshot: Snapshot) {
    var bound := if snapshot.maxOutputBytes > 0 then snapshot.maxOutputBytes else 0;
    && row.startedAt == Some(row.createdAt)
    && (row.status == Running || Terminal(row.status))
    && (row.finishedAt.Some? <==> row.status != Running)
    && (row.timedOut <==> row.status == TimedOut)
    && (row.exitCode.Some? ==> row.status in {Succeeded, Failed})
    && (row.status == Succeeded ==> row.exitCode == Some(0))
    && |row.stdoutTail| <= bound && |row.stderrTail| <= bound
  }

  predicate RowOk(db: Tables, id: Id) {
    id in db.runs ==>
      && id in db.snapshots && RowConsistent(db.runs[id], db.snapshots[id])
      && !IsBlank(id) && db.runs[id].createdAt != ZERO_TIME
      && db.runs[id].actionName != "" && TrimSpace(db.runs[id].actionName) == db.runs[id].actionName
  }

  ghost predicate TablesInv(db: Tables) {
    Matched(db) && forall id :: RowOk(db, id)
  }

  /** The run that a live invocation must still finish. */
  function OwnedRun(th: Thread): Option<Run> {
    match th.pc
    case Launching(run) => Some(run)
    case Waiting(run) => Some(run)
    case Interrupted(run) => Some(run)
    case Draining(run, _) => Some(run)
    case Writing(run, _) => Some(run)
    case _ => None
  }

  function RunOf(s: State, tid: nat): Option<Run> {
    if tid in s.threads then OwnedRun(s.threads[tid]) else None
  }

  predicate Owns(s: State, tid: nat, id: Id) {
    RunOf(s, tid).Some? && RunOf(s, tid).value.id == id
  }

  /** Between `beginRejectAction` and `finishRejectAction`. */
  predicate Holding(th: Thread) {
    th.action.policy == Reject && !th.pc.Entering?
  }

  function SlotOf(s: State, tid: nat): Option<string> {
    if tid in s.threads && Holding(s.threads[tid]) then Some(s.threads[tid].action.name) else None
  }

  predicate Holds(s: State, tid: nat, name: string) {
    SlotOf(s, tid) == Some(name)
  }

  /** An asynchronous invocation has no client whose departure could cancel it. */
  predicate ContextsInv(th: Thread) {
    th.mode == Async ==>
      && th.runError.None?
      && (th.execError.Some? ==> th.execError == Some(DeadlineExceeded) && th.action.timeout > 0)
  }

  predicate UpdateInv(th: Thread, run: Run, u: UpdateRunParams) {
    && u.id == run.id && u.startedAt == run.row.startedAt
    && OutcomeConsistent(u, th.action.maxOutputBytes)
    && (th.mode == Async ==> u.status != Cancelled)
    && u.finishedAt != Some(ZERO_TIME)
  }

  predicate PcInv(th: Thread) {
    match th.pc
    case Entering => th.process.Unstarted?
    case Preparing => th.process.Unstarted?
    case Inserting(id, createdAt) => th.process.Unstarted? && !IsBlank(id) && createdAt != ZERO_TIME
    case Launching(run) => th.process.Unstarted?
    case Waiting(run) => !th.process.Unstarted?
    case Interrupted(run) => !th.process.Unstarted? && th.execError.Some?
    case Draining(run, _) => !th.process.Unstarted? && th.execError.Some?
    case Writing(run, u) => UpdateInv(th, run, u)
    case _ => true
  }

  /** What an invocation knows on its own. */
  ghost predicate ThreadInv(th: Thread, registry: Registry) {
    && th.action.name in registry.byName && registry.byName[th.action.name] == th.action && th.action.enabled
    && Runnable(th.action, th.action.name)
    && !th.metadata.Malformed?
    && ContextsInv(th)
    && PcInv(th)
    && (th.process.Ended? ==> ExitPossible(th.process.exit))
    && (th.attempts > 0 ==> th.attempts == 1 && th.pc.Releasing?)
    && (OwnedRun(th).Some? ==>
          var run := OwnedRun(th).value;
          !IsBlank(run.id) && StoredAction(run) == th.action && run.row.startedAt == Some(run.row.createdAt)
          && run.row.createdAt != ZERO_TIME)
  }

  /** An owned run is the stored one, and it is still running. */
  predicate OwnedRow(db: Tables, orphans: map<Id, Fault>, owned: Option<Run>) {
    owned.Some? ==>
      var run := owned.value;
      && run.id in db.runs && run.id in db.snapshots
      && run == Run(run.id, db.runs[run.id], db.snapshots[run.id])
      && run.row.status == Running && run.id !in orphans
  }

  ghost predicate ThreadOk(s: State, tid: nat, registry: Registry) {
    tid in s.threads ==> ThreadInv(s.threads[tid], registry) && OwnedRow(s.db, s.orphans, OwnedRun(s.threads[tid]))
  }

  ghost predicate ThreadsInv(s: State, registry: Registry) {
    forall tid :: ThreadOk(s, tid, registry)
  }

  /** No two invocations own the same run. */
  ghost predicate RunsExclusive(s: State) {
    forall t, u, id :: Owns(s, t, id) && Owns(s, u, id) ==> t == u
  }

  /** No two invocations hold the same slot. */
  ghost predicate SlotsExclusive(s: State) {
    forall t, u, name :: Holds(s, t, name) && Holds(s, u, name) ==> t == u
  }

  /** A slot is taken exactly while some live invocation holds it. */
  ghost predicate SlotOk(s: State, name: string) {
    name in s.rejectRunning <==> exists tid :: Holds(s, tid, name)
  }

  ghost predicate SlotsInv(s: State) {
    SlotsExclusive(s) && forall name :: SlotOk(s, name)
  }

  /** A running row is owned by a live invocation or is a recorded orphan. */
  ghost predicate RunningOk(s: State, id: Id) {
    && (id in s.db.runs && s.db.runs[id].status == Running ==> id in s.orphans || exists tid :: Owns(s, tid, id))
    && (id in s.orphans ==> id in s.db.runs && s.db.runs[id].status == Running)
  }

  ghost predicate RunningInv(s: State) {
    RunsExclusive(s) && forall id :: RunningOk(s, id)
  }

  ghost predicate ServingInv(s: State, registry: Registry) {
    && RegistryRunnable(registry)
    && ThreadsInv(s, registry)
    && SlotsInv(s)
    && RunningInv(s)
  }

  /** `row` is what recovery makes of the row `running`. */
  predicate CancelledVersion(running: RunRow, row: RunRow) {
    && row.finishedAt.Some?
    && row == running.(status := Cancelled, exitCode := None, finishedAt := row.finishedAt, timedOut := false,
                   stdoutTail := [], stderrTail := [], errorSummary := ServiceRestarted)
  }

  /** Since the boot began a surviving row is unchanged, or it was running and recovery cancelled it. */
  ghost predicate BootRowOk(start: Tables, db: Tables, id: Id) {
    id in db.runs && id in start.runs && id in db.snapshots && id in start.snapshots ==>
      && db.snapshots[id] == start.snapshots[id]
      && (db.runs[id] == start.runs[id] ||
          (start.runs[id].status == Running && CancelledVersion(start.runs[id], db.runs[id])))
  }

  /** Retention kept exactly the survivors, and recovery has touched only running rows. */
  ghost predicate BootInv(config: BootConfig, start: Tables, prunedAt: int, db: Tables) {
    && TablesInv(start)
    && config.retention.maxAge >= 0 && config.retention.maxRuns >= 0
    && db.lastPrunedAt == Some(prunedAt)
    && db.runs.Keys == Survivors(start, config.retention, prunedAt)
    && forall id :: BootRowOk(start, db, id)
  }

  predicate IsPending(pending: seq<Run>, id: Id) {
    exists i :: 0 <= i < |pending| && pending[i].id == id
  }

  /** The pending list of recovery holds exactly the running rows, once each, as stored. */
  ghost predicate PendingInv(db: Tables, pending: seq<Run>) {
    && (forall i, j | 0 <= i < j < |pending| :: pending[i].id != pending[j].id)
    && (forall i | 0 <= i < |pending| :: OwnedRow(db, map[], Some(pending[i])))
    && (forall id :: id in db.runs && db.runs[id].status == Running ==> IsPending(pending, id))
  }

  ghost predicate PhaseInv(s: State) {
    match s.phase
    case Down => true
    case Opened(config, start) =>
      RegistryRunnable(config.registry) && ConfigUsable(config) && start == s.db
    case Pruned(config, start, at) =>
      RegistryRunnable(config.registry) && BootInv(config, start, at, s.db)
    case Recovering(config, start, at, pending) =>
      RegistryRunnable(config.registry) && BootInv(config, start, at, s.db) && PendingInv(s.db, pending)
    case Serving(registry) => ServingInv(s, registry)
  }

  /** Outside serving there are no invocations, no slots and no recorded orphans. */
  predicate Idle(s: State) {
    s.rejectRunning == {} && s.threads == map[] && s.orphans == map[]
  }

  ghost predicate Inv(s: State) {
    TablesInv(s.db) && s.clock != ZERO_TIME && PhaseInv(s) && (!s.phase.Serving? ==> Idle(s))
  }
}
