/** How one run's row may change: over one step, and over every run of the system. */
module History {
  import opened Prelude
  import opened Records
  import opened Queries
  import opened Retention
  import opened Lifecycle
  import opened Invariant
  import opened Preservation
  import opened Booting
  import opened StoreRefinement

  /** The steps that finish run `id`: its own invocation's update, or its turn in recovery. */
  predicate Finishes(s: State, l: Label, id: Id) {
    || (l.Step? && l.event == Write(true) && Owns(s, l.tid, id))
    || (l.CancelNext? && s.phase.Recovering? && s.phase.pending != [] && s.phase.pending[0].id == id)
  }

  /** `b` is `a` with an outcome: a terminal status, and what creation fixed unchanged. */
  predicate FinishedVersion(a: RunRow, b: RunRow) {
    && a.status == Running && Terminal(b.status) && b.finishedAt.Some?
    && b == a.(status := b.status, exitCode := b.exitCode, finishedAt := b.finishedAt, timedOut := b.timedOut,
               stdoutTail := b.stdoutTail, stderrTail := b.stderrTail, errorSummary := b.errorSummary)
  }

  /** What a step may do to a stored row: nothing, or finish it. */
  ghost predicate RowKept(s: State, l: Label, after: State, id: Id)
    requires id in s.db.runs
  {
    && id in after.db.runs
    && (after.db.runs[id] == s.db.runs[id] ||
        (Finishes(s, l, id) && FinishedVersion(s.db.runs[id], after.db.runs[id])))
    && (id in s.db.snapshots && id in after.db.snapshots ==> after.db.snapshots[id] == s.db.snapshots[id])
  }

  // ---- one step ----

  lemma WriteFinishes(s: State, tid: nat, ok: bool, id: Id)
    requires s.phase.Serving? && tid in s.threads && s.threads[tid].pc.Writing? && ThreadOk(s, tid, s.phase.registry)
    requires id in s.db.runs
    ensures RowKept(s, Step(tid, Write(ok)), ApplyWrite(s, tid, s.threads[tid], ok), id)
  {
    var th := s.threads[tid];
    WriteApplied(s, tid, th, ok, s.phase.registry);
    OwnedRowFinished(s, tid);
  }

  /** The row that an invocation is about to write is a finished version of the stored one. */
  lemma OwnedRowFinished(s: State, tid: nat)
    requires s.phase.Serving? && tid in s.threads && s.threads[tid].pc.Writing? && ThreadOk(s, tid, s.phase.registry)
    ensures var run := s.threads[tid].pc.run;
            && run.id in s.db.runs && s.db.runs[run.id] == run.row
            && FinishedVersion(run.row, UpdatedRow(run.row, s.threads[tid].pc.update))
  {
  }

  lemma OtherEventKeepsRow(s: State, tid: nat, e: Event, id: Id)
    requires s.phase.Serving? && tid in s.threads && EventEnabled(s.threads[tid], e) && !e.Write? && id in s.db.runs
    ensures RowKept(s, Step(tid, e), ApplyEvent(s, tid, s.threads[tid], e), id)
  {
  }

  lemma EventKeepsRow(s: State, tid: nat, e: Event, id: Id)
    requires Inv(s) && Enabled(s, Step(tid, e)) && id in s.db.runs
    ensures RowKept(s, Step(tid, e), ApplyEvent(s, tid, s.threads[tid], e), id)
  {
    if e.Write? {
      assert ThreadOk(s, tid, s.phase.registry);
      WriteFinishes(s, tid, e.ok, id);
    } else {
      OtherEventKeepsRow(s, tid, e, id);
    }
  }

  lemma CancelFinishes(s: State, outcome: CancelOutcome, id: Id)
    requires Inv(s) && Enabled(s, CancelNext(outcome)) && id in s.db.runs
    ensures RowKept(s, CancelNext(outcome), ApplyCancel(s, outcome), id)
  {
    RecoveryAccepted(s.db, s.phase.pending[0], s.clock);
  }

  lemma PruneKeepsRow(s: State, ok: bool, id: Id)
    requires Inv(s) && s.phase.Opened? && id in s.db.runs
    ensures var after := ApplyPrune(s, ok);
            if id in after.db.runs then RowKept(s, Label.Prune(ok), after, id) else s.db.runs[id].status != Running
  {
    var config := s.phase.config;
    if ok && config.retention.maxAge >= 0 { RetentionExact(s.db, config.retention, s.clock); }
  }

  /** A step leaves a stored row alone, or finishes it while it is running, or prunes it when it is not. */
  lemma StepKeepsRow(s: State, l: Label, id: Id)
    requires Inv(s) && Enabled(s, l) && id in s.db.runs
    ensures var after := Apply(s, l);
            if id in after.db.runs then RowKept(s, l, after, id) else l.Prune? && s.db.runs[id].status != Running
  {
    match l
    case Prune(ok) => PruneKeepsRow(s, ok, id);
    case CancelNext(outcome) => CancelFinishes(s, outcome, id);
    case Step(tid, e) => EventKeepsRow(s, tid, e, id);
    case _ =>
  }

  /** A row comes into being running, by the insert of an invocation. */
  lemma RowsAreBornRunning(s: State, l: Label, id: Id)
    requires Inv(s) && Enabled(s, l) && id !in s.db.runs && id in Apply(s, l).db.runs
    ensures l.Step? && l.event.Insert? && Apply(s, l).db.runs[id].status == Running
    ensures Apply(s, l).db.runs[id].actionName == s.threads[l.tid].action.name
  {
    if l.Prune? {
      if l.ok && s.phase.config.retention.maxAge >= 0 { RetentionExact(s.db, s.phase.config.retention, s.clock); }
    } else if l.CancelNext? {
      RecoveryAccepted(s.db, s.phase.pending[0], s.clock);
    } else if l.Step? {
      NewRowByInsert(s, l.tid, l.event, id);
    }
  }

  lemma NewRowByInsert(s: State, tid: nat, e: Event, id: Id)
    requires Inv(s) && Enabled(s, Step(tid, e))
    requires id !in s.db.runs && id in ApplyEvent(s, tid, s.threads[tid], e).db.runs
    ensures e.Insert? && ApplyEvent(s, tid, s.threads[tid], e).db.runs[id].status == Running
    ensures ApplyEvent(s, tid, s.threads[tid], e).db.runs[id].actionName == s.threads[tid].action.name
  {
    if e.Write? {
      assert ThreadOk(s, tid, s.phase.registry);
      UpdateAccepted(s.db, s.orphans, s.threads[tid], s.phase.registry);
    } else if e.Insert? {
      InsertedRowRuns(s, tid, s.threads[tid], e.inserted, id);
    }
  }

  lemma InsertedRowRuns(s: State, tid: nat, th: Thread, outcome: InsertOutcome, id: Id)
    requires th.pc.Inserting? && id !in s.db.runs && id in ApplyInsert(s, tid, th, outcome).db.runs
    ensures ApplyInsert(s, tid, th, outcome).db.runs[id].status == Running
    ensures ApplyInsert(s, tid, th, outcome).db.runs[id].actionName == th.action.name
  {
  }

  /** A run is cancelled by recovery, or by its own synchronous invocation; never by an asynchronous one. */
  lemma CancelledOnlyByRecoveryOrClient(s: State, l: Label, id: Id)
    requires Reachable(s) && Enabled(s, l) && id in s.db.runs && id in Apply(s, l).db.runs
    requires s.db.runs[id].status != Cancelled && Apply(s, l).db.runs[id].status == Cancelled
    ensures l.CancelNext? || (l.Step? && Owns(s, l.tid, id) && s.threads[l.tid].mode == Sync)
  {
    ReachableInv(s);
    StepKeepsRow(s, l, id);
    if l.Step? { SyncCancels(s, l.tid, id); }
  }

  lemma SyncCancels(s: State, tid: nat, id: Id)
    requires Inv(s) && Enabled(s, Step(tid, Write(true))) && Owns(s, tid, id)
    requires id in ApplyWrite(s, tid, s.threads[tid], true).db.runs
    requires ApplyWrite(s, tid, s.threads[tid], true).db.runs[id].status == Cancelled
    ensures s.threads[tid].mode == Sync
  {
    assert ThreadOk(s, tid, s.phase.registry);
    UpdateAccepted(s.db, s.orphans, s.threads[tid], s.phase.registry);
  }

  /** The times an invocation stores are readings of the clock: of the creation, and of the end it writes down. */
  lemma TimesAreRead(s: State, tid: nat, e: Event)
    requires Enabled(s, Step(tid, e)) && tid in Apply(s, Step(tid, e)).threads
    ensures var before, after := s.threads[tid].pc, Apply(s, Step(tid, e)).threads[tid].pc;
            && (after.Inserting? && !before.Inserting? ==> after.createdAt == s.clock)
            && (after.Writing? && !before.Writing? ==> after.update.finishedAt == Some(s.clock))
  {
  }

  // ---- whole runs ----

  /** `id` names a stored run before the first step and after each one. */
  predicate StoredThroughout(s: State, labels: seq<Label>, id: Id)
    decreases |labels|
  {
    id in s.db.runs && (labels == [] || StoredThroughout(Apply(s, labels[0]), labels[1..], id))
  }

  /**
   Terminal statuses are write-once although the update never looks at the old
   status: between any two moments of any run with crashes and restarts, a stored
   row is unchanged, or it was running and now is the same run with an outcome.
   */
  lemma {:induction false} TerminalRowsAreWriteOnce(s: State, labels: seq<Label>, id: Id)
    requires Inv(s) && Executes(s, labels) && StoredThroughout(s, labels, id)
    ensures id in Final(s, labels).db.runs
    ensures var before, after := s.db.runs[id], Final(s, labels).db.runs[id];
            before == after || FinishedVersion(before, after)
    ensures View(Final(s, labels).db).Keys == Final(s, labels).db.runs.Keys
    ensures Identity(View(Final(s, labels).db)[id]) == Identity(View(s.db)[id])
    decreases |labels|
  {
    if labels != [] {
      StepKeeps(s, labels[0]);
      StepKeepsRow(s, labels[0], id);
      TerminalRowsAreWriteOnce(Apply(s, labels[0]), labels[1..], id);
    }
  }
}
