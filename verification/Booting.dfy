/** Retention and recovery at a boot, and the invariant over every run of the system. */
module Booting {
  import opened Prelude
  import opened Records
  import opened Queries
  import opened Retention
  import opened Listings
  import opened Execution
  import opened Lifecycle
  import opened Invariant
  import opened Preservation

  // ---- retention ----

  lemma PruneStartsBoot(t: Tables, config: BootConfig, prunedAt: int)
    requires TablesInv(t) && config.retention.maxAge >= 0 && config.retention.maxRuns >= 0
    ensures var after := Restrict(t, Survivors(t, config.retention, prunedAt)).(lastPrunedAt := Some(prunedAt));
            TablesInv(after) && BootInv(config, t, prunedAt, after)
  {
    var kept := Survivors(t, config.retention, prunedAt);
    var after := Restrict(t, kept).(lastPrunedAt := Some(prunedAt));
    assert after.runs.Keys == kept;
    forall id ensures RowOk(after, id) { assert RowOk(t, id); }
    forall id ensures BootRowOk(t, after, id) {}
  }

  lemma PruneKeeps(s: State, ok: bool)
    requires Inv(s) && s.phase.Opened?
    ensures Inv(ApplyPrune(s, ok))
  {
    var config := s.phase.config;
    if ok && config.retention.maxAge >= 0 {
      RetentionExact(s.db, config.retention, s.clock);
      PruneStartsBoot(s.db, config, s.clock);
    }
  }

  // ---- recovery ----

  lemma InterruptedListed(db: Tables)
    requires Matched(db)
    ensures PendingInv(db, Select(db, ByStatus(Running)))
  {
    var pending := Select(db, ByStatus(Running));
    SelectExact(db, ByStatus(Running));
    forall i | 0 <= i < |pending| ensures OwnedRow(db, map[], Some(pending[i])) {
      assert pending[i] in pending;
    }
    forall i, j | 0 <= i < j < |pending| ensures pending[i].id != pending[j].id {
      assert pending[i] in pending && pending[j] in pending;
      NewerIsTotal();
      assert Newer(KeyOf(pending[i]), KeyOf(pending[j]));
    }
    forall id | id in db.runs && db.runs[id].status == Running ensures IsPending(pending, id) {
      assert View(db)[id] in pending;
    }
  }

  /** The row that recovery writes for a pending run. */
  lemma RecoveryAccepted(db: Tables, run: Run, now: int)
    requires TablesInv(db) && OwnedRow(db, map[], Some(run)) && now != ZERO_TIME
    ensures var u := Recovery(run, now);
            && UpdateRun(db, u) == Success(db.(runs := db.runs[run.id := UpdatedRow(run.row, u)]))
            && CancelledVersion(run.row, UpdatedRow(run.row, u))
            && RowConsistent(UpdatedRow(run.row, u), run.snapshot)
  {
    assert RowOk(db, run.id);
  }

  lemma CancelKeepsTables(db: Tables, run: Run, row: RunRow)
    requires TablesInv(db) && OwnedRow(db, map[], Some(run))
    requires RowConsistent(row, run.snapshot)
    requires row.createdAt == run.row.createdAt && row.actionName == run.row.actionName
    ensures TablesInv(db.(runs := db.runs[run.id := row]))
  {
    var after := db.(runs := db.runs[run.id := row]);
    assert RowOk(db, run.id);
    forall id ensures RowOk(after, id) { assert RowOk(db, id); }
  }

  lemma CancelKeepsBoot(config: BootConfig, start: Tables, prunedAt: int, db: Tables, run: Run, row: RunRow)
    requires BootInv(config, start, prunedAt, db) && OwnedRow(db, map[], Some(run))
    requires CancelledVersion(run.row, row)
    ensures BootInv(config, start, prunedAt, db.(runs := db.runs[run.id := row]))
  {
    var after := db.(runs := db.runs[run.id := row]);
    assert after.runs.Keys == db.runs.Keys;
    forall id ensures BootRowOk(start, after, id) { assert BootRowOk(start, db, id); }
  }

  lemma CancelKeepsPending(db: Tables, pending: seq<Run>, row: RunRow)
    requires pending != [] && PendingInv(db, pending) && row.status != Running
    ensures PendingInv(db.(runs := db.runs[pending[0].id := row]), pending[1..])
  {
  }

  lemma CancelKeeps(s: State, outcome: CancelOutcome)
    requires Inv(s) && s.phase.Recovering? && s.phase.pending != []
    ensures Inv(ApplyCancel(s, outcome))
  {
    var config, start, at, pending := s.phase.config, s.phase.start, s.phase.prunedAt, s.phase.pending;
    var run := pending[0];
    var row := UpdatedRow(run.row, Recovery(run, s.clock));
    RecoveryAccepted(s.db, run, s.clock);
    CancelKeepsTables(s.db, run, row);
    CancelKeepsBoot(config, start, at, s.db, run, row);
    CancelKeepsPending(s.db, pending, row);
  }

  lemma ServeKeeps(s: State)
    requires Inv(s) && s.phase.Recovering? && s.phase.pending == []
    ensures Inv(Apply(s, Serve))
  {
    var after := Apply(s, Serve);
    forall id ensures RunningOk(after, id) {
      assert !IsPending(s.phase.pending, id);
    }
  }

  // ---- every step ----

  lemma TickKeeps(s: State, now: int)
    requires Inv(s) && now != ZERO_TIME
    ensures Inv(s.(clock := now))
  {
    var after := s.(clock := now);
    if s.phase.Serving? {
      assert forall t :: RunOf(after, t) == RunOf(s, t);
      assert forall t :: SlotOf(after, t) == SlotOf(s, t);
      SlotsKept(s, after);
      RunsKept(s, after);
      forall t ensures ThreadOk(after, t, s.phase.registry) { assert ThreadOk(s, t, s.phase.registry); }
    }
  }

  lemma InsertStepKeeps(s: State, tid: nat, outcome: InsertOutcome)
    requires Inv(s) && Enabled(s, Step(tid, Insert(outcome)))
    ensures Inv(ApplyInsert(s, tid, s.threads[tid], outcome))
  {
    var registry, th := s.phase.registry, s.threads[tid];
    assert ThreadOk(s, tid, registry);
    InsertKeepsRows(s, tid, th, outcome, registry);
    if th.pc.id in s.db.runs || outcome == NotStored {
      RefusedInsertKeeps(s, tid, th, outcome, registry);
    } else {
      StoredInsertKeeps(s, tid, th, outcome, registry);
    }
  }

  lemma WriteStepKeeps(s: State, tid: nat, ok: bool)
    requires Inv(s) && Enabled(s, Step(tid, Write(ok)))
    ensures Inv(ApplyWrite(s, tid, s.threads[tid], ok))
  {
    var registry, th := s.phase.registry, s.threads[tid];
    assert ThreadOk(s, tid, registry);
    WriteKeepsRows(s, tid, th, ok, registry);
    WriteKeeps(s, tid, th, ok, registry);
  }

  lemma EventKeeps(s: State, tid: nat, e: Event)
    requires Inv(s) && Enabled(s, Step(tid, e))
    ensures Inv(ApplyEvent(s, tid, s.threads[tid], e))
  {
    var registry, th := s.phase.registry, s.threads[tid];
    match e
    case Claim => ClaimKeeps(s, tid, th, registry);
    case Insert(outcome) => InsertStepKeeps(s, tid, outcome);
    case Write(ok) => WriteStepKeeps(s, tid, ok);
    case Release => ReleaseKeeps(s, tid, th, registry);
    case _ => PrivateKeeps(s, tid, e, registry);
  }

  lemma StepKeeps(s: State, l: Label)
    requires Inv(s) && Enabled(s, l)
    ensures Inv(Apply(s, l))
  {
    match l
    case Prune(ok) => PruneKeeps(s, ok);
    case ListInterrupted(_) => InterruptedListed(s.db);
    case CancelNext(outcome) => CancelKeeps(s, outcome);
    case Serve => ServeKeeps(s);
    case Accept(tid, q) => AcceptKeeps(s, tid, q, s.phase.registry);
    case Step(tid, e) => EventKeeps(s, tid, e);
    case Tick(now) => TickKeeps(s, now);
    case _ =>
  }

  lemma {:induction false} RunKeeps(s: State, labels: seq<Label>)
    requires Inv(s) && Executes(s, labels)
    ensures Inv(Final(s, labels))
    decreases |labels|
  {
    if labels != [] {
      StepKeeps(s, labels[0]);
      RunKeeps(Apply(s, labels[0]), labels[1..]);
    }
  }

  /** Every reachable state satisfies the invariant. */
  lemma ReachableInv(s: State)
    requires Reachable(s)
    ensures Inv(s)
  {
    var init, labels :| Initial(init) && Executes(init, labels) && Final(init, labels) == s;
    RunKeeps(init, labels);
  }
}
