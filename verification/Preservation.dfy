/** Every step of the service keeps the invariant. */
module Preservation {
  import opened Prelude
  import opened Records
  import opened Queries
  import opened Loading
  import opened Execution
  import opened Lifecycle
  import opened Invariant

  // ---- events inside one invocation ----

  /** An event of an invocation that touches neither the tables nor the slots. */
  predicate Private(e: Event) {
    !e.Claim? && !e.Insert? && !e.Write? && !e.Release?
  }

  /** Such an event changes neither what an invocation owns nor what it holds. */
  predicate SameStake(a: Thread, b: Thread) {
    a.action == b.action && OwnedRun(a) == OwnedRun(b) && (Holding(a) <==> Holding(b))
  }

  lemma PrivateKeepsStake(th: Thread, e: Event, now: int)
    requires Private(e) && EventEnabled(th, e)
    ensures SameStake(th, Local(th, e, now))
  {
  }

  lemma LaunchKeepsThread(th: Thread, starts: bool, now: int, registry: Registry)
    requires ThreadInv(th, registry) && th.pc.Launching? && now != ZERO_TIME
    ensures ThreadInv(Local(th, Launch(starts), now), registry)
  {
  }

  lemma TakeExitKeepsThread(th: Thread, now: int, registry: Registry)
    requires ThreadInv(th, registry) && EventEnabled(th, TakeExit) && now != ZERO_TIME
    ensures ThreadInv(Local(th, TakeExit, now), registry)
  {
    CompletionConsistent(th.pc.run, th.action.maxOutputBytes, th.process.exit, now);
  }

  lemma ReapKeepsThread(th: Thread, now: int, registry: Registry)
    requires ThreadInv(th, registry) && EventEnabled(th, Reap) && now != ZERO_TIME
    ensures ThreadInv(Local(th, Reap, now), registry)
  {
    var run := th.pc.run;
    AfterKillConsistent(run, th.action.maxOutputBytes, th.action.timeout, th.process.exit,
                        th.execError, th.runError, th.pc.killFailed, now);
    assert UpdateInv(th, run, AfterKill(run, th.action.maxOutputBytes, th.action.timeout, th.process.exit,
                                        th.execError, th.runError, th.pc.killFailed, now));
  }

  lemma PrivateKeepsThread(th: Thread, e: Event, now: int, registry: Registry)
    requires ThreadInv(th, registry) && Private(e) && EventEnabled(th, e) && now != ZERO_TIME
    ensures ThreadInv(Local(th, e, now), registry)
  {
    match e
    case Launch(starts) => LaunchKeepsThread(th, starts, now, registry);
    case TakeExit => TakeExitKeepsThread(th, now, registry);
    case Reap => ReapKeepsThread(th, now, registry);
    case _ =>
  }

  // ---- what a step leaves alone ----

  predicate SameRow(s: State, after: State, id: Id) {
    && (id in s.db.runs <==> id in after.db.runs)
    && (id in s.db.snapshots <==> id in after.db.snapshots)
    && (id in s.db.runs && id in after.db.runs ==> after.db.runs[id] == s.db.runs[id])
    && (id in s.db.snapshots && id in after.db.snapshots ==> after.db.snapshots[id] == s.db.snapshots[id])
    && (id in s.orphans <==> id in after.orphans)
  }

  /** Away from `id` the rows, snapshots and orphans are the same. */
  ghost predicate SameElsewhere(s: State, after: State, id: Id) {
    forall i :: i == id || SameRow(s, after, i)
  }

  /** Only invocation `tid` may have changed or ended. */
  ghost predicate OthersSame(s: State, after: State, tid: nat) {
    forall t | t != tid ::
      && (t in s.threads <==> t in after.threads)
      && (t in s.threads ==> after.threads[t] == s.threads[t])
  }

  /** A step that changes neither the tables nor any stake keeps everything. */
  ghost predicate Quiet(s: State, after: State, tid: nat) {
    && OthersSame(s, after, tid)
    && after.db == s.db && after.orphans == s.orphans && after.rejectRunning == s.rejectRunning
    && RunOf(after, tid) == RunOf(s, tid) && SlotOf(after, tid) == SlotOf(s, tid)
  }

  lemma SameRuns(s: State, after: State, tid: nat)
    requires OthersSame(s, after, tid) && RunOf(after, tid) == RunOf(s, tid)
    ensures forall t :: RunOf(after, t) == RunOf(s, t)
  {
  }

  lemma SameSlots(s: State, after: State, tid: nat)
    requires OthersSame(s, after, tid) && SlotOf(after, tid) == SlotOf(s, tid)
    ensures forall t :: SlotOf(after, t) == SlotOf(s, t)
  {
  }

  lemma SlotsKept(s: State, after: State)
    requires SlotsInv(s) && after.rejectRunning == s.rejectRunning
    requires forall t :: SlotOf(after, t) == SlotOf(s, t)
    ensures SlotsInv(after)
  {
    assert forall t, name :: Holds(after, t, name) <==> Holds(s, t, name);
    forall name ensures SlotOk(after, name) { assert SlotOk(s, name); }
  }

  lemma RunsKept(s: State, after: State)
    requires RunningInv(s) && after.db == s.db && after.orphans == s.orphans
    requires forall t :: RunOf(after, t) == RunOf(s, t)
    ensures RunningInv(after)
  {
    assert forall t, id :: Owns(after, t, id) <==> Owns(s, t, id);
    forall id ensures RunningOk(after, id) { assert RunningOk(s, id); }
  }

  lemma ThreadsKept(s: State, after: State, tid: nat, registry: Registry)
    requires ThreadsInv(s, registry) && OthersSame(s, after, tid)
    requires after.db == s.db && after.orphans == s.orphans && RunOf(after, tid) == RunOf(s, tid)
    requires tid in after.threads ==> ThreadInv(after.threads[tid], registry)
    ensures ThreadsInv(after, registry)
  {
    forall t ensures ThreadOk(after, t, registry) {
      assert ThreadOk(s, t, registry);
      assert RunOf(after, t) == RunOf(s, t);
    }
  }

  lemma QuietKeepsServing(s: State, after: State, tid: nat, registry: Registry)
    requires ServingInv(s, registry) && Quiet(s, after, tid)
    requires tid in after.threads ==> ThreadInv(after.threads[tid], registry)
    ensures ServingInv(after, registry)
  {
    SameRuns(s, after, tid);
    SameSlots(s, after, tid);
    SlotsKept(s, after);
    RunsKept(s, after);
    ThreadsKept(s, after, tid, registry);
  }

  // ---- claiming and releasing a slot ----

  lemma ClaimKeepsSlots(s: State, after: State, tid: nat, name: string)
    requires SlotsInv(s) && OthersSame(s, after, tid)
    requires name !in s.rejectRunning && after.rejectRunning == s.rejectRunning + {name}
    requires SlotOf(s, tid) == None && SlotOf(after, tid) == Some(name)
    ensures SlotsInv(after)
  {
    assert forall t | t != tid :: SlotOf(after, t) == SlotOf(s, t);
    assert SlotOk(s, name);
    assert Holds(after, tid, name);
    assert forall t, n | t != tid :: Holds(after, t, n) <==> Holds(s, t, n);
    assert forall t, n | n != name :: Holds(after, t, n) <==> Holds(s, t, n);
    forall n ensures SlotOk(after, n) { assert SlotOk(s, n); }
  }

  lemma ReleaseKeepsSlots(s: State, after: State, tid: nat, name: string)
    requires SlotsInv(s) && OthersSame(s, after, tid)
    requires after.rejectRunning == s.rejectRunning - {name}
    requires SlotOf(s, tid) == Some(name) && SlotOf(after, tid) == None
    ensures SlotsInv(after)
  {
    assert forall t | t != tid :: SlotOf(after, t) == SlotOf(s, t);
    assert Holds(s, tid, name);
    assert forall t, n | t != tid :: Holds(after, t, n) <==> Holds(s, t, n);
    assert forall t, n | n != name :: Holds(after, t, n) <==> Holds(s, t, n);
    forall n ensures SlotOk(after, n) { assert SlotOk(s, n); }
  }

  lemma SlotChangeKeepsServing(s: State, after: State, tid: nat, registry: Registry)
    requires ServingInv(s, registry) && OthersSame(s, after, tid)
    requires after.db == s.db && after.orphans == s.orphans && RunOf(after, tid) == RunOf(s, tid)
    requires SlotsInv(after)
    requires tid in after.threads ==> ThreadInv(after.threads[tid], registry)
    ensures ServingInv(after, registry)
  {
    SameRuns(s, after, tid);
    RunsKept(s, after);
    ThreadsKept(s, after, tid, registry);
  }

  // ---- steps while serving ----

  /** A request that was let in starts without a run, a slot or a process. */
  lemma AdmittedThread(registry: Registry, q: Request)
    requires RegistryRunnable(registry) && Admit(registry, q).Admitted?
    ensures var th := Entered(Admit(registry, q), q);
            ThreadInv(th, registry) && OwnedRun(th).None? && !Holding(th)
  {
  }

  lemma AcceptKeeps(s: State, tid: nat, q: Request, registry: Registry)
    requires ServingInv(s, registry) && tid !in s.threads && Admit(registry, q).Admitted?
    ensures ServingInv(SetThread(s, tid, Entered(Admit(registry, q), q)), registry)
  {
    AdmittedThread(registry, q);
    QuietKeepsServing(s, SetThread(s, tid, Entered(Admit(registry, q), q)), tid, registry);
  }

  lemma PrivateKeeps(s: State, tid: nat, e: Event, registry: Registry)
    requires ServingInv(s, registry) && s.clock != ZERO_TIME
    requires tid in s.threads && Private(e) && EventEnabled(s.threads[tid], e)
    ensures ServingInv(SetThread(s, tid, Local(s.threads[tid], e, s.clock)), registry)
  {
    assert ThreadOk(s, tid, registry);
    PrivateKeepsStake(s.threads[tid], e, s.clock);
    PrivateKeepsThread(s.threads[tid], e, s.clock, registry);
    QuietKeepsServing(s, SetThread(s, tid, Local(s.threads[tid], e, s.clock)), tid, registry);
  }

  lemma ClaimKeeps(s: State, tid: nat, th: Thread, registry: Registry)
    requires ServingInv(s, registry)
    requires tid in s.threads && s.threads[tid] == th && th.pc.Entering?
    ensures ServingInv(ApplyClaim(s, tid, th), registry)
  {
    var after := ApplyClaim(s, tid, th);
    assert ThreadOk(s, tid, registry);
    if th.action.policy == Reject && th.action.name !in s.rejectRunning {
      ClaimKeepsSlots(s, after, tid, th.action.name);
      SlotChangeKeepsServing(s, after, tid, registry);
    } else {
      QuietKeepsServing(s, after, tid, registry);
    }
  }

  lemma ReleaseKeeps(s: State, tid: nat, th: Thread, registry: Registry)
    requires ServingInv(s, registry)
    requires tid in s.threads && s.threads[tid] == th && th.pc.Releasing?
    ensures ServingInv(ApplyEvent(s, tid, th, Release), registry)
  {
    var after := ApplyEvent(s, tid, th, Release);
    if th.action.policy == Reject {
      ReleaseKeepsSlots(s, after, tid, th.action.name);
      SlotChangeKeepsServing(s, after, tid, registry);
    } else {
      QuietKeepsServing(s, after, tid, registry);
    }
  }

  // ---- inserting a run ----

  /** No validation of `CreateRun` can reject what the service sends. */
  lemma CreationAccepted(th: Thread, registry: Registry)
    requires ThreadInv(th, registry) && th.pc.Inserting?
    ensures CreateError(CreationParams(th.action, th.metadata, th.pc.id, th.pc.createdAt)).None?
  {
  }

  /** The run that an insert stores and reads back. */
  function InsertedRun(th: Thread, id: Id, createdAt: int): Run {
    Run(id, RunRow(th.action.name, Running, None, createdAt, Some(createdAt), None, false,
                   if th.metadata.Payload? then Some(th.metadata.text) else None, [], [], NoSummary),
        SnapshotOf(th.action))
  }

  /** The tables once `run` has been inserted. */
  function WithRun(db: Tables, run: Run): Tables {
    db.(runs := db.runs[run.id := run.row], snapshots := db.snapshots[run.id := run.snapshot])
  }

  /** An insert of a new id succeeds, and the stored run names the same action. */
  lemma InsertReadsBack(db: Tables, th: Thread, now: int, registry: Registry)
    requires Matched(db) && ThreadInv(th, registry) && th.pc.Inserting? && th.pc.id !in db.runs
    ensures var run := InsertedRun(th, th.pc.id, th.pc.createdAt);
            var result := CreateRun(db, CreationParams(th.action, th.metadata, run.id, th.pc.createdAt), now);
            && result == Success(WithRun(db, run))
            && GetRun(result.value, run.id) == Success(run)
            && StoredAction(run) == th.action
  {
  }

  lemma InsertKeepsTables(db: Tables, th: Thread, registry: Registry)
    requires TablesInv(db) && ThreadInv(th, registry) && th.pc.Inserting?
    ensures TablesInv(WithRun(db, InsertedRun(th, th.pc.id, th.pc.createdAt)))
  {
    var after := WithRun(db, InsertedRun(th, th.pc.id, th.pc.createdAt));
    forall i ensures RowOk(after, i) { assert RowOk(db, i); }
  }

  lemma FreshUnowned(s: State, id: Id, registry: Registry)
    requires ThreadsInv(s, registry) && id !in s.db.runs
    ensures forall t :: !Owns(s, t, id)
  {
    forall t ensures !Owns(s, t, id) { assert ThreadOk(s, t, registry); }
  }

  /** Changing the row of one run leaves every other invocation's facts alone. */
  lemma RowChangeKeepsServing(s: State, after: State, tid: nat, id: Id, registry: Registry)
    requires ServingInv(s, registry)
    requires OthersSame(s, after, tid) && SameElsewhere(s, after, id)
    requires after.rejectRunning == s.rejectRunning && SlotOf(after, tid) == SlotOf(s, tid)
    requires forall t | t != tid :: !Owns(s, t, id)
    requires RunOf(s, tid).Some? ==> RunOf(s, tid).value.id == id
    requires RunOf(after, tid).Some? ==> RunOf(after, tid).value.id == id
    requires ThreadOk(after, tid, registry) && RunningOk(after, id)
    ensures ServingInv(after, registry)
  {
    SameSlots(s, after, tid);
    SlotsKept(s, after);
    assert forall t | t != tid :: RunOf(after, t) == RunOf(s, t);
    RowChangeKeepsThreads(s, after, tid, id, registry);
    RowChangeKeepsRuns(s, after, tid, id);
  }

  lemma RowChangeKeepsThreads(s: State, after: State, tid: nat, id: Id, registry: Registry)
    requires ThreadsInv(s, registry)
    requires OthersSame(s, after, tid) && SameElsewhere(s, after, id)
    requires forall t | t != tid :: !Owns(s, t, id)
    requires ThreadOk(after, tid, registry)
    ensures ThreadsInv(after, registry)
  {
    forall t ensures ThreadOk(after, t, registry) {
      if t != tid && t in s.threads {
        assert ThreadOk(s, t, registry);
        if RunOf(s, t).Some? {
          assert !Owns(s, t, id);
          assert SameRow(s, after, RunOf(s, t).value.id);
        }
      }
    }
  }

  lemma RowChangeKeepsRuns(s: State, after: State, tid: nat, id: Id)
    requires RunningInv(s) && SameElsewhere(s, after, id)
    requires forall t | t != tid :: RunOf(after, t) == RunOf(s, t)
    requires forall t | t != tid :: !Owns(s, t, id)
    requires RunOf(s, tid).Some? ==> RunOf(s, tid).value.id == id
    requires RunOf(after, tid).Some? ==> RunOf(after, tid).value.id == id
    requires RunningOk(after, id)
    ensures RunningInv(after)
  {
    assert forall t, i | i != id :: Owns(after, t, i) <==> Owns(s, t, i);
    assert forall t | t != tid :: Owns(after, t, id) <==> Owns(s, t, id);
    forall i ensures RunningOk(after, i) {
      if i != id { assert RunningOk(s, i) && SameRow(s, after, i); }
    }
  }

  lemma ReadInsertKeeps(s: State, tid: nat, th: Thread, run: Run, registry: Registry)
    requires ServingInv(s, registry)
    requires tid in s.threads && s.threads[tid] == th && th.pc.Inserting? && ThreadInv(th, registry)
    requires run == InsertedRun(th, th.pc.id, th.pc.createdAt) && StoredAction(run) == th.action
    requires run.id !in s.db.runs && forall t :: !Owns(s, t, run.id)
    ensures ServingInv(SetThread(s.(db := WithRun(s.db, run)), tid, th.(pc := Launching(run))), registry)
  {
    var after := SetThread(s.(db := WithRun(s.db, run)), tid, th.(pc := Launching(run)));
    assert RunningOk(s, run.id);
    assert Owns(after, tid, run.id);
    RowChangeKeepsServing(s, after, tid, run.id, registry);
  }

  lemma LostInsertKeeps(s: State, tid: nat, th: Thread, run: Run, registry: Registry)
    requires ServingInv(s, registry)
    requires tid in s.threads && s.threads[tid] == th && th.pc.Inserting? && ThreadInv(th, registry)
    requires run == InsertedRun(th, th.pc.id, th.pc.createdAt)
    requires run.id !in s.db.runs && forall t :: !Owns(s, t, run.id)
    ensures var orphaned := s.(db := WithRun(s.db, run), orphans := s.orphans[run.id := LostCreate]);
            ServingInv(SetThread(orphaned, tid, th.(pc := Releasing)), registry)
  {
    var orphaned := s.(db := WithRun(s.db, run), orphans := s.orphans[run.id := LostCreate]);
    var after := SetThread(orphaned, tid, th.(pc := Releasing));
    RowChangeKeepsServing(s, after, tid, run.id, registry);
  }

  lemma InsertKeepsRows(s: State, tid: nat, th: Thread, outcome: InsertOutcome, registry: Registry)
    requires TablesInv(s.db) && ThreadInv(th, registry) && th.pc.Inserting?
    ensures TablesInv(ApplyInsert(s, tid, th, outcome).db)
  {
    if th.pc.id !in s.db.runs {
      InsertReadsBack(s.db, th, s.clock, registry);
      InsertKeepsTables(s.db, th, registry);
    }
  }

  /** A refused or failed insert leaves everything as it was and lets the invocation release its slot. */
  lemma RefusedInsertKeeps(s: State, tid: nat, th: Thread, outcome: InsertOutcome, registry: Registry)
    requires ServingInv(s, registry) && ThreadInv(th, registry)
    requires tid in s.threads && s.threads[tid] == th && th.pc.Inserting?
    requires th.pc.id in s.db.runs || outcome == NotStored
    ensures ServingInv(ApplyInsert(s, tid, th, outcome), registry)
  {
    QuietKeepsServing(s, ApplyInsert(s, tid, th, outcome), tid, registry);
  }

  lemma StoredInsertKeeps(s: State, tid: nat, th: Thread, outcome: InsertOutcome, registry: Registry)
    requires Matched(s.db) && ServingInv(s, registry) && ThreadInv(th, registry)
    requires tid in s.threads && s.threads[tid] == th && th.pc.Inserting?
    requires th.pc.id !in s.db.runs && outcome != NotStored
    ensures ServingInv(ApplyInsert(s, tid, th, outcome), registry)
  {
    var run := InsertedRun(th, th.pc.id, th.pc.createdAt);
    InsertReadsBack(s.db, th, s.clock, registry);
    FreshUnowned(s, run.id, registry);
    if outcome == Stored {
      ReadInsertKeeps(s, tid, th, run, registry);
    } else {
      LostInsertKeeps(s, tid, th, run, registry);
    }
  }

  // ---- the terminal update ----

  /** No validation of `UpdateRun` can reject what the service sends, and the row is there. */
  lemma UpdateAccepted(db: Tables, orphans: map<Id, Fault>, th: Thread, registry: Registry)
    requires ThreadInv(th, registry) && th.pc.Writing? && OwnedRow(db, orphans, OwnedRun(th))
    ensures var u := th.pc.update;
            UpdateRun(db, u) == Success(db.(runs := db.runs[u.id := UpdatedRow(db.runs[u.id], u)]))
  {
  }

  lemma FinishedRowConsistent(run: Run, u: UpdateRunParams, limit: int)
    requires RowConsistent(run.row, run.snapshot) && OutcomeConsistent(u, limit)
    requires u.startedAt == run.row.startedAt && limit == run.snapshot.maxOutputBytes
    ensures RowConsistent(UpdatedRow(run.row, u), run.snapshot)
  {
  }

  lemma UpdateKeepsTables(db: Tables, run: Run, u: UpdateRunParams, limit: int)
    requires TablesInv(db) && OwnedRow(db, map[], Some(run)) && u.id == run.id
    requires OutcomeConsistent(u, limit)
    requires u.startedAt == run.row.startedAt && limit == run.snapshot.maxOutputBytes
    ensures TablesInv(db.(runs := db.runs[u.id := UpdatedRow(run.row, u)]))
  {
    var after := db.(runs := db.runs[u.id := UpdatedRow(run.row, u)]);
    assert RowOk(db, run.id);
    FinishedRowConsistent(run, u, limit);
    forall i ensures RowOk(after, i) { assert RowOk(db, i); }
  }

  lemma OwnerIsAlone(s: State, tid: nat, id: Id)
    requires RunsExclusive(s) && Owns(s, tid, id)
    ensures forall t | t != tid :: !Owns(s, t, id)
  {
  }

  lemma FinishKeeps(s: State, tid: nat, th: Thread, run: Run, registry: Registry)
    requires ServingInv(s, registry)
    requires tid in s.threads && s.threads[tid] == th && th.pc.Writing? && ThreadInv(th, registry)
    requires run == th.pc.run && OwnedRow(s.db, s.orphans, Some(run))
    ensures var db := s.db.(runs := s.db.runs[run.id := UpdatedRow(run.row, th.pc.update)]);
            ServingInv(SetThread(s.(db := db), tid, th.(pc := Releasing, attempts := 1)), registry)
  {
    var db := s.db.(runs := s.db.runs[run.id := UpdatedRow(run.row, th.pc.update)]);
    OwnerIsAlone(s, tid, run.id);
    FinishedRowKeeps(s, SetThread(s.(db := db), tid, th.(pc := Releasing, attempts := 1)), tid, th, run.id, registry);
  }

  /** The tables or orphans change at the owner's run only, and the owner goes on to release. */
  lemma FinishedRowKeeps(s: State, after: State, tid: nat, th: Thread, id: Id, registry: Registry)
    requires ServingInv(s, registry)
    requires tid in s.threads && s.threads[tid] == th && th.pc.Writing? && ThreadInv(th, registry)
    requires after.threads == s.threads[tid := th.(pc := Releasing, attempts := 1)]
    requires after.rejectRunning == s.rejectRunning && SameElsewhere(s, after, id)
    requires Owns(s, tid, id) && (forall t | t != tid :: !Owns(s, t, id)) && RunningOk(after, id)
    ensures ServingInv(after, registry)
  {
    RowChangeKeepsServing(s, after, tid, id, registry);
  }

  lemma FailedFinishKeeps(s: State, tid: nat, th: Thread, run: Run, registry: Registry)
    requires ServingInv(s, registry)
    requires tid in s.threads && s.threads[tid] == th && th.pc.Writing? && ThreadInv(th, registry)
    requires run == th.pc.run && OwnedRow(s.db, s.orphans, Some(run))
    ensures var orphaned := s.(orphans := s.orphans[run.id := FailedUpdate]);
            ServingInv(SetThread(orphaned, tid, th.(pc := Releasing, attempts := 1)), registry)
  {
    var orphaned := s.(orphans := s.orphans[run.id := FailedUpdate]);
    assert Owns(s, tid, run.id);
    RowChangeKeepsServing(s, SetThread(orphaned, tid, th.(pc := Releasing, attempts := 1)), tid, run.id, registry);
  }

  lemma WriteKeepsRows(s: State, tid: nat, th: Thread, ok: bool, registry: Registry)
    requires TablesInv(s.db) && ThreadInv(th, registry) && th.pc.Writing?
    requires OwnedRow(s.db, s.orphans, OwnedRun(th))
    ensures TablesInv(ApplyWrite(s, tid, th, ok).db)
  {
    UpdateAccepted(s.db, s.orphans, th, registry);
    UpdateKeepsTables(s.db, th.pc.run, th.pc.update, th.action.maxOutputBytes);
  }

  lemma WriteApplied(s: State, tid: nat, th: Thread, ok: bool, registry: Registry)
    requires ThreadInv(th, registry) && th.pc.Writing? && OwnedRow(s.db, s.orphans, OwnedRun(th))
    ensures var id, row := th.pc.run.id, UpdatedRow(th.pc.run.row, th.pc.update);
            var after := if ok then s.(db := s.db.(runs := s.db.runs[id := row]))
                         else s.(orphans := s.orphans[id := FailedUpdate]);
            ApplyWrite(s, tid, th, ok) == SetThread(after, tid, th.(pc := Releasing, attempts := 1))
  {
    UpdateAccepted(s.db, s.orphans, th, registry);
  }

  lemma WriteKeeps(s: State, tid: nat, th: Thread, ok: bool, registry: Registry)
    requires ServingInv(s, registry) && ThreadInv(th, registry) && OwnedRow(s.db, s.orphans, OwnedRun(th))
    requires tid in s.threads && s.threads[tid] == th && th.pc.Writing?
    ensures ServingInv(ApplyWrite(s, tid, th, ok), registry)
  {
    WriteApplied(s, tid, th, ok, registry);
    if ok {
      FinishKeeps(s, tid, th, th.pc.run, registry);
    } else {
      FailedFinishKeeps(s, tid, th, th.pc.run, registry);
    }
  }
}
