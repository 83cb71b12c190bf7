/**
 Recorded intervals: with a clock that never goes back, runs of a reject action
 follow one another, across restarts too, except for runs that a fault orphaned.
 */
module Intervals {
  import opened Prelude
  import opened Records
  import opened Queries
  import opened Retention
  import opened Loading
  import opened Execution
  import opened Lifecycle
  import opened Invariant
  import opened Preservation
  import opened Booting
  import opened Ownership

  /** A stored run of the action `name` that was created under the reject policy. */
  predicate RejectRow(db: Tables, name: string, id: Id) {
    id in db.runs && id in db.snapshots && db.runs[id].actionName == name && db.snapshots[id].policy == Reject
  }

  /** One run was finished before the other was created. */
  predicate Apart(a: RunRow, b: RunRow) {
    || (a.finishedAt.Some? && a.finishedAt.value <= b.createdAt)
    || (b.finishedAt.Some? && b.finishedAt.value <= a.createdAt)
  }

  predicate PairApart(db: Tables, lost: set<Id>, name: string, a: Id, b: Id) {
    a != b && a !in lost && b !in lost && RejectRow(db, name, a) && RejectRow(db, name, b) ==>
      Apart(db.runs[a], db.runs[b])
  }

  /** The runs of each reject action are apart, those in `lost` excepted. */
  ghost predicate AllApart(db: Tables, lost: set<Id>) {
    forall name, a, b :: PairApart(db, lost, name, a, b)
  }

  /** Recorded times are in order and not in the future. */
  predicate RowTimed(db: Tables, clock: int, id: Id) {
    id in db.runs ==>
      && db.runs[id].createdAt <= clock
      && (db.runs[id].finishedAt.Some? ==> db.runs[id].createdAt <= db.runs[id].finishedAt.value <= clock)
  }

  ghost predicate RowsTimed(db: Tables, clock: int) {
    forall id :: RowTimed(db, clock, id)
  }

  predicate FinishedBefore(db: Tables, lost: set<Id>, name: string, t: int, id: Id) {
    id !in lost && RejectRow(db, name, id) ==> db.runs[id].finishedAt.Some? && db.runs[id].finishedAt.value <= t
  }

  /** Every run of the reject action `name` was finished at `t`, those in `lost` excepted. */
  ghost predicate FreeAt(db: Tables, lost: set<Id>, name: string, t: int) {
    forall id :: FinishedBefore(db, lost, name, t, id)
  }

  /** What the times inside an invocation mean. */
  ghost predicate ThreadTimed(db: Tables, lost: set<Id>, clock: int, th: Thread) {
    match th.pc
    case Preparing => th.action.policy == Reject ==> FreeAt(db, lost, th.action.name, clock)
    case Inserting(_, createdAt) =>
      createdAt <= clock && (th.action.policy == Reject ==> FreeAt(db, lost, th.action.name, createdAt))
    case Writing(run, u) => u.finishedAt.Some? && run.row.createdAt <= u.finishedAt.value <= clock
    case _ => true
  }

  ghost predicate TidTimed(s: State, lost: set<Id>, tid: nat) {
    tid in s.threads ==> ThreadTimed(s.db, lost, s.clock, s.threads[tid])
  }

  /** `lost` holds at least the current orphans. */
  ghost predicate Timeline(s: State, lost: set<Id>) {
    && s.orphans.Keys <= lost
    && RowsTimed(s.db, s.clock)
    && AllApart(s.db, lost)
    && forall tid :: TidTimed(s, lost, tid)
  }

  /** The run that a step orphans: its terminal update fails, or its insert is stored but not read back. */
  function LostBy(s: State, l: Label): set<Id> {
    if !l.Step? || l.tid !in s.threads then {}
    else
      var pc := s.threads[l.tid].pc;
      if l.event == Write(false) && pc.Writing? then {pc.run.id}
      else if l.event == Insert(StoredButUnread) && pc.Inserting? && pc.id !in s.db.runs then {pc.id}
      else {}
  }

  // ---- the tables ----

  /** Finishing a running row keeps the runs apart: every other one was finished before it was created. */
  lemma FinishKeepsApart(db: Tables, lost: set<Id>, id: Id, row: RunRow)
    requires TablesInv(db) && AllApart(db, lost)
    requires id in db.runs && db.runs[id].status == Running
    requires row.actionName == db.runs[id].actionName && row.createdAt == db.runs[id].createdAt
    ensures AllApart(db.(runs := db.runs[id := row]), lost)
  {
    var after := db.(runs := db.runs[id := row]);
    forall name, a, b ensures PairApart(after, lost, name, a, b) {
      assert PairApart(db, lost, name, a, b) && RowOk(db, id);
    }
  }

  lemma FinishKeepsTimes(db: Tables, clock: int, id: Id, row: RunRow)
    requires RowsTimed(db, clock) && id in db.runs && row.createdAt == db.runs[id].createdAt
    requires row.finishedAt.Some? && row.createdAt <= row.finishedAt.value <= clock
    ensures RowsTimed(db.(runs := db.runs[id := row]), clock)
  {
    var after := db.(runs := db.runs[id := row]);
    forall i ensures RowTimed(after, clock, i) { assert RowTimed(db, clock, i); }
  }

  lemma InsertKeepsApart(db: Tables, lost: set<Id>, run: Run)
    requires AllApart(db, lost) && run.id !in db.runs
    requires run.snapshot.policy == Reject ==> FreeAt(db, lost, run.row.actionName, run.row.createdAt)
    ensures AllApart(WithRun(db, run), lost)
  {
    var after := WithRun(db, run);
    forall name, a, b ensures PairApart(after, lost, name, a, b) {
      assert PairApart(db, lost, name, a, b);
      if run.snapshot.policy == Reject && name == run.row.actionName {
        assert FinishedBefore(db, lost, name, run.row.createdAt, a);
        assert FinishedBefore(db, lost, name, run.row.createdAt, b);
      }
    }
  }

  lemma InsertKeepsTimes(db: Tables, clock: int, run: Run)
    requires RowsTimed(db, clock) && run.row.createdAt <= clock && run.row.finishedAt.None?
    ensures RowsTimed(WithRun(db, run), clock)
  {
    forall i ensures RowTimed(WithRun(db, run), clock, i) { assert RowTimed(db, clock, i); }
  }

  lemma RestrictKeepsApart(db: Tables, lost: set<Id>, kept: set<Id>, at: Option<int>, clock: int)
    requires Matched(db) && AllApart(db, lost) && RowsTimed(db, clock)
    ensures AllApart(Restrict(db, kept).(lastPrunedAt := at), lost)
    ensures RowsTimed(Restrict(db, kept).(lastPrunedAt := at), clock)
  {
    var after := Restrict(db, kept).(lastPrunedAt := at);
    forall name, a, b ensures PairApart(after, lost, name, a, b) { assert PairApart(db, lost, name, a, b); }
    forall i ensures RowTimed(after, clock, i) { assert RowTimed(db, clock, i); }
  }

  // ---- other invocations ----

  /** An event of one invocation of an action leaves the reject rows of every other held action alone. */
  lemma FreeElsewhere(db: Tables, lost: set<Id>, after: Tables, name: string, t: int)
    requires FreeAt(db, lost, name, t)
    requires forall id :: RejectRow(after, name, id) ==> RejectRow(db, name, id) && after.runs[id] == db.runs[id]
    ensures FreeAt(after, lost, name, t)
  {
    forall id ensures FinishedBefore(after, lost, name, t, id) { assert FinishedBefore(db, lost, name, t, id); }
  }

  lemma FreeLater(db: Tables, lost: set<Id>, name: string, t: int, later: int)
    requires FreeAt(db, lost, name, t) && t <= later
    ensures FreeAt(db, lost, name, later)
  {
    forall id ensures FinishedBefore(db, lost, name, later, id) { assert FinishedBefore(db, lost, name, t, id); }
  }

  /** A running row that no fault lost keeps the slot of its action. */
  lemma UnlostRowIsHeld(s: State, lost: set<Id>, name: string, id: Id)
    requires Inv(s) && s.phase.Serving? && s.orphans.Keys <= lost && id !in lost
    requires RejectRow(s.db, name, id) && s.db.runs[id].status == Running
    ensures name in s.rejectRunning
  {
    assert RowOk(s.db, id) && RunningOk(s, id);
    var t :| Owns(s, t, id);
    assert ThreadOk(s, t, s.phase.registry) && SlotOk(s, name);
    assert Holds(s, t, name);
  }

  /** No reject run of `name` is running while its slot is free. */
  lemma FreeSlotMeansFree(s: State, lost: set<Id>, name: string)
    requires Inv(s) && s.phase.Serving? && Timeline(s, lost) && name !in s.rejectRunning
    ensures FreeAt(s.db, lost, name, s.clock)
  {
    forall id ensures FinishedBefore(s.db, lost, name, s.clock, id) {
      assert RowOk(s.db, id) && RowTimed(s.db, s.clock, id);
      if id !in lost && RejectRow(s.db, name, id) && s.db.runs[id].status == Running {
        UnlostRowIsHeld(s, lost, name, id);
      }
    }
  }

  // ---- steps of an invocation ----

  /** An owned run was created at a time that has passed. */
  lemma OwnedRunTimed(s: State, tid: nat)
    requires Inv(s) && s.phase.Serving? && RowsTimed(s.db, s.clock) && RunOf(s, tid).Some?
    ensures RunOf(s, tid).value.row.createdAt <= s.clock
  {
    assert ThreadOk(s, tid, s.phase.registry);
    assert RowTimed(s.db, s.clock, RunOf(s, tid).value.id);
  }

  lemma PrivateKeepsTimed(db: Tables, lost: set<Id>, th: Thread, e: Event, clock: int)
    requires Private(e) && EventEnabled(th, e) && ThreadTimed(db, lost, clock, th)
    requires OwnedRun(th).Some? ==> OwnedRun(th).value.row.createdAt <= clock
    ensures ThreadTimed(db, lost, clock, Local(th, e, clock))
  {
  }

  lemma OneThreadKeepsTimeline(s: State, lost: set<Id>, after: State, tid: nat)
    requires Timeline(s, lost) && OthersSame(s, after, tid)
    requires after.db == s.db && after.orphans.Keys <= lost && after.clock == s.clock
    requires TidTimed(after, lost, tid)
    ensures Timeline(after, lost)
  {
    forall t ensures TidTimed(after, lost, t) { assert TidTimed(s, lost, t); }
  }

  lemma ClaimKeepsTimeline(s: State, lost: set<Id>, tid: nat)
    requires Inv(s) && Timeline(s, lost) && Enabled(s, Step(tid, Claim))
    ensures Timeline(ApplyClaim(s, tid, s.threads[tid]), lost)
  {
    var th := s.threads[tid];
    if th.action.policy == Reject && th.action.name !in s.rejectRunning {
      FreeSlotMeansFree(s, lost, th.action.name);
    }
    OneThreadKeepsTimeline(s, lost, ApplyClaim(s, tid, th), tid);
  }

  lemma PrivateKeepsTimeline(s: State, lost: set<Id>, tid: nat, e: Event)
    requires Inv(s) && Timeline(s, lost) && Enabled(s, Step(tid, e)) && Private(e)
    ensures Timeline(SetThread(s, tid, Local(s.threads[tid], e, s.clock)), lost)
  {
    var th := s.threads[tid];
    if OwnedRun(th).Some? { OwnedRunTimed(s, tid); }
    assert TidTimed(s, lost, tid);
    PrivateKeepsTimed(s.db, lost, th, e, s.clock);
    OneThreadKeepsTimeline(s, lost, SetThread(s, tid, Local(th, e, s.clock)), tid);
  }

  /** `after` differs from `db` in the row of `id` only, which may be new. */
  ghost predicate OtherRowsSame(db: Tables, after: Tables, id: Id) {
    forall i, n :: i != id && RejectRow(after, n, i) ==> RejectRow(db, n, i) && after.runs[i] == db.runs[i]
  }

  /** Another invocation's times do not depend on a row whose slot it does not hold. */
  lemma OtherThreadTimed(s: State, lost: set<Id>, db: Tables, t: nat, tid: nat, id: Id)
    requires SlotsExclusive(s) && t != tid && TidTimed(s, lost, t)
    requires OtherRowsSame(s.db, db, id)
    requires forall n :: RejectRow(db, n, id) ==> Holds(s, tid, n)
    ensures t in s.threads ==> ThreadTimed(db, lost, s.clock, s.threads[t])
  {
    if t in s.threads {
      var th := s.threads[t];
      if th.action.policy == Reject && (th.pc.Preparing? || th.pc.Inserting?) {
        assert Holds(s, t, th.action.name);
        FreeElsewhere(s.db, lost, db, th.action.name, if th.pc.Preparing? then s.clock else th.pc.createdAt);
      }
    }
  }

  lemma OthersTimed(s: State, lost: set<Id>, after: State, tid: nat, id: Id)
    requires SlotsExclusive(s) && OthersSame(s, after, tid) && after.clock == s.clock
    requires forall t :: TidTimed(s, lost, t)
    requires OtherRowsSame(s.db, after.db, id)
    requires forall n :: RejectRow(after.db, n, id) ==> Holds(s, tid, n)
    requires TidTimed(after, lost, tid)
    ensures forall t :: TidTimed(after, lost, t)
  {
    forall t ensures TidTimed(after, lost, t) {
      if t != tid {
        assert TidTimed(s, lost, t);
        OtherThreadTimed(s, lost, after.db, t, tid, id);
      }
    }
  }

  lemma StoredInsertKeepsTimeline(s: State, lost: set<Id>, tid: nat, th: Thread, outcome: InsertOutcome,
                                  registry: Registry)
    requires Timeline(s, lost) && Matched(s.db) && SlotsExclusive(s)
    requires tid in s.threads && s.threads[tid] == th && th.pc.Inserting? && th.pc.id !in s.db.runs
    requires ThreadInv(th, registry) && outcome != NotStored
    requires outcome == StoredButUnread ==> th.pc.id in lost
    ensures Timeline(ApplyInsert(s, tid, th, outcome), lost)
  {
    var run := InsertedRun(th, th.pc.id, th.pc.createdAt);
    InsertReadsBack(s.db, th, s.clock, registry);
    assert TidTimed(s, lost, tid);
    InsertKeepsApart(s.db, lost, run);
    InsertKeepsTimes(s.db, s.clock, run);
    OthersTimed(s, lost, ApplyInsert(s, tid, th, outcome), tid, run.id);
  }

  lemma InsertKeepsTimeline(s: State, lost: set<Id>, tid: nat, outcome: InsertOutcome)
    requires Inv(s) && Timeline(s, lost) && Enabled(s, Step(tid, Insert(outcome)))
    requires outcome == StoredButUnread && s.threads[tid].pc.id !in s.db.runs ==> s.threads[tid].pc.id in lost
    ensures Timeline(ApplyInsert(s, tid, s.threads[tid], outcome), lost)
  {
    var th := s.threads[tid];
    if th.pc.id in s.db.runs || outcome == NotStored {
      OneThreadKeepsTimeline(s, lost, ApplyInsert(s, tid, th, outcome), tid);
    } else {
      assert ThreadOk(s, tid, s.phase.registry);
      StoredInsertKeepsTimeline(s, lost, tid, th, outcome, s.phase.registry);
    }
  }

  lemma FinishKeepsTimeline(s: State, lost: set<Id>, tid: nat, th: Thread, registry: Registry)
    requires Timeline(s, lost) && TablesInv(s.db) && SlotsExclusive(s)
    requires tid in s.threads && s.threads[tid] == th && th.pc.Writing?
    requires ThreadInv(th, registry) && OwnedRow(s.db, s.orphans, OwnedRun(th))
    ensures Timeline(ApplyWrite(s, tid, th, true), lost)
  {
    var run := th.pc.run;
    UpdateAccepted(s.db, s.orphans, th, registry);
    assert TidTimed(s, lost, tid);
    FinishKeepsApart(s.db, lost, run.id, UpdatedRow(run.row, th.pc.update));
    FinishKeepsTimes(s.db, s.clock, run.id, UpdatedRow(run.row, th.pc.update));
    OthersTimed(s, lost, ApplyWrite(s, tid, th, true), tid, run.id);
  }

  lemma WriteKeepsTimeline(s: State, lost: set<Id>, tid: nat, ok: bool)
    requires Inv(s) && Timeline(s, lost) && Enabled(s, Step(tid, Write(ok)))
    requires !ok ==> s.threads[tid].pc.run.id in lost
    ensures Timeline(ApplyWrite(s, tid, s.threads[tid], ok), lost)
  {
    if ok {
      assert ThreadOk(s, tid, s.phase.registry);
      FinishKeepsTimeline(s, lost, tid, s.threads[tid], s.phase.registry);
    } else {
      OneThreadKeepsTimeline(s, lost, ApplyWrite(s, tid, s.threads[tid], ok), tid);
    }
  }

  lemma EventKeepsTimeline(s: State, lost: set<Id>, tid: nat, e: Event)
    requires Inv(s) && Timeline(s, lost) && Enabled(s, Step(tid, e)) && LostBy(s, Step(tid, e)) <= lost
    ensures Timeline(ApplyEvent(s, tid, s.threads[tid], e), lost)
  {
    match e
    case Claim => ClaimKeepsTimeline(s, lost, tid);
    case Insert(outcome) => InsertKeepsTimeline(s, lost, tid, outcome);
    case Write(ok) => WriteKeepsTimeline(s, lost, tid, ok);
    case Release => OneThreadKeepsTimeline(s, lost, ApplyEvent(s, tid, s.threads[tid], e), tid);
    case _ => PrivateKeepsTimeline(s, lost, tid, e);
  }

  // ---- every step ----

  lemma TickKeepsTimeline(s: State, lost: set<Id>, now: int)
    requires Timeline(s, lost) && now >= s.clock
    ensures Timeline(s.(clock := now), lost)
  {
    var after := s.(clock := now);
    forall id ensures RowTimed(after.db, now, id) { assert RowTimed(s.db, s.clock, id); }
    forall t ensures TidTimed(after, lost, t) {
      assert TidTimed(s, lost, t);
      if t in s.threads && s.threads[t].pc.Preparing? && s.threads[t].action.policy == Reject {
        FreeLater(s.db, lost, s.threads[t].action.name, s.clock, now);
      }
    }
  }

  lemma PruneKeepsTimeline(s: State, lost: set<Id>, ok: bool)
    requires Inv(s) && Timeline(s, lost) && s.phase.Opened?
    ensures Timeline(ApplyPrune(s, ok), lost)
  {
    var retention := s.phase.config.retention;
    if ok && retention.maxAge >= 0 {
      RetentionExact(s.db, retention, s.clock);
      RestrictKeepsApart(s.db, lost, Survivors(s.db, retention, s.clock), Some(s.clock), s.clock);
    }
  }

  lemma CancelKeepsTimeline(s: State, lost: set<Id>, outcome: CancelOutcome)
    requires Inv(s) && Timeline(s, lost) && s.phase.Recovering? && s.phase.pending != []
    ensures Timeline(ApplyCancel(s, outcome), lost)
  {
    var run := s.phase.pending[0];
    assert OwnedRow(s.db, map[], Some(run)) && RowTimed(s.db, s.clock, run.id);
    RecoveryAccepted(s.db, run, s.clock);
    FinishKeepsApart(s.db, lost, run.id, UpdatedRow(run.row, Recovery(run, s.clock)));
    FinishKeepsTimes(s.db, s.clock, run.id, UpdatedRow(run.row, Recovery(run, s.clock)));
  }

  /** The steps that change neither the tables nor the clock: a crash forgets the invocations, the others keep them. */
  lemma PhaseStepKeepsTimeline(s: State, lost: set<Id>, l: Label)
    requires Timeline(s, lost) && Enabled(s, l)
    requires l.Boot? || l.ListInterrupted? || l.Serve? || l.Crash?
    ensures Timeline(Apply(s, l), lost)
  {
    var after := Apply(s, l);
    forall t ensures TidTimed(after, lost, t) { assert TidTimed(s, lost, t); }
  }

  lemma StepKeepsTimeline(s: State, lost: set<Id>, l: Label)
    requires Inv(s) && Timeline(s, lost) && Enabled(s, l) && LostBy(s, l) <= lost
    requires l.Tick? ==> l.now >= s.clock
    ensures Timeline(Apply(s, l), lost)
  {
    match l
    case Tick(now) => TickKeepsTimeline(s, lost, now);
    case Prune(ok) => PruneKeepsTimeline(s, lost, ok);
    case CancelNext(outcome) => CancelKeepsTimeline(s, lost, outcome);
    case Accept(tid, _) => OneThreadKeepsTimeline(s, lost, Apply(s, l), tid);
    case Step(tid, e) => EventKeepsTimeline(s, lost, tid, e);
    case _ => PhaseStepKeepsTimeline(s, lost, l);
  }

  /** Losing more runs claims less. */
  lemma LosingMore(s: State, lost: set<Id>, more: set<Id>)
    requires Timeline(s, lost) && lost <= more
    ensures Timeline(s, more)
  {
    forall name, a, b ensures PairApart(s.db, more, name, a, b) { assert PairApart(s.db, lost, name, a, b); }
    forall tid ensures TidTimed(s, more, tid) {
      assert TidTimed(s, lost, tid);
      if tid in s.threads && s.threads[tid].action.policy == Reject {
        var th := s.threads[tid];
        if th.pc.Preparing? { FreeForFewer(s.db, lost, more, th.action.name, s.clock); }
        if th.pc.Inserting? { FreeForFewer(s.db, lost, more, th.action.name, th.pc.createdAt); }
      }
    }
  }

  lemma FreeForFewer(db: Tables, lost: set<Id>, more: set<Id>, name: string, t: int)
    requires FreeAt(db, lost, name, t) && lost <= more
    ensures FreeAt(db, more, name, t)
  {
    forall id ensures FinishedBefore(db, more, name, t, id) { assert FinishedBefore(db, lost, name, t, id); }
  }

  // ---- whole runs ----

  /** The clock never goes back. */
  predicate Monotone(s: State, labels: seq<Label>)
    decreases |labels|
  {
    labels == [] || ((labels[0].Tick? ==> labels[0].now >= s.clock) && Monotone(Apply(s, labels[0]), labels[1..]))
  }

  /** The runs that some step orphans. */
  function Lost(s: State, labels: seq<Label>): set<Id>
    decreases |labels|
  {
    if labels == [] then {} else LostBy(s, labels[0]) + Lost(Apply(s, labels[0]), labels[1..])
  }

  lemma {:induction false} RunKeepsTimeline(s: State, lost: set<Id>, labels: seq<Label>)
    requires Inv(s) && Timeline(s, lost) && Executes(s, labels) && Monotone(s, labels)
    ensures Timeline(Final(s, labels), lost + Lost(s, labels)) && Inv(Final(s, labels))
    decreases |labels|
  {
    if labels == [] {
      assert lost + Lost(s, labels) == lost;
    } else {
      var more := lost + LostBy(s, labels[0]);
      StepKeeps(s, labels[0]);
      LosingMore(s, lost, more);
      StepKeepsTimeline(s, more, labels[0]);
      RunKeepsTimeline(Apply(s, labels[0]), more, labels[1..]);
      assert more + Lost(Apply(s, labels[0]), labels[1..]) == lost + Lost(s, labels);
    }
  }

  /** Two different stored runs of one reject action. */
  predicate RejectPair(db: Tables, a: Id, b: Id) {
    a != b && a in db.runs && RejectRow(db, db.runs[a].actionName, a) && RejectRow(db, db.runs[a].actionName, b)
  }

  /** The recorded intervals are in order: one ends before the other begins. */
  predicate Disjoint(x: RunRow, y: RunRow) {
    || (x.finishedAt.Some? && x.createdAt <= x.finishedAt.value <= y.createdAt)
    || (y.finishedAt.Some? && y.createdAt <= y.finishedAt.value <= x.createdAt)
  }

  /** With a clock that never goes back, of two overlapping runs of a reject action one was orphaned by some step. */
  lemma OverlappingRunWasOrphaned(init: State, labels: seq<Label>, a: Id, b: Id)
    requires Initial(init) && Executes(init, labels) && Monotone(init, labels)
    requires RejectPair(Final(init, labels).db, a, b)
    ensures var db := Final(init, labels).db;
            a in Lost(init, labels) || b in Lost(init, labels) || Disjoint(db.runs[a], db.runs[b])
  {
    RunKeepsTimeline(init, {}, labels);
    var s, lost := Final(init, labels), {} + Lost(init, labels);
    assert PairApart(s.db, lost, s.db.runs[a].actionName, a, b);
    assert RowTimed(s.db, s.clock, a) && RowTimed(s.db, s.clock, b);
  }

  /** A lost run was orphaned at a step of the history, by one of the two faults. */
  lemma {:induction false} LostByAStep(s: State, labels: seq<Label>, id: Id)
    requires Executes(s, labels) && id in Lost(s, labels)
    ensures exists k, fault :: 0 <= k < |labels| && Orphans(Final(s, labels[..k]), labels[k], id, fault)
    decreases |labels|
  {
    if id in LostBy(s, labels[0]) {
      assert labels[..0] == [];
      assert Orphans(Final(s, labels[..0]), labels[0], id, if labels[0].event.Write? then FailedUpdate else LostCreate);
    } else {
      var rest := labels[1..];
      LostByAStep(Apply(s, labels[0]), rest, id);
      var k, fault :| 0 <= k < |rest| && Orphans(Final(Apply(s, labels[0]), rest[..k]), rest[k], id, fault);
      assert labels[..k + 1][1..] == rest[..k];
      assert Orphans(Final(s, labels[..k + 1]), labels[k + 1], id, fault);
    }
  }

  lemma {:induction false} NothingLost(s: State, labels: seq<Label>)
    requires forall l :: l in labels ==> !Faulty(l)
    ensures Lost(s, labels) == {}
    decreases |labels|
  {
    if labels != [] {
      assert labels[0] in labels;
      NothingLost(Apply(s, labels[0]), labels[1..]);
    }
  }

  /** Without the two faults any two runs of a reject action have disjoint recorded intervals, across restarts too. */
  lemma RejectRunsAreDisjoint(init: State, labels: seq<Label>, a: Id, b: Id)
    requires Initial(init) && Executes(init, labels) && Monotone(init, labels)
    requires forall l :: l in labels ==> !Faulty(l)
    requires RejectPair(Final(init, labels).db, a, b)
    ensures Disjoint(Final(init, labels).db.runs[a], Final(init, labels).db.runs[b])
  {
    OverlappingRunWasOrphaned(init, labels, a, b);
    NothingLost(init, labels);
  }
}
