/** What a boot guarantees, whatever state the previous process left behind. */
module Restart {
  import opened Prelude
  import opened Records
  import opened Queries
  import opened Retention
  import opened Lifecycle
  import opened Invariant
  import opened Booting

  function RunningIds(t: Tables): set<Id> {
    set id | id in t.runs && t.runs[id].status == Running
  }

  /** What a completed boot makes of the tables it started with. */
  ghost predicate CleanBoot(start: Tables, policy: RetentionPolicy, db: Tables) {
    && Matched(db)
    && RunningIds(db) == {}
    && (forall id :: id in start.runs && start.runs[id].status == Running ==>
          id in db.runs && CancelledVersion(start.runs[id], db.runs[id]))
    && db.lastPrunedAt.Some?
    && (forall id :: id in start.runs && start.runs[id].status != Running ==>
          (id in db.runs <==> Survives(start, policy, db.lastPrunedAt.value, id))
          && (id in db.runs ==> db.runs[id] == start.runs[id]))
    && (forall id :: id in db.runs ==> id in start.runs)
    && (policy.maxRuns > 0 ==> |db.runs| <= policy.maxRuns + |RunningIds(start)|)
  }

  /** The steps of one boot: retention, recovery run by run, serving; the clock may move meanwhile. */
  predicate BootStep(l: Label) {
    l.Tick? || l.Prune? || l.ListInterrupted? || l.CancelNext? || l.Serve?
  }

  function StartOf(p: Phase): Option<Tables> {
    if p.Opened? || p.Pruned? || p.Recovering? then Some(p.start) else None
  }

  function ConfigOf(p: Phase): Option<BootConfig> {
    if p.Opened? || p.Pruned? || p.Recovering? then Some(p.config) else None
  }

  // ---- counting the survivors ----

  function FinishedIds(t: Tables): set<Id> {
    set id | id in t.runs && t.runs[id].status != Running
  }

  lemma KeptParts(start: Tables, policy: RetentionPolicy, prunedAt: int, finished: set<Id>)
    requires Matched(start)
    requires finished == FinishedIds(Restrict(start, Survivors(start, policy, prunedAt)))
    ensures Survivors(start, policy, prunedAt) == finished + RunningIds(start)
    ensures |Survivors(start, policy, prunedAt)| <= |finished| + |RunningIds(start)|
  {
  }

  /** Retention leaves at most `maxRuns` finished rows besides all the running ones. */
  lemma SurvivorsBounded(start: Tables, policy: RetentionPolicy, prunedAt: int)
    requires Matched(start) && policy.maxRuns > 0
    ensures |Survivors(start, policy, prunedAt)| <= policy.maxRuns + |RunningIds(start)|
  {
    var kept := Survivors(start, policy, prunedAt);
    var after := Restrict(start, kept);
    var finished := FinishedIds(after);
    FinishedRowsBounded(start, policy, prunedAt);
    CountByIdOrKey(after, finished, FinishedKeys(after));
    KeptParts(start, policy, prunedAt, finished);
  }

  lemma BootedRow(config: BootConfig, start: Tables, prunedAt: int, db: Tables, id: Id)
    requires TablesInv(db) && BootInv(config, start, prunedAt, db) && id in start.runs
    requires PendingInv(db, [])
    ensures start.runs[id].status == Running ==> id in db.runs && CancelledVersion(start.runs[id], db.runs[id])
    ensures start.runs[id].status != Running ==>
              (id in db.runs <==> Survives(start, config.retention, prunedAt, id))
              && (id in db.runs ==> db.runs[id] == start.runs[id])
  {
    assert BootRowOk(start, db, id);
    assert id in db.runs <==> id in Survivors(start, config.retention, prunedAt);
    assert !IsPending([], id);
  }

  lemma RecoveredIsClean(config: BootConfig, start: Tables, prunedAt: int, db: Tables)
    requires TablesInv(db) && BootInv(config, start, prunedAt, db) && PendingInv(db, [])
    ensures CleanBoot(start, config.retention, db)
  {
    forall id | id in db.runs ensures db.runs[id].status != Running { assert !IsPending([], id); }
    forall id | id in start.runs
      ensures start.runs[id].status == Running ==> id in db.runs && CancelledVersion(start.runs[id], db.runs[id])
      ensures start.runs[id].status != Running ==>
                (id in db.runs <==> Survives(start, config.retention, prunedAt, id))
                && (id in db.runs ==> db.runs[id] == start.runs[id])
    {
      BootedRow(config, start, prunedAt, db, id);
    }
    if config.retention.maxRuns > 0 {
      SurvivorsBounded(start, config.retention, prunedAt);
      assert |db.runs| == |db.runs.Keys|;
    }
  }

  // ---- a whole boot ----

  lemma {:induction false} BootRun(s: State, labels: seq<Label>, start: Tables, config: BootConfig)
    requires Inv(s) && StartOf(s.phase) == Some(start) && ConfigOf(s.phase) == Some(config)
    requires Executes(s, labels) && (forall l :: l in labels ==> BootStep(l))
    requires Final(s, labels).phase.Serving?
    ensures CleanBoot(start, config.retention, Final(s, labels).db)
    ensures Final(s, labels).phase == Serving(config.registry) && Idle(Final(s, labels))
    decreases |labels|
  {
    var after := Apply(s, labels[0]);
    StepKeeps(s, labels[0]);
    assert labels[0] in labels;
    if labels[0].Serve? {
      RecoveredIsClean(config, start, s.phase.prunedAt, s.db);
      ServingKeepsTables(after, labels[1..]);
    } else if StartOf(after.phase).Some? {
      BootRun(after, labels[1..], start, config);
    } else {
      StaysDown(after, labels[1..]);
    }
  }

  /** Without another invocation, a service that has just begun to serve leaves the tables alone. */
  lemma {:induction false} ServingKeepsTables(s: State, labels: seq<Label>)
    requires s.phase.Serving? && Executes(s, labels) && forall l :: l in labels ==> BootStep(l)
    ensures Final(s, labels).db == s.db && Final(s, labels).phase == s.phase
    ensures Idle(s) ==> Idle(Final(s, labels))
    decreases |labels|
  {
    if labels != [] {
      assert labels[0] in labels;
      ServingKeepsTables(Apply(s, labels[0]), labels[1..]);
    }
  }

  lemma {:induction false} StaysDown(s: State, labels: seq<Label>)
    requires s.phase.Down? && Executes(s, labels) && forall l :: l in labels ==> BootStep(l)
    ensures Final(s, labels).phase.Down?
    decreases |labels|
  {
    if labels != [] {
      assert labels[0] in labels;
      StaysDown(Apply(s, labels[0]), labels[1..]);
    }
  }

  /**
   From any state in which the previous process could have died, a boot that ends
   in serving has no running row: every row running before it is still there and
   cancelled, the finished rows are exactly the survivors of retention.
   */
  lemma BootRestoresCleanState(s: State, config: BootConfig, labels: seq<Label>)
    requires Reachable(s) && s.phase.Down? && Enabled(s, Boot(config))
    requires Executes(Apply(s, Boot(config)), labels) && (forall l :: l in labels ==> BootStep(l))
    requires Final(Apply(s, Boot(config)), labels).phase.Serving?
    ensures CleanBoot(s.db, config.retention, Final(Apply(s, Boot(config)), labels).db)
  {
    ReachableInv(s);
    StepKeeps(s, Boot(config));
    BootRun(Apply(s, Boot(config)), labels, s.db, config);
  }

  /** A crash in the middle of recovery is repaired: what was still pending is cancelled by the next boot. */
  lemma CrashedRecoveryIsRepaired(s: State, config: BootConfig, labels: seq<Label>, run: Run)
    requires Reachable(s) && s.phase.Recovering? && run in s.phase.pending
    requires Enabled(Apply(s, Crash), Boot(config))
    requires var booted := Apply(Apply(s, Crash), Boot(config));
             && Executes(booted, labels) && (forall l :: l in labels ==> BootStep(l))
             && Final(booted, labels).phase.Serving?
    ensures var db := Final(Apply(Apply(s, Crash), Boot(config)), labels).db;
            run.id in db.runs && CancelledVersion(run.row, db.runs[run.id])
  {
    ReachableInv(s);
    var i :| 0 <= i < |s.phase.pending| && s.phase.pending[i] == run;
    assert OwnedRow(s.db, map[], Some(run));
    var down := Apply(s, Crash);
    StepKeeps(s, Crash);
    StepKeeps(down, Boot(config));
    BootRun(Apply(down, Boot(config)), labels, down.db, config);
  }

  lemma RecoveryRound(s: State)
    requires Inv(s) && s.phase.Recovering? && s.phase.pending != []
    ensures var after := Apply(s, CancelNext(Cancels));
            after.phase.Recovering? && after.phase.pending == s.phase.pending[1..]
  {
    assert OwnedRow(s.db, map[], Some(s.phase.pending[0]));
    RecoveryAccepted(s.db, s.phase.pending[0], s.clock);
  }

  /** Steps of a boot that end in serving. */
  ghost predicate BootsToServing(s: State, labels: seq<Label>) {
    (forall l :: l in labels ==> BootStep(l)) && Executes(s, labels) && Final(s, labels).phase.Serving?
  }

  lemma BootStepFirst(s: State, l: Label, rest: seq<Label>)
    requires BootStep(l) && Enabled(s, l) && BootsToServing(Apply(s, l), rest)
    ensures BootsToServing(s, [l] + rest)
  {
  }

  /** Recovery always gets through: each round cancels one run, and only a failing database stops it. */
  lemma {:induction false} RecoveryCompletes(s: State)
    requires Inv(s) && s.phase.Recovering?
    ensures exists labels :: BootsToServing(s, labels) && |labels| == |s.phase.pending| + 1
    decreases |s.phase.pending|
  {
    if s.phase.pending == [] {
      assert BootsToServing(Apply(s, Serve), []);
      BootStepFirst(s, Serve, []);
      assert |[Serve] + []| == 1;
    } else {
      var after := Apply(s, CancelNext(Cancels));
      StepKeeps(s, CancelNext(Cancels));
      RecoveryRound(s);
      RecoveryCompletes(after);
      var rest :| BootsToServing(after, rest) && |rest| == |after.phase.pending| + 1;
      BootStepFirst(s, CancelNext(Cancels), rest);
      assert |[CancelNext(Cancels)] + rest| == |s.phase.pending| + 1;
    }
  }

  lemma RecoveringServes(s: State)
    requires Inv(s) && s.phase.Recovering?
    ensures exists labels :: BootsToServing(s, labels)
  {
    RecoveryCompletes(s);
  }

  lemma PrunedServes(s: State)
    requires Inv(s) && s.phase.Pruned?
    ensures exists labels :: BootsToServing(s, labels)
  {
    var next := ListInterrupted(true);
    StepKeeps(s, next);
    RecoveringServes(Apply(s, next));
    var rest :| BootsToServing(Apply(s, next), rest);
    BootStepFirst(s, next, rest);
  }

  lemma RetentionSucceeds(s: State)
    requires s.phase.Opened? && Matched(s.db)
    requires s.phase.config.retention.maxAge >= 0 && s.phase.config.retention.maxRuns >= 0
    ensures Apply(s, Label.Prune(true)).phase.Pruned?
  {
    RetentionExact(s.db, s.phase.config.retention, s.clock);
  }

  lemma OpenedServes(s: State)
    requires Inv(s) && s.phase.Opened? && s.phase.config.retention.maxAge >= 0
    ensures exists labels :: BootsToServing(s, labels)
  {
    var next := Label.Prune(true);
    RetentionSucceeds(s);
    StepKeeps(s, next);
    PrunedServes(Apply(s, next));
    var rest :| BootsToServing(Apply(s, next), rest);
    BootStepFirst(s, next, rest);
  }

  /** With a negative age, which 64-bit wrap-around can produce, no boot ever serves. */
  lemma {:induction false} NegativeAgeNeverServes(s: State, labels: seq<Label>)
    requires s.phase.Opened? && s.phase.config.retention.maxAge < 0
    requires Executes(s, labels) && (forall l :: l in labels ==> BootStep(l))
    ensures !Final(s, labels).phase.Serving?
    decreases |labels|
  {
    if labels != [] {
      var after := Apply(s, labels[0]);
      assert labels[0] in labels;
      if labels[0].Prune? {
        StaysDown(after, labels[1..]);
      } else {
        NegativeAgeNeverServes(after, labels[1..]);
      }
    }
  }

  /** From every reachable down state a boot can reach serving exactly if its age is not negative. */
  lemma BootServesIff(s: State, config: BootConfig)
    requires Reachable(s) && Enabled(s, Boot(config))
    ensures (exists labels :: BootsToServing(Apply(s, Boot(config)), labels)) <==> config.retention.maxAge >= 0
  {
    ReachableInv(s);
    if config.retention.maxAge >= 0 {
      StepKeeps(s, Boot(config));
      OpenedServes(Apply(s, Boot(config)));
    } else {
      forall labels ensures !BootsToServing(Apply(s, Boot(config)), labels) {
        if Executes(Apply(s, Boot(config)), labels) && (forall l :: l in labels ==> BootStep(l)) {
          NegativeAgeNeverServes(Apply(s, Boot(config)), labels);
        }
      }
    }
  }
}
