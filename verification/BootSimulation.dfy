/** A whole boot, as `App.Bootstrap` runs it, is a run of the transition system. */
module BootSimulation {
  import opened Records
  import opened Queries
  import opened Execution
  import opened Lifecycle
  import opened Invariant
  import opened Booting
  import opened Invocation
  import opened Simulation
  import opened App

  /** The clocks that a boot reads are set. */
  ghost predicate Timed(prunedAt: int, w: BootWorld) {
    prunedAt != ZERO_TIME && forall i :: w.recovery.now(i) != ZERO_TIME
  }

  /** A step that keeps the invariant, after some others. */
  lemma OneMore(s: State, middle: State, l: Label)
    requires Leads(s, middle) && Inv(middle) && Enabled(middle, l)
    ensures Leads(s, Apply(middle, l)) && Inv(Apply(middle, l))
  {
    StepKeeps(middle, l);
    OneStep(middle, l);
    LeadsThrough(s, middle, Apply(middle, l));
  }

  /** The database is open, at the time at which retention will read the clock. */
  lemma OpenedSimulated(s: State, config: BootConfig, prunedAt: int) returns (opening: State)
    requires Inv(s) && Enabled(s, Boot(config)) && prunedAt != ZERO_TIME
    ensures Leads(s, opening) && Inv(opening)
    ensures opening.phase == Opened(config, s.db) && opening.db == s.db && opening.clock == prunedAt
  {
    var booted := Apply(s, Boot(config));
    assert Executes(s, []) && Final(s, []) == s;
    OneMore(s, s, Boot(config));
    OneMore(s, booted, Tick(prunedAt));
    opening := Apply(booted, Tick(prunedAt));
  }

  lemma PrunedSimulated(s: State, config: BootConfig, prunedAt: int, w: BootWorld) returns (pruned: State)
    requires Inv(s) && Enabled(s, Boot(config)) && prunedAt != ZERO_TIME && Retains(config.retention, w)
    ensures Leads(s, pruned) && Inv(pruned)
    ensures var retained := ApplyRetention(s.db, config.retention, prunedAt);
            retained.Success? && pruned.db == retained.value.tables
    ensures pruned.phase == Pruned(config, s.db, prunedAt)
  {
    var opening := OpenedSimulated(s, config, prunedAt);
    OneMore(s, opening, Label.Prune(true));
    pruned := Apply(opening, Label.Prune(true));
  }

  /** Listing the interrupted runs starts recovery. */
  lemma ListedSimulated(s: State, pruned: State)
    requires Leads(s, pruned) && Inv(pruned) && pruned.phase.Pruned?
    ensures var listed := Apply(pruned, ListInterrupted(true));
            && Leads(s, listed) && Inv(listed) && listed.db == pruned.db && listed.phase.Recovering?
            && listed.phase.pending == Select(pruned.db, ByStatus(Running))
            && listed.phase.config == pruned.phase.config
  {
    OneMore(s, pruned, ListInterrupted(true));
  }

  /** A boot that gets through leads to a serving, idle service. */
  lemma SuccessSimulated(s: State, config: BootConfig, prunedAt: int, w: BootWorld)
    requires Inv(s) && Enabled(s, Boot(config)) && Timed(prunedAt, w)
    requires BootSucceeds(s.db, config.retention, prunedAt, w)
    ensures exists after ::
              && Leads(s, after) && after.phase == Serving(config.registry) && Idle(after)
              && after.db == BootTables(s.db, config.retention, prunedAt, w)
  {
    var pruned := PrunedSimulated(s, config, prunedAt, w);
    var listed := Apply(pruned, ListInterrupted(true));
    ListedSimulated(s, pruned);
    var after := RecoverySucceeds(s, listed, w.recovery.now);
    assert after.db == RecoveredTables(pruned.db, w);
  }

  lemma RecoverySucceeds(s: State, listed: State, now: nat -> int) returns (after: State)
    requires Leads(s, listed) && Inv(listed) && listed.phase.Recovering? && forall i :: now(i) != ZERO_TIME
    ensures Leads(s, after) && after.phase == Serving(listed.phase.config.registry) && Idle(after)
    ensures after.db == Recovered(listed.db, listed.phase.pending, |listed.phase.pending|, now)
  {
    var pending := listed.phase.pending;
    RecoverySimulated(listed, |pending|, now);
    var done :| Leads(listed, done) && Inv(done) && done.db == Recovered(listed.db, pending, |pending|, now)
                && done.phase.Recovering? && done.phase.pending == pending[|pending|..]
                && done.phase.config == listed.phase.config;
    LeadsThrough(s, listed, done);
    OneMore(s, done, Serve);
    after := Apply(done, Serve);
  }

  /** A boot that fails anywhere leads back to a service that is down. */
  lemma FailureSimulated(s: State, config: BootConfig, prunedAt: int, w: BootWorld)
    requires Inv(s) && Enabled(s, Boot(config)) && Timed(prunedAt, w)
    requires !BootSucceeds(s.db, config.retention, prunedAt, w)
    ensures exists after ::
              Leads(s, after) && after.phase.Down? && after.db == BootTables(s.db, config.retention, prunedAt, w)
  {
    if !Retains(config.retention, w) {
      var opening := OpenedSimulated(s, config, prunedAt);
      OneMore(s, opening, Label.Prune(false));
    } else {
      var pruned := PrunedSimulated(s, config, prunedAt, w);
      if w.authFails {
        OneMore(s, pruned, Crash);
      } else if w.recovery.listFails {
        OneMore(s, pruned, ListInterrupted(false));
      } else {
        var listed := Apply(pruned, ListInterrupted(true));
        ListedSimulated(s, pruned);
        var after := RecoveryFails(s, listed, FirstFailure(pruned.db, listed.phase.pending, 0, w.recovery), w.recovery);
      }
    }
  }

  /** Recovery that stops in round `n`: the update was refused by the store, or applied and not read back. */
  lemma RecoveryFails(s: State, listed: State, n: nat, w: RecoveryWorld) returns (after: State)
    requires Leads(s, listed) && Inv(listed) && listed.phase.Recovering? && forall i :: w.now(i) != ZERO_TIME
    requires n == FirstFailure(listed.db, listed.phase.pending, 0, w) && n < |listed.phase.pending|
    ensures Leads(s, after) && after.phase.Down?
    ensures after.db == RecoveredUntil(listed.db, listed.phase.pending, w)
  {
    var pending := listed.phase.pending;
    RecoverySimulated(listed, n, w.now);
    var before :| Leads(listed, before) && Inv(before) && before.db == Recovered(listed.db, pending, n, w.now)
                  && before.phase.Recovering? && before.phase.pending == pending[n..]
                  && before.phase.config == listed.phase.config;
    LeadsThrough(s, listed, before);
    OneMore(s, before, Tick(w.now(n)));
    var ticked := Apply(before, Tick(w.now(n)));
    var outcome := if w.fails(n) then CancelFails else CancelsUnread;
    OneMore(s, ticked, CancelNext(outcome));
    after := Apply(ticked, CancelNext(outcome));
    RoundTables(listed, n, w);
    CancelStops(ticked, pending[n], outcome);
  }

  /** What the failing round leaves, by what made it fail. */
  lemma RoundTables(listed: State, n: nat, w: RecoveryWorld)
    requires Inv(listed) && listed.phase.Recovering? && n < |listed.phase.pending|
    requires forall i :: w.now(i) != ZERO_TIME
    ensures var pending := listed.phase.pending;
            var before := Recovered(listed.db, pending, n, w.now);
            var updated := UpdateRun(before, Recovery(pending[n], w.now(n)));
            && updated.Success?
            && Round(listed.db, pending, n, w).tables == if w.fails(n) then before else updated.value
  {
    var config, start, at, pending := listed.phase.config, listed.phase.start, listed.phase.prunedAt,
                                      listed.phase.pending;
    RoundAccepted(config, start, at, listed.db, pending, n, w.now);
    RoundFailsIff(config, start, at, listed.db, pending, n, w);
  }

  lemma CancelStops(s: State, run: Run, outcome: CancelOutcome)
    requires s.phase.Recovering? && s.phase.pending != [] && s.phase.pending[0] == run && outcome != Cancels
    requires UpdateRun(s.db, Recovery(run, s.clock)).Success?
    ensures var after := Apply(s, CancelNext(outcome));
            && after.phase.Down?
            && after.db == if outcome == CancelFails then s.db else UpdateRun(s.db, Recovery(run, s.clock)).value
  {
  }

  /**
   A boot is a run of the transition system: the tables it leaves are those of the
   system, serving and idle if it gets through, down if it does not.
   */
  lemma BootSimulated(s: State, config: BootConfig, prunedAt: int, w: BootWorld)
    requires Reachable(s) && Enabled(s, Boot(config)) && Timed(prunedAt, w)
    ensures exists after ::
              && Leads(s, after) && after.db == BootTables(s.db, config.retention, prunedAt, w)
              && if BootSucceeds(s.db, config.retention, prunedAt, w)
                 then after.phase == Serving(config.registry) && Idle(after)
                 else after.phase.Down?
  {
    ReachableInv(s);
    if BootSucceeds(s.db, config.retention, prunedAt, w) {
      SuccessSimulated(s, config, prunedAt, w);
    } else {
      FailureSimulated(s, config, prunedAt, w);
    }
  }
}
