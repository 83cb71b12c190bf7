/** `Bootstrap`: retention, then recovery, then serving. */
module App {
  import opened Prelude
  import opened Records
  import opened Queries
  import opened Repository
  import opened Retention
  import opened RetentionArithmetic
  import opened Loading
  import opened Execution
  import opened Lifecycle
  import opened Invariant
  import opened Booting
  import opened Restart
  import opened Invocation
  import opened ExecutionService

  /** Each round of recovery keeps what the boot has established and takes one run off the pending list. */
  lemma {:induction false} RecoveredKeeps(config: BootConfig, start: Tables, prunedAt: int, db: Tables,
                                          pending: seq<Run>, n: nat, now: nat -> int)
    requires n <= |pending| && forall i :: now(i) != ZERO_TIME
    requires TablesInv(db) && BootInv(config, start, prunedAt, db) && PendingInv(db, pending)
    ensures var after := Recovered(db, pending, n, now);
            TablesInv(after) && BootInv(config, start, prunedAt, after) && PendingInv(after, pending[n..])
  {
    if n == 0 {
      assert pending[0..] == pending;
    } else {
      var before := Recovered(db, pending, n - 1, now);
      RecoveredKeeps(config, start, prunedAt, db, pending, n - 1, now);
      assert pending[n - 1..][1..] == pending[n..];
      RoundKeeps(config, start, prunedAt, before, pending[n - 1..], now(n - 1));
    }
  }

  lemma RoundKeeps(config: BootConfig, start: Tables, prunedAt: int, db: Tables, pending: seq<Run>, now: int)
    requires pending != [] && now != ZERO_TIME
    requires TablesInv(db) && BootInv(config, start, prunedAt, db) && PendingInv(db, pending)
    ensures var result := UpdateRun(db, Recovery(pending[0], now));
            && result.Success?
            && TablesInv(result.value)
            && BootInv(config, start, prunedAt, result.value)
            && PendingInv(result.value, pending[1..])
  {
    var run := pending[0];
    var row := UpdatedRow(run.row, Recovery(run, now));
    RecoveryAccepted(db, run, now);
    CancelKeepsTables(db, run, row);
    CancelKeepsBoot(config, start, prunedAt, db, run, row);
    CancelKeepsPending(db, pending, row);
  }

  /** In the tables of a boot every update of recovery is accepted, so only the world makes a round fail. */
  lemma RoundFailsIff(config: BootConfig, start: Tables, prunedAt: int, db: Tables, pending: seq<Run>, i: nat,
                      w: RecoveryWorld)
    requires i < |pending| && forall j :: w.now(j) != ZERO_TIME
    requires TablesInv(db) && BootInv(config, start, prunedAt, db) && PendingInv(db, pending)
    ensures Round(db, pending, i, w).result.Failure? <==> w.fails(i) || w.unread(i)
    ensures Round(db, pending, i, w).tables == Recovered(db, pending, if w.fails(i) then i else i + 1, w.now)
  {
    RoundAccepted(config, start, prunedAt, db, pending, i, w.now);
    FinishedRunFailsIff(Recovered(db, pending, i, w.now), Recovery(pending[i], w.now(i)), w.fails(i), w.unread(i));
  }

  lemma RoundAccepted(config: BootConfig, start: Tables, prunedAt: int, db: Tables, pending: seq<Run>, i: nat,
                      now: nat -> int)
    requires i < |pending| && forall j :: now(j) != ZERO_TIME
    requires TablesInv(db) && BootInv(config, start, prunedAt, db) && PendingInv(db, pending)
    ensures Matched(Recovered(db, pending, i, now))
    ensures UpdateRun(Recovered(db, pending, i, now), Recovery(pending[i], now(i))).Success?
  {
    RecoveredKeeps(config, start, prunedAt, db, pending, i, now);
    RoundKeeps(config, start, prunedAt, Recovered(db, pending, i, now), pending[i..], now(i));
  }

  /** Recovery gets through exactly if no round fails; wherever it stops, the next boot can start from there. */
  lemma RecoveryEnds(config: BootConfig, start: Tables, prunedAt: int, db: Tables, pending: seq<Run>, w: RecoveryWorld)
    requires forall j :: w.now(j) != ZERO_TIME
    requires TablesInv(db) && BootInv(config, start, prunedAt, db) && PendingInv(db, pending)
    ensures FirstFailure(db, pending, 0, w) == |pending| <==>
            forall i: nat | i < |pending| :: !w.fails(i) && !w.unread(i)
    ensures TablesInv(RecoveredUntil(db, pending, w))
    ensures FirstFailure(db, pending, 0, w) == |pending| ==>
              CleanBoot(start, config.retention, RecoveredUntil(db, pending, w))
  {
    forall i: nat | i < |pending| ensures Round(db, pending, i, w).result.Failure? <==> w.fails(i) || w.unread(i) {
      RoundFailsIff(config, start, prunedAt, db, pending, i, w);
    }
    EveryRoundSucceedsIff(db, pending, w);
    EndKeeps(config, start, prunedAt, db, pending, FirstFailure(db, pending, 0, w), w);
  }

  lemma EveryRoundSucceedsIff(db: Tables, pending: seq<Run>, w: RecoveryWorld)
    requires forall i: nat | i < |pending| :: Round(db, pending, i, w).result.Failure? <==> w.fails(i) || w.unread(i)
    ensures FirstFailure(db, pending, 0, w) == |pending| <==>
            forall i: nat | i < |pending| :: !w.fails(i) && !w.unread(i)
  {
    var n := FirstFailure(db, pending, 0, w);
    if n == |pending| {
      forall i: nat | i < |pending| ensures !w.fails(i) && !w.unread(i) {
        assert Round(db, pending, i, w).result.Success?;
      }
    }
  }

  lemma EndKeeps(config: BootConfig, start: Tables, prunedAt: int, db: Tables, pending: seq<Run>, n: nat,
                 w: RecoveryWorld)
    requires n == FirstFailure(db, pending, 0, w) && forall j :: w.now(j) != ZERO_TIME
    requires TablesInv(db) && BootInv(config, start, prunedAt, db) && PendingInv(db, pending)
    ensures TablesInv(RecoveredUntil(db, pending, w))
    ensures n == |pending| ==> CleanBoot(start, config.retention, RecoveredUntil(db, pending, w))
  {
    if n == |pending| {
      RecoveryCleans(config, start, prunedAt, db, pending, w.now);
    } else {
      RoundFailsIff(config, start, prunedAt, db, pending, n, w);
      RecoveredAccepted(config, start, prunedAt, db, pending, if w.fails(n) then n else n + 1, w.now);
    }
  }

  lemma RecoveredAccepted(config: BootConfig, start: Tables, prunedAt: int, db: Tables, pending: seq<Run>, n: nat,
                          now: nat -> int)
    requires n <= |pending| && forall j :: now(j) != ZERO_TIME
    requires TablesInv(db) && BootInv(config, start, prunedAt, db) && PendingInv(db, pending)
    ensures TablesInv(Recovered(db, pending, n, now))
  {
    RecoveredKeeps(config, start, prunedAt, db, pending, n, now);
  }

  lemma RecoveryCleans(config: BootConfig, start: Tables, prunedAt: int, db: Tables, pending: seq<Run>, now: nat -> int)
    requires forall j :: now(j) != ZERO_TIME
    requires TablesInv(db) && BootInv(config, start, prunedAt, db) && PendingInv(db, pending)
    ensures TablesInv(Recovered(db, pending, |pending|, now))
    ensures CleanBoot(start, config.retention, Recovered(db, pending, |pending|, now))
  {
    var n := |pending|;
    RecoveredKeeps(config, start, prunedAt, db, pending, n, now);
    assert pending[n..] == [];
    RecoveredIsClean(config, start, prunedAt, Recovered(db, pending, n, now));
  }

  lemma PendingCount(db: Tables)
    requires Matched(db)
    ensures |Select(db, ByStatus(Running))| == |RunningIds(db)|
  {
    var view, keys := View(db), SelectedKeys(View(db), ByStatus(Running));
    forall id | id in RunningIds(db) ensures RowKey(db, id) in keys {
      assert id in view && KeyOf(view[id]) == RowKey(db, id);
    }
    CountByIdOrKey(db, RunningIds(db), keys);
  }

  lemma SurvivorsStillRunning(start: Tables, policy: RetentionPolicy, prunedAt: int, at: Option<int>)
    requires Matched(start)
    ensures RunningIds(Restrict(start, Survivors(start, policy, prunedAt)).(lastPrunedAt := at)) == RunningIds(start)
  {
  }

  // ---- the boot ----

  /** What a boot meets: the faults of its retention transaction, of the authentication setup and of recovery. */
  datatype BootWorld = BootWorld(retentionFault: RetentionFault, authFails: bool, recovery: RecoveryWorld)

  /** The boot gets through retention. */
  predicate Retains(policy: RetentionPolicy, w: BootWorld) {
    policy.maxAge >= 0 && policy.maxRuns >= 0 && !RetentionBreaks(policy, w.retentionFault)
  }

  /** The tables that the rest of a boot leaves after retention has left `pruned`. */
  function RecoveredTables(pruned: Tables, w: BootWorld): Tables {
    if w.authFails || w.recovery.listFails then pruned
    else RecoveredUntil(pruned, Select(pruned, ByStatus(Running)), w.recovery)
  }

  /** The rest of the boot gets through. */
  predicate Recovers(pruned: Tables, w: BootWorld) {
    && !w.authFails && !w.recovery.listFails
    && var pending := Select(pruned, ByStatus(Running));
       FirstFailure(pruned, pending, 0, w.recovery) == |pending|
  }

  /** The tables that a boot leaves, whether or not it succeeds. */
  function BootTables(start: Tables, policy: RetentionPolicy, prunedAt: int, w: BootWorld): Tables {
    var retained := ApplyRetention(start, policy, prunedAt);
    if !Retains(policy, w) || retained.Failure? then start else RecoveredTables(retained.value.tables, w)
  }

  /** Every phase of the boot gets through. */
  predicate BootSucceeds(start: Tables, policy: RetentionPolicy, prunedAt: int, w: BootWorld) {
    var retained := ApplyRetention(start, policy, prunedAt);
    Retains(policy, w) && retained.Success? && Recovers(retained.value.tables, w)
  }

  /** No fault strikes while `running` runs are being recovered. */
  predicate Unharmed(w: BootWorld, running: nat) {
    && !w.authFails && !w.recovery.listFails
    && forall i: nat | i < running :: !w.recovery.fails(i) && !w.recovery.unread(i)
  }

  lemma RetentionStarts(start: Tables, config: BootConfig, prunedAt: int, pruned: Tables)
    requires TablesInv(start) && config.retention.maxAge >= 0 && config.retention.maxRuns >= 0
    requires pruned == ApplyRetention(start, config.retention, prunedAt).value.tables
    ensures TablesInv(pruned) && BootInv(config, start, prunedAt, pruned)
    ensures PendingInv(pruned, Select(pruned, ByStatus(Running)))
    ensures |Select(pruned, ByStatus(Running))| == |RunningIds(start)|
  {
    RetentionExact(start, config.retention, prunedAt);
    PruneStartsBoot(start, config, prunedAt);
    InterruptedListed(pruned);
    PendingCount(pruned);
    SurvivorsStillRunning(start, config.retention, prunedAt, Some(prunedAt));
  }

  /** From any tables the service can leave, a boot succeeds exactly if nothing strikes, and leaves a clean state. */
  lemma BootOutcome(start: Tables, config: BootConfig, prunedAt: int, w: BootWorld)
    requires TablesInv(start) && forall j :: w.recovery.now(j) != ZERO_TIME
    ensures TablesInv(BootTables(start, config.retention, prunedAt, w))
    ensures BootSucceeds(start, config.retention, prunedAt, w) <==>
            Retains(config.retention, w) && Unharmed(w, |RunningIds(start)|)
    ensures BootSucceeds(start, config.retention, prunedAt, w) ==>
              CleanBoot(start, config.retention, BootTables(start, config.retention, prunedAt, w))
  {
    var retained := ApplyRetention(start, config.retention, prunedAt);
    if Retains(config.retention, w) {
      assert retained.Success?;
      PrunedBootEnds(start, config, prunedAt, retained.value.tables, w);
    }
  }

  /** What is left of a boot once retention is through. */
  lemma PrunedBootEnds(start: Tables, config: BootConfig, prunedAt: int, pruned: Tables, w: BootWorld)
    requires TablesInv(start) && config.retention.maxAge >= 0 && config.retention.maxRuns >= 0
    requires pruned == ApplyRetention(start, config.retention, prunedAt).value.tables
    requires forall j :: w.recovery.now(j) != ZERO_TIME
    ensures TablesInv(RecoveredTables(pruned, w))
    ensures Recovers(pruned, w) <==> Unharmed(w, |RunningIds(start)|)
    ensures Recovers(pruned, w) ==> CleanBoot(start, config.retention, RecoveredTables(pruned, w))
  {
    var pending := Select(pruned, ByStatus(Running));
    PrunedRecoveryEnds(start, config, prunedAt, pruned, pending, w.recovery);
    if !w.authFails && !w.recovery.listFails {
      assert RecoveredTables(pruned, w) == RecoveredUntil(pruned, pending, w.recovery);
    }
  }

  lemma PrunedRecoveryEnds(start: Tables, config: BootConfig, prunedAt: int, pruned: Tables, pending: seq<Run>,
                           w: RecoveryWorld)
    requires TablesInv(start) && config.retention.maxAge >= 0 && config.retention.maxRuns >= 0
    requires pruned == ApplyRetention(start, config.retention, prunedAt).value.tables
    requires pending == Select(pruned, ByStatus(Running)) && forall j :: w.now(j) != ZERO_TIME
    ensures TablesInv(pruned) && TablesInv(RecoveredUntil(pruned, pending, w))
    ensures FirstFailure(pruned, pending, 0, w) == |pending| <==>
            forall i: nat | i < |RunningIds(start)| :: !w.fails(i) && !w.unread(i)
    ensures FirstFailure(pruned, pending, 0, w) == |pending| ==>
              CleanBoot(start, config.retention, RecoveredUntil(pruned, pending, w))
  {
    RetentionStarts(start, config, prunedAt, pruned);
    RecoveryEnds(config, start, prunedAt, pruned, pending, w);
  }

  /** Authentication and recovery, over the tables that retention has left. */
  method RecoverAndServe(store: Store, registry: Registry, w: BootWorld) returns (service: Option<Service>)
    requires store.Valid()
    modifies store
    ensures store.Valid() && store.Contents() == RecoveredTables(old(store.Contents()), w)
    ensures service.Some? <==> Recovers(old(store.Contents()), w)
    ensures service.Some? ==>
              service.value.store == store && service.value.registry == registry && service.value.Slots() == {}
  {
    service := None;
    if !w.authFails {
      var executor := new Service(store, registry);
      var failure := executor.CancelInterruptedRuns(w.recovery);
      if failure.None? { service := Some(executor); }
    }
  }

  /** Retention, authentication, recovery, in this order; the first failure ends the boot. */
  method Bootstrap(store: Store, registry: Registry, retentionDays: int, maxRuns: int, prunedAt: int, w: BootWorld)
    returns (service: Option<Service>)
    requires store.Valid() && forall i :: w.recovery.now(i) != ZERO_TIME
    modifies store
    ensures store.Valid()
    ensures service.Some? ==>
              service.value.store == store && service.value.registry == registry && service.value.Slots() == {}
    ensures store.Contents() ==
            BootTables(old(store.Contents()), RetentionPolicy(MaxAge(retentionDays), maxRuns), prunedAt, w)
    ensures service.Some? <==>
            BootSucceeds(old(store.Contents()), RetentionPolicy(MaxAge(retentionDays), maxRuns), prunedAt, w)
    ensures TablesInv(old(store.Contents())) ==>
              var policy := RetentionPolicy(MaxAge(retentionDays), maxRuns);
              && TablesInv(store.Contents())
              && (service.Some? <==> Retains(policy, w) && Unharmed(w, |RunningIds(old(store.Contents()))|))
              && (service.Some? ==> CleanBoot(old(store.Contents()), policy, store.Contents()))
  {
    var policy := RetentionPolicy(MaxAge(retentionDays), maxRuns);
    service := None;
    var retained := store.ApplyRetention(policy, prunedAt, w.retentionFault);
    if retained.Success? { service := RecoverAndServe(store, registry, w); }
    if TablesInv(old(store.Contents())) {
      BootOutcome(old(store.Contents()), BootConfig(registry, policy), prunedAt, w);
    }
  }
}
