/** What recovery writes into each row, round by round, and what of it a boot leaves when it stops. */
module RecoveryRows {
  import opened Prelude
  import opened Records
  import opened Queries
  import opened Execution
  import opened Lifecycle
  import opened Invariant
  import opened Booting
  import opened Invocation
  import opened App

  /** `after` is `before` cancelled at time `at`: no exit code, no output, the sentence of a restart. */
  predicate CancelledAt(before: RunRow, after: RunRow, at: int) {
    after == before.(status := Cancelled, exitCode := None, finishedAt := Some(at), timedOut := false,
                     stdoutTail := [], stderrTail := [], errorSummary := ServiceRestarted)
  }

  /** Only the row of `run` differs, and it has been cancelled at `at`. */
  predicate CancelsRow(db: Tables, after: Tables, run: Run, at: int) {
    && run.id in db.runs && run.id in after.runs && CancelledAt(db.runs[run.id], after.runs[run.id], at)
    && after == db.(runs := db.runs[run.id := after.runs[run.id]])
  }

  lemma RoundRow(db: Tables, pending: seq<Run>, now: int)
    requires pending != [] && now != ZERO_TIME && TablesInv(db) && PendingInv(db, pending)
    ensures var result := UpdateRun(db, Recovery(pending[0], now));
            && result.Success? && CancelsRow(db, result.value, pending[0], now)
            && TablesInv(result.value) && PendingInv(result.value, pending[1..])
  {
    var run := pending[0];
    var row := UpdatedRow(run.row, Recovery(run, now));
    assert OwnedRow(db, map[], Some(run));
    RecoveryAccepted(db, run, now);
    CancelKeepsTables(db, run, row);
    CancelKeepsPending(db, pending, row);
  }

  /** After `n` rounds the first `n` pending rows are cancelled, each at its own round's time, and no other changed. */
  ghost predicate RowsCancelled(db: Tables, after: Tables, pending: seq<Run>, n: nat, now: nat -> int)
    requires n <= |pending|
  {
    && after.snapshots == db.snapshots && after.lastPrunedAt == db.lastPrunedAt && after.runs.Keys == db.runs.Keys
    && (forall i: nat | i < n :: RowCancelled(db, after, pending[i].id, now(i)))
    && (forall id | id in db.runs && id in after.runs && !IsPending(pending[..n], id) ::
          after.runs[id] == db.runs[id])
  }

  predicate RowCancelled(db: Tables, after: Tables, id: Id, at: int) {
    id in db.runs && id in after.runs && CancelledAt(db.runs[id], after.runs[id], at)
  }

  lemma {:induction false} RecoveredRows(db: Tables, pending: seq<Run>, n: nat, now: nat -> int)
    requires n <= |pending| && forall i :: now(i) != ZERO_TIME
    requires TablesInv(db) && PendingInv(db, pending)
    ensures TablesInv(Recovered(db, pending, n, now)) && PendingInv(Recovered(db, pending, n, now), pending[n..])
    ensures RowsCancelled(db, Recovered(db, pending, n, now), pending, n, now)
  {
    if n == 0 {
      assert pending[0..] == pending;
    } else {
      var before, rest := Recovered(db, pending, n - 1, now), pending[n - 1..];
      RecoveredRows(db, pending, n - 1, now);
      RoundRow(before, rest, now(n - 1));
      assert rest[1..] == pending[n..];
      OneMoreCancelled(db, before, Recovered(db, pending, n, now), pending, n - 1, now);
    }
  }

  lemma OneMoreCancelled(db: Tables, before: Tables, after: Tables, pending: seq<Run>, n: nat, now: nat -> int)
    requires n < |pending| && PendingInv(db, pending)
    requires RowsCancelled(db, before, pending, n, now) && CancelsRow(before, after, pending[n], now(n))
    ensures RowsCancelled(db, after, pending, n + 1, now)
  {
    var id := pending[n].id;
    assert !IsPending(pending[..n], id);
    forall i: nat | i < n + 1 ensures RowCancelled(db, after, pending[i].id, now(i)) {
      if i < n { assert pending[i].id != id && RowCancelled(db, before, pending[i].id, now(i)); }
    }
    forall k | k in db.runs && k in after.runs && !IsPending(pending[..n + 1], k) ensures after.runs[k] == db.runs[k] {
      assert pending[..n + 1][n].id == id;
      PendingPrefix(pending, n, k);
    }
  }

  lemma PendingPrefix(pending: seq<Run>, n: nat, id: Id)
    requires n < |pending|
    ensures IsPending(pending[..n], id) ==> IsPending(pending[..n + 1], id)
  {
    if IsPending(pending[..n], id) {
      var i :| 0 <= i < n && pending[..n][i].id == id;
      assert pending[..n + 1][i].id == id;
    }
  }

  // ---- recovery that may stop ----

  /** The update of round `i` is applied: no earlier round failed, and its own update does not. */
  predicate Applied(w: RecoveryWorld, i: nat) {
    !w.fails(i) && forall j: nat | j < i :: !w.fails(j) && !w.unread(j)
  }

  lemma RoundOutcome(db: Tables, pending: seq<Run>, i: nat, w: RecoveryWorld)
    requires i < |pending| && forall j :: w.now(j) != ZERO_TIME
    requires TablesInv(db) && PendingInv(db, pending)
    ensures Round(db, pending, i, w).result.Failure? <==> w.fails(i) || w.unread(i)
    ensures Round(db, pending, i, w).tables == Recovered(db, pending, if w.fails(i) then i else i + 1, w.now)
  {
    var before := Recovered(db, pending, i, w.now);
    RecoveredRows(db, pending, i, w.now);
    RoundRow(before, pending[i..], w.now(i));
    FinishedRunFailsIff(before, Recovery(pending[i], w.now(i)), w.fails(i), w.unread(i));
  }

  /** How many updates recovery applies. */
  lemma AppliedRounds(db: Tables, pending: seq<Run>, w: RecoveryWorld) returns (n: nat)
    requires TablesInv(db) && PendingInv(db, pending) && forall j :: w.now(j) != ZERO_TIME
    ensures n <= |pending| && RecoveredUntil(db, pending, w) == Recovered(db, pending, n, w.now)
    ensures forall i: nat | i < |pending| :: Applied(w, i) <==> i < n
  {
    var first := FirstFailure(db, pending, 0, w);
    forall i: nat | i < |pending| ensures Round(db, pending, i, w).result.Failure? <==> w.fails(i) || w.unread(i) {
      RoundOutcome(db, pending, i, w);
    }
    if first < |pending| { RoundOutcome(db, pending, first, w); }
    n := if first < |pending| && !w.fails(first) then first + 1 else first;
    NoneBefore(db, pending, first, w);
    AppliedUpTo(w, first, |pending|);
  }

  lemma AppliedUpTo(w: RecoveryWorld, first: nat, rounds: nat)
    requires first <= rounds && forall i: nat | i < first :: !w.fails(i) && !w.unread(i)
    requires first < rounds ==> w.fails(first) || w.unread(first)
    ensures forall i: nat | i < rounds ::
              Applied(w, i) <==> i < if first < rounds && !w.fails(first) then first + 1 else first
  {
  }

  lemma NoneBefore(db: Tables, pending: seq<Run>, first: nat, w: RecoveryWorld)
    requires first == FirstFailure(db, pending, 0, w)
    requires forall i: nat | i < |pending| :: Round(db, pending, i, w).result.Failure? <==> w.fails(i) || w.unread(i)
    ensures first <= |pending| && forall i: nat | i < first :: !w.fails(i) && !w.unread(i)
    ensures first < |pending| ==> w.fails(first) || w.unread(first)
  {
    forall i: nat | i < first ensures !w.fails(i) && !w.unread(i) {
      assert Round(db, pending, i, w).result.Success?;
    }
  }

  /** The row of round `i`: cancelled at the time of that round if its update was applied, else as it was. */
  predicate RoundLeaves(db: Tables, after: Tables, pending: seq<Run>, i: nat, w: RecoveryWorld)
    requires i < |pending|
  {
    var id := pending[i].id;
    if Applied(w, i) then RowCancelled(db, after, id, w.now(i))
    else id in db.runs && id in after.runs && after.runs[id] == db.runs[id]
  }

  /** What recovery leaves of every row, wherever it stops. */
  ghost predicate RecoveryLeaves(db: Tables, after: Tables, pending: seq<Run>, w: RecoveryWorld) {
    && after.snapshots == db.snapshots && after.lastPrunedAt == db.lastPrunedAt && after.runs.Keys == db.runs.Keys
    && (forall i: nat | i < |pending| :: RoundLeaves(db, after, pending, i, w))
    && (forall id | id in db.runs && id in after.runs && db.runs[id].status != Running :: after.runs[id] == db.runs[id])
  }

  lemma RecoveryLeavesExact(db: Tables, pending: seq<Run>, w: RecoveryWorld)
    requires TablesInv(db) && PendingInv(db, pending) && forall j :: w.now(j) != ZERO_TIME
    ensures RecoveryLeaves(db, RecoveredUntil(db, pending, w), pending, w)
  {
    var n := AppliedRounds(db, pending, w);
    RecoveredRows(db, pending, n, w.now);
    CancelledRowsLeft(db, Recovered(db, pending, n, w.now), pending, n, w);
  }

  lemma CancelledRowsLeft(db: Tables, after: Tables, pending: seq<Run>, n: nat, w: RecoveryWorld)
    requires n <= |pending| && PendingInv(db, pending) && RowsCancelled(db, after, pending, n, w.now)
    requires forall i: nat | i < |pending| :: Applied(w, i) <==> i < n
    ensures RecoveryLeaves(db, after, pending, w)
  {
    forall i: nat | i < |pending| ensures RoundLeaves(db, after, pending, i, w) {
      assert OwnedRow(db, map[], Some(pending[i]));
      if i < n {
        assert RowCancelled(db, after, pending[i].id, w.now(i));
      } else {
        assert !IsPending(pending[..n], pending[i].id);
      }
    }
    forall id | id in db.runs && id in after.runs && db.runs[id].status != Running
      ensures after.runs[id] == db.runs[id]
    {
      assert forall i: nat | i < |pending| :: OwnedRow(db, map[], Some(pending[i]));
      assert !IsPending(pending[..n], id);
    }
  }

  /** The rows that a boot leaves, from the tables that retention has left. */
  lemma BootLeavesRows(start: Tables, config: BootConfig, prunedAt: int, w: BootWorld)
    requires TablesInv(start) && forall j :: w.recovery.now(j) != ZERO_TIME
    ensures var after := BootTables(start, config.retention, prunedAt, w);
            if !Retains(config.retention, w) then after == start
            else
              var pruned := ApplyRetention(start, config.retention, prunedAt).value.tables;
              if w.authFails || w.recovery.listFails then after == pruned
              else RecoveryLeaves(pruned, after, Select(pruned, ByStatus(Running)), w.recovery)
  {
    if Retains(config.retention, w) {
      var pruned := ApplyRetention(start, config.retention, prunedAt).value.tables;
      RetentionStarts(start, config, prunedAt, pruned);
      RecoveryLeavesExact(pruned, Select(pruned, ByStatus(Running)), w.recovery);
    }
  }

  /** In the transition system too a round cancels the first pending row at the clock, or changes no row. */
  lemma RoundCancelsAtClock(s: State, outcome: CancelOutcome)
    requires Inv(s) && Enabled(s, CancelNext(outcome))
    ensures var after := Apply(s, CancelNext(outcome));
            if outcome == CancelFails then after.db == s.db
            else CancelsRow(s.db, after.db, s.phase.pending[0], s.clock)
  {
    RoundRow(s.db, s.phase.pending, s.clock);
  }
}
