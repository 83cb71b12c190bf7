/**
 The meaning of the statements of `storage_queries.sql` and of the repository
 operations built from them, as functions on the two tables. `Store` runs the
 same operations statement by statement and is proved against these functions.
 */
module Queries {
  import opened Prelude
  import opened Text
  import opened Ordering
  import opened Records

  /** `microhook_runs`, `microhook_action_snapshots` and the one metadata key. */
  datatype Tables = Tables(runs: map<Id, RunRow>, snapshots: map<Id, Snapshot>, lastPrunedAt: Option<int>)

  const EMPTY := Tables(map[], map[], None)

  /** Go's zero `time.Time`, January 1 of year 1. */
  const ZERO_TIME := -62135596800 * 1_000_000_000

  /** Both tables hold the same ids. */
  predicate Matched(t: Tables) {
    t.runs.Keys == t.snapshots.Keys
  }

  /** The join view `microhook_run_records`, keyed by run id. */
  function View(t: Tables): map<Id, Run> {
    map id | id in t.runs && id in t.snapshots :: Run(id, t.runs[id], t.snapshots[id])
  }

  // ---- create ----

  function CreateError(p: CreateRunParams): Option<StoreError> {
    if IsBlank(p.id) || IsBlank(p.actionName) || !StatusAccepted(p.status) then Some(InvalidRunState)
    else if !SnapshotAccepted(p.snapshot) then Some(InvalidRunState)
    else if p.startedAt == Some(ZERO_TIME) then Some(InvalidTimestamp)
    else if p.requestMetadata.Malformed? then Some(InvalidJson)
    else None
  }

  /** `validateActionSnapshot`. */
  predicate SnapshotAccepted(s: Snapshot) {
    && !(s.mode.OtherMode? && IsBlank(s.mode.text))
    && !(s.policy.OtherPolicy? && IsBlank(s.policy.text))
    && s.maxOutputBytes >= 0
  }

  /** The row that `INSERT INTO microhook_runs` writes; `now` stands in for a zero creation time. */
  function CreatedRow(p: CreateRunParams, now: int): RunRow {
    RunRow(
      p.actionName, p.status, None,
      if p.createdAt == ZERO_TIME then now else p.createdAt, p.startedAt, None, false,
      if p.requestMetadata.Payload? then Some(p.requestMetadata.text) else None,
      p.stdoutTail, p.stderrTail, p.errorSummary)
  }

  /** `Store.CreateRun` when the database itself does not fail. */
  function CreateRun(t: Tables, p: CreateRunParams, now: int): Result<Tables, StoreError> {
    match CreateError(p)
    case Some(e) => Failure(e)
    case None =>
      if p.id in t.runs || p.id in t.snapshots then Failure(DatabaseError)
      else Success(t.(runs := t.runs[p.id := CreatedRow(p, now)],
                      snapshots := t.snapshots[p.id := p.snapshot]))
  }

  // ---- update and read ----

  /** The `SET` list of `UpdateRun`; every other column keeps its value. */
  function UpdatedRow(row: RunRow, p: UpdateRunParams): RunRow {
    row.(status := p.status, exitCode := p.exitCode, startedAt := p.startedAt, finishedAt := p.finishedAt,
         timedOut := p.timedOut, stdoutTail := p.stdoutTail, stderrTail := p.stderrTail,
         errorSummary := p.errorSummary)
  }

  function UpdateError(p: UpdateRunParams): Option<StoreError> {
    if IsBlank(p.id) || !StatusAccepted(p.status) then Some(InvalidRunState)
    else if p.startedAt == Some(ZERO_TIME) || p.finishedAt == Some(ZERO_TIME) then Some(InvalidTimestamp)
    else None
  }

  /** `Store.UpdateRun`: the statement has no condition on the old status. */
  function UpdateRun(t: Tables, p: UpdateRunParams): Result<Tables, StoreError> {
    match UpdateError(p)
    case Some(e) => Failure(e)
    case None =>
      if p.id !in t.runs then Failure(RunNotFound)
      else Success(t.(runs := t.runs[p.id := UpdatedRow(t.runs[p.id], p)]))
  }

  function GetRun(t: Tables, id: Id): Result<Run, StoreError> {
    if IsBlank(id) then Failure(InvalidRunState)
    else if id in View(t) then Success(View(t)[id])
    else Failure(RunNotFound)
  }

  // ---- listing ----

  /** The sort key of every listing. */
  datatype Key = Key(createdAt: int, id: Id)

  predicate Newer(a: Key, b: Key) {
    a.createdAt > b.createdAt || (a.createdAt == b.createdAt && Less(b.id, a.id))
  }

  lemma NewerIsTotal()
    ensures StrictTotalOrder(Newer)
  {
    forall x: Key ensures !Newer(x, x) { LessIrreflexive(x.id); }
    forall x: Key, y: Key, z: Key | Newer(x, y) && Newer(y, z) ensures Newer(x, z) {
      if x.createdAt == z.createdAt { LessTransitive(z.id, y.id, x.id); }
    }
    forall x: Key, y: Key | x != y ensures Newer(x, y) || Newer(y, x) {
      if x.id != y.id { LessConnected(x.id, y.id); }
    }
  }

  /** Keys in listing order. */
  function Newest(keys: set<Key>): (xs: seq<Key>)
    ensures forall k :: k in xs <==> k in keys
    ensures |xs| == |keys|
  {
    NewerIsTotal();
    Arrange(Newer, keys)
  }

  lemma NewestOrdered(keys: set<Key>, i: nat, j: nat)
    requires i < j < |keys|
    ensures Newer(Newest(keys)[i], Newest(keys)[j])
  {
  }

  function KeyOf(run: Run): Key {
    Key(run.row.createdAt, run.id)
  }

  function SelectedKeys(view: map<Id, Run>, where: Run -> bool): set<Key> {
    set id | id in view && where(view[id]) :: KeyOf(view[id])
  }

  /** The runs of `view` at `keys`, in the order of `keys`. */
  function Fetch(view: map<Id, Run>, keys: seq<Key>): (runs: seq<Run>)
    requires forall k :: k in keys ==> k.id in view
    ensures |runs| == |keys|
    ensures forall i | 0 <= i < |keys| :: runs[i] == view[keys[i].id]
  {
    seq(|keys|, i requires 0 <= i < |keys| => view[keys[i].id])
  }

  /** `SELECT * FROM microhook_run_records WHERE ... ORDER BY created_at_unix_nano DESC, id DESC`. */
  function Select(t: Tables, where: Run -> bool): seq<Run> {
    Fetch(View(t), Newest(SelectedKeys(View(t), where)))
  }

  function AnyRun(): Run -> bool {
    (r: Run) => true
  }

  function ByAction(name: string): Run -> bool {
    (r: Run) => r.row.actionName == name
  }

  function ByStatus(status: Status): Run -> bool {
    (r: Run) => r.row.status == status
  }

  function ByActionAndStatus(name: string, status: Status): Run -> bool {
    (r: Run) => r.row.actionName == name && r.row.status == status
  }

  /** `Store.ListRuns`, one branch per query. */
  function ListRuns(t: Tables, filter: RunFilter): Result<seq<Run>, StoreError> {
    var name := TrimSpace(filter.actionName);
    var text := TrimSpace(filter.status);
    var status := StatusOf(text);
    if text != "" && !StatusAccepted(status) then Failure(InvalidRunState)
    else if name != "" && text != "" then Success(Select(t, ByActionAndStatus(name, status)))
    else if name != "" then Success(Select(t, ByAction(name)))
    else if text != "" then Success(Select(t, ByStatus(status)))
    else Success(Select(t, AnyRun()))
  }

  // ---- retention ----

  /** `DELETE FROM microhook_runs WHERE id IN ids`, with the cascade to the snapshots. */
  function Delete(t: Tables, ids: set<Id>): Tables {
    t.(runs := t.runs - ids, snapshots := t.snapshots - (ids * t.runs.Keys))
  }

  /** The keys of the rows whose status is not `running`. */
  function FinishedKeys(t: Tables): (keys: set<Key>)
    ensures forall k :: k in keys <==>
              k.id in t.runs && t.runs[k.id].status != Running && t.runs[k.id].createdAt == k.createdAt
  {
    set id | id in t.runs && t.runs[id].status != Running :: Key(t.runs[id].createdAt, id)
  }

  function OlderThan(t: Tables, cutoff: int): set<Id> {
    set id | id in t.runs && t.runs[id].status != Running && t.runs[id].createdAt < cutoff
  }

  /** What `OFFSET n` leaves of a listing. */
  function After(keys: seq<Key>, n: nat): (rest: seq<Key>)
    ensures forall k :: k in rest ==> k in keys
  {
    if n < |keys| then keys[n..] else []
  }

  /** `ORDER BY created_at_unix_nano DESC, id DESC LIMIT -1 OFFSET maxRuns`. */
  function Overflow(t: Tables, maxRuns: nat): set<Id> {
    set k | k in After(Newest(FinishedKeys(t)), maxRuns) :: k.id
  }

  function PruneByAge(t: Tables, cutoff: int): Tables {
    Delete(t, OlderThan(t, cutoff))
  }

  function PruneOverflow(t: Tables, maxRuns: nat): Tables {
    Delete(t, Overflow(t, maxRuns))
  }

  /** The tables that a deletion leaves and the number of runs it deleted. */
  datatype Pruning = Pruning(tables: Tables, deleted: int)

  /** The first pass, skipped without a maximum age. */
  function AgePass(t: Tables, policy: RetentionPolicy, prunedAt: int): Pruning {
    var cutoff := prunedAt - policy.maxAge;
    if policy.maxAge > 0 then Pruning(PruneByAge(t, cutoff), |OlderThan(t, cutoff)|) else Pruning(t, 0)
  }

  /** The second pass, skipped without a maximum count. */
  function CountPass(t: Tables, policy: RetentionPolicy): Pruning {
    if policy.maxRuns > 0 then Pruning(PruneOverflow(t, policy.maxRuns), |Overflow(t, policy.maxRuns)|)
    else Pruning(t, 0)
  }

  /** What follows the first pass: the second one, and the time of the retention. */
  function RestOfRetention(first: Pruning, policy: RetentionPolicy, prunedAt: int): Pruning {
    var second := CountPass(first.tables, policy);
    Pruning(second.tables.(lastPrunedAt := Some(prunedAt)), first.deleted + second.deleted)
  }

  /** `Store.ApplyRetention` at time `prunedAt`: the new tables and the reported deletions. */
  function ApplyRetention(t: Tables, policy: RetentionPolicy, prunedAt: int): Result<Pruning, StoreError> {
    if policy.maxAge < 0 || policy.maxRuns < 0 then Failure(InvalidRetention)
    else Success(RestOfRetention(AgePass(t, policy, prunedAt), policy, prunedAt))
  }
}
