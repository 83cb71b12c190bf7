/** The two tables with their join view behave as one map from run ids to runs. */
module StoreRefinement {
  import opened Prelude
  import opened Records
  import opened Queries
  import opened Retention

  datatype Operation =
    | Create(creation: CreateRunParams, now: int)
    | Update(change: UpdateRunParams)
    | Prune(policy: RetentionPolicy, prunedAt: int)

  /** The tables after one operation; a failed operation leaves them alone. */
  function Perform(t: Tables, op: Operation): Tables {
    match op
    case Create(p, now) =>
      var result := CreateRun(t, p, now);
      if result.Success? then result.value else t
    case Update(p) =>
      var result := UpdateRun(t, p);
      if result.Success? then result.value else t
    case Prune(policy, prunedAt) =>
      var result := ApplyRetention(t, policy, prunedAt);
      if result.Success? then result.value.tables else t
  }

  function NewerRuns(v: map<Id, Run>, run: Run): set<Id> {
    set id | id in v && v[id].row.status != Running
             && Newer(Key(v[id].row.createdAt, id), Key(run.row.createdAt, run.id))
  }

  predicate Kept(v: map<Id, Run>, policy: RetentionPolicy, prunedAt: int, run: Run) {
    run.row.status == Running ||
    (&& (policy.maxAge > 0 ==> run.row.createdAt >= prunedAt - policy.maxAge)
     && (policy.maxRuns > 0 ==> |NewerRuns(v, run)| < policy.maxRuns))
  }

  /** The same operation on one map. */
  function PerformOnMap(v: map<Id, Run>, op: Operation): map<Id, Run> {
    match op
    case Create(p, now) =>
      if CreateError(p).None? && p.id !in v then v[p.id := Run(p.id, CreatedRow(p, now), p.snapshot)] else v
    case Update(p) =>
      if UpdateError(p).None? && p.id in v then v[p.id := v[p.id].(row := UpdatedRow(v[p.id].row, p))] else v
    case Prune(policy, prunedAt) =>
      if policy.maxAge < 0 || policy.maxRuns < 0 then v
      else map id | id in v && Kept(v, policy, prunedAt, v[id]) :: v[id]
  }

  lemma SameRank(t: Tables, id: Id)
    requires Matched(t) && id in t.runs
    ensures |NewerRuns(View(t), View(t)[id])| == |NewerFinished(t, RowKey(t, id))|
  {
    var ids, keys := NewerRuns(View(t), View(t)[id]), NewerFinished(t, RowKey(t, id));
    CountByIdOrKey(t, ids, keys);
  }

  lemma RestrictedView(t: Tables, kept: set<Id>, v: map<Id, Run>)
    requires Matched(t)
    requires v.Keys == t.runs.Keys * kept && forall id | id in v && id in View(t) :: v[id] == View(t)[id]
    ensures View(Restrict(t, kept)) == v
  {
  }

  lemma SameView(t: Tables, prunedAt: Option<int>)
    ensures View(t.(lastPrunedAt := prunedAt)) == View(t)
  {
  }

  lemma SameSurvivors(t: Tables, policy: RetentionPolicy, prunedAt: int)
    requires Matched(t) && policy.maxAge >= 0 && policy.maxRuns >= 0
    ensures PerformOnMap(View(t), Prune(policy, prunedAt)).Keys == t.runs.Keys * Survivors(t, policy, prunedAt)
  {
    forall id | id in t.runs
      ensures Kept(View(t), policy, prunedAt, View(t)[id]) <==> id in Survivors(t, policy, prunedAt)
    {
      SameRank(t, id);
    }
  }

  lemma PruneRefines(t: Tables, policy: RetentionPolicy, prunedAt: int)
    requires Matched(t) && policy.maxAge >= 0 && policy.maxRuns >= 0
    ensures var after := Perform(t, Prune(policy, prunedAt));
            Matched(after) && View(after) == PerformOnMap(View(t), Prune(policy, prunedAt))
  {
    RetentionExact(t, policy, prunedAt);
    SameSurvivors(t, policy, prunedAt);
    RestrictedView(t, Survivors(t, policy, prunedAt), PerformOnMap(View(t), Prune(policy, prunedAt)));
    SameView(Restrict(t, Survivors(t, policy, prunedAt)), Some(prunedAt));
  }

  /** Each operation keeps the id sets equal and acts on the view as on one map. */
  lemma StepRefines(t: Tables, op: Operation)
    requires Matched(t)
    ensures Matched(Perform(t, op))
    ensures View(Perform(t, op)) == PerformOnMap(View(t), op)
  {
    if op.Prune? && op.policy.maxAge >= 0 && op.policy.maxRuns >= 0 {
      PruneRefines(t, op.policy, op.prunedAt);
    }
  }

  function PerformAll(t: Tables, ops: seq<Operation>): Tables
    decreases |ops|
  {
    if ops == [] then t else PerformAll(Perform(t, ops[0]), ops[1..])
  }

  function PerformAllOnMap(v: map<Id, Run>, ops: seq<Operation>): map<Id, Run>
    decreases |ops|
  {
    if ops == [] then v else PerformAllOnMap(PerformOnMap(v, ops[0]), ops[1..])
  }

  /** After any operations the tables still match, and their view is the one-map model's state. */
  lemma {:induction false} StoreRefinesOneMap(t: Tables, ops: seq<Operation>)
    requires Matched(t)
    ensures Matched(PerformAll(t, ops))
    ensures View(PerformAll(t, ops)) == PerformAllOnMap(View(t), ops)
    decreases |ops|
  {
    if ops != [] {
      StepRefines(t, ops[0]);
      StoreRefinesOneMap(Perform(t, ops[0]), ops[1..]);
    }
  }

  /** What creation fixes for the life of a run. */
  function Identity(run: Run): (string, int, Option<string>, Snapshot) {
    (run.row.actionName, run.row.createdAt, run.row.requestMetadata, run.snapshot)
  }

  /** `id` names a run before the first operation and after each one. */
  predicate PresentThroughout(v: map<Id, Run>, ops: seq<Operation>, id: Id)
    decreases |ops|
  {
    id in v && (ops == [] || PresentThroughout(PerformOnMap(v, ops[0]), ops[1..], id))
  }

  /** No operation after creation changes the identity of a run. */
  lemma {:induction false} IdentityFixed(v: map<Id, Run>, ops: seq<Operation>, id: Id)
    requires PresentThroughout(v, ops, id)
    ensures id in PerformAllOnMap(v, ops)
    ensures Identity(PerformAllOnMap(v, ops)[id]) == Identity(v[id])
    decreases |ops|
  {
    if ops != [] {
      IdentityFixed(PerformOnMap(v, ops[0]), ops[1..], id);
    }
  }
}
