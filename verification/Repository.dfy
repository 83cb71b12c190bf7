/**
 The repository over the two tables, statement by statement. Failures of the
 database are chosen by the caller through a fault argument.
 */
module Repository {
  import opened Prelude
  import opened Text
  import opened Records
  import opened Queries
  import opened Retention
  import opened Listings

  /** Where a transaction can break; `LostReply` is a failing read after a successful commit. */
  datatype CreateFault = NoFault | FailBegin | FailRunInsert | FailSnapshotInsert | FailCommit | LostReply

  datatype RetentionFault =
    NoRetentionFault | FailBeginPrune | FailAgeDelete | FailCountDelete | FailMetadata | FailPruneCommit

  /** The fault strikes: each delete is only issued under a limit of its kind. */
  predicate RetentionBreaks(policy: RetentionPolicy, fault: RetentionFault) {
    || fault in {FailBeginPrune, FailMetadata, FailPruneCommit}
    || (fault == FailAgeDelete && policy.maxAge > 0)
    || (fault == FailCountDelete && policy.maxRuns > 0)
  }

  class Store {
    var runs: map<Id, RunRow>
    var snapshots: map<Id, Snapshot>
    var lastPrunedAt: Option<int>

    ghost function Contents(): Tables
      reads this
    {
      Tables(runs, snapshots, lastPrunedAt)
    }

    ghost predicate Valid()
      reads this
    {
      Matched(Contents())
    }

    /** A database with the schema just applied. */
    constructor ()
      ensures Valid() && Contents() == EMPTY
    {
      runs, snapshots, lastPrunedAt := map[], map[], None;
    }

    /** All or nothing: only a commit changes the tables, and a lost reply still leaves the run stored. */
    method CreateRun(p: CreateRunParams, now: int, fault: CreateFault) returns (result: Result<Run, StoreError>)
      requires Valid()
      modifies this
      ensures Valid()
      ensures var outcome := Queries.CreateRun(old(Contents()), p, now);
              && Contents() ==
                   (if outcome.Success? && fault in {NoFault, LostReply} then outcome.value else old(Contents()))
              && (result.Success? <==> outcome.Success? && fault == NoFault)
              && (result.Success? ==> result == GetRun(Contents(), p.id))
              && (result.Failure? ==>
                    result.error == if CreateError(p).Some? then CreateError(p).value else DatabaseError)
    {
      var invalid := CreateError(p);
      if invalid.Some? { return Failure(invalid.value); }
      if fault == FailBegin { return Failure(DatabaseError); }
      var oldRuns := runs;

      if fault == FailRunInsert || p.id in runs { return Failure(DatabaseError); }
      runs := runs[p.id := CreatedRow(p, now)];

      if fault == FailSnapshotInsert || p.id in snapshots {
        runs := oldRuns;
        return Failure(DatabaseError);
      }
      var oldSnapshots := snapshots;
      snapshots := snapshots[p.id := p.snapshot];

      if fault == FailCommit {
        runs, snapshots := oldRuns, oldSnapshots;
        return Failure(DatabaseError);
      }
      result := ReadRun(p.id, fault == LostReply);
    }

    /** One UPDATE, which reports the number of rows it changed. */
    method UpdateRun(p: UpdateRunParams, broken: bool) returns (result: Option<StoreError>)
      requires Valid()
      modifies this`runs
      ensures Valid()
      ensures var outcome := Queries.UpdateRun(old(Contents()), p);
              && Contents() == (if outcome.Success? && !broken then outcome.value else old(Contents()))
              && result == (if UpdateError(p).Some? then UpdateError(p)
                            else if broken then Some(DatabaseError)
                            else if outcome.Failure? then Some(outcome.error)
                            else None)
              && (result == Some(RunNotFound) ==> p.id !in runs)
    {
      result := UpdateError(p);
      if result.Some? { return; }
      if broken { return Some(DatabaseError); }
      var affected := if p.id in runs then 1 else 0;
      if p.id in runs { runs := runs[p.id := UpdatedRow(runs[p.id], p)]; }
      if affected == 0 { return Some(RunNotFound); }
    }

    method ReadRun(id: Id, broken: bool) returns (result: Result<Run, StoreError>)
      ensures result == if broken && !IsBlank(id) then Failure(DatabaseError) else GetRun(Contents(), id)
    {
      if IsBlank(id) { return Failure(InvalidRunState); }
      if broken { return Failure(DatabaseError); }
      if id !in runs || id !in snapshots { return Failure(RunNotFound); }
      return Success(Run(id, runs[id], snapshots[id]));
    }

    /** One of four queries, chosen by which trimmed filters are present. */
    method ListRuns(filter: RunFilter, broken: bool) returns (result: Result<seq<Run>, StoreError>)
      ensures var invalid := !IsBlank(filter.status) && !StatusAccepted(StatusOf(TrimSpace(filter.status)));
              result == if invalid then Failure(InvalidRunState)
                        else if broken then Failure(DatabaseError)
                        else Success(Filter(FullList(Contents()), Matching(filter)))
    {
      ListRunsRefinesFilter(Contents(), filter);
      BlankTrimsToNothing(filter.status);
      var t := Tables(runs, snapshots, lastPrunedAt);
      var name, text := TrimSpace(filter.actionName), TrimSpace(filter.status);
      if text != "" && !StatusAccepted(StatusOf(text)) { return Failure(InvalidRunState); }
      if broken { return Failure(DatabaseError); }
      if name != "" && text != "" {
        result := Success(Select(t, ByActionAndStatus(name, StatusOf(text))));
      } else if name != "" {
        result := Success(Select(t, ByAction(name)));
      } else if text != "" {
        result := Success(Select(t, ByStatus(StatusOf(text))));
      } else {
        result := Success(Select(t, AnyRun()));
      }
    }

    /** One transaction: two deletes with their cascades, the metadata upsert, commit. */
    method ApplyRetention(policy: RetentionPolicy, prunedAt: int, fault: RetentionFault)
      returns (result: Result<int, StoreError>)
      requires Valid()
      modifies this
      ensures Valid()
      ensures var outcome := Queries.ApplyRetention(old(Contents()), policy, prunedAt);
              && (result.Success? ==>
                    outcome.Success? && Contents() == outcome.value.tables && result.value == outcome.value.deleted)
              && (result.Failure? ==>
                    Contents() == old(Contents())
                    && result.error == if outcome.Failure? then InvalidRetention else DatabaseError)
              && (result.Success? <==> outcome.Success? && !RetentionBreaks(policy, fault))
    {
      if policy.maxAge < 0 || policy.maxRuns < 0 { return Failure(InvalidRetention); }
      if fault == FailBeginPrune { return Failure(DatabaseError); }
      RetentionExact(Contents(), policy, prunedAt);
      var savedRuns, savedSnapshots := runs, snapshots;
      if policy.maxAge > 0 && fault == FailAgeDelete { return Failure(DatabaseError); }
      var deletedRuns := DeleteOlder(policy, prunedAt);
      if policy.maxRuns > 0 && fault == FailCountDelete {
        runs, snapshots := savedRuns, savedSnapshots;
        return Failure(DatabaseError);
      }
      var affected := DeleteOverflowing(policy);
      deletedRuns := deletedRuns + affected;
      if fault == FailMetadata || fault == FailPruneCommit {
        runs, snapshots := savedRuns, savedSnapshots;
        return Failure(DatabaseError);
      }
      lastPrunedAt := Some(prunedAt);
      return Success(deletedRuns);
    }

    /** The age pass of the transaction. */
    method DeleteOlder(policy: RetentionPolicy, prunedAt: int) returns (affected: int)
      modifies this`runs, this`snapshots
      ensures Pruning(Contents(), affected) == AgePass(old(Contents()), policy, prunedAt)
    {
      affected := 0;
      if policy.maxAge > 0 {
        affected := DeleteCascading(OlderThan(Tables(runs, snapshots, lastPrunedAt), prunedAt - policy.maxAge));
      }
    }

    /** The count pass of the transaction. */
    method DeleteOverflowing(policy: RetentionPolicy) returns (affected: int)
      modifies this`runs, this`snapshots
      ensures Pruning(Contents(), affected) == CountPass(old(Contents()), policy)
    {
      affected := 0;
      if policy.maxRuns > 0 {
        var ids := Overflow(Tables(runs, snapshots, lastPrunedAt), policy.maxRuns);
        forall id | id in ids ensures id in runs { OverflowExact(Contents(), policy.maxRuns, id); }
        affected := DeleteCascading(ids);
      }
    }

    /** `DELETE ... WHERE id IN (...)`: the count excludes the cascaded snapshot rows. */
    method DeleteCascading(ids: set<Id>) returns (affected: int)
      modifies this`runs, this`snapshots
      ensures Contents() == Delete(old(Contents()), ids)
      ensures ids <= old(runs).Keys ==> affected == |ids|
    {
      affected := |ids * runs.Keys|;
      assert ids <= runs.Keys ==> ids * runs.Keys == ids;
      snapshots := snapshots - (ids * runs.Keys);
      runs := runs - ids;
    }
  }
}
