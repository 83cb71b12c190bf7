/** The repository's operations on plain data: what is refused and why, what is stored, and what a filter text finds. */
module StoreMeaning {
  import opened Prelude
  import opened Text
  import opened Ordering
  import opened Records
  import opened Queries
  import opened Retention
  import opened Listings
  import opened Repository

  // ---- refusals ----

  /** The texts that `validateRunStatus` accepts, once trimmed. */
  predicate NamesStatus(text: string) {
    TrimSpace(text) in {"running", "succeeded", "failed", "timed_out", "cancelled"}
  }

  lemma AcceptedTexts(text: string)
    ensures StatusAccepted(StatusOf(text)) <==> NamesStatus(text)
  {
    TrimStatusOfText(text);
    StatusTexts(TrimSpace(text));
  }

  predicate SnapshotRefused(s: Snapshot) {
    || (s.mode.OtherMode? && IsBlank(s.mode.text))
    || (s.policy.OtherPolicy? && IsBlank(s.policy.text))
    || s.maxOutputBytes < 0
  }

  /** Why a creation is refused before the database sees it, in the order of the checks. */
  lemma CreationRefused(p: CreateRunParams, status: string)
    requires p.status == StatusOf(status)
    ensures var state := IsBlank(p.id) || IsBlank(p.actionName) || !NamesStatus(status) || SnapshotRefused(p.snapshot);
            var time := p.startedAt == Some(-62_135_596_800_000_000_000);
            && (CreateError(p) == Some(InvalidRunState) <==> state)
            && (CreateError(p) == Some(InvalidTimestamp) <==> !state && time)
            && (CreateError(p) == Some(InvalidJson) <==> !state && !time && p.requestMetadata.Malformed?)
            && (CreateError(p) == None <==> !state && !time && !p.requestMetadata.Malformed?)
  {
    AcceptedTexts(status);
  }

  lemma ChangeRefused(p: UpdateRunParams, status: string)
    requires p.status == StatusOf(status)
    ensures var state := IsBlank(p.id) || !NamesStatus(status);
            var time := Some(-62_135_596_800_000_000_000) in {p.startedAt, p.finishedAt};
            && (UpdateError(p) == Some(InvalidRunState) <==> state)
            && (UpdateError(p) == Some(InvalidTimestamp) <==> !state && time)
            && (UpdateError(p) == None <==> !state && !time)
  {
    AcceptedTexts(status);
  }

  // ---- what is stored and read ----

  /** A creation either fails and changes nothing, or adds this run to what can be read. */
  lemma CreationStores(t: Tables, p: CreateRunParams, now: int)
    requires Matched(t)
    ensures CreateRun(t, p, now).Success? <==> CreateError(p).None? && p.id !in t.runs
    ensures CreateRun(t, p, now).Failure? ==>
              CreateRun(t, p, now).error == if CreateError(p).Some? then CreateError(p).value else DatabaseError
    ensures CreateRun(t, p, now).Success? ==>
              var after := CreateRun(t, p, now).value;
              && Matched(after) && after.lastPrunedAt == t.lastPrunedAt
              && View(after).Keys == View(t).Keys + {p.id}
              && (forall id | id in View(t) :: id in View(after) && View(after)[id] == View(t)[id])
              && GetRun(after, p.id) == Success(View(after)[p.id])
              && View(after)[p.id].snapshot == p.snapshot
              && StoredAs(View(after)[p.id].row, p, now)
  {
  }

  /** Every column of a row just inserted. */
  predicate StoredAs(row: RunRow, p: CreateRunParams, now: int) {
    && row.actionName == p.actionName && row.status == p.status
    && row.createdAt == (if p.createdAt == ZERO_TIME then now else p.createdAt)
    && row.startedAt == p.startedAt && row.finishedAt == None && row.exitCode == None && !row.timedOut
    && (p.requestMetadata.Payload? ==> row.requestMetadata == Some(p.requestMetadata.text))
    && (p.requestMetadata.NoPayload? ==> row.requestMetadata == None)
    && row.stdoutTail == p.stdoutTail && row.stderrTail == p.stderrTail && row.errorSummary == p.errorSummary
  }

  /** A change either fails and changes nothing, or sets these columns of this row and no other. */
  lemma ChangeStores(t: Tables, p: UpdateRunParams)
    requires Matched(t)
    ensures UpdateRun(t, p).Success? <==> UpdateError(p).None? && p.id in t.runs
    ensures UpdateRun(t, p).Failure? ==>
              UpdateRun(t, p).error == if UpdateError(p).Some? then UpdateError(p).value else RunNotFound
    ensures UpdateRun(t, p).Success? ==>
              var after := UpdateRun(t, p).value;
              && after.snapshots == t.snapshots && after.lastPrunedAt == t.lastPrunedAt
              && after.runs.Keys == t.runs.Keys
              && (forall id | id in t.runs && id != p.id :: after.runs[id] == t.runs[id])
              && ChangedTo(t.runs[p.id], after.runs[p.id], p)
  {
  }

  predicate ChangedTo(before: RunRow, row: RunRow, p: UpdateRunParams) {
    && row.status == p.status && row.exitCode == p.exitCode && row.timedOut == p.timedOut
    && row.startedAt == p.startedAt && row.finishedAt == p.finishedAt
    && row.stdoutTail == p.stdoutTail && row.stderrTail == p.stderrTail && row.errorSummary == p.errorSummary
    && row.actionName == before.actionName && row.createdAt == before.createdAt
    && row.requestMetadata == before.requestMetadata
  }

  /** Reading returns the two rows of the id, or says that the id is blank or unknown. */
  lemma ReadingExact(t: Tables, id: Id)
    ensures GetRun(t, id).Success? <==> !IsBlank(id) && id in t.runs && id in t.snapshots
    ensures GetRun(t, id).Success? ==> GetRun(t, id).value == Run(id, t.runs[id], t.snapshots[id])
    ensures GetRun(t, id).Failure? ==> GetRun(t, id).error == if IsBlank(id) then InvalidRunState else RunNotFound
  {
  }

  // ---- listing by texts ----

  /** The stored status is the meaning of its own text, as that of every row made from a text is. */
  predicate Canonical(row: RunRow) {
    row.status == StatusOf(StatusText(row.status))
  }

  /** `later` comes after `earlier` in every listing: it is older, or as old and its id is not greater. */
  ghost predicate ListedAfter(earlier: Run, later: Run) {
    || earlier.row.createdAt > later.row.createdAt
    || (earlier.row.createdAt == later.row.createdAt && exists i: nat :: SmallerAt(later.id, earlier.id, i))
  }

  lemma NewerIsListedBefore(a: Run, b: Run)
    requires Newer(Queries.KeyOf(a), Queries.KeyOf(b))
    ensures ListedAfter(a, b)
  {
    LessByFirstDifference(b.id, a.id);
  }

  /** What the two filter texts find: the stored runs with those texts, newest first; an unknown status is refused. */
  lemma ListingOnTexts(t: Tables, filter: RunFilter)
    requires forall id | id in t.runs :: Canonical(t.runs[id])
    ensures var name, status := TrimSpace(filter.actionName), TrimSpace(filter.status);
            var result := ListRuns(t, filter);
            && (result.Success? <==> status == "" || NamesStatus(status))
            && (result.Failure? ==> result.error == InvalidRunState)
            && (result.Success? ==>
                  && (forall r: Run :: r in result.value <==>
                        && r.id in t.runs && r.id in t.snapshots && r == Run(r.id, t.runs[r.id], t.snapshots[r.id])
                        && (name == "" || r.row.actionName == name)
                        && (status == "" || StatusText(r.row.status) == status))
                  && (forall i, j | 0 <= i < j < |result.value| :: ListedAfter(result.value[i], result.value[j])))
  {
    var name, status := TrimSpace(filter.actionName), TrimSpace(filter.status);
    TrimSpaceIdempotent(filter.status);
    BlankTrimsToNothing(filter.actionName);
    BlankTrimsToNothing(filter.status);
    AcceptedTexts(status);
    ListRunsRefinesFilter(t, filter);
    SelectFiltersFullList(t, Matching(filter));
    SelectExact(t, Matching(filter));
    forall r: Run | r.id in t.runs && r.row == t.runs[r.id]
      ensures Matches(filter, r) <==>
              (name == "" || r.row.actionName == name) && (status == "" || StatusText(r.row.status) == status)
    {
      StatusTexts(status);
      StatusTexts(StatusText(r.row.status));
    }
    OrderedByTime(Select(t, Matching(filter)));
  }

  lemma OrderedByTime(runs: seq<Run>)
    requires NewestFirst(runs)
    ensures forall i, j | 0 <= i < j < |runs| :: ListedAfter(runs[i], runs[j])
  {
    forall i, j | 0 <= i < j < |runs| ensures ListedAfter(runs[i], runs[j]) {
      NewerIsListedBefore(runs[i], runs[j]);
    }
  }

  // ---- retention in numbers ----

  /** The rows that are not running. */
  function FinishedRows(t: Tables): set<Id> {
    set id | id in t.runs && t.runs[id].status != Running
  }

  /** The count pass keeps as many finished rows as the setting says, or all if there are no more. */
  lemma CountPassKeepsExactly(t: Tables, policy: RetentionPolicy)
    requires Matched(t)
    ensures var finished, kept := |FinishedRows(t)|, |FinishedRows(CountPass(t, policy).tables)|;
            kept == if 0 < policy.maxRuns < finished then policy.maxRuns else finished
  {
    if policy.maxRuns > 0 {
      var over := Overflow(t, policy.maxRuns);
      OverflowCount(t, policy.maxRuns);
      assert over <= FinishedRows(t);
      assert FinishedRows(PruneOverflow(t, policy.maxRuns)) == FinishedRows(t) - over;
    }
  }

  lemma OverflowCount(t: Tables, n: nat)
    ensures |Overflow(t, n)| == if n < |FinishedRows(t)| then |FinishedRows(t)| - n else 0
    ensures Overflow(t, n) <= FinishedRows(t)
  {
    var keys := Newest(FinishedKeys(t));
    var rest := After(keys, n);
    CountByIdOrKey(t, FinishedRows(t), FinishedKeys(t));
    NewerIsTotal();
    assert Sorted(Newer, rest);
    SortedSize(Newer, rest);
    CountByIdOrKey(t, Overflow(t, n), Elements(rest));
  }

  /** No finished row that retention deletes is younger than one that it keeps. */
  lemma DeletedRowsAreOlder(t: Tables, policy: RetentionPolicy, prunedAt: int, kept: Id, deleted: Id)
    requires Matched(t) && policy.maxAge >= 0 && policy.maxRuns >= 0
    requires kept in t.runs && deleted in t.runs && t.runs[kept].status != Running
    requires var after := ApplyRetention(t, policy, prunedAt).value.tables; kept in after.runs && deleted !in after.runs
    ensures t.runs[deleted].status != Running
    ensures || t.runs[kept].createdAt > t.runs[deleted].createdAt
            || (t.runs[kept].createdAt == t.runs[deleted].createdAt && exists i: nat :: SmallerAt(deleted, kept, i))
  {
    RetentionExact(t, policy, prunedAt);
    NoNewerRowDeleted(t, policy, prunedAt, kept, deleted);
    LessByFirstDifference(deleted, kept);
  }

  /** A fault stops retention unless it waits for a statement that the policy does not issue. */
  lemma FaultsThatStrike(policy: RetentionPolicy, fault: RetentionFault)
    ensures RetentionBreaks(policy, fault) <==>
            && fault != NoRetentionFault
            && (fault == FailAgeDelete ==> policy.maxAge > 0)
            && (fault == FailCountDelete ==> policy.maxRuns > 0)
  {
  }

  /** Retention is refused exactly for a negative setting. */
  lemma RetentionRefusedIff(t: Tables, policy: RetentionPolicy, prunedAt: int)
    ensures ApplyRetention(t, policy, prunedAt) == Failure(InvalidRetention) <==>
            policy.maxAge < 0 || policy.maxRuns < 0
    ensures ApplyRetention(t, policy, prunedAt).Success? ==>
              ApplyRetention(t, policy, prunedAt).value.tables.lastPrunedAt == Some(prunedAt)
  {
  }
}
