/** What `ApplyRetention` keeps: an exact description of the survivors of both passes. */
module Retention {
  import opened Prelude
  import opened Ordering
  import opened Records
  import opened Queries

  function RowKey(t: Tables, id: Id): Key
    requires id in t.runs
  {
    Key(t.runs[id].createdAt, id)
  }

  /** The finished rows that come before `key` in listing order. */
  function NewerFinished(t: Tables, key: Key): set<Key> {
    set k | k in FinishedKeys(t) && Newer(k, key)
  }

  /** A row is kept if it is running, or recent enough and among the newest finished ones. */
  predicate Survives(t: Tables, policy: RetentionPolicy, prunedAt: int, id: Id)
    requires id in t.runs
  {
    t.runs[id].status == Running ||
    (&& (policy.maxAge > 0 ==> t.runs[id].createdAt >= prunedAt - policy.maxAge)
     && (policy.maxRuns > 0 ==> |NewerFinished(t, RowKey(t, id))| < policy.maxRuns))
  }

  /** The keys after the first `n` are exactly those with at least `n` newer ones. */
  lemma NewestTail(keys: set<Key>, n: nat, k: Key, before: set<Key>)
    requires k in keys && forall x :: x in before <==> x in keys && Newer(x, k)
    ensures k in After(Newest(keys), n) <==> |before| >= n
  {
    var xs := Newest(keys);
    var i :| 0 <= i < |xs| && xs[i] == k;
    NewerIsTotal();
    PositionCounts(Newer, xs, i, before);
    if i >= n { assert xs[n..][i - n] == k; }
  }

  /** `LIMIT -1 OFFSET n` selects exactly the finished rows with at least `n` newer ones. */
  lemma OverflowExact(t: Tables, n: nat, id: Id)
    ensures id in Overflow(t, n) <==>
            id in t.runs && t.runs[id].status != Running && |NewerFinished(t, RowKey(t, id))| >= n
  {
    if id in t.runs && t.runs[id].status != Running {
      NewestTail(FinishedKeys(t), n, RowKey(t, id), NewerFinished(t, RowKey(t, id)));
    }
  }

  /** The rows of `t` whose ids are in `kept`, unchanged, in both tables. */
  function Restrict(t: Tables, kept: set<Id>): (r: Tables)
    requires Matched(t)
    ensures Matched(r) && r.runs.Keys == t.runs.Keys * kept
  {
    var r := t.(runs := map id | id in t.runs && id in kept :: t.runs[id],
                snapshots := map id | id in t.snapshots && id in kept :: t.snapshots[id]);
    assert r.runs.Keys == t.runs.Keys * kept == r.snapshots.Keys;
    r
  }

  /** Each pass deletes from both tables exactly the rows it selects. */
  lemma DeleteRestricts(t: Tables, ids: set<Id>, kept: set<Id>)
    requires Matched(t) && forall id :: id in kept <==> id in t.runs && id !in ids
    requires ids <= t.runs.Keys
    ensures Delete(t, ids) == Restrict(t, kept)
    ensures |Restrict(t, kept).runs| == |t.runs| - |ids|
  {
  }

  /** Rows counted by id or by sort key. */
  lemma {:induction false} CountByIdOrKey(t: Tables, ids: set<Id>, keys: set<Key>)
    requires forall id :: id in ids ==> id in t.runs && RowKey(t, id) in keys
    requires forall k :: k in keys ==> k.id in t.runs && k.id in ids && k == RowKey(t, k.id)
    ensures |ids| == |keys|
    decreases |ids|
  {
    if ids == {} {
      assert keys == {};
    } else {
      var id :| id in ids;
      CountByIdOrKey(t, ids - {id}, keys - {RowKey(t, id)});
    }
  }

  lemma RestrictToAll(t: Tables, kept: set<Id>)
    requires Matched(t) && t.runs.Keys <= kept
    ensures Restrict(t, kept) == t
  {
  }

  function AgeKept(t: Tables, policy: RetentionPolicy, prunedAt: int): set<Id> {
    set id | id in t.runs && (t.runs[id].status == Running ||
                              (policy.maxAge > 0 ==> t.runs[id].createdAt >= prunedAt - policy.maxAge))
  }

  function CountKept(t: Tables, policy: RetentionPolicy): set<Id> {
    set id | id in t.runs && (t.runs[id].status == Running ||
                              (policy.maxRuns > 0 ==> |NewerFinished(t, RowKey(t, id))| < policy.maxRuns))
  }

  function Survivors(t: Tables, policy: RetentionPolicy, prunedAt: int): set<Id> {
    set id | id in t.runs && Survives(t, policy, prunedAt, id)
  }

  lemma AgePassExact(t: Tables, policy: RetentionPolicy, prunedAt: int)
    requires Matched(t)
    ensures AgePass(t, policy, prunedAt).tables == Restrict(t, AgeKept(t, policy, prunedAt))
    ensures AgePass(t, policy, prunedAt).deleted == |t.runs| - |AgePass(t, policy, prunedAt).tables.runs|
  {
    if policy.maxAge > 0 {
      AgeDeletes(t, prunedAt - policy.maxAge, AgeKept(t, policy, prunedAt));
    } else {
      RestrictToAll(t, AgeKept(t, policy, prunedAt));
    }
  }

  lemma AgeDeletes(t: Tables, cutoff: int, kept: set<Id>)
    requires Matched(t)
    requires forall id :: id in kept <==>
                            id in t.runs && (t.runs[id].status == Running || t.runs[id].createdAt >= cutoff)
    ensures PruneByAge(t, cutoff) == Restrict(t, kept)
    ensures |OlderThan(t, cutoff)| == |t.runs| - |PruneByAge(t, cutoff).runs|
  {
    DeleteRestricts(t, OlderThan(t, cutoff), kept);
  }

  lemma CountPassExact(t: Tables, policy: RetentionPolicy)
    requires Matched(t)
    ensures CountPass(t, policy).tables == Restrict(t, CountKept(t, policy))
    ensures CountPass(t, policy).deleted == |t.runs| - |CountPass(t, policy).tables.runs|
  {
    var kept := CountKept(t, policy);
    if policy.maxRuns > 0 {
      var over := Overflow(t, policy.maxRuns);
      forall id ensures id in over <==> id in t.runs && id !in kept {
        OverflowExact(t, policy.maxRuns, id);
      }
      DeleteRestricts(t, over, kept);
    } else {
      RestrictToAll(t, kept);
    }
  }

  /** Pruning by age removes no row that is newer than a kept one, so it changes no kept row's rank. */
  lemma AgeKeepsRank(t: Tables, policy: RetentionPolicy, prunedAt: int, id: Id)
    requires Matched(t) && id in AgeKept(t, policy, prunedAt) && t.runs[id].status != Running
    ensures var aged := Restrict(t, AgeKept(t, policy, prunedAt));
            NewerFinished(aged, RowKey(aged, id)) == NewerFinished(t, RowKey(t, id))
  {
  }

  /** Retention keeps exactly the survivors, unchanged, and reports how many rows it removed. */
  lemma RetentionExact(t: Tables, policy: RetentionPolicy, prunedAt: int)
    requires Matched(t) && policy.maxAge >= 0 && policy.maxRuns >= 0
    ensures var kept := Restrict(t, Survivors(t, policy, prunedAt));
            var result := ApplyRetention(t, policy, prunedAt);
            && result.Success?
            && result.value.tables == kept.(lastPrunedAt := Some(prunedAt))
            && result.value.deleted == |t.runs| - |kept.runs|
  {
    var aged := AgePass(t, policy, prunedAt).tables;
    AgePassExact(t, policy, prunedAt);
    CountPassExact(aged, policy);
    PassesSelectSurvivors(t, policy, prunedAt);
    assert CountPass(aged, policy).tables == Restrict(t, Survivors(t, policy, prunedAt));
  }

  lemma PassesSelectSurvivors(t: Tables, policy: RetentionPolicy, prunedAt: int)
    requires Matched(t)
    ensures var aged := Restrict(t, AgeKept(t, policy, prunedAt));
            Restrict(aged, CountKept(aged, policy)) == Restrict(t, Survivors(t, policy, prunedAt))
  {
    var aged := Restrict(t, AgeKept(t, policy, prunedAt));
    forall id ensures id in CountKept(aged, policy) <==> id in Survivors(t, policy, prunedAt) {
      if id in aged.runs && t.runs[id].status != Running { AgeKeepsRank(t, policy, prunedAt, id); }
    }
    assert CountKept(aged, policy) == Survivors(t, policy, prunedAt);
  }

  /** The passes commute: pruning by count first deletes the same rows. */
  lemma PassesCommute(t: Tables, policy: RetentionPolicy, prunedAt: int)
    requires Matched(t)
    ensures CountPass(AgePass(t, policy, prunedAt).tables, policy).tables ==
            AgePass(CountPass(t, policy).tables, policy, prunedAt).tables
  {
    var aged, capped := AgePass(t, policy, prunedAt).tables, CountPass(t, policy).tables;
    AgePassExact(t, policy, prunedAt);
    CountPassExact(t, policy);
    CountPassExact(aged, policy);
    AgePassExact(capped, policy, prunedAt);
    PassesSelectSurvivors(t, policy, prunedAt);
    SwappedPassesSelectSurvivors(t, policy, prunedAt);
  }

  lemma SwappedPassesSelectSurvivors(t: Tables, policy: RetentionPolicy, prunedAt: int)
    requires Matched(t)
    ensures var capped := Restrict(t, CountKept(t, policy));
            Restrict(capped, AgeKept(capped, policy, prunedAt)) == Restrict(t, Survivors(t, policy, prunedAt))
  {
    var capped := Restrict(t, CountKept(t, policy));
    assert AgeKept(capped, policy, prunedAt) == Survivors(t, policy, prunedAt);
  }

  /** Among finished rows, nothing newer than a kept row is deleted. */
  lemma NoNewerRowDeleted(t: Tables, policy: RetentionPolicy, prunedAt: int, kept: Id, deleted: Id)
    requires kept in t.runs && deleted in t.runs
    requires t.runs[kept].status != Running
    requires Survives(t, policy, prunedAt, kept) && !Survives(t, policy, prunedAt, deleted)
    ensures Newer(RowKey(t, kept), RowKey(t, deleted))
  {
    var k, d := RowKey(t, kept), RowKey(t, deleted);
    NewerIsTotal();
    if !Newer(k, d) {
      assert k != d ==> Newer(d, k);
      SubsetSize(NewerFinished(t, d), NewerFinished(t, k));
      assert false;
    }
  }

  lemma {:induction false} SubsetSize<T>(a: set<T>, b: set<T>)
    requires a <= b
    ensures |a| <= |b|
    decreases |a|
  {
    if a != {} {
      var x :| x in a;
      SubsetSize(a - {x}, b - {x});
    }
  }

  /** A positive `maxRuns` bounds the finished rows that are kept. */
  lemma FinishedRowsBounded(t: Tables, policy: RetentionPolicy, prunedAt: int)
    requires Matched(t) && policy.maxRuns > 0
    ensures |FinishedKeys(Restrict(t, Survivors(t, policy, prunedAt)))| <= policy.maxRuns
  {
    var after := Restrict(t, Survivors(t, policy, prunedAt));
    var keys := Newest(FinishedKeys(after));
    if |keys| > policy.maxRuns {
      var last := keys[|keys| - 1];
      assert last in FinishedKeys(after) && last in After(keys, policy.maxRuns);
      NewestTail(FinishedKeys(after), policy.maxRuns, last, NewerFinished(after, last));
      RestrictKeepsRank(t, Survivors(t, policy, prunedAt), last);
      assert false;
    }
  }

  lemma RestrictKeepsRank(t: Tables, kept: set<Id>, key: Key)
    requires Matched(t)
    ensures |NewerFinished(Restrict(t, kept), key)| <= |NewerFinished(t, key)|
  {
    SubsetSize(NewerFinished(Restrict(t, kept), key), NewerFinished(t, key));
  }
}
