/** The retention age in 64-bit arithmetic: for which settings retention does what was asked for. */
module RetentionArithmetic {
  import opened Prelude
  import opened Records
  import opened Queries

  const WORD := 0x1_0000_0000_0000_0000
  const HALF := 0x8000_0000_0000_0000
  const HOUR := 3_600_000_000_000
  const DAY := 24 * HOUR
  /** The largest number of days whose nanoseconds fit a `time.Duration`. */
  const MAX_DAYS := 106751

  /** Two's-complement 64-bit wrap-around. */
  function Wrap64(x: int): (w: int)
    ensures -HALF <= w < HALF
    ensures -HALF <= x < HALF ==> w == x
  {
    (x + HALF) % WORD - HALF
  }

  /** `time.Duration(days) * 24 * time.Hour`, wrapping after each multiplication. */
  function MaxAge(days: int): int {
    Wrap64(Wrap64(days * 24) * HOUR)
  }

  /** `prunedAt.Add(-maxAge).UnixNano()`: the 64-bit cutoff that the query is given. */
  function Cutoff(maxAge: int, now: int): int {
    Wrap64(now - maxAge)
  }

  /** An accepted age never wraps the cutoff of a clock after 1970. */
  lemma CutoffNeverWraps(maxAge: int, now: int)
    requires 0 <= maxAge < HALF && 0 <= now < HALF
    ensures Cutoff(maxAge, now) == now - maxAge
  {
  }

  /** The age pass with that cutoff. */
  function WordAgePass(t: Tables, policy: RetentionPolicy, now: int): Pruning {
    var cutoff := Cutoff(policy.maxAge, now);
    if policy.maxAge > 0 then Pruning(PruneByAge(t, cutoff), |OlderThan(t, cutoff)|) else Pruning(t, 0)
  }

  /** `Store.ApplyRetention` at `now`, in 64-bit arithmetic. */
  function WordRetention(t: Tables, policy: RetentionPolicy, now: int): Result<Pruning, StoreError> {
    if policy.maxAge < 0 || policy.maxRuns < 0 then Failure(InvalidRetention)
    else Success(RestOfRetention(WordAgePass(t, policy, now), policy, now))
  }

  /** For a clock after 1970 subtracting without bounds, as `Queries.ApplyRetention` does, is exact. */
  lemma WordRetentionExact(t: Tables, policy: RetentionPolicy, now: int)
    requires policy.maxAge < HALF && 0 <= now < HALF
    ensures WordRetention(t, policy, now) == ApplyRetention(t, policy, now)
  {
    if policy.maxAge >= 0 { WordAgePassExact(t, policy, now); }
  }

  lemma WordAgePassExact(t: Tables, policy: RetentionPolicy, now: int)
    requires 0 <= policy.maxAge < HALF && 0 <= now < HALF
    ensures WordAgePass(t, policy, now) == AgePass(t, policy, now)
  {
    CutoffNeverWraps(policy.maxAge, now);
  }

  /** Retention by age alone, for `days` days at `now`. */
  function Pruned(t: Tables, days: int, now: int): Result<Pruning, StoreError> {
    WordRetention(t, RetentionPolicy(MaxAge(days), 0), now)
  }

  /** Row `id` is kept exactly if it is running or was created at `cutoff` or later. */
  predicate KeptFrom(t: Tables, after: Tables, cutoff: int, id: Id)
    requires id in t.runs
  {
    id in after.runs <==> t.runs[id].status == Running || t.runs[id].createdAt >= cutoff
  }

  /** Retention does what `retention_days` says: no finished row older than that stays, and nothing else goes. */
  predicate Honoured(t: Tables, days: int, now: int) {
    var result := Pruned(t, days, now);
    && result.Success?
    && (forall id | id in t.runs :: KeptFrom(t, result.value.tables, now - days * DAY, id))
    && (forall id | id in result.value.tables.runs :: id in t.runs && result.value.tables.runs[id] == t.runs[id])
  }

  /** What an age that is not negative does, whichever setting it came from and whatever the clock says. */
  lemma AgeDecides(t: Tables, days: int, now: int)
    requires Matched(t) && MaxAge(days) >= 0
    ensures Pruned(t, days, now).Success?
    ensures var after := Pruned(t, days, now).value.tables;
            && (forall id | id in after.runs :: id in t.runs && after.runs[id] == t.runs[id])
            && (forall id | id in t.runs ::
                  if MaxAge(days) == 0 then id in after.runs
                  else KeptFrom(t, after, Cutoff(MaxAge(days), now), id))
  {
  }

  // ---- one finished row ----

  function OneRow(createdAt: int): Tables {
    var row := RunRow(
      "a", Succeeded, Some(0), createdAt, Some(createdAt), Some(createdAt), false, None, [], [], NoSummary);
    var snapshot := Snapshot("", CommandMode, ["a"], "", "", 0, map[], Allow, 0, true);
    Tables(map["r" := row], map["r" := snapshot], None)
  }

  /** Beyond the bound some table is not treated as asked. */
  lemma TooManyDaysNotHonoured(days: int, now: int)
    requires MAX_DAYS < days < HALF && 0 <= now < HALF
    ensures exists t :: Matched(t) && !Honoured(t, days, now)
  {
    var cutoff := now - days * DAY;
    var t := OneRow(if MaxAge(days) == 0 then cutoff - 1 else cutoff);
    assert days * DAY >= HALF;
    assert "r" in t.runs && Matched(t);
    if MaxAge(days) >= 0 {
      CutoffNeverWraps(MaxAge(days), now);
      AgeDecides(t, days, now);
      assert !KeptFrom(t, Pruned(t, days, now).value.tables, cutoff, "r");
    }
    assert !Honoured(t, days, now);
  }

  /** Validation sets no upper limit on `retention_days`; retention does what it says exactly up to the bound. */
  lemma RetentionDaysHonouredIff(days: int, now: int)
    requires 0 < days < HALF && 0 <= now < HALF
    ensures (forall t :: Matched(t) ==> Honoured(t, days, now)) <==> days <= MAX_DAYS
  {
    if days <= MAX_DAYS {
      assert MaxAge(days) == days * DAY;
      CutoffNeverWraps(MaxAge(days), now);
      forall t | Matched(t) ensures Honoured(t, days, now) { AgeDecides(t, days, now); }
    } else {
      TooManyDaysNotHonoured(days, now);
    }
  }

  /** Zero days turn the age pass off. */
  lemma ZeroDaysKeepEverything(t: Tables, now: int)
    requires Matched(t)
    ensures Pruned(t, 0, now).Success? && Pruned(t, 0, now).value.tables.runs == t.runs
  {
    AgeDecides(t, 0, now);
  }

  /**
   Beyond the bound one of three things happens: a negative age makes the boot fail,
   an age of zero keeps every row, and any other age is too short, so that finished
   rows younger than the setting are deleted. The cutoff is the 64-bit one, which for
   a clock after 1970 is exact.
   */
  lemma BeyondTheBound(t: Tables, days: int, now: int)
    requires Matched(t) && MAX_DAYS < days < HALF
    ensures MaxAge(days) < 0 ==> Pruned(t, days, now) == Failure(InvalidRetention)
    ensures MaxAge(days) == 0 ==> Pruned(t, days, now).Success? && Pruned(t, days, now).value.tables.runs == t.runs
    ensures MaxAge(days) > 0 ==>
              && MaxAge(days) < days * DAY && Pruned(t, days, now).Success?
              && forall id | id in t.runs && t.runs[id].status != Running ::
                   id !in Pruned(t, days, now).value.tables.runs <==>
                   t.runs[id].createdAt < Cutoff(MaxAge(days), now)
    ensures MaxAge(days) >= 0 && 0 <= now < HALF ==> Cutoff(MaxAge(days), now) == now - MaxAge(days)
  {
    if MaxAge(days) >= 0 {
      AgeDecides(t, days, now);
      if 0 <= now < HALF { CutoffNeverWraps(MaxAge(days), now); }
    }
  }

  /** Each of the three happens: one day too many, 2 to the 48 days, and 213504 days, which keep barely 25 minutes. */
  lemma WrappedAges()
    ensures MaxAge(MAX_DAYS + 1) < 0
    ensures MaxAge(0x1_0000_0000_0000) == 0
    ensures 0 < MaxAge(213504) < 26 * HOUR / 60
  {
  }
}
