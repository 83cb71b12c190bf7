/** The two faults matter: after either one, and only then, a reject action can have two running rows. */
module Faults {
  import opened Prelude
  import opened Text
  import opened Records
  import opened Queries
  import opened Loading
  import opened Lifecycle
  import opened Invariant
  import opened Preservation
  import opened Booting
  import opened Ownership
  import opened History
  import opened Intervals
  import opened Restart

  // ---- fresh names and requests ----

  lemma {:induction false} LongestLength(ids: set<string>) returns (n: nat)
    ensures forall id :: id in ids ==> |id| <= n
    decreases |ids|
  {
    n := 0;
    if ids != {} {
      var last :| last in ids;
      var m := LongestLength(ids - {last});
      n := m + |last|;
    }
  }

  /** Some nonblank id is not in use. */
  lemma FreshId(ids: set<string>) returns (id: string)
    ensures id !in ids && !IsBlank(id)
  {
    var n := LongestLength(ids);
    id := "a" + seq(n, i => 'a');
    assert |id| == n + 1 && id[0] in id && !IsSpace(id[0]);
  }

  lemma {:induction false} FreshTid(tids: set<nat>) returns (tid: nat)
    ensures forall t :: t in tids ==> t < tid
    decreases |tids|
  {
    tid := 0;
    if tids != {} {
      var last :| last in tids;
      var m := FreshTid(tids - {last});
      tid := m + last + 1;
      assert forall t :: t in tids ==> t == last || t in tids - {last};
    }
  }

  function Call(name: string): Request {
    Request(name, "sync", NoPayload, NoPayload)
  }

  /** `name` is an enabled reject action of the serving registry. */
  ghost predicate Rejecting(s: State, name: string) {
    && s.phase.Serving? && RegistryRunnable(s.phase.registry)
    && name in s.phase.registry.byName
    && s.phase.registry.byName[name].enabled && s.phase.registry.byName[name].policy == Reject
  }

  lemma CallAdmitted(s: State, name: string)
    requires Rejecting(s, name)
    ensures Admit(s.phase.registry, Call(name)) == Admitted(s.phase.registry.byName[name], Sync)
    ensures s.phase.registry.byName[name].name == name
  {
    assert Runnable(s.phase.registry.byName[name], name);
    assert TrimSpace("sync") == "sync";
  }

  // ---- another run ----

  /** A run that a reject invocation has created and not finished. */
  predicate Unfinished(run: Run, name: string) {
    && run.row.status == Running && run.row.finishedAt == None
    && run.row.actionName == name && run.snapshot.policy == Reject
  }

  /** `after` has one more run of `name`, and it is running. */
  ghost predicate Gains(db: Tables, after: Tables, name: string) {
    exists run: Run :: run.id !in db.runs && Unfinished(run, name) && after == WithRun(db, run)
  }

  /** From `s`, without a fault, `name` can get one more running row. */
  ghost predicate CanGain(s: State, name: string) {
    exists after :: LeadsCleanly(s, after) && Gains(s.db, after.db, name)
  }

  lemma GainsLater(s: State, middle: State, name: string)
    requires LeadsCleanly(s, middle) && middle.db == s.db && CanGain(middle, name)
    ensures CanGain(s, name)
  {
    var after :| LeadsCleanly(middle, after) && Gains(middle.db, after.db, name);
    CleanlyThrough(s, middle, after);
  }

  /** An invocation before its insert can store its run. */
  lemma InsertGains(s: State, tid: nat, th: Thread, registry: Registry)
    requires s.phase.Serving? && tid in s.threads && s.threads[tid] == th && th.pc.Inserting?
    requires Matched(s.db) && ThreadInv(th, registry) && th.action.policy == Reject
    requires th.pc.id !in s.db.runs
    ensures CanGain(s, th.action.name)
  {
    var run := InsertedRun(th, th.pc.id, th.pc.createdAt);
    InsertReadsBack(s.db, th, s.clock, registry);
    OneCleanStep(s, Step(tid, Insert(Stored)));
    assert Apply(s, Step(tid, Insert(Stored))).db == WithRun(s.db, run);
  }

  lemma PrepareGains(s: State, tid: nat, th: Thread, registry: Registry)
    requires s.phase.Serving? && tid in s.threads && s.threads[tid] == th && th.pc.Preparing?
    requires Matched(s.db) && ThreadInv(th, registry) && th.action.policy == Reject && s.clock != ZERO_TIME
    ensures CanGain(s, th.action.name)
  {
    var id := FreshId(s.db.runs.Keys);
    var l := Step(tid, Prepare(Some(id)));
    var next := Apply(s, l);
    OneCleanStep(s, l);
    InsertGains(next, tid, th.(pc := Inserting(id, s.clock)), registry);
    GainsLater(s, next, th.action.name);
  }

  /** Invocation `tid` of `name` has just claimed its slot. */
  ghost predicate JustClaimed(s: State, claimed: State, tid: nat, name: string) {
    && claimed.phase == s.phase && claimed.db == s.db && claimed.clock == s.clock && s.phase.Serving?
    && tid in claimed.threads && claimed.threads[tid].pc.Preparing?
    && claimed.threads[tid].action.policy == Reject && claimed.threads[tid].action.name == name
    && ThreadInv(claimed.threads[tid], s.phase.registry)
  }

  /** While its slot is free a new request can claim it. */
  lemma FreeSlotClaimed(s: State, name: string) returns (claimed: State, tid: nat)
    requires Rejecting(s, name) && name !in s.rejectRunning
    ensures LeadsCleanly(s, claimed) && JustClaimed(s, claimed, tid, name)
  {
    tid := FreshTid(s.threads.Keys);
    CallAdmitted(s, name);
    AdmittedThread(s.phase.registry, Call(name));
    var th := Entered(Admit(s.phase.registry, Call(name)), Call(name));
    var entered := SetThread(s, tid, th);
    claimed := ApplyClaim(entered, tid, th);
    OneCleanStep(s, Accept(tid, Call(name)));
    EnteredClaims(entered, tid, th, name);
    CleanlyThrough(s, entered, claimed);
  }

  lemma EnteredClaims(s: State, tid: nat, th: Thread, name: string)
    requires s.phase.Serving? && tid in s.threads && s.threads[tid] == th && th.pc.Entering?
    requires ThreadInv(th, s.phase.registry) && th.action.policy == Reject && th.action.name == name
    requires name !in s.rejectRunning
    ensures LeadsCleanly(s, ApplyClaim(s, tid, th)) && JustClaimed(s, ApplyClaim(s, tid, th), tid, name)
  {
    OneCleanStep(s, Step(tid, Claim));
  }

  /** While its slot is free a new request gets a new running row. */
  lemma FreeSlotGains(s: State, name: string)
    requires Rejecting(s, name) && name !in s.rejectRunning && Matched(s.db) && s.clock != ZERO_TIME
    ensures CanGain(s, name)
  {
    var claimed, tid := FreeSlotClaimed(s, name);
    PrepareGains(claimed, tid, claimed.threads[tid], s.phase.registry);
    GainsLater(s, claimed, name);
  }

  // ---- after a fault ----

  /** Invocation `tid` stands where `fault` can strike, and would leave `run` behind. */
  predicate MeetsFault(s: State, tid: nat, fault: Fault, run: Run) {
    && s.phase.Serving? && tid in s.threads && s.threads[tid].action.policy == Reject
    && match fault
       case FailedUpdate => s.threads[tid].pc.Writing? && run == s.threads[tid].pc.run
       case LostCreate =>
         s.threads[tid].pc.Inserting? && s.threads[tid].pc.id !in s.db.runs
         && run == InsertedRun(s.threads[tid], s.threads[tid].pc.id, s.threads[tid].pc.createdAt)
  }

  function FaultLabel(tid: nat, fault: Fault): Label {
    match fault
    case FailedUpdate => Step(tid, Write(false))
    case LostCreate => Step(tid, Insert(StoredButUnread))
  }

  /** The state after the fault and the release that follows it regardless. */
  predicate LeftBehind(s: State, after: State, tid: nat, run: Run) {
    && after.phase == s.phase && after.clock == s.clock
    && after.db == WithRun(s.db, run)
    && after.threads == s.threads - {tid}
    && after.rejectRunning == s.rejectRunning - {run.row.actionName}
  }

  lemma FailedUpdateLeavesRow(s: State, tid: nat, run: Run)
    requires MeetsFault(s, tid, FailedUpdate, run)
    requires ThreadOk(s, tid, s.phase.registry) && TablesInv(s.db)
    ensures Unfinished(run, s.threads[tid].action.name)
    ensures WithRun(s.db, run) == s.db
  {
    assert RowOk(s.db, run.id);
    assert s.db.runs[run.id := run.row] == s.db.runs;
    assert s.db.snapshots[run.id := run.snapshot] == s.db.snapshots;
  }

  lemma LostCreateLeavesRow(s: State, tid: nat, run: Run)
    requires MeetsFault(s, tid, LostCreate, run)
    requires ThreadOk(s, tid, s.phase.registry) && Matched(s.db)
    ensures Unfinished(run, s.threads[tid].action.name)
    ensures var th := s.threads[tid];
            var p := CreationParams(th.action, th.metadata, th.pc.id, th.pc.createdAt);
            CreateRun(s.db, p, s.clock) == Success(WithRun(s.db, run))
  {
  }

  lemma FaultStep(s: State, tid: nat, fault: Fault, run: Run)
    requires MeetsFault(s, tid, fault, run)
    requires ThreadOk(s, tid, s.phase.registry) && TablesInv(s.db)
    ensures Unfinished(run, s.threads[tid].action.name)
    ensures var after := Apply(s, FaultLabel(tid, fault));
            && Enabled(s, FaultLabel(tid, fault))
            && after.phase == s.phase && after.clock == s.clock && after.rejectRunning == s.rejectRunning
            && after.db == WithRun(s.db, run)
            && tid in after.threads && after.threads == s.threads[tid := after.threads[tid]]
            && after.threads[tid].pc.Releasing? && after.threads[tid].action == s.threads[tid].action
  {
    if fault == LostCreate {
      LostCreateLeavesRow(s, tid, run);
    } else {
      FailedUpdateLeavesRow(s, tid, run);
    }
  }

  /** Either fault leaves a running row behind and gives the slot back. */
  lemma FaultReleases(s: State, tid: nat, fault: Fault, run: Run)
    requires MeetsFault(s, tid, fault, run)
    requires ThreadOk(s, tid, s.phase.registry) && TablesInv(s.db)
    ensures Unfinished(run, s.threads[tid].action.name)
    ensures exists released :: Leads(s, released) && LeftBehind(s, released, tid, run)
  {
    FaultStep(s, tid, fault, run);
    var faulted := Apply(s, FaultLabel(tid, fault));
    var released := Apply(faulted, Step(tid, Release));
    OneStep(s, FaultLabel(tid, fault));
    OneStep(faulted, Step(tid, Release));
    LeadsThrough(s, faulted, released);
    assert faulted.threads - {tid} == s.threads - {tid};
  }

  /** Two different running rows of one reject action, whose intervals overlap. */
  predicate Overlap(db: Tables, a: Id, b: Id) {
    && a != b && a in db.runs && b in db.runs
    && db.runs[a].status == Running && db.runs[b].status == Running
    && RejectRow(db, db.runs[a].actionName, a) && RejectRow(db, db.runs[a].actionName, b)
    && !Apart(db.runs[a], db.runs[b])
  }

  /** The fault's row and the next run of the action overlap. */
  ghost predicate OverlapFollows(s: State, run: Run) {
    exists after, id :: Leads(s, after) && Overlap(after.db, run.id, id)
  }

  lemma GainOverlaps(db: Tables, run: Run, name: string, after: Tables)
    requires Unfinished(run, name) && Gains(WithRun(db, run), after, name)
    ensures exists id :: Overlap(after, run.id, id)
  {
    var second: Run :| second.id !in WithRun(db, run).runs && Unfinished(second, name)
                  && after == WithRun(WithRun(db, run), second);
    assert Overlap(after, run.id, second.id);
  }

  lemma OverlapAfterRelease(s: State, released: State, tid: nat, run: Run, name: string)
    requires Leads(s, released) && LeftBehind(s, released, tid, run)
    requires Unfinished(run, name) && Rejecting(s, name) && Matched(released.db) && s.clock != ZERO_TIME
    ensures OverlapFollows(s, run)
  {
    FreeSlotGains(released, name);
    var after :| LeadsCleanly(released, after) && Gains(released.db, after.db, name);
    CleanlyLeads(released, after);
    LeadsThrough(s, released, after);
    GainOverlaps(s.db, run, name, after.db);
  }

  /**
   From every reachable state in which either fault can strike, some continuation has
   two running, overlapping rows of the same reject action: the guarantees of
   `RejectRunsOnce` and `RejectRunsAreDisjoint` fail for exactly this reason.
   */
  lemma FaultAdmitsOverlap(s: State, tid: nat, fault: Fault, run: Run)
    requires Reachable(s) && MeetsFault(s, tid, fault, run)
    ensures exists after, id :: Leads(s, after) && Overlap(after.db, run.id, id)
  {
    ReachableInv(s);
    assert ThreadOk(s, tid, s.phase.registry);
    FaultReleases(s, tid, fault, run);
    var released :| Leads(s, released) && LeftBehind(s, released, tid, run);
    OverlapAfterRelease(s, released, tid, run, s.threads[tid].action.name);
    assert OverlapFollows(s, run);
  }

  // ---- both faults can strike ----

  /** Some fault-free continuation of `s` stands where `fault` can strike. */
  ghost predicate CanMeet(s: State, fault: Fault) {
    exists after, tid, run :: LeadsCleanly(s, after) && MeetsFault(after, tid, fault, run)
  }

  lemma MeetsLater(s: State, middle: State, fault: Fault)
    requires LeadsCleanly(s, middle) && CanMeet(middle, fault)
    ensures CanMeet(s, fault)
  {
    var after, tid, run :| LeadsCleanly(middle, after) && MeetsFault(after, tid, fault, run);
    CleanlyThrough(s, middle, after);
  }

  lemma StandsStill(s: State)
    ensures LeadsCleanly(s, s)
  {
    assert Executes(s, []) && Final(s, []) == s;
  }

  lemma LaunchMeetsFailedUpdate(s: State, tid: nat, run: Run)
    requires s.phase.Serving? && tid in s.threads && s.threads[tid].action.policy == Reject
    requires s.threads[tid].pc == Launching(run)
    ensures CanMeet(s, FailedUpdate)
  {
    var next := Apply(s, Step(tid, Launch(false)));
    OneCleanStep(s, Step(tid, Launch(false)));
    assert MeetsFault(next, tid, FailedUpdate, run);
  }

  lemma InsertMeetsFault(s: State, tid: nat, th: Thread, fault: Fault, registry: Registry)
    requires s.phase.Serving? && tid in s.threads && s.threads[tid] == th && th.pc.Inserting?
    requires Matched(s.db) && ThreadInv(th, registry) && th.action.policy == Reject && th.pc.id !in s.db.runs
    ensures CanMeet(s, fault)
  {
    var run := InsertedRun(th, th.pc.id, th.pc.createdAt);
    if fault == LostCreate {
      StandsStill(s);
      assert MeetsFault(s, tid, LostCreate, run);
    } else {
      var next := Apply(s, Step(tid, Insert(Stored)));
      InsertReadsBack(s.db, th, s.clock, registry);
      OneCleanStep(s, Step(tid, Insert(Stored)));
      LaunchMeetsFailedUpdate(next, tid, run);
      MeetsLater(s, next, fault);
    }
  }

  lemma FreeSlotMeetsFault(s: State, name: string, fault: Fault)
    requires Rejecting(s, name) && name !in s.rejectRunning && Matched(s.db) && s.clock != ZERO_TIME
    ensures CanMeet(s, fault)
  {
    var claimed, tid := FreeSlotClaimed(s, name);
    var id := FreshId(s.db.runs.Keys);
    var l := Step(tid, Prepare(Some(id)));
    var next := Apply(claimed, l);
    OneCleanStep(claimed, l);
    InsertMeetsFault(next, tid, next.threads[tid], fault, s.phase.registry);
    MeetsLater(claimed, next, fault);
    MeetsLater(s, claimed, fault);
  }

  const HOOK := Action("hook", "", CommandMode, ["true"], "", "", 0, map[], Reject, 0, true)
  const HOOKS := Registry([HOOK], map["hook" := HOOK], map["hook" := HOOK])

  lemma HooksRun()
    ensures RegistryRunnable(HOOKS)
  {
    assert TrimSpace("hook") == "hook";
    assert Runnable(HOOK, "hook");
  }

  /** A service with one reject action can be booted from an empty database. */
  lemma HooksServe() returns (s: State)
    ensures Reachable(s) && Rejecting(s, "hook") && s.rejectRunning == {}
  {
    var init := State(EMPTY, Down, {}, map[], 0, map[]);
    var config := BootConfig(HOOKS, RetentionPolicy(0, 0));
    HooksRun();
    assert Executes(init, []) && Final(init, []) == init;
    ReachableInv(init);
    StepKeeps(init, Boot(config));
    var booted := Apply(init, Boot(config));
    OpenedServes(booted);
    var labels :| BootsToServing(booted, labels);
    BootRun(booted, labels, init.db, config);
    s := Final(booted, labels);
    OneStep(init, Boot(config));
    ReachesFurther(init, booted);
    ReachesFurther(booted, s);
  }

  /** Each of the two faults can strike in some reachable state. */
  lemma FaultsAreReachable(fault: Fault)
    ensures exists s, tid, run :: Reachable(s) && MeetsFault(s, tid, fault, run)
  {
    var s := HooksServe();
    ReachableInv(s);
    FreeSlotMeetsFault(s, "hook", fault);
    var after, tid, run :| LeadsCleanly(s, after) && MeetsFault(after, tid, fault, run);
    CleanlyLeads(s, after);
    ReachesFurther(s, after);
  }

  // ---- exactly when a reject action can run twice ----

  predicate RunningReject(db: Tables, name: string, id: Id) {
    RejectRow(db, name, id) && db.runs[id].status == Running
  }

  ghost predicate RunsTwice(db: Tables, name: string) {
    exists a, b :: a != b && RunningReject(db, name, a) && RunningReject(db, name, b)
  }

  ghost predicate Orphaned(s: State, name: string) {
    exists id :: id in s.orphans && RejectRow(s.db, name, id)
  }

  /** While serving, two running rows of a reject action mean that one of them is an orphan. */
  lemma ServingRunsTwice(s: State, name: string)
    requires Inv(s) && s.phase.Serving? && RunsTwice(s.db, name)
    ensures Orphaned(s, name)
  {
    var a, b :| a != b && RunningReject(s.db, name, a) && RunningReject(s.db, name, b);
    if a !in s.orphans && b !in s.orphans {
      assert RunningOk(s, a) && RunningOk(s, b);
      var t :| Owns(s, t, a);
      var u :| Owns(s, u, b);
      assert ThreadOk(s, t, s.phase.registry) && ThreadOk(s, u, s.phase.registry);
      assert Holds(s, t, name) && Holds(s, u, name);
      assert false;
    }
  }

  /** No row of `name` runs twice, and none is an orphan. */
  ghost predicate RunsOnce(s: State, name: string) {
    !RunsTwice(s.db, name) && !Orphaned(s, name)
  }

  /** Without a fault no row becomes an orphan, and an orphan's row stays as it is. */
  lemma OrphanStays(s: State, l: Label, id: Id)
    requires Inv(s) && Enabled(s, l) && !Faulty(l) && id in Apply(s, l).orphans
    ensures id in s.orphans && id in s.db.runs && id in Apply(s, l).db.runs
    ensures Apply(s, l).db.runs[id] == s.db.runs[id]
    ensures id in s.db.snapshots && id in Apply(s, l).db.snapshots && Apply(s, l).db.snapshots[id] == s.db.snapshots[id]
  {
    OrphanedByFault(s, l, id);
    StepKeeps(s, l);
    assert RunningOk(s, id) && RunningOk(Apply(s, l), id) && RowOk(s.db, id) && RowOk(Apply(s, l).db, id);
    StepKeepsRow(s, l, id);
  }

  /** Outside serving a step creates no row and leaves no row running that was not. */
  lemma RunningBefore(s: State, l: Label, name: string, id: Id)
    requires Inv(s) && Enabled(s, l) && !Apply(s, l).phase.Serving?
    requires RunningReject(Apply(s, l).db, name, id)
    ensures RunningReject(s.db, name, id)
  {
    StepKeeps(s, l);
    if id in s.db.runs {
      assert RowOk(s.db, id);
      StepKeepsRow(s, l, id);
    } else {
      RowsAreBornRunning(s, l, id);
      EventKeepsPhase(s, l.tid, l.event);
    }
  }

  lemma EventKeepsPhase(s: State, tid: nat, e: Event)
    requires tid in s.threads
    ensures ApplyEvent(s, tid, s.threads[tid], e).phase == s.phase
  {
  }

  lemma StepKeepsOnce(s: State, l: Label, name: string)
    requires Inv(s) && Enabled(s, l) && !Faulty(l) && RunsOnce(s, name)
    ensures RunsOnce(Apply(s, l), name)
  {
    var after := Apply(s, l);
    StepKeeps(s, l);
    forall id | id in after.orphans ensures !RejectRow(after.db, name, id) { OrphanStays(s, l, id); }
    if after.phase.Serving? {
      if RunsTwice(after.db, name) { ServingRunsTwice(after, name); }
    } else {
      forall id | RunningReject(after.db, name, id) ensures RunningReject(s.db, name, id) {
        RunningBefore(s, l, name, id);
      }
    }
  }

  lemma {:induction false} CleanRunKeepsOnce(s: State, labels: seq<Label>, name: string)
    requires Inv(s) && Executes(s, labels) && (forall l :: l in labels ==> !Faulty(l)) && RunsOnce(s, name)
    ensures RunsOnce(Final(s, labels), name)
    decreases |labels|
  {
    if labels != [] {
      assert labels[0] in labels;
      StepKeeps(s, labels[0]);
      StepKeepsOnce(s, labels[0], name);
      CleanRunKeepsOnce(Apply(s, labels[0]), labels[1..], name);
    }
  }

  /** Some fault-free continuation has two running rows of `name`. */
  ghost predicate CanRunTwice(s: State, name: string) {
    exists after :: LeadsCleanly(s, after) && RunsTwice(after.db, name)
  }

  lemma GainRunsTwice(s: State, name: string, orphan: Id)
    requires RunningReject(s.db, name, orphan) && CanGain(s, name)
    ensures CanRunTwice(s, name)
  {
    var after :| LeadsCleanly(s, after) && Gains(s.db, after.db, name);
    var run: Run :| run.id !in s.db.runs && Unfinished(run, name) && after.db == WithRun(s.db, run);
    assert RunningReject(after.db, name, orphan) && RunningReject(after.db, name, run.id);
  }

  /** The holder of a slot on its way out leaves it free, and the tables as they are. */
  lemma ReleasingGains(s: State, tid: nat, name: string)
    requires Inv(s) && Rejecting(s, name) && Holds(s, tid, name) && s.threads[tid].pc.Releasing?
    ensures CanGain(s, name)
  {
    var released := Apply(s, Step(tid, Release));
    OneCleanStep(s, Step(tid, Release));
    FreeSlotGains(released, name);
    GainsLater(s, released, name);
  }

  lemma RefusedInsertGains(s: State, tid: nat, name: string)
    requires Inv(s) && Rejecting(s, name) && Holds(s, tid, name)
    requires s.threads[tid].pc.Inserting? && s.threads[tid].pc.id in s.db.runs
    ensures CanGain(s, name)
  {
    var refused := Apply(s, Step(tid, Insert(NotStored)));
    OneCleanStep(s, Step(tid, Insert(NotStored)));
    StepKeeps(s, Step(tid, Insert(NotStored)));
    ReleasingGains(refused, tid, name);
    GainsLater(s, refused, name);
  }

  /** Wherever the slot's holder stands: it has a running row of its own, or it can get one, or it makes room. */
  lemma HolderRunsOrGains(s: State, tid: nat, name: string)
    requires Inv(s) && Rejecting(s, name) && Holds(s, tid, name)
    ensures CanGain(s, name) || exists id :: Owns(s, tid, id) && RunningReject(s.db, name, id)
  {
    var th := s.threads[tid];
    assert ThreadOk(s, tid, s.phase.registry);
    if RunOf(s, tid).Some? {
      assert Owns(s, tid, RunOf(s, tid).value.id);
    } else if th.pc.Preparing? {
      PrepareGains(s, tid, th, s.phase.registry);
    } else if th.pc.Releasing? {
      ReleasingGains(s, tid, name);
    } else if th.pc.id in s.db.runs {
      RefusedInsertGains(s, tid, name);
    } else {
      InsertGains(s, tid, th, s.phase.registry);
    }
  }

  lemma OrphanRunsTwice(s: State, name: string)
    requires Inv(s) && Rejecting(s, name) && Orphaned(s, name)
    ensures CanRunTwice(s, name)
  {
    var orphan :| orphan in s.orphans && RejectRow(s.db, name, orphan);
    assert RunningOk(s, orphan) && SlotOk(s, name);
    if name !in s.rejectRunning {
      FreeSlotGains(s, name);
      GainRunsTwice(s, name, orphan);
    } else {
      var tid :| Holds(s, tid, name);
      HolderRunsOrGains(s, tid, name);
      if CanGain(s, name) {
        GainRunsTwice(s, name, orphan);
      } else {
        var id :| Owns(s, tid, id) && RunningReject(s.db, name, id);
        OwnerIsSecond(s, tid, name, orphan, id);
      }
    }
  }

  lemma OwnerIsSecond(s: State, tid: nat, name: string, orphan: Id, id: Id)
    requires Inv(s) && s.phase.Serving? && Owns(s, tid, id) && orphan in s.orphans
    requires RunningReject(s.db, name, id) && RunningReject(s.db, name, orphan)
    ensures CanRunTwice(s, name)
  {
    assert ThreadOk(s, tid, s.phase.registry);
    assert id != orphan;
    StandsStill(s);
  }

  /**
   Exactly when a reject action can come to run twice without a further fault: an
   earlier fault has left one of its rows behind in this life of the service.
   */
  lemma RunsTwiceIffOrphaned(s: State, name: string)
    requires Reachable(s) && Rejecting(s, name)
    ensures CanRunTwice(s, name) <==> Orphaned(s, name)
  {
    ReachableInv(s);
    if Orphaned(s, name) {
      OrphanRunsTwice(s, name);
    } else if CanRunTwice(s, name) {
      if RunsTwice(s.db, name) { ServingRunsTwice(s, name); }
      var labels, after :| Executes(s, labels) && (forall l :: l in labels ==> !Faulty(l))
                           && Final(s, labels) == after && RunsTwice(after.db, name);
      CleanRunKeepsOnce(s, labels, name);
    }
  }
}
