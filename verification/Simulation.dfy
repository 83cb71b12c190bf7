/** The service's methods, taken one at a time, are runs of the transition system. */
module Simulation {
  import opened Prelude
  import opened Text
  import opened Records
  import opened Queries
  import opened Repository
  import opened Loading
  import opened Execution
  import opened Lifecycle
  import opened Invariant
  import opened Preservation
  import opened Booting
  import opened Invocation

  // ---- one invocation against a fixed background ----

  /** The parts of the state that one invocation moves, besides itself. */
  datatype Scene = Scene(db: Tables, slots: set<string>, clock: int, orphans: map<Id, Fault>)

  /** `s` with invocation `tid` standing at `th` in scene `c`. */
  function At(s: State, tid: nat, th: Thread, c: Scene): State {
    s.(db := c.db, rejectRunning := c.slots, clock := c.clock, orphans := c.orphans, threads := s.threads[tid := th])
  }

  lemma PrivateAt(s: State, tid: nat, th: Thread, c: Scene, e: Event)
    requires s.phase.Serving? && Private(e) && EventEnabled(th, e)
    ensures Leads(At(s, tid, th, c), At(s, tid, Local(th, e, c.clock), c))
  {
    var from := At(s, tid, th, c);
    assert Apply(from, Step(tid, e)) == SetThread(from, tid, Local(th, e, c.clock));
    assert Apply(from, Step(tid, e)).threads == At(s, tid, Local(th, e, c.clock), c).threads;
    OneStep(from, Step(tid, e));
  }

  lemma TickAt(s: State, tid: nat, th: Thread, c: Scene, now: int)
    requires now != ZERO_TIME
    ensures Leads(At(s, tid, th, c), At(s, tid, th, c.(clock := now)))
  {
    OneStep(At(s, tid, th, c), Tick(now));
  }

  /** A moment of the clock, then an event. */
  lemma TimedAt(s: State, tid: nat, th: Thread, c: Scene, now: int, e: Event)
    requires s.phase.Serving? && Private(e) && EventEnabled(th, e) && now != ZERO_TIME
    ensures Leads(At(s, tid, th, c), At(s, tid, Local(th, e, now), c.(clock := now)))
  {
    TickAt(s, tid, th, c, now);
    PrivateAt(s, tid, th, c.(clock := now), e);
    LeadsThrough(At(s, tid, th, c), At(s, tid, th, c.(clock := now)), At(s, tid, Local(th, e, now), c.(clock := now)));
  }

  lemma TwoPrivate(s: State, tid: nat, th: Thread, c: Scene, e: Event, f: Event)
    requires s.phase.Serving? && Private(e) && EventEnabled(th, e)
    requires Private(f) && EventEnabled(Local(th, e, c.clock), f)
    ensures Leads(At(s, tid, th, c), At(s, tid, Local(Local(th, e, c.clock), f, c.clock), c))
  {
    var th1 := Local(th, e, c.clock);
    var th2 := Local(th1, f, c.clock);
    PrivateAt(s, tid, th, c, e);
    PrivateAt(s, tid, th1, c, f);
    LeadsThrough(At(s, tid, th, c), At(s, tid, th1, c), At(s, tid, th2, c));
  }

  // ---- execution ----

  /** An invocation that has just stored its run. */
  predicate ReadyToLaunch(th: Thread, run: Run) {
    && th.pc == Launching(run) && th.runError.None? && th.execError.None? && th.process.Unstarted?
    && StoredAction(run) == th.action
  }

  /** The invocation can come to stand before exactly the update that the observation calls for. */
  ghost predicate ReachesUpdate(s: State, tid: nat, th: Thread, c: Scene, run: Run, o: Observation) {
    exists after: Thread :: after.pc == Writing(run, TerminalUpdate(run, o)) && after.action == th.action
                            && Leads(At(s, tid, th, c), At(s, tid, after, c.(clock := o.finishedAt)))
  }

  /** The contexts end as observed while the process runs. */
  lemma ContextsEnd(s: State, tid: nat, th: Thread, c: Scene, o: Observation)
    requires s.phase.Serving? && th.pc.Waiting? && th.runError.None? && th.execError.None?
    requires ContextsPossible(th.mode, th.action.timeout, o.execError, o.runError)
    ensures Leads(At(s, tid, th, c), At(s, tid, th.(execError := o.execError, runError := o.runError), c))
  {
    if o.runError.None? {
      PrivateAt(s, tid, th, c, TimerFires);
    } else if o.execError == o.runError {
      PrivateAt(s, tid, th, c, ClientGone(o.runError.value));
    } else {
      TwoPrivate(s, tid, th, c, TimerFires, ClientGone(o.runError.value));
    }
  }

  /** A process that ends by itself before anyone looks at the contexts. */
  lemma CompletesAt(s: State, tid: nat, th: Thread, c: Scene, run: Run, o: Observation)
    requires s.phase.Serving? && ReadyToLaunch(th, run) && CommandBuilds(th.action)
    requires o.ending.Completes? && Possible(th.mode, th.action, o)
    ensures ReachesUpdate(s, tid, th, c, run, o)
  {
    var exit := o.ending.exit;
    var ended := th.(pc := Waiting(run), process := Ended(exit));
    TwoPrivate(s, tid, th, c, Launch(true), ProcessEnds(exit));
    TimedAt(s, tid, ended, c, o.finishedAt, TakeExit);
    var after := Local(ended, TakeExit, o.finishedAt);
    LeadsThrough(At(s, tid, th, c), At(s, tid, ended, c), At(s, tid, after, c.(clock := o.finishedAt)));
  }

  /** The execution context ends first; the process is seen to be gone after that, or is killed. */
  lemma EndsAfterContext(s: State, tid: nat, th: Thread, c: Scene, run: Run, o: Observation)
    requires s.phase.Serving? && ReadyToLaunch(th, run) && CommandBuilds(th.action)
    requires (o.ending.CompletesLate? || o.ending.Killed?) && Possible(th.mode, th.action, o)
    ensures Leads(At(s, tid, th, c),
                  At(s, tid,
                     th.(pc := Interrupted(run), process := Alive, execError := o.execError, runError := o.runError),
                     c))
  {
    var waiting := th.(pc := Waiting(run), process := Alive);
    var noticed := waiting.(execError := o.execError, runError := o.runError);
    PrivateAt(s, tid, th, c, Launch(true));
    ContextsEnd(s, tid, waiting, c, o);
    LeadsThrough(At(s, tid, th, c), At(s, tid, waiting, c), At(s, tid, noticed, c));
    PrivateAt(s, tid, noticed, c, SeeDone);
    LeadsThrough(At(s, tid, th, c), At(s, tid, noticed, c), At(s, tid, noticed.(pc := Interrupted(run)), c));
  }

  lemma InterruptedAt(s: State, tid: nat, th: Thread, c: Scene, run: Run, o: Observation)
    requires s.phase.Serving? && ReadyToLaunch(th, run) && CommandBuilds(th.action)
    requires (o.ending.CompletesLate? || o.ending.Killed?) && Possible(th.mode, th.action, o)
    ensures ReachesUpdate(s, tid, th, c, run, o)
  {
    var exit := o.ending.exit;
    var interrupted := th.(pc := Interrupted(run), process := Alive, execError := o.execError, runError := o.runError);
    EndsAfterContext(s, tid, th, c, run, o);
    if o.ending.CompletesLate? {
      var ended := interrupted.(process := Ended(exit));
      PrivateAt(s, tid, interrupted, c, ProcessEnds(exit));
      LeadsThrough(At(s, tid, th, c), At(s, tid, interrupted, c), At(s, tid, ended, c));
      TimedAt(s, tid, ended, c, o.finishedAt, TakeExit);
      var after := Local(ended, TakeExit, o.finishedAt);
      LeadsThrough(At(s, tid, th, c), At(s, tid, ended, c), At(s, tid, after, c.(clock := o.finishedAt)));
    } else {
      var ended := interrupted.(pc := Draining(run, o.ending.killFailed), process := Ended(exit));
      TwoPrivate(s, tid, interrupted, c, Kill(o.ending.killFailed), ProcessEnds(exit));
      LeadsThrough(At(s, tid, th, c), At(s, tid, interrupted, c), At(s, tid, ended, c));
      TimedAt(s, tid, ended, c, o.finishedAt, Reap);
      var after := Local(ended, Reap, o.finishedAt);
      LeadsThrough(At(s, tid, th, c), At(s, tid, ended, c), At(s, tid, after, c.(clock := o.finishedAt)));
    }
  }

  /** Every way an execution can be observed is a run of the transition system that ends before the same update. */
  lemma ExecutionAt(s: State, tid: nat, th: Thread, c: Scene, run: Run, o: Observation)
    requires s.phase.Serving? && ReadyToLaunch(th, run) && Possible(th.mode, th.action, o)
    ensures ReachesUpdate(s, tid, th, c, run, o)
  {
    if !CommandBuilds(th.action) || o.ending.NeverStarts? {
      TimedAt(s, tid, th, c, o.finishedAt, Launch(false));
      assert Local(th, Launch(false), o.finishedAt).pc == Writing(run, TerminalUpdate(run, o));
    } else if o.ending.Completes? {
      CompletesAt(s, tid, th, c, run, o);
    } else {
      InterruptedAt(s, tid, th, c, run, o);
    }
  }

  // ---- a whole invocation ----

  function SceneOf(s: State): Scene {
    Scene(s.db, s.rejectRunning, s.clock, s.orphans)
  }

  function SlotNeeded(action: Action): set<string> {
    if action.policy == Reject then {action.name} else {}
  }

  lemma EnterAt(s: State, tid: nat, q: Request)
    requires s.phase.Serving? && tid !in s.threads && Admit(s.phase.registry, q).Admitted?
    requires SlotNeeded(Admit(s.phase.registry, q).action) !! s.rejectRunning
    ensures var th := Entered(Admit(s.phase.registry, q), q);
            Leads(s, At(s, tid, th.(pc := Preparing), SceneOf(s).(slots := s.rejectRunning + SlotNeeded(th.action))))
  {
    var th := Entered(Admit(s.phase.registry, q), q);
    var entered := SetThread(s, tid, th);
    OneStep(s, Accept(tid, q));
    ClaimAt(s, tid, th);
    var taken := SceneOf(s).(slots := s.rejectRunning + SlotNeeded(th.action));
    LeadsThrough(s, entered, At(s, tid, th.(pc := Preparing), taken));
  }

  lemma ClaimAt(s: State, tid: nat, th: Thread)
    requires s.phase.Serving? && th.pc.Entering? && SlotNeeded(th.action) !! s.rejectRunning
    ensures Leads(SetThread(s, tid, th),
                  At(s, tid, th.(pc := Preparing), SceneOf(s).(slots := s.rejectRunning + SlotNeeded(th.action))))
  {
    var entered := SetThread(s, tid, th);
    var claimed := ApplyClaim(entered, tid, th);
    assert th.action.policy == Reject ==> th.action.name in SlotNeeded(th.action);
    assert claimed.threads == s.threads[tid := th.(pc := Preparing)];
    assert claimed.rejectRunning == s.rejectRunning + SlotNeeded(th.action);
    OneStep(entered, Step(tid, Claim));
  }

  function InsertOutcomeOf(fault: CreateFault): InsertOutcome {
    match fault
    case NoFault => Stored
    case LostReply => StoredButUnread
    case _ => NotStored
  }

  /** After the insert the tables are as `createRun` leaves them, and the invocation stands as its result says. */
  lemma InsertAt(s: State, tid: nat, th: Thread, c: Scene, o: Observation)
    requires s.phase.Serving? && o.newId.Some? && th.pc == Inserting(o.newId.value, o.createdAt)
             && c.clock == o.createdAt
    ensures var created := Created(c.db, th.action, th.metadata, o);
            var after := th.(pc := if created.result.Success? then Launching(created.result.value) else Releasing);
            exists orphans :: Leads(At(s, tid, th, c), At(s, tid, after, c.(db := created.tables, orphans := orphans)))
  {
    var from, l := At(s, tid, th, c), Step(tid, Insert(InsertOutcomeOf(o.creation)));
    var created := Created(c.db, th.action, th.metadata, o);
    var after := th.(pc := if created.result.Success? then Launching(created.result.value) else Releasing);
    var next := Apply(from, l);
    assert next.threads == s.threads[tid := after];
    assert next == At(s, tid, after, c.(db := created.tables, orphans := next.orphans));
    OneStep(from, l);
  }

  lemma WriteAt(s: State, tid: nat, th: Thread, c: Scene, run: Run, o: Observation)
    requires s.phase.Serving? && th.pc == Writing(run, TerminalUpdate(run, o))
    ensures var after := th.(pc := Releasing, attempts := th.attempts + 1);
            exists orphans ::
              Leads(At(s, tid, th, c), At(s, tid, after, c.(db := Finished(c.db, run, o), orphans := orphans)))
  {
    var from, l := At(s, tid, th, c), Step(tid, Write(!o.updateFails));
    var after := th.(pc := Releasing, attempts := th.attempts + 1);
    var next := Apply(from, l);
    assert next.threads == s.threads[tid := after];
    assert next == At(s, tid, after, c.(db := Finished(c.db, run, o), orphans := next.orphans));
    OneStep(from, l);
  }

  /** What a finished invocation leaves: new tables, every slot as before, no invocation more. */
  predicate LeavesOnly(s: State, after: State, db: Tables) {
    && after.db == db && after.phase == s.phase
    && after.rejectRunning == s.rejectRunning && after.threads == s.threads
  }

  lemma ReleaseAt(s: State, tid: nat, th: Thread, c: Scene)
    requires s.phase.Serving? && tid !in s.threads && th.pc.Releasing?
    requires SlotNeeded(th.action) !! s.rejectRunning && c.slots == s.rejectRunning + SlotNeeded(th.action)
    ensures exists after :: Leads(At(s, tid, th, c), after) && LeavesOnly(s, after, c.db)
  {
    var from := At(s, tid, th, c);
    var next := Apply(from, Step(tid, Release));
    assert next.threads == s.threads;
    assert next.rejectRunning == s.rejectRunning;
    OneStep(from, Step(tid, Release));
  }

  /** From `from` the invocation can end so that only the tables have changed, to `db`. */
  ghost predicate Ends(s: State, from: State, db: Tables) {
    exists after :: Leads(from, after) && LeavesOnly(s, after, db)
  }

  lemma EndsThrough(s: State, from: State, middle: State, db: Tables)
    requires Leads(from, middle) && Ends(s, middle, db)
    ensures Ends(s, from, db)
  {
    var after :| Leads(middle, after) && LeavesOnly(s, after, db);
    LeadsThrough(from, middle, after);
  }

  /** The invocation is in its own scene: its slot is taken if it needs one, and was free in `s`. */
  predicate InScene(s: State, tid: nat, th: Thread, c: Scene) {
    && s.phase.Serving? && tid !in s.threads
    && SlotNeeded(th.action) !! s.rejectRunning && c.slots == s.rejectRunning + SlotNeeded(th.action)
  }

  lemma WriteEnds(s: State, tid: nat, th: Thread, c: Scene, run: Run, o: Observation)
    requires InScene(s, tid, th, c) && th.pc == Writing(run, TerminalUpdate(run, o))
    ensures Ends(s, At(s, tid, th, c), Finished(c.db, run, o))
  {
    WriteAt(s, tid, th, c, run, o);
    var after := th.(pc := Releasing, attempts := th.attempts + 1);
    var orphans :| Leads(At(s, tid, th, c), At(s, tid, after, c.(db := Finished(c.db, run, o), orphans := orphans)));
    var last := c.(db := Finished(c.db, run, o), orphans := orphans);
    ReleaseAt(s, tid, after, last);
    EndsThrough(s, At(s, tid, th, c), At(s, tid, after, last), last.db);
  }

  lemma ExecutionEnds(s: State, tid: nat, th: Thread, c: Scene, run: Run, o: Observation)
    requires InScene(s, tid, th, c) && ReadyToLaunch(th, run) && Possible(th.mode, th.action, o)
    ensures Ends(s, At(s, tid, th, c), Finished(c.db, run, o))
  {
    ExecutionAt(s, tid, th, c, run, o);
    var after: Thread :| after.pc == Writing(run, TerminalUpdate(run, o)) && after.action == th.action
                         && Leads(At(s, tid, th, c), At(s, tid, after, c.(clock := o.finishedAt)));
    WriteEnds(s, tid, after, c.(clock := o.finishedAt), run, o);
    EndsThrough(s, At(s, tid, th, c), At(s, tid, after, c.(clock := o.finishedAt)), Finished(c.db, run, o));
  }

  lemma InsertEnds(s: State, tid: nat, th: Thread, c: Scene, o: Observation)
    requires InScene(s, tid, th, c) && Possible(th.mode, th.action, o)
    requires th.runError.None? && th.execError.None? && th.process.Unstarted?
    requires o.newId.Some? && th.pc == Inserting(o.newId.value, o.createdAt) && c.clock == o.createdAt
    ensures Ends(s, At(s, tid, th, c), Invoked(c.db, th.action, th.metadata, o))
  {
    InsertAt(s, tid, th, c, o);
    var created := Created(c.db, th.action, th.metadata, o);
    var after := th.(pc := if created.result.Success? then Launching(created.result.value) else Releasing);
    var orphans :| Leads(At(s, tid, th, c), At(s, tid, after, c.(db := created.tables, orphans := orphans)));
    var next := c.(db := created.tables, orphans := orphans);
    if created.result.Success? {
      CreatedRunStoresAction(c.db, th.action, th.metadata, o);
      ExecutionEnds(s, tid, after, next, created.result.value, o);
    } else {
      ReleaseAt(s, tid, after, next);
    }
    EndsThrough(s, At(s, tid, th, c), At(s, tid, after, next), Invoked(c.db, th.action, th.metadata, o));
  }

  /** The run read back after its insert names the very action that was inserted. */
  lemma CreatedRunStoresAction(t: Tables, action: Action, metadata: Json, o: Observation)
    requires Created(t, action, metadata, o).result.Success?
    ensures StoredAction(Created(t, action, metadata, o).result.value) == action
  {
  }

  lemma PrepareEnds(s: State, tid: nat, th: Thread, c: Scene, o: Observation)
    requires InScene(s, tid, th, c) && Possible(th.mode, th.action, o) && th.pc.Preparing?
    requires th.runError.None? && th.execError.None? && th.process.Unstarted?
    requires o.newId.Some? ==> !IsBlank(o.newId.value)
    ensures Ends(s, At(s, tid, th, c), Invoked(c.db, th.action, th.metadata, o))
  {
    var after := Local(th, Prepare(o.newId), o.createdAt);
    var next := c.(clock := o.createdAt);
    TimedAt(s, tid, th, c, o.createdAt, Prepare(o.newId));
    if o.newId.Some? {
      InsertEnds(s, tid, after, next, o);
    } else {
      ReleaseAt(s, tid, after, next);
    }
    EndsThrough(s, At(s, tid, th, c), At(s, tid, after, next), Invoked(c.db, th.action, th.metadata, o));
  }

  /**
   `Service.Invoke` is sound for the transition system: what it does to the tables
   and slots, in the caller or with its background part run to the end, a run of
   the system from the same state does too.
   */
  lemma InvocationSimulated(s: State, tid: nat, q: Request, o: Observation)
    requires s.phase.Serving? && tid !in s.threads && Admit(s.phase.registry, q).Admitted?
    requires var admission := Admit(s.phase.registry, q);
             && !(admission.action.policy == Reject && admission.action.name in s.rejectRunning)
             && Possible(admission.mode, admission.action, o)
    requires o.newId.Some? ==> !IsBlank(o.newId.value)
    ensures Ends(s, s, Invoked(s.db, Admit(s.phase.registry, q).action, q.metadata, o))
  {
    var th := Entered(Admit(s.phase.registry, q), q).(pc := Preparing);
    var c := SceneOf(s).(slots := s.rejectRunning + SlotNeeded(th.action));
    EnterAt(s, tid, q);
    PrepareEnds(s, tid, th, c, o);
    EndsThrough(s, s, At(s, tid, th, c), Invoked(s.db, th.action, q.metadata, o));
  }

  /** What a synchronous call leaves, as its contract states it, a run of the transition system leaves too. */
  lemma SyncCallSimulated(s: State, tid: nat, q: Request, o: Observation)
    requires s.phase.Serving? && tid !in s.threads && Admit(s.phase.registry, q).Admitted?
    requires var admission := Admit(s.phase.registry, q);
             && !(admission.action.policy == Reject && admission.action.name in s.rejectRunning)
             && admission.mode == Sync && Possible(admission.mode, admission.action, o)
    requires o.newId.Some? ==> !IsBlank(o.newId.value)
    ensures Ends(s, s, Answered(s.db, Admit(s.phase.registry, q).action, Sync, q.metadata, o).tables)
  {
    AnsweredTables(s.db, Admit(s.phase.registry, q).action, q.metadata, o);
    InvocationSimulated(s, tid, q, o);
  }

  /** An asynchronous call has returned: its run is stored, its slot taken, its background about to launch. */
  ghost predicate Returned(s: State, after: State, tid: nat, action: Action, run: Run, db: Tables) {
    && after.db == db && after.phase == s.phase && after.rejectRunning == s.rejectRunning + SlotNeeded(action)
    && tid in after.threads && after.threads == s.threads[tid := after.threads[tid]]
    && ReadyToLaunch(after.threads[tid], run) && after.threads[tid].action == action
    && after.threads[tid].mode == Async
  }

  /** The state in which an asynchronous call returns is a state of the transition system. */
  lemma AsyncReturnSimulated(s: State, tid: nat, q: Request, o: Observation)
    requires s.phase.Serving? && tid !in s.threads && Admit(s.phase.registry, q).Admitted?
    requires var admission := Admit(s.phase.registry, q);
             && admission.mode == Async && Possible(admission.mode, admission.action, o)
             && SlotNeeded(admission.action) !! s.rejectRunning
    requires o.newId.Some? && !IsBlank(o.newId.value)
    requires Created(s.db, Admit(s.phase.registry, q).action, q.metadata, o).result.Success?
    ensures var action := Admit(s.phase.registry, q).action;
            var created := Created(s.db, action, q.metadata, o);
            exists after :: Leads(s, after) && Returned(s, after, tid, action, created.result.value, created.tables)
  {
    var th := Entered(Admit(s.phase.registry, q), q).(pc := Preparing);
    var c := SceneOf(s).(slots := s.rejectRunning + SlotNeeded(th.action));
    var created := Created(s.db, th.action, q.metadata, o);
    EnterAt(s, tid, q);
    var inserting, next := Local(th, Prepare(o.newId), o.createdAt), c.(clock := o.createdAt);
    TimedAt(s, tid, th, c, o.createdAt, Prepare(o.newId));
    LeadsThrough(s, At(s, tid, th, c), At(s, tid, inserting, next));
    InsertAt(s, tid, inserting, next, o);
    var launching := inserting.(pc := Launching(created.result.value));
    var orphans :| Leads(At(s, tid, inserting, next),
                         At(s, tid, launching, next.(db := created.tables, orphans := orphans)));
    var after := At(s, tid, launching, next.(db := created.tables, orphans := orphans));
    LeadsThrough(s, At(s, tid, inserting, next), after);
    CreatedRunStoresAction(s.db, th.action, q.metadata, o);
    assert Returned(s, after, tid, th.action, created.result.value, created.tables);
  }

  /** The background part, started from that state, ends with the finished tables and every slot as before the call. */
  lemma BackgroundSimulated(s: State, tid: nat, after: State, action: Action, run: Run, db: Tables, o: Observation)
    requires s.phase.Serving? && tid !in s.threads && SlotNeeded(action) !! s.rejectRunning
    requires Returned(s, after, tid, action, run, db) && Possible(Async, action, o)
    ensures Ends(s, after, Finished(db, run, o))
  {
    var c := SceneOf(after);
    assert after == At(s, tid, after.threads[tid], c);
    ExecutionEnds(s, tid, after.threads[tid], c, run, o);
  }

  /** A conflict changes nothing, in the service and in the transition system. */
  lemma ConflictSimulated(s: State, tid: nat, q: Request)
    requires s.phase.Serving? && tid !in s.threads && Admit(s.phase.registry, q).Admitted?
    requires var action := Admit(s.phase.registry, q).action;
             action.policy == Reject && action.name in s.rejectRunning
    ensures Ends(s, s, s.db)
  {
    var entered := SetThread(s, tid, Entered(Admit(s.phase.registry, q), q));
    var refused := Apply(entered, Step(tid, Claim));
    OneStep(s, Accept(tid, q));
    OneStep(entered, Step(tid, Claim));
    LeadsThrough(s, entered, refused);
    assert refused.threads == s.threads;
  }

  /** Recovery as the service runs it is a run of the booting system, each round at its own time. */
  lemma {:induction false} RecoverySimulated(s: State, n: nat, now: nat -> int)
    requires Inv(s) && s.phase.Recovering? && n <= |s.phase.pending| && forall i :: now(i) != ZERO_TIME
    ensures exists after :: Leads(s, after) && Inv(after) && after.db == Recovered(s.db, s.phase.pending, n, now)
                            && after.phase.Recovering? && after.phase.pending == s.phase.pending[n..]
                            && after.phase.config == s.phase.config
  {
    if n == 0 {
      assert Executes(s, []) && Final(s, []) == s;
      assert Leads(s, s) && s.phase.pending[0..] == s.phase.pending;
    } else {
      RecoverySimulated(s, n - 1, now);
      var before :| Leads(s, before) && Inv(before) && before.db == Recovered(s.db, s.phase.pending, n - 1, now)
                    && before.phase.Recovering? && before.phase.pending == s.phase.pending[n - 1..]
                    && before.phase.config == s.phase.config;
      var ticked := Apply(before, Tick(now(n - 1)));
      OneStep(before, Tick(now(n - 1)));
      StepKeeps(before, Tick(now(n - 1)));
      RoundSimulated(ticked);
      LeadsThrough(s, before, ticked);
      LeadsThrough(s, ticked, Apply(ticked, CancelNext(Cancels)));
    }
  }

  lemma RoundSimulated(s: State)
    requires Inv(s) && s.phase.Recovering? && s.phase.pending != []
    ensures var after := Apply(s, CancelNext(Cancels));
            && Leads(s, after) && Inv(after)
            && UpdateRun(s.db, Recovery(s.phase.pending[0], s.clock)) == Success(after.db)
            && after.phase.Recovering? && after.phase.pending == s.phase.pending[1..]
            && after.phase.config == s.phase.config
  {
    StepKeeps(s, CancelNext(Cancels));
    OneStep(s, CancelNext(Cancels));
    assert OwnedRow(s.db, map[], Some(s.phase.pending[0]));
    RecoveryAccepted(s.db, s.phase.pending[0], s.clock);
  }
}
