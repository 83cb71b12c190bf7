/** Who owns a running row, who holds a slot, and what a live invocation can rely on. */
module Ownership {
  import opened Prelude
  import opened Text
  import opened Records
  import opened Queries
  import opened Listings
  import opened Config
  import opened Environment
  import opened Loading
  import opened Lifecycle
  import opened Invariant
  import opened Preservation
  import opened Booting

  // ---- running rows ----

  /** A running row is owned by exactly one live invocation, or it is an orphan and owned by none. */
  lemma RunningRowsAreOwned(s: State, id: Id)
    requires Reachable(s) && s.phase.Serving?
    requires id in s.db.runs && s.db.runs[id].status == Running
    ensures (exists t :: Owns(s, t, id)) <==> id !in s.orphans
    ensures forall t, u :: Owns(s, t, id) && Owns(s, u, id) ==> t == u
  {
    ReachableInv(s);
    assert RunningOk(s, id);
    forall t | Owns(s, t, id) ensures id !in s.orphans { assert ThreadOk(s, t, s.phase.registry); }
  }

  lemma OrphansAreRunning(s: State, id: Id)
    requires Reachable(s) && id in s.orphans
    ensures s.phase.Serving? && id in s.db.runs && s.db.runs[id].status == Running
    ensures forall t :: !Owns(s, t, id)
  {
    ReachableInv(s);
    assert RunningOk(s, id);
    forall t ensures !Owns(s, t, id) { assert ThreadOk(s, t, s.phase.registry); }
  }

  /** The step that orphans `id`: its invocation's update failed, or its insert was stored but not read back. */
  predicate Orphans(s: State, l: Label, id: Id, fault: Fault) {
    && l.Step? && l.tid in s.threads
    && match fault
       case FailedUpdate =>
         l.event == Write(false) && s.threads[l.tid].pc.Writing? && s.threads[l.tid].pc.run.id == id
       case LostCreate =>
         l.event == Insert(StoredButUnread) && s.threads[l.tid].pc.Inserting? && s.threads[l.tid].pc.id == id
         && id !in s.db.runs
  }

  lemma OrphanedByEvent(s: State, tid: nat, e: Event, id: Id)
    requires tid in s.threads && EventEnabled(s.threads[tid], e)
    requires id in ApplyEvent(s, tid, s.threads[tid], e).orphans
    ensures var fault := ApplyEvent(s, tid, s.threads[tid], e).orphans[id];
            (id in s.orphans && s.orphans[id] == fault) || Orphans(s, Step(tid, e), id, fault)
  {
  }

  lemma OrphanedByFault(s: State, l: Label, id: Id)
    requires Enabled(s, l) && id in Apply(s, l).orphans
    ensures (id in s.orphans && s.orphans[id] == Apply(s, l).orphans[id]) || Orphans(s, l, id, Apply(s, l).orphans[id])
  {
    if l.Step? { OrphanedByEvent(s, l.tid, l.event, id); }
  }

  /** Every orphan was made by one of the two faults: by which, and at which step of the run. */
  lemma {:induction false} OrphansComeFromFaults(s: State, labels: seq<Label>, id: Id)
    requires Executes(s, labels) && id in Final(s, labels).orphans
    ensures var fault := Final(s, labels).orphans[id];
            (id in s.orphans && s.orphans[id] == fault)
            || exists k :: 0 <= k < |labels| && Orphans(Final(s, labels[..k]), labels[k], id, fault)
    decreases |labels|
  {
    if labels != [] {
      var after, rest := Apply(s, labels[0]), labels[1..];
      var fault := Final(s, labels).orphans[id];
      OrphansComeFromFaults(after, rest, id);
      if id in after.orphans && after.orphans[id] == fault {
        OrphanedByFault(s, labels[0], id);
        assert labels[..0] == [];
      } else {
        var k :| 0 <= k < |rest| && Orphans(Final(after, rest[..k]), rest[k], id, fault);
        assert labels[..k + 1][1..] == rest[..k];
        assert Orphans(Final(s, labels[..k + 1]), labels[k + 1], id, fault);
      }
    }
  }

  /** `s` is reached from an empty database without any of the two faults. */
  ghost predicate ReachableWithoutFaults(s: State) {
    exists init, labels ::
      Initial(init) && Executes(init, labels) && (forall l :: l in labels ==> !Faulty(l)) && Final(init, labels) == s
  }

  lemma OrphanHasFault(init: State, labels: seq<Label>, id: Id)
    requires Initial(init) && Executes(init, labels) && id in Final(init, labels).orphans
    ensures exists l :: l in labels && Faulty(l)
  {
    OrphansComeFromFaults(init, labels, id);
    var k :| 0 <= k < |labels| && Orphans(Final(init, labels[..k]), labels[k], id, Final(init, labels).orphans[id]);
    assert labels[k] in labels;
  }

  lemma NoFaultsNoOrphans(s: State)
    requires ReachableWithoutFaults(s)
    ensures Reachable(s) && s.orphans == map[]
  {
    var init, labels :| Initial(init) && Executes(init, labels) && (forall l :: l in labels ==> !Faulty(l))
                        && Final(init, labels) == s;
    forall id | id in s.orphans ensures false { OrphanHasFault(init, labels, id); }
  }

  /** Two running rows of a reject action: one of them has been orphaned. */
  lemma RejectRunsOnce(s: State, a: Id, b: Id)
    requires Reachable(s) && s.phase.Serving? && a != b
    requires a in s.db.runs && s.db.runs[a].status == Running
    requires b in s.db.runs && s.db.runs[b].status == Running
    requires s.db.runs[a].actionName == s.db.runs[b].actionName
    requires var name := s.db.runs[a].actionName;
             name in s.phase.registry.byName && s.phase.registry.byName[name].policy == Reject
    ensures a in s.orphans || b in s.orphans
  {
    RunningRowsAreOwned(s, a);
    RunningRowsAreOwned(s, b);
    ReachableInv(s);
    if a !in s.orphans && b !in s.orphans {
      var t :| Owns(s, t, a);
      var u :| Owns(s, u, b);
      assert ThreadOk(s, t, s.phase.registry) && ThreadOk(s, u, s.phase.registry);
      var name := s.db.runs[a].actionName;
      assert Holds(s, t, name) && Holds(s, u, name);
      assert false;
    }
  }

  /** Without faults a reject action has at most one running row. */
  lemma FaultFreeRejectRunsOnce(s: State, a: Id, b: Id)
    requires ReachableWithoutFaults(s) && s.phase.Serving?
    requires a in s.db.runs && s.db.runs[a].status == Running
    requires b in s.db.runs && s.db.runs[b].status == Running
    requires s.db.runs[a].actionName == s.db.runs[b].actionName
    requires var name := s.db.runs[a].actionName;
             name in s.phase.registry.byName && s.phase.registry.byName[name].policy == Reject
    ensures a == b
  {
    NoFaultsNoOrphans(s);
    if a != b { RejectRunsOnce(s, a, b); }
  }

  // ---- slots ----

  /** A slot is taken exactly while one live invocation of that action holds it. */
  lemma SlotTakenIffHeld(s: State, name: string)
    requires Reachable(s)
    ensures name in s.rejectRunning <==> exists t :: Holds(s, t, name)
    ensures forall t, u :: Holds(s, t, name) && Holds(s, u, name) ==> t == u
  {
    ReachableInv(s);
    if s.phase.Serving? { assert SlotOk(s, name); }
  }

  lemma NoInvocationsNoSlots(s: State)
    requires Reachable(s) && s.threads == map[]
    ensures s.rejectRunning == {}
  {
    forall name | name in s.rejectRunning ensures false {
      SlotTakenIffHeld(s, name);
    }
  }

  /** Only the holder gives a slot back, by its own release; otherwise the whole process is gone. */
  lemma OnlyHolderReleases(s: State, l: Label, name: string)
    requires Reachable(s) && Enabled(s, l)
    requires name in s.rejectRunning && name !in Apply(s, l).rejectRunning
    ensures l.Crash? || (l.Step? && l.event == Release && Holds(s, l.tid, name) && l.tid !in Apply(s, l).threads)
  {
    ReachableInv(s);
  }

  /** A slot is taken only by a claim, by the invocation that then holds it, and only when it was free. */
  lemma OnlyClaimTakes(s: State, l: Label, name: string)
    requires Reachable(s) && Enabled(s, l)
    requires name !in s.rejectRunning && name in Apply(s, l).rejectRunning
    ensures l.Step? && l.event == Claim && Holds(Apply(s, l), l.tid, name)
    ensures forall t :: !Holds(s, t, name)
  {
    ReachableInv(s);
    assert SlotOk(s, name);
  }

  /** An invocation that meets a taken slot ends without a run and without touching the tables or the slots. */
  lemma ConflictLeavesNoTrace(s: State, tid: nat)
    requires Reachable(s) && Enabled(s, Step(tid, Claim))
    requires s.threads[tid].action.policy == Reject && s.threads[tid].action.name in s.rejectRunning
    ensures var after := Apply(s, Step(tid, Claim));
            && after.db == s.db && after.rejectRunning == s.rejectRunning && after.orphans == s.orphans
            && after.threads == s.threads - {tid}
            && exists u :: u != tid && Holds(s, u, s.threads[tid].action.name)
  {
    SlotTakenIffHeld(s, s.threads[tid].action.name);
    var u :| Holds(s, u, s.threads[tid].action.name);
    assert u != tid;
  }

  /** Two processes of one reject action are never alive together, faults or not. */
  lemma RejectProcessesExclude(s: State, t: nat, u: nat)
    requires Reachable(s) && t in s.threads && u in s.threads
    requires s.threads[t].process.Alive? && s.threads[u].process.Alive?
    requires s.threads[t].action.policy == Reject && s.threads[t].action.name == s.threads[u].action.name
    ensures t == u
  {
    ReachableInv(s);
    assert ThreadOk(s, t, s.phase.registry) && ThreadOk(s, u, s.phase.registry);
    assert Holds(s, t, s.threads[t].action.name) && Holds(s, u, s.threads[t].action.name);
  }

  // ---- what a live invocation relies on ----

  /** No retention and no other invocation takes a live run away: its row is as it was read, still running. */
  lemma LiveRunStaysStored(s: State, tid: nat)
    requires Reachable(s) && RunOf(s, tid).Some?
    ensures var run := RunOf(s, tid).value;
            && run.id in View(s.db) && View(s.db)[run.id] == run && run.row.status == Running
            && StoredAction(run) == s.threads[tid].action
  {
    ReachableInv(s);
    assert ThreadOk(s, tid, s.phase.registry);
  }

  /** The terminal update of a live run is never refused: not as invalid, and not for a missing row. */
  lemma TerminalUpdateAccepted(s: State, tid: nat)
    requires Reachable(s) && tid in s.threads && s.threads[tid].pc.Writing?
    ensures UpdateRun(s.db, s.threads[tid].pc.update).Success?
  {
    ReachableInv(s);
    assert ThreadOk(s, tid, s.phase.registry);
    UpdateAccepted(s.db, s.orphans, s.threads[tid], s.phase.registry);
  }

  /** An insert is refused only when the random id is already taken. */
  lemma InsertRefusedIffTaken(s: State, tid: nat)
    requires Reachable(s) && tid in s.threads && s.threads[tid].pc.Inserting?
    ensures var th := s.threads[tid];
            var p := CreationParams(th.action, th.metadata, th.pc.id, th.pc.createdAt);
            CreateRun(s.db, p, s.clock).Success? <==> th.pc.id !in s.db.runs
  {
    ReachableInv(s);
    assert ThreadOk(s, tid, s.phase.registry);
    CreationAccepted(s.threads[tid], s.phase.registry);
  }

  /** The command of a stored action can always be built. */
  lemma LaunchAlwaysBuilds(s: State, tid: nat)
    requires Reachable(s) && tid in s.threads && s.threads[tid].pc.Launching?
    ensures CommandBuilds(StoredAction(s.threads[tid].pc.run))
  {
    ReachableInv(s);
    assert ThreadOk(s, tid, s.phase.registry);
  }

  /** Every stored row of the service has a consistent outcome. */
  lemma EveryRowConsistent(s: State, id: Id)
    requires Reachable(s) && id in s.db.runs
    ensures id in s.db.snapshots && RowConsistent(s.db.runs[id], s.db.snapshots[id])
  {
    ReachableInv(s);
    assert RowOk(s.db, id);
  }

  /** Whatever the service stores can be listed: by its action, by its status, and by both. */
  lemma EveryRunIsListed(s: State, id: Id)
    requires Reachable(s) && id in s.db.runs
    ensures var name, status := s.db.runs[id].actionName, StatusText(s.db.runs[id].status);
            Finds(s.db, RunFilter(name, ""), id) && Finds(s.db, RunFilter("", status), id)
            && Finds(s.db, RunFilter(name, status), id)
  {
    ReachableInv(s);
    assert RowOk(s.db, id);
    var row := s.db.runs[id];
    StatusTextTrimmed(row.status);
    assert View(s.db)[id] == Run(id, row, s.db.snapshots[id]);
    FindsIff(s.db, RunFilter(row.actionName, ""), id);
    FindsIff(s.db, RunFilter("", StatusText(row.status)), id);
    FindsIff(s.db, RunFilter(row.actionName, StatusText(row.status)), id);
  }

  lemma RunnableRegistryAdmits(registry: Registry, q: Request)
    requires RegistryRunnable(registry)
    ensures Admit(registry, q) != Refused(UnsupportedPolicy)
    ensures var name := TrimSpace(q.actionName);
            Admit(registry, q).Admitted? ==>
              name in registry.byName && Admit(registry, q).action == registry.byName[name]
              && name in registry.byName && registry.byName[name].enabled
  {
    var name := TrimSpace(q.actionName);
    if name in registry.byName { assert Runnable(registry.byName[name], name); }
  }

  /** A service over an accepted configuration never meets an unsupported policy and runs only enabled actions. */
  lemma AcceptedConfigAdmits(f: FileConfig, parseDuration: string -> Option<int>, tokenFormat: string -> bool,
                             q: Request)
    requires WellFormed(Normalized(f, parseDuration), tokenFormat)
    ensures var actions := Normalized(f, parseDuration).actions;
            var admission := Admit(Registered(actions, |actions|), q);
            && admission != Refused(UnsupportedPolicy)
            && (admission.Admitted? ==> admission.action in actions && admission.action.enabled)
  {
    AcceptedActionsRun(f, parseDuration, tokenFormat);
    var actions := Normalized(f, parseDuration).actions;
    RegisteredAdmits(Registered(actions, |actions|), actions, q);
  }

  lemma RegisteredAdmits(registry: Registry, actions: seq<Action>, q: Request)
    requires RegistryRunnable(registry) && Registers(registry, actions, |actions|)
    ensures var admission := Admit(registry, q);
            && admission != Refused(UnsupportedPolicy)
            && (admission.Admitted? ==> admission.action in actions && admission.action.enabled)
  {
    RunnableRegistryAdmits(registry, q);
    assert actions[..|actions|] == actions;
  }

  /**
   The environment list of every accepted action is in strictly increasing order of
   names and reads back as the variables it was built from: the service's own three,
   the other configured ones, and the default path unless one is configured or given.
   */
  lemma AcceptedEnvironmentReadsBack(f: FileConfig, parseDuration: string -> Option<int>, tokenFormat: string -> bool,
                                     a: Action, path: Option<string>, runId: string, requestId: string)
    requires WellFormed(Normalized(f, parseDuration), tokenFormat) && a in Normalized(f, parseDuration).actions
    ensures var env := Variables(path, a.env, runId, a.name, requestId);
            var entries := Entries(env, SortedKeys(env.Keys));
            && Parse(entries) == env
            && Layered(Parse(entries), path, a.env, runId, a.name, requestId)
            && forall i, j | 0 <= i < j < |entries| :: Less(EntryName(entries[i]), EntryName(entries[j]))
  {
    assert EnvWellFormed(a.env);
    EnvironmentRoundTrip(path, a.env, runId, a.name, requestId);
    EnvironmentSeen(path, a.env, runId, a.name, requestId);
  }
}
