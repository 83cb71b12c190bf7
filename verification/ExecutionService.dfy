/** The execution service: slots, invocations, recovery. */
module ExecutionService {
  import opened Prelude
  import opened Text
  import opened Records
  import opened Queries
  import opened Listings
  import opened Repository
  import opened TailBuffer
  import opened Loading
  import opened Execution
  import opened Lifecycle
  import opened Invocation

  /** The chunks in which a process's two streams are copied. */
  datatype Output = Output(stdout: seq<Bytes>, stderr: seq<Bytes>)

  predicate Copied(o: Observation, output: Output) {
    !o.ending.NeverStarts? ==>
      Flatten(output.stdout) == o.ending.exit.stdout && Flatten(output.stderr) == o.ending.exit.stderr
  }

  class Service {
    const store: Store
    const registry: Registry
    var rejectRunning: map<string, bool>

    /** The actions whose slot is taken. */
    ghost function Slots(): set<string>
      reads this
    {
      set name | name in rejectRunning && rejectRunning[name]
    }

    constructor (store: Store, registry: Registry)
      ensures this.store == store && this.registry == registry && Slots() == {}
    {
      this.store, this.registry := store, registry;
      rejectRunning := map[];
    }

    // ---- slots ----

    method BeginRejectAction(name: string) returns (claimed: bool)
      modifies this`rejectRunning
      ensures claimed == (name !in old(Slots()))
      ensures Slots() == old(Slots()) + {name}
    {
      if name in rejectRunning && rejectRunning[name] { return false; }
      rejectRunning := rejectRunning[name := true];
      return true;
    }

    method FinishRejectAction(name: string)
      modifies this`rejectRunning
      ensures Slots() == old(Slots()) - {name}
    {
      rejectRunning := rejectRunning - {name};
    }

    // ---- runs ----

    method CreateRun(action: Action, metadata: Json, o: Observation) returns (result: Result<Run, InvokeFailure>)
      requires store.Valid()
      modifies store
      ensures store.Valid()
      ensures Answer(store.Contents(), result) == Created(old(store.Contents()), action, metadata, o)
    {
      if o.newId.None? { return Failure(NoRunId); }
      var p := CreationParams(action, metadata, o.newId.value, o.createdAt);
      var created := store.CreateRun(p, o.createdAt, o.creation);
      match created
      case Success(run) => return Success(run);
      case Failure(cause) => return Failure(NotCreated(cause));
    }

    /** One update, and a read of the updated row that does not matter to the tables. */
    method FinishRun(p: UpdateRunParams, updateFails: bool, unread: bool) returns (result: Result<Run, InvokeFailure>)
      requires store.Valid()
      modifies store
      ensures store.Valid()
      ensures Answer(store.Contents(), result) == FinishedRun(old(store.Contents()), p, updateFails, unread)
    {
      var failed := store.UpdateRun(p, updateFails);
      if failed.Some? { return Failure(NotFinished(failed.value)); }
      var updated := store.ReadRun(p.id, unread);
      match updated
      case Success(run) => return Success(run);
      case Failure(cause) => return Failure(NotFinished(cause));
    }

    // ---- execution ----

    /** Starts the process, races its exit against timer and client, and records the outcome. */
    method Execute(run: Run, action: Action, o: Observation, output: Output)
      returns (result: Result<Run, InvokeFailure>)
      requires store.Valid() && action == StoredAction(run)
      requires Copied(o, output)
      modifies store
      ensures store.Valid()
      ensures Answer(store.Contents(), result) == Executed(old(store.Contents()), run, o)
    {
      if !CommandBuilds(action) {
        result := FinishRun(NotStarted(run, CommandInvalid, o.finishedAt), o.updateFails, o.unread);
        return;
      }
      if o.ending.NeverStarts? {
        result := FinishRun(NotStarted(run, StartFailed, o.finishedAt), o.updateFails, o.unread);
        return;
      }
      var exit := o.ending.exit;
      var stdoutTail, stderrTail := CaptureBoth(output, action.maxOutputBytes);
      if !o.ending.Killed? || !exit.waitFailed || exit.exitCode.Some? {
        result := FinishCompletion(run, action.maxOutputBytes, exit, stdoutTail, stderrTail, o);
        return;
      }
      result := FinishInterrupted(run, action, exit, o.ending.killFailed, stdoutTail, stderrTail, o);
    }

    /** The two tail buffers of one execution. */
    static method CaptureBoth(output: Output, limit: int) returns (stdoutTail: Bytes, stderrTail: Bytes)
      ensures stdoutTail == Tail(Flatten(output.stdout), limit)
      ensures stderrTail == Tail(Flatten(output.stderr), limit)
    {
      stdoutTail := Capture(output.stdout, limit);
      stderrTail := Capture(output.stderr, limit);
    }

    /** The last part of `execute`: the process was killed and left no exit code. */
    method FinishInterrupted(run: Run, action: Action, exit: Exit, killFailed: bool, stdoutTail: Bytes,
                             stderrTail: Bytes, o: Observation)
      returns (result: Result<Run, InvokeFailure>)
      requires store.Valid()
      requires stdoutTail == Tail(exit.stdout, action.maxOutputBytes)
      requires stderrTail == Tail(exit.stderr, action.maxOutputBytes)
      modifies store
      ensures store.Valid()
      ensures var p := Interruption(run, action.maxOutputBytes, action.timeout, exit,
                                    o.execError, o.runError, killFailed, o.finishedAt);
              var answer := FinishedRun(old(store.Contents()), p, o.updateFails, o.unread);
              && store.Contents() == answer.tables
              && result == if answer.result.Success? && killFailed then Failure(KillFailed) else answer.result
    {
      var verdict := InterruptedStatus(o.execError, o.runError, action.timeout);
      var summary := verdict.summary;
      if killFailed { summary := WithKillFailure(summary); }
      var p := Finish(run, verdict.status, None, o.finishedAt, stdoutTail, stderrTail, summary);
      result := FinishRun(p, o.updateFails, o.unread);
      if result.Success? && killFailed { return Failure(KillFailed); }
    }

    method FinishCompletion(run: Run, limit: int, exit: Exit, stdoutTail: Bytes, stderrTail: Bytes, o: Observation)
      returns (result: Result<Run, InvokeFailure>)
      requires store.Valid() && stdoutTail == Tail(exit.stdout, limit) && stderrTail == Tail(exit.stderr, limit)
      modifies store
      ensures store.Valid()
      ensures Answer(store.Contents(), result) ==
              FinishedRun(old(store.Contents()), Completion(run, limit, exit, o.finishedAt), o.updateFails, o.unread)
    {
      var status, summary := Succeeded, NoSummary;
      if exit.waitFailed {
        status := Failed;
        summary := if exit.exitCode.Some? then ExitedWithCode(exit.exitCode.value) else WaitFailed;
      }
      var p := Finish(run, status, exit.exitCode, o.finishedAt, stdoutTail, stderrTail, summary);
      result := FinishRun(p, o.updateFails, o.unread);
    }

    // ---- invocation ----

    /** `startAsyncInvocation`: what the background does after the caller has been answered. */
    method FinishInBackground(run: Run, o: Observation, slot: Option<string>, output: Output)
      requires store.Valid()
      requires Copied(o, output)
      modifies store, this`rejectRunning
      ensures store.Valid()
      ensures store.Contents() == Finished(old(store.Contents()), run, o)
      ensures Slots() == (if slot.Some? then old(Slots()) - {slot.value} else old(Slots()))
    {
      var dropped := Execute(run, StoredAction(run), o, output);
      if slot.Some? { FinishRejectAction(slot.value); }
    }

    method InvokeAllow(action: Action, mode: InvokeMode, metadata: Json, o: Observation, output: Output)
      returns (result: Result<Run, InvokeFailure>)
      requires store.Valid() && Copied(o, output)
      modifies store
      ensures store.Valid()
      ensures Answer(store.Contents(), result) == Answered(old(store.Contents()), action, mode, metadata, o)
    {
      result := CreateRun(action, metadata, o);
      if result.Failure? || mode == Async { return; }
      result := Execute(result.value, StoredAction(result.value), o, output);
    }

    /** Claims the slot first; every path gives back exactly what it claimed, the asynchronous one in the background. */
    method InvokeReject(action: Action, mode: InvokeMode, metadata: Json, o: Observation, output: Output)
      returns (result: Result<Run, InvokeFailure>)
      requires store.Valid() && Copied(o, output)
      modifies store, this`rejectRunning
      ensures store.Valid()
      ensures if action.name in old(Slots())
              then Answer(store.Contents(), result) == Answer(old(store.Contents()), Failure(Conflict))
              else Answer(store.Contents(), result) == Answered(old(store.Contents()), action, mode, metadata, o)
      ensures Slots() == if action.name !in old(Slots()) && mode == Async && result.Success?
                         then old(Slots()) + {action.name} else old(Slots())
    {
      var claimed := BeginRejectAction(action.name);
      if !claimed { return Failure(Conflict); }
      result := CreateRun(action, metadata, o);
      if result.Failure? {
        FinishRejectAction(action.name);
        return;
      }
      if mode == Async { return; }
      result := Execute(result.value, StoredAction(result.value), o, output);
      FinishRejectAction(action.name);
    }

    /** Admission, then the action's concurrency policy decides. */
    method Invoke(q: Request, o: Observation, output: Output) returns (result: Result<Run, InvokeFailure>)
      requires store.Valid() && Copied(o, output)
      modifies store, this`rejectRunning
      ensures store.Valid()
      ensures var admission := Admit(registry, q);
              Answer(store.Contents(), result) ==
                if admission.Refused? then Answer(old(store.Contents()), Failure(NotAdmitted(admission.error)))
                else if admission.action.policy == Reject && admission.action.name in old(Slots())
                then Answer(old(store.Contents()), Failure(Conflict))
                else Answered(old(store.Contents()), admission.action, admission.mode, q.metadata, o)
      ensures var admission := Admit(registry, q);
              var kept := admission.Admitted? && admission.mode == Async && admission.action.policy == Reject
                          && result.Success?;
              Slots() == if kept then old(Slots()) + {admission.action.name} else old(Slots())
    {
      var name := TrimSpace(q.actionName);
      if name == "" { return Failure(NotAdmitted(NameRequired)); }
      if name !in registry.byName { return Failure(NotAdmitted(ActionNotFound)); }
      var action := registry.byName[name];
      if !action.enabled { return Failure(NotAdmitted(ActionDisabled)); }
      if q.input.Malformed? || q.metadata.Malformed? { return Failure(NotAdmitted(InvalidPayload)); }
      var mode := ModeOf(q.mode);
      if mode.None? { return Failure(NotAdmitted(InvalidMode)); }
      match action.policy
      case Allow => result := InvokeAllow(action, mode.value, q.metadata, o, output);
      case Reject => result := InvokeReject(action, mode.value, q.metadata, o, output);
      case OtherPolicy(_) => return Failure(NotAdmitted(UnsupportedPolicy));
    }

    // ---- recovery ----

    method ListInterrupted(listFails: bool) returns (listed: Result<seq<Run>, StoreError>)
      requires store.Valid()
      ensures listed ==
              if listFails then Failure(DatabaseError) else Success(Select(store.Contents(), ByStatus(Running)))
    {
      RunningFilter(store.Contents());
      listed := store.ListRuns(RunFilter("", "running"), listFails);
    }

    /** Cancels the interrupted runs one by one and stops at the first failure. */
    method CancelInterruptedRuns(w: RecoveryWorld) returns (failure: Option<InvokeFailure>)
      requires store.Valid()
      modifies store
      ensures store.Valid()
      ensures w.listFails ==>
                failure == Some(NotFinished(DatabaseError)) && store.Contents() == old(store.Contents())
      ensures !w.listFails ==>
                var pending := Select(old(store.Contents()), ByStatus(Running));
                var n := FirstFailure(old(store.Contents()), pending, 0, w);
                && store.Contents() == RecoveredUntil(old(store.Contents()), pending, w)
                && failure == if n == |pending| then None
                              else Some(Round(old(store.Contents()), pending, n, w).result.error)
    {
      ghost var start := store.Contents();
      var listed := ListInterrupted(w.listFails);
      if listed.Failure? { return Some(NotFinished(listed.error)); }
      var runs := listed.value;
      for i := 0 to |runs|
        invariant store.Valid() && store.Contents() == Recovered(start, runs, i, w.now)
        invariant FirstFailure(start, runs, 0, w) == FirstFailure(start, runs, i, w)
      {
        failure := CancelRun(runs, i, w, start);
        if failure.Some? { return; }
      }
      return None;
    }

    /** One round: on success the tables have advanced by this run. */
    method CancelRun(runs: seq<Run>, i: nat, w: RecoveryWorld, ghost start: Tables)
      returns (failure: Option<InvokeFailure>)
      requires store.Valid() && i < |runs| && store.Contents() == Recovered(start, runs, i, w.now)
      modifies store
      ensures store.Valid()
      ensures var round := Round(start, runs, i, w);
              && store.Contents() == round.tables
              && failure == (if round.result.Failure? then Some(round.result.error) else None)
              && (failure.None? ==> store.Contents() == Recovered(start, runs, i + 1, w.now))
    {
      var finished := FinishRun(Recovery(runs[i], w.now(i)), w.fails(i), w.unread(i));
      match finished
      case Success(_) => return None;
      case Failure(error) => return Some(error);
    }
  }
}
