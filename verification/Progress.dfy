/** Every invocation whose process is gone finishes in a bounded number of its own steps. */
module Progress {
  import opened Prelude
  import opened Records
  import opened Lifecycle
  import opened Invariant
  import opened Preservation
  import opened Booting

  const LONGEST := 9

  function PcRank(pc: Pc): nat {
    match pc
    case Entering => LONGEST
    case Preparing => 8
    case Inserting(_, _) => 7
    case Launching(_) => 6
    case Waiting(_) => 5
    case Interrupted(_) => 4
    case Draining(_, _) => 3
    case Writing(_, _) => 2
    case Releasing => 1
  }

  /** A bound on the steps that invocation `tid` still has to take. */
  function Rank(s: State, tid: nat): nat {
    if tid in s.threads then PcRank(s.threads[tid].pc) else 0
  }

  /** A step that the invocation itself takes. */
  predicate OwnStep(l: Label, tid: nat) {
    l.Step? && l.tid == tid && Own(l.event)
  }

  /** The invocation is blocked in a channel receive on a process that is still alive. */
  predicate Blocked(th: Thread) {
    th.process.Alive? && ((th.pc.Waiting? && th.execError.None?) || th.pc.Draining?)
  }

  lemma OwnStepDecreases(s: State, tid: nat, e: Event)
    requires tid in s.threads && Own(e) && EventEnabled(s.threads[tid], e)
    ensures Rank(ApplyEvent(s, tid, s.threads[tid], e), tid) < Rank(s, tid)
  {
  }

  /** Nothing that others do, and nothing that the client, the timer or the process does, adds work. */
  lemma OtherStepKeepsRank(s: State, l: Label, tid: nat)
    requires Enabled(s, l) && !OwnStep(l, tid) && !(l.Accept? && l.tid == tid)
    ensures Rank(Apply(s, l), tid) <= Rank(s, tid)
  {
  }

  lemma CanGoOn(s: State, tid: nat)
    requires s.phase.Serving? && tid in s.threads && PcInv(s.threads[tid]) && !Blocked(s.threads[tid])
    ensures exists e :: Own(e) && Enabled(s, Step(tid, e))
  {
    var e := NextOwn(s.threads[tid]);
    assert Own(e) && Enabled(s, Step(tid, e));
  }

  /** An invocation can take a step of its own exactly when it is not blocked on a live process. */
  lemma StepsUnlessBlocked(s: State, tid: nat)
    requires Reachable(s) && tid in s.threads
    ensures (exists e :: Own(e) && Enabled(s, Step(tid, e))) <==> !Blocked(s.threads[tid])
  {
    ReachableInv(s);
    var th := s.threads[tid];
    assert ThreadOk(s, tid, s.phase.registry);
    if !Blocked(th) { CanGoOn(s, tid); }
  }

  /** A step that an invocation which is not blocked can take. */
  function NextOwn(th: Thread): Event {
    match th.pc
    case Entering => Claim
    case Preparing => Prepare(None)
    case Inserting(_, _) => Insert(NotStored)
    case Launching(_) => Launch(false)
    case Waiting(_) => if th.process.Ended? then TakeExit else SeeDone
    case Interrupted(_) => if th.process.Ended? then TakeExit else Kill(false)
    case Draining(_, _) => Reap
    case Writing(_, _) => Write(true)
    case Releasing => Release
  }

  function OwnSteps(labels: seq<Label>, tid: nat): nat
    decreases |labels|
  {
    if labels == [] then 0 else (if OwnStep(labels[0], tid) then 1 else 0) + OwnSteps(labels[1..], tid)
  }

  /** In any interleaving, with crashes and restarts, an invocation takes no more of its own steps than its rank. */
  lemma {:induction false} OwnStepsBounded(s: State, labels: seq<Label>, tid: nat)
    requires Executes(s, labels) && forall q :: Accept(tid, q) !in labels
    ensures OwnSteps(labels, tid) + Rank(Final(s, labels), tid) <= Rank(s, tid)
    decreases |labels|
  {
    if labels != [] {
      var l := labels[0];
      if OwnStep(l, tid) {
        OwnStepDecreases(s, tid, l.event);
      } else {
        assert l.Accept? ==> l in labels;
        OtherStepKeepsRank(s, l, tid);
      }
      OwnStepsBounded(Apply(s, l), labels[1..], tid);
    }
  }

  // ---- the terminal write ----

  function Attempts(labels: seq<Label>, tid: nat): nat
    decreases |labels|
  {
    if labels == [] then 0
    else
      var attempted := labels[0].Step? && labels[0].tid == tid && labels[0].event.Write?;
      (if attempted then 1 else 0) + Attempts(labels[1..], tid)
  }

  /** How many terminal writes `tid` still owes: one while it owns a run. */
  function Owed(s: State, tid: nat): nat {
    if RunOf(s, tid).Some? then 1 else 0
  }

  lemma OwedAfterEvent(s: State, tid: nat, e: Event)
    requires tid in s.threads && EventEnabled(s.threads[tid], e)
    requires RunOf(s, tid).Some? || s.threads[tid].pc.Releasing?
    ensures var after := ApplyEvent(s, tid, s.threads[tid], e);
            && Owed(after, tid) == (if e.Write? then 0 else Owed(s, tid))
            && (tid in after.threads && RunOf(after, tid).None? ==> after.threads[tid].pc.Releasing?)
            && (e.Write? ==> RunOf(s, tid).Some?)
  {
  }

  lemma OwedAfterOther(s: State, l: Label, tid: nat)
    requires Enabled(s, l) && s.phase.Serving? && !l.Crash?
    requires !(l.Step? && l.tid == tid) && !(l.Accept? && l.tid == tid)
    ensures (tid in Apply(s, l).threads <==> tid in s.threads)
    ensures tid in s.threads ==> Apply(s, l).threads[tid] == s.threads[tid]
    ensures Apply(s, l).phase == s.phase
  {
  }

  lemma ServingStays(s: State, tid: nat, e: Event)
    requires tid in s.threads
    ensures ApplyEvent(s, tid, s.threads[tid], e).phase == s.phase
  {
  }

  /** An invocation that owns a run attempts its terminal write exactly once before it ends, in every interleaving. */
  lemma {:induction false} ExactlyOneAttempt(s: State, labels: seq<Label>, tid: nat)
    requires s.phase.Serving? && Executes(s, labels)
    requires Crash !in labels && forall q :: Accept(tid, q) !in labels
    requires tid in s.threads ==> RunOf(s, tid).Some? || s.threads[tid].pc.Releasing?
    ensures Attempts(labels, tid) + Owed(Final(s, labels), tid) == Owed(s, tid)
    decreases |labels|
  {
    if labels != [] {
      var l := labels[0];
      var after := Apply(s, l);
      assert l in labels;
      if l.Step? && l.tid == tid {
        OwedAfterEvent(s, tid, l.event);
        ServingStays(s, tid, l.event);
      } else {
        OwedAfterOther(s, l, tid);
      }
      ExactlyOneAttempt(after, labels[1..], tid);
    }
  }

  // ---- a whole drain ----

  /** Only `tid` moves, and only by its own steps. */
  predicate Alone(labels: seq<Label>, tid: nat) {
    forall i | 0 <= i < |labels| :: OwnStep(labels[i], tid)
  }

  /** The invocation is gone, its slot is free, and the run it owned carries its outcome. */
  ghost predicate Settled(s: State, after: State, tid: nat) {
    && tid !in after.threads
    && (SlotOf(s, tid).Some? ==> SlotOf(s, tid).value !in after.rejectRunning)
    && (RunOf(s, tid).Some? ==>
          var id := RunOf(s, tid).value.id;
          id in after.db.runs && Terminal(after.db.runs[id].status))
  }

  /** `labels` settle `tid` by at most as many of its own steps as its rank. */
  ghost predicate Settles(s: State, labels: seq<Label>, tid: nat) {
    && Alone(labels, tid) && |labels| <= Rank(s, tid)
    && Executes(s, labels) && Settled(s, Final(s, labels), tid)
  }

  lemma ReleaseSettles(s: State, tid: nat)
    requires Inv(s) && s.phase.Serving? && tid in s.threads && s.threads[tid].pc.Releasing?
    ensures Settles(s, [Step(tid, Release)], tid)
    ensures Final(s, [Step(tid, Release)]).db == s.db
  {
    var after := Apply(s, Step(tid, Release));
    FirstStep(s, Step(tid, Release), []);
    assert [Step(tid, Release)] + [] == [Step(tid, Release)];
    assert Final(after, []) == after;
  }

  lemma WriteFinishesRun(s: State, tid: nat)
    requires s.phase.Serving? && tid in s.threads && s.threads[tid].pc.Writing?
    requires ThreadOk(s, tid, s.phase.registry)
    ensures var after, id := Apply(s, Step(tid, Write(true))), s.threads[tid].pc.run.id;
            && tid in after.threads && after.threads[tid].pc.Releasing? && after.phase.Serving?
            && SlotOf(after, tid) == SlotOf(s, tid)
            && id in after.db.runs && Terminal(after.db.runs[id].status)
  {
    UpdateAccepted(s.db, s.orphans, s.threads[tid], s.phase.registry);
  }

  lemma WriteSettles(s: State, tid: nat)
    requires Inv(s) && s.phase.Serving? && tid in s.threads && s.threads[tid].pc.Writing?
    ensures Settles(s, [Step(tid, Write(true))] + [Step(tid, Release)], tid)
  {
    var write := Step(tid, Write(true));
    assert ThreadOk(s, tid, s.phase.registry);
    WriteFinishesRun(s, tid);
    StepKeeps(s, write);
    ReleaseSettles(Apply(s, write), tid);
    WriteThenRelease(s, tid, write, [Step(tid, Release)]);
  }

  lemma WriteThenRelease(s: State, tid: nat, write: Label, rest: seq<Label>)
    requires write == Step(tid, Write(true)) && Enabled(s, write) && |rest| == 1
    requires Settles(Apply(s, write), rest, tid) && Final(Apply(s, write), rest).db == Apply(s, write).db
    requires SlotOf(Apply(s, write), tid) == SlotOf(s, tid)
    requires RunOf(s, tid).Some? ==>
               var id := RunOf(s, tid).value.id;
               id in Apply(s, write).db.runs && Terminal(Apply(s, write).db.runs[id].status)
    ensures Settles(s, [write] + rest, tid)
  {
    FirstStep(s, write, rest);
  }

  lemma EarlierStep(s: State, tid: nat)
    requires s.phase.Serving? && tid in s.threads && PcInv(s.threads[tid]) && !s.threads[tid].process.Alive?
    requires !s.threads[tid].pc.Writing? && !s.threads[tid].pc.Releasing?
    ensures var next := Step(tid, NextOwn(s.threads[tid]));
            var after := Apply(s, next);
            && Enabled(s, next) && OwnStep(next, tid) && after.phase.Serving?
            && RunOf(after, tid) == RunOf(s, tid)
            && (SlotOf(s, tid).Some? ==> SlotOf(after, tid) == SlotOf(s, tid))
            && (tid in after.threads ==> !after.threads[tid].process.Alive?)
  {
  }

  /**
   Once its process is gone an invocation settles by its own steps alone, whatever
   its client did: its terminal write is made, its slot is released, it ends.
   */
  lemma {:induction false} SettlesOnceProcessIsGone(s: State, tid: nat)
    requires Inv(s) && s.phase.Serving? && tid in s.threads && !s.threads[tid].process.Alive?
    ensures exists labels :: Settles(s, labels, tid)
    decreases Rank(s, tid)
  {
    if s.threads[tid].pc.Releasing? {
      ReleaseSettles(s, tid);
    } else if s.threads[tid].pc.Writing? {
      WriteSettles(s, tid);
    } else {
      var next := Step(tid, NextOwn(s.threads[tid]));
      var after := Apply(s, next);
      assert PcInv(s.threads[tid]) by { assert ThreadOk(s, tid, s.phase.registry); }
      EarlierStep(s, tid);
      StepKeeps(s, next);
      OwnStepDecreases(s, tid, next.event);
      if tid in after.threads {
        SettlesOnceProcessIsGone(after, tid);
        var rest :| Settles(after, rest, tid);
        SettleEarlier(s, next, rest, tid);
      } else {
        assert Settles(after, [], tid);
        SettleEarlier(s, next, [], tid);
      }
    }
  }

  lemma SettleEarlier(s: State, next: Label, rest: seq<Label>, tid: nat)
    requires Enabled(s, next) && OwnStep(next, tid) && Settles(Apply(s, next), rest, tid)
    requires Rank(Apply(s, next), tid) < Rank(s, tid)
    requires RunOf(Apply(s, next), tid) == RunOf(s, tid)
    requires SlotOf(s, tid).Some? ==> SlotOf(Apply(s, next), tid) == SlotOf(s, tid)
    ensures Settles(s, [next] + rest, tid)
  {
    FirstStep(s, next, rest);
  }

  // ---- every drain ----

  lemma OwnStepAfterExit(s: State, tid: nat, e: Event)
    requires tid in s.threads && s.threads[tid].process.Ended? && PcInv(s.threads[tid])
    requires Own(e) && EventEnabled(s.threads[tid], e)
    ensures RunOf(s, tid).Some? || s.threads[tid].pc.Releasing?
    ensures var after := ApplyEvent(s, tid, s.threads[tid], e);
            if tid in after.threads then after.threads[tid].process.Ended? && SlotOf(after, tid) == SlotOf(s, tid)
            else e == Release && (SlotOf(s, tid).Some? ==> SlotOf(s, tid).value !in after.rejectRunning)
  {
  }

  /** A gone invocation makes no more attempts, and stays gone. */
  lemma {:induction false} GoneIsGone(s: State, labels: seq<Label>, tid: nat)
    requires s.phase.Serving? && tid !in s.threads && Executes(s, labels)
    requires Crash !in labels && forall q :: Accept(tid, q) !in labels
    ensures tid !in Final(s, labels).threads && Attempts(labels, tid) == 0
    decreases |labels|
  {
    if labels != [] {
      var l := labels[0];
      assert l in labels;
      OwedAfterOther(s, l, tid);
      GoneIsGone(Apply(s, l), labels[1..], tid);
    }
  }

  lemma EventAfterExit(s: State, tid: nat, e: Event)
    requires s.phase.Serving? && tid in s.threads && s.threads[tid].process.Ended? && PcInv(s.threads[tid])
    requires EventEnabled(s.threads[tid], e)
    ensures var after := ApplyEvent(s, tid, s.threads[tid], e);
            && after.phase.Serving?
            && Owed(s, tid) == Owed(after, tid) + (if e.Write? then 1 else 0)
            && if tid in after.threads then after.threads[tid].process.Ended? && SlotOf(after, tid) == SlotOf(s, tid)
               else e == Release && (SlotOf(s, tid).Some? ==> SlotOf(s, tid).value !in after.rejectRunning)
  {
    ServingStays(s, tid, e);
    if Own(e) { OwnStepAfterExit(s, tid, e); }
    OwedAfterEvent(s, tid, e);
  }

  /** One step of an interleaving after the exit: the invocation has released its slot and is gone, or is as before. */
  lemma StepAfterExit(s: State, l: Label, tid: nat)
    requires s.phase.Serving? && tid in s.threads && s.threads[tid].process.Ended? && PcInv(s.threads[tid])
    requires Enabled(s, l) && !l.Crash? && !(l.Accept? && l.tid == tid)
    ensures var after := Apply(s, l);
            && after.phase.Serving?
            && Owed(s, tid) == Owed(after, tid) + Attempts([l], tid)
            && if tid in after.threads then after.threads[tid].process.Ended? && SlotOf(after, tid) == SlotOf(s, tid)
               else l == Step(tid, Release) && (SlotOf(s, tid).Some? ==> SlotOf(s, tid).value !in after.rejectRunning)
  {
    if l.Step? && l.tid == tid {
      EventAfterExit(s, tid, l.event);
    } else {
      OwedAfterOther(s, l, tid);
    }
  }

  lemma AttemptsFirst(labels: seq<Label>, tid: nat)
    requires labels != []
    ensures Attempts(labels, tid) == Attempts([labels[0]], tid) + Attempts(labels[1..], tid)
  {
  }

  /** At some step of the run `tid` gave its slot back, and it was free. */
  ghost predicate Released(s: State, labels: seq<Label>, tid: nat, name: string) {
    exists k :: 0 <= k < |labels| && labels[k] == Step(tid, Release) && name !in Final(s, labels[..k + 1]).rejectRunning
  }

  lemma ReleasedNow(s: State, labels: seq<Label>, tid: nat, name: string)
    requires labels != [] && labels[0] == Step(tid, Release) && name !in Apply(s, labels[0]).rejectRunning
    ensures Released(s, labels, tid, name)
  {
    assert labels[..1][1..] == [];
    assert Final(s, labels[..0 + 1]) == Apply(s, labels[0]);
  }

  lemma ReleasedLater(s: State, labels: seq<Label>, tid: nat, name: string)
    requires labels != [] && Released(Apply(s, labels[0]), labels[1..], tid, name)
    ensures Released(s, labels, tid, name)
  {
    var rest := labels[1..];
    var k :| 0 <= k < |rest| && rest[k] == Step(tid, Release)
             && name !in Final(Apply(s, labels[0]), rest[..k + 1]).rejectRunning;
    assert labels[..k + 2][1..] == rest[..k + 1];
    assert labels[k + 1] == Step(tid, Release) && name !in Final(s, labels[..(k + 1) + 1]).rejectRunning;
  }

  /**
   After the process has exited, in any interleaving with other invocations, clients
   and timers: once the invocation cannot go on it is gone, it has given its slot
   back, and it has attempted exactly the terminal write it owed.
   */
  lemma {:induction false} EveryRunSettles(s: State, labels: seq<Label>, tid: nat)
    requires Inv(s) && s.phase.Serving? && tid in s.threads && s.threads[tid].process.Ended?
    requires Executes(s, labels) && Crash !in labels && forall q :: Accept(tid, q) !in labels
    requires forall e | Own(e) :: !Enabled(Final(s, labels), Step(tid, e))
    ensures tid !in Final(s, labels).threads
    ensures Attempts(labels, tid) == Owed(s, tid)
    ensures SlotOf(s, tid).Some? ==> Released(s, labels, tid, SlotOf(s, tid).value)
    decreases |labels|
  {
    assert PcInv(s.threads[tid]) by { assert ThreadOk(s, tid, s.phase.registry); }
    if labels == [] {
      CanGoOn(s, tid);
    } else {
      var after, rest := Apply(s, labels[0]), labels[1..];
      assert labels[0] in labels;
      StepAfterExit(s, labels[0], tid);
      AttemptsFirst(labels, tid);
      StepKeeps(s, labels[0]);
      if tid in after.threads {
        EveryRunSettles(after, rest, tid);
        if SlotOf(s, tid).Some? { ReleasedLater(s, labels, tid, SlotOf(s, tid).value); }
      } else {
        GoneIsGone(after, rest, tid);
        if SlotOf(s, tid).Some? { ReleasedNow(s, labels, tid, SlotOf(s, tid).value); }
      }
    }
  }
}
