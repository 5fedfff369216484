/** The inductive invariant of the coordinator: it ties the lock, the journal, the log of
    executed stages and the position of every invocation together. */
module SchedulerInvariant {
  import opened Foundations
  import opened CatalogCheck
  import opened Scheduler

  /** From the first journal write to its removal. */
  predicate Journaled(p: Phase) {
    p.AtJournal? || p.AtExec? || p.AtFresh? || p.AtReport? || p.AtUnlink? || p.AtHandler?
  }

  predicate AfterRecord(p: Phase) {
    p.AtReport? || p.AtUnlink? || p.AtHandler? || p.Ended?
  }

  /** Success has been recorded and nothing has gone wrong since. */
  predicate Successful(p: Phase) {
    p.AtReport? || p.AtUnlink? || p == Ended(true)
  }

  ghost predicate HasRecorded(log: seq<Event>, id: nat) {
    exists i :: 0 <= i < |log| && log[i].Recorded? && log[i].proc == id
  }

  /** Whoever is inside the lock holds it. */
  ghost predicate LockInv(s: State) {
    && (s.lock.Some? ==> s.lock.value < |s.procs| && InLock(s.procs[s.lock.value].phase))
    && (forall id :: 0 <= id < |s.procs| && InLock(s.procs[id].phase) ==> s.lock == Some(id))
  }

  /** What the disk holds for an invocation to be where it is. */
  predicate PhaseOk(s: State, id: nat)
    requires id < |s.procs|
  {
    var p := s.procs[id];
    && (p.phase.AtMkdir? || p.phase.AtAllocate? ==> s.journal.None? && s.open.None?)
    && (Journaled(p.phase) ==> s.journal.Some? && s.journal.value.run == p.run && s.open in {None, Some(id)})
    && (p.phase.AtExec? ==> s.journal == Some(Journal(Running, StageAt(p.phase.i), p.run)))
    && (p.phase.AtReport? || p.phase.AtUnlink? ==> s.open.None?)
  }

  ghost predicate DiskInv(s: State) {
    && (s.open.Some? ==>
          s.journal.Some? && s.open.value < |s.procs| && s.journal.value.run == s.procs[s.open.value].run)
    && (forall id :: 0 <= id < |s.procs| ==> PhaseOk(s, id))
  }

  /** The stage executed at log position i is over: its invocation has recorded success since,
      or an operator has removed the journal since. */
  ghost predicate Closed(log: seq<Event>, i: nat)
    requires i < |log| && log[i].Exec?
  {
    exists l :: i < l < |log| && (log[l].OperatorRemoved? || (log[l].Recorded? && log[l].proc == log[i].proc))
  }

  /** Between a stage of one invocation and a later stage of another, the first is over. */
  ghost predicate Separated(log: seq<Event>) {
    forall i, j :: 0 <= i < j < |log| && log[i].Exec? && log[j].Exec? && log[i].proc != log[j].proc ==>
      exists l :: i < l < j && (log[l].OperatorRemoved? || (log[l].Recorded? && log[l].proc == log[i].proc))
  }

  predicate EventOk(v: Verifier, procs: seq<Proc>, e: Event) {
    match e
    case Exec(id, run, stage, journal) =>
      id < |procs| && procs[id].run == run && journal == Some(Journal(Running, stage, run))
    case Recorded(id, record) => id < |procs| && AfterRecord(procs[id].phase) && Verdict(v, procs[id]) == Some(record)
    case OperatorRemoved => true
  }

  ghost predicate LogInv(v: Verifier, s: State) {
    && (forall i :: 0 <= i < |s.log| ==> EventOk(v, s.procs, s.log[i]))
    && (forall i :: 0 <= i < |s.log| && s.log[i].Exec? ==> Closed(s.log, i) || s.open == Some(s.log[i].proc))
    && Separated(s.log)
    && (s.last.Some? ==> exists i :: 0 <= i < |s.log| && s.log[i].Recorded? && s.log[i].record == s.last.value)
    && (forall id :: 0 <= id < |s.procs| && Successful(s.procs[id].phase) ==> HasRecorded(s.log, id))
  }

  ghost predicate Inv(v: Verifier, s: State) {
    LockInv(s) && DiskInv(s) && LogInv(v, s)
  }

  // ----- appending to the log -----

  lemma ClosedStays(log: seq<Event>, e: Event, i: nat)
    requires i < |log| && log[i].Exec? && Closed(log, i)
    ensures Closed(log + [e], i)
  {
    var l :| i < l < |log| && (log[l].OperatorRemoved? || (log[l].Recorded? && log[l].proc == log[i].proc));
    assert (log + [e])[l] == log[l];
  }

  lemma RecordedStays(log: seq<Event>, e: Event, id: nat)
    requires HasRecorded(log, id)
    ensures HasRecorded(log + [e], id)
  {
    var i :| 0 <= i < |log| && log[i].Recorded? && log[i].proc == id;
    assert (log + [e])[i] == log[i];
  }

  /** Appending keeps the log separated if everything executed by others is over when a stage starts. */
  lemma SeparatedAppend(log: seq<Event>, e: Event)
    requires Separated(log)
    requires e.Exec? ==> forall i :: 0 <= i < |log| && log[i].Exec? && log[i].proc != e.proc ==> Closed(log, i)
    ensures Separated(log + [e])
  {
    var more := log + [e];
    forall i, j | 0 <= i < j < |more| && more[i].Exec? && more[j].Exec? && more[i].proc != more[j].proc
      ensures exists l :: i < l < j && (more[l].OperatorRemoved? || (more[l].Recorded? && more[l].proc == more[i].proc))
    {
      assert more[i] == log[i];
      if j < |log| {
        var l :| i < l < j && (log[l].OperatorRemoved? || (log[l].Recorded? && log[l].proc == log[i].proc));
        assert more[l] == log[l];
      } else {
        assert Closed(log, i);
        var l :| i < l < |log| && (log[l].OperatorRemoved? || (log[l].Recorded? && log[l].proc == log[i].proc));
        assert more[l] == log[l];
      }
    }
  }

  // ----- steps of one invocation -----

  /** t differs from s in the position of one invocation and in what that invocation wrote. */
  ghost predicate OneProc(s: State, t: State, id: nat) {
    && id < |s.procs| && |t.procs| == |s.procs| && t.procs == s.procs[id := t.procs[id]]
    && t.procs[id].run == s.procs[id].run
  }

  lemma LockStep(s: State, t: State, id: nat)
    requires LockInv(s) && OneProc(s, t, id)
    requires if InLock(t.procs[id].phase) then t.lock == Some(id) && (s.lock.None? || s.lock == Some(id))
             else t.lock == if s.lock == Some(id) then None else s.lock
    ensures LockInv(t)
  {
    forall other | 0 <= other < |t.procs| && InLock(t.procs[other].phase) ensures t.lock == Some(other) {
      if other != id { assert s.procs[other] == t.procs[other]; }
    }
    if t.lock.Some? && t.lock.value != id { assert t.procs[t.lock.value] == s.procs[t.lock.value]; }
  }

  /** Only the lock holder touches the disk, so the others keep their place. */
  lemma DiskStep(s: State, t: State, id: nat)
    requires LockInv(s) && DiskInv(s) && OneProc(s, t, id)
    requires InLock(s.procs[id].phase) || (t.journal == s.journal && t.open == s.open)
    requires PhaseOk(t, id)
    requires t.open.Some? ==> t.journal.Some? && t.open.value < |t.procs|
    requires t.open.Some? ==> t.journal.value.run == t.procs[t.open.value].run
    ensures DiskInv(t)
  {
    forall other | 0 <= other < |t.procs| ensures PhaseOk(t, other) {
      if other != id {
        assert t.procs[other] == s.procs[other] && PhaseOk(s, other);
      }
    }
  }

  /** A step that writes nothing to the log. */
  lemma QuietLog(v: Verifier, s: State, t: State, id: nat)
    requires LogInv(v, s) && OneProc(s, t, id) && t.log == s.log && t.open == s.open && t.last == s.last
    requires !AfterRecord(s.procs[id].phase)
             || (t.procs[id].inputs == s.procs[id].inputs && AfterRecord(t.procs[id].phase))
    requires Successful(t.procs[id].phase) ==> HasRecorded(s.log, id)
    ensures LogInv(v, t)
  {
    forall i | 0 <= i < |t.log| ensures EventOk(v, t.procs, t.log[i]) {
      assert EventOk(v, s.procs, s.log[i]);
    }
  }

  /** A stage is started. */
  lemma ExecLog(v: Verifier, s: State, t: State, id: nat, e: Event)
    requires LogInv(v, s) && OneProc(s, t, id) && !AfterRecord(s.procs[id].phase)
    requires e.Exec? && e.proc == id && EventOk(v, t.procs, e)
    requires t.log == s.log + [e] && s.open in {None, Some(id)} && t.open == Some(id) && t.last == s.last
    requires !Successful(t.procs[id].phase)
    ensures LogInv(v, t)
  {
    forall i | 0 <= i < |t.log| ensures EventOk(v, t.procs, t.log[i]) {
      if i < |s.log| { assert EventOk(v, s.procs, s.log[i]) && t.log[i] == s.log[i]; }
    }
    forall i | 0 <= i < |t.log| && t.log[i].Exec? ensures Closed(t.log, i) || t.open == Some(t.log[i].proc) {
      if i < |s.log| && Closed(s.log, i) { ClosedStays(s.log, e, i); }
    }
    SeparatedAppend(s.log, e);
    forall other | 0 <= other < |t.procs| && HasRecorded(s.log, other) ensures HasRecorded(t.log, other) {
      RecordedStays(s.log, e, other);
    }
    LastStays(s.log, e, s.last);
  }

  lemma LastStays(log: seq<Event>, e: Event, last: Option<Freshness>)
    requires last.Some? ==> exists i :: 0 <= i < |log| && log[i].Recorded? && log[i].record == last.value
    ensures last.Some? ==>
              exists i :: 0 <= i < |log + [e]| && (log + [e])[i].Recorded? && (log + [e])[i].record == last.value
  {
    if last.Some? {
      var i :| 0 <= i < |log| && log[i].Recorded? && log[i].record == last.value;
      assert (log + [e])[i] == log[i];
    }
  }

  /** A freshness record is written. */
  lemma RecordLog(v: Verifier, s: State, t: State, id: nat, record: Freshness)
    requires LogInv(v, s) && OneProc(s, t, id) && t.procs[id].inputs == s.procs[id].inputs
    requires AfterRecord(t.procs[id].phase) && Verdict(v, s.procs[id]) == Some(record)
    requires t.log == s.log + [Recorded(id, record)] && s.open in {None, Some(id)} && t.open == None
    requires t.last == Some(record)
    ensures LogInv(v, t)
  {
    var e := Recorded(id, record);
    forall i | 0 <= i < |t.log| ensures EventOk(v, t.procs, t.log[i]) {
      if i < |s.log| { assert EventOk(v, s.procs, s.log[i]) && t.log[i] == s.log[i]; }
    }
    forall i | 0 <= i < |t.log| && t.log[i].Exec? ensures Closed(t.log, i) {
      assert t.log[i] == s.log[i];
      if Closed(s.log, i) { ClosedStays(s.log, e, i); } else { assert t.log[|s.log|] == e; }
    }
    SeparatedAppend(s.log, e);
    assert t.log[|s.log|] == e;
    forall other | 0 <= other < |t.procs| && HasRecorded(s.log, other) ensures HasRecorded(t.log, other) {
      RecordedStays(s.log, e, other);
    }
  }

  // ----- every step -----

  lemma QuietStep(v: Verifier, s: State, id: nat, phase: Phase)
    requires Inv(v, s) && Live(s, id)
    requires phase == Ended(false) || (phase.AtHandler? && Journaled(s.procs[id].phase))
    ensures Inv(v, Update(s, id, phase))
  {
    var t := Update(s, id, phase);
    assert PhaseOk(s, id);
    LockStep(s, t, id);
    DiskStep(s, t, id);
    QuietLog(v, s, t, id);
  }

  lemma HandlerPhase(v: Verifier, p: Proc, caught: bool, exit: Option<int>)
    ensures
      var phase := Recovery(v, p, caught, exit);
      || phase == Ended(false)
      || (phase.AtHandler? && (p.phase.AtJournal? || p.phase.AtExec? || p.phase.AtFresh? || p.phase.AtReport?))
  {
  }

  /** An operation breaks off, with or without its effect. */
  lemma StopStep(v: Verifier, s: State, id: nat, landed: bool, phase: Phase)
    requires Inv(v, s) && Live(s, id)
    requires phase == Ended(false)
             || (phase.AtHandler? && var p := s.procs[id].phase; p.AtJournal? || p.AtExec? || p.AtFresh? || p.AtReport?)
    ensures Inv(v, Stop(v, s, id, landed, phase))
  {
    var p := s.procs[id];
    var t := Stop(v, s, id, landed, phase);
    assert PhaseOk(s, id);
    if !landed || p.phase.AtLock? || p.phase.AtCheck? || p.phase.AtMkdir? || p.phase.AtReport?
       || (p.phase.AtFresh? && Verdict(v, p).None?)
    {
      QuietStep(v, s, id, phase);
    } else {
      LockStep(s, t, id);
      DiskStep(s, t, id);
      if p.phase.AtExec? {
        ExecLog(v, s, t, id, Exec(id, p.run, StageAt(p.phase.i), s.journal));
      } else if p.phase.AtFresh? {
        RecordLog(v, s, t, id, Verdict(v, p).value);
      } else {
        QuietLog(v, s, t, id);
      }
    }
  }

  lemma EnterStep(v: Verifier, s: State, id: nat, inputs: Inputs)
    requires Inv(v, s) && Live(s, id)
    requires var p := s.procs[id].phase; p.AtLock? || p.AtCheck? || p.AtMkdir?
    ensures Inv(v, AdvanceProc(v, s, id, inputs))
  {
    var t := AdvanceProc(v, s, id, inputs);
    assert PhaseOk(s, id);
    LockStep(s, t, id);
    DiskStep(s, t, id);
    QuietLog(v, s, t, id);
  }

  lemma WriteStep(v: Verifier, s: State, id: nat, inputs: Inputs)
    requires Inv(v, s) && Live(s, id)
    requires var p := s.procs[id].phase; p.AtAllocate? || p.AtJournal? || p.AtHandler? || p.AtReport? || p.AtUnlink?
    ensures Inv(v, AdvanceProc(v, s, id, inputs))
  {
    var t := AdvanceProc(v, s, id, inputs);
    assert PhaseOk(s, id);
    LockStep(s, t, id);
    DiskStep(s, t, id);
    QuietLog(v, s, t, id);
  }

  lemma ExecStep(v: Verifier, s: State, id: nat, inputs: Inputs)
    requires Inv(v, s) && Live(s, id) && s.procs[id].phase.AtExec?
    ensures Inv(v, AdvanceProc(v, s, id, inputs))
  {
    var p := s.procs[id];
    var t := AdvanceProc(v, s, id, inputs);
    assert PhaseOk(s, id);
    LockStep(s, t, id);
    DiskStep(s, t, id);
    ExecLog(v, s, t, id, Exec(id, p.run, StageAt(p.phase.i), s.journal));
  }

  lemma FreshStep(v: Verifier, s: State, id: nat, inputs: Inputs)
    requires Inv(v, s) && Live(s, id) && s.procs[id].phase.AtFresh?
    ensures Inv(v, AdvanceProc(v, s, id, inputs))
  {
    var p := s.procs[id];
    var t := AdvanceProc(v, s, id, inputs);
    assert PhaseOk(s, id);
    LockStep(s, t, id);
    DiskStep(s, t, id);
    if Verdict(v, p).Some? {
      RecordLog(v, s, t, id, Verdict(v, p).value);
      assert t.log[|s.log|].Recorded?;
    } else {
      QuietLog(v, s, t, id);
    }
  }

  lemma AdvanceKeeps(v: Verifier, s: State, id: nat, inputs: Inputs)
    requires Inv(v, s) && Live(s, id)
    ensures Inv(v, AdvanceProc(v, s, id, inputs))
  {
    var p := s.procs[id].phase;
    if p.AtExec? { ExecStep(v, s, id, inputs); }
    else if p.AtFresh? { FreshStep(v, s, id, inputs); }
    else if p.AtLock? || p.AtCheck? || p.AtMkdir? { EnterStep(v, s, id, inputs); }
    else { WriteStep(v, s, id, inputs); }
  }

  lemma StartKeeps(v: Verifier, s: State, run: Run)
    requires Inv(v, s)
    ensures Inv(v, Next(v, s, Start(run)))
  {
    var t := Next(v, s, Start(run));
    forall i | 0 <= i < |t.log| ensures EventOk(v, t.procs, t.log[i]) {
      assert EventOk(v, s.procs, s.log[i]);
    }
    forall id | 0 <= id < |t.procs| ensures PhaseOk(t, id) {
      if id < |s.procs| { assert PhaseOk(s, id); }
    }
  }

  lemma RemoveKeeps(v: Verifier, s: State)
    requires Inv(v, s)
    ensures Inv(v, Next(v, s, RemoveJournal))
  {
    var t := Next(v, s, RemoveJournal);
    if s.lock.None? {
      forall i | 0 <= i < |t.log| ensures EventOk(v, t.procs, t.log[i]) {
        if i < |s.log| { assert EventOk(v, s.procs, s.log[i]); }
      }
      forall i | 0 <= i < |t.log| && t.log[i].Exec? ensures Closed(t.log, i) {
        assert t.log[|s.log|].OperatorRemoved?;
      }
      SeparatedAppend(s.log, OperatorRemoved);
      LastStays(s.log, OperatorRemoved, s.last);
      forall id | 0 <= id < |t.procs| && HasRecorded(s.log, id) ensures HasRecorded(t.log, id) {
        RecordedStays(s.log, OperatorRemoved, id);
      }
    }
  }

  lemma NextKeeps(v: Verifier, s: State, step: Step)
    requires Inv(v, s)
    ensures Inv(v, Next(v, s, step))
  {
    match step {
      case Start(run) => StartKeeps(v, s, run);
      case Advance(id, inputs) => if Live(s, id) { AdvanceKeeps(v, s, id, inputs); }
      case Fail(id, caught, exit, landed) =>
        if Live(s, id) {
          HandlerPhase(v, s.procs[id], caught, exit);
          StopStep(v, s, id, landed, Recovery(v, s.procs[id], caught, exit));
        }
      case Crash(id, landed) => if Live(s, id) { StopStep(v, s, id, landed, Ended(false)); }
      case RemoveJournal => RemoveKeeps(v, s);
    }
  }

  lemma {:induction false} RunKeeps(v: Verifier, s: State, steps: seq<Step>)
    requires Inv(v, s)
    ensures Inv(v, RunSteps(v, s, steps))
    decreases |steps|
  {
    if steps != [] {
      NextKeeps(v, s, steps[0]);
      RunKeeps(v, Next(v, s, steps[0]), steps[1..]);
    }
  }

  lemma ReachInv(v: Verifier, steps: seq<Step>)
    ensures Inv(v, Reach(v, steps))
  {
    RunKeeps(v, INITIAL, steps);
  }
}
