/** What a run that fails leaves of the freshness record. The design promises that any validation
    or child failure leaves the previous record as it was. The coordinator keeps that for every
    stage that exits badly and for every catalog its verification refuses. It does not keep it
    for what goes wrong once the record has been written. */
module SchedulerFailures {
  import opened Foundations
  import opened CatalogCheck
  import opened Scheduler
  import opened SchedulerInvariant
  import opened SchedulerTheorems

  // ----- where a run breaks off -----

  /** Not turned away, not stopped, not in a handler. */
  predicate OnCourse(p: Phase) {
    !p.AtHandler? && p != Ended(false)
  }

  /** The operation at which a run left its course. `written` is of interest for the freshness
      write: the verification had accepted, and the write took effect although it raised. */
  datatype Break = Break(phase: Phase, written: bool)

  predicate Landed(step: Step) {
    (step.Fail? || step.Crash?) && step.landed
  }

  /** The break this step is, if it takes this invocation off its course. */
  function BreakOf(v: Verifier, s: State, step: Step, id: nat): Option<Break> {
    if !Live(s, id) || s.procs[id].phase.AtHandler? || !Touches(step, id) then None
    else
      var t := Next(v, s, step);
      if id < |t.procs| && OnCourse(t.procs[id].phase) then None
      else Some(Break(s.procs[id].phase, Landed(step) && Verdict(v, s.procs[id]).Some?))
  }

  /** Where in a history this invocation left its course. */
  function FirstBreak(v: Verifier, s: State, steps: seq<Step>, id: nat): Option<Break>
    decreases |steps|
  {
    if steps == [] then None
    else if BreakOf(v, s, steps[0], id).Some? then BreakOf(v, s, steps[0], id)
    else FirstBreak(v, Next(v, s, steps[0]), steps[1..], id)
  }

  /** The freshness record had been written when the run broke off: it failed while reporting or
      while removing its journal, or the freshness write itself raised after taking effect. */
  predicate PastTheRecord(b: Break) {
    b.phase.AtReport? || b.phase.AtUnlink? || (b.phase.AtFresh? && b.written)
  }

  // ----- what one step does to the record -----

  predicate Writes(v: Verifier, s: State, t: State, id: nat, record: Freshness) {
    && Live(s, id) && s.procs[id].phase.AtFresh? && Verdict(v, s.procs[id]) == Some(record)
    && t.log == s.log + [Recorded(id, record)] && t.last == Some(record)
  }

  /** Nothing was recorded: the log has grown by another event, if at all. */
  ghost predicate Quiet(s: State, t: State) {
    t.last == s.last && (t.log == s.log || exists e: Event :: !e.Recorded? && t.log == s.log + [e])
  }

  predicate Succeeds(step: Step) {
    step.Advance? || Landed(step)
  }

  /** The freshness record changes exactly when an invocation at its freshness write, with a
      catalog its verification accepts, is at step and the write takes effect. */
  lemma WhoWrites(v: Verifier, s: State, step: Step)
    ensures
      var t := Next(v, s, step);
      if (step.Advance? || step.Fail? || step.Crash?) && Live(s, step.id) && s.procs[step.id].phase.AtFresh?
         && Verdict(v, s.procs[step.id]).Some? && Succeeds(step)
      then Writes(v, s, t, step.id, Verdict(v, s.procs[step.id]).value)
      else Quiet(s, t)
  {
    var t := Next(v, s, step);
    if (step.Advance? || step.Fail? || step.Crash?) && Live(s, step.id) && s.procs[step.id].phase.AtExec?
       && Succeeds(step)
    {
      var p := s.procs[step.id];
      assert t.log == s.log + [Exec(step.id, p.run, StageAt(p.phase.i), s.journal)];
    } else if step.RemoveJournal? && s.lock.None? {
      assert t.log == s.log + [OperatorRemoved];
    }
  }

  /** The record the log says was written last. */
  function LatestRecord(log: seq<Event>): Option<Freshness> {
    if log == [] then None
    else if log[|log| - 1].Recorded? then Some(log[|log| - 1].record)
    else LatestRecord(log[..|log| - 1])
  }

  lemma {:induction false} LatestRunRecord(v: Verifier, s: State, steps: seq<Step>)
    requires s.last == LatestRecord(s.log)
    ensures RunSteps(v, s, steps).last == LatestRecord(RunSteps(v, s, steps).log)
    decreases |steps|
  {
    if steps != [] {
      var t := Next(v, s, steps[0]);
      WhoWrites(v, s, steps[0]);
      assert t.log != s.log ==> t.log[..|t.log| - 1] == s.log;
      LatestRunRecord(v, t, steps[1..]);
    }
  }

  // ----- over whole runs -----

  /** Up to its freshness write an invocation has recorded nothing, after it it has. */
  lemma CourseRecords(v: Verifier, s: State, id: nat)
    requires Inv(v, s) && (id >= |s.procs| || OnCourse(s.procs[id].phase))
    ensures HasRecorded(s.log, id) <==> id < |s.procs| && Successful(s.procs[id].phase)
  {
    if HasRecorded(s.log, id) {
      var i :| 0 <= i < |s.log| && s.log[i].Recorded? && s.log[i].proc == id;
      assert EventOk(v, s.procs, s.log[i]);
    }
  }

  lemma RecordedGrows(s: State, t: State, id: nat)
    requires Quiet(s, t) || exists e: Event :: e.Recorded? && e.proc != id && t.log == s.log + [e]
    ensures HasRecorded(t.log, id) <==> HasRecorded(s.log, id)
  {
    if HasRecorded(s.log, id) {
      var i :| 0 <= i < |s.log| && s.log[i].Recorded? && s.log[i].proc == id;
      assert t.log[i] == s.log[i];
    }
    if HasRecorded(t.log, id) {
      var i :| 0 <= i < |t.log| && t.log[i].Recorded? && t.log[i].proc == id;
      assert i < |s.log| && t.log[i] == s.log[i];
    }
  }

  lemma BreakRecords(v: Verifier, s: State, step: Step, id: nat, b: Break)
    requires Inv(v, s) && BreakOf(v, s, step, id) == Some(b)
    ensures
      var t := Next(v, s, step);
      && id < |t.procs| && !OnCourse(t.procs[id].phase)
      && (HasRecorded(t.log, id) <==> PastTheRecord(b))
      && (t.last == s.last || (b.phase.AtFresh? && b.written))
  {
    var t := Next(v, s, step);
    CourseRecords(v, s, id);
    WhoWrites(v, s, step);
    if b.phase.AtFresh? && b.written {
      assert t.log[|s.log|].Recorded? && t.log[|s.log|].proc == id;
    } else {
      RecordedGrows(s, t, id);
    }
  }

  lemma CourseGoesOn(v: Verifier, s: State, step: Step, id: nat)
    requires id >= |s.procs| || OnCourse(s.procs[id].phase)
    requires BreakOf(v, s, step, id).None?
    ensures var t := Next(v, s, step); id >= |t.procs| || OnCourse(t.procs[id].phase)
  {
    if id < |s.procs| && !Touches(step, id) { OthersKeepProc(v, s, step, id); }
  }

  /** Off its course an invocation stays off it and records nothing any more. */
  lemma {:induction false} OffCourseRecordsNothing(v: Verifier, s: State, steps: seq<Step>, id: nat)
    requires id < |s.procs| && !OnCourse(s.procs[id].phase)
    ensures
      var t := RunSteps(v, s, steps);
      && id < |t.procs| && !OnCourse(t.procs[id].phase)
      && (HasRecorded(t.log, id) <==> HasRecorded(s.log, id))
    decreases |steps|
  {
    if steps != [] {
      var t := Next(v, s, steps[0]);
      if !Touches(steps[0], id) { OthersKeepProc(v, s, steps[0], id); }
      WhoWrites(v, s, steps[0]);
      RecordedGrows(s, t, id);
      OffCourseRecordsNothing(v, t, steps[1..], id);
    }
  }

  lemma {:induction false} BreakDecides(v: Verifier, s: State, steps: seq<Step>, id: nat)
    requires Inv(v, s) && (id >= |s.procs| || OnCourse(s.procs[id].phase))
    requires var t := RunSteps(v, s, steps); id < |t.procs| && !OnCourse(t.procs[id].phase)
    ensures
      var b := FirstBreak(v, s, steps, id);
      b.Some? && (HasRecorded(RunSteps(v, s, steps).log, id) <==> PastTheRecord(b.value))
    decreases |steps|
  {
    if steps != [] {
      var b := BreakOf(v, s, steps[0], id);
      var t := Next(v, s, steps[0]);
      if b.Some? {
        BreakRecords(v, s, steps[0], id, b.value);
        OffCourseRecordsNothing(v, t, steps[1..], id);
      } else {
        NextKeeps(v, s, steps[0]);
        CourseGoesOn(v, s, steps[0], id);
        BreakDecides(v, t, steps[1..], id);
      }
    }
  }

  /** A run that has failed, in any history, has advanced the freshness record exactly when it
      broke off past its record: while reporting, while removing the journal, or in the freshness
      write itself after that had taken effect for a catalog the verification accepts. */
  lemma FailedRunRecordedIff(v: Verifier, steps: seq<Step>, id: nat)
    requires id < |Reach(v, steps).procs| && !OnCourse(Reach(v, steps).procs[id].phase)
    ensures
      var b := FirstBreak(v, INITIAL, steps, id);
      b.Some? && (HasRecorded(Reach(v, steps).log, id) <==> PastTheRecord(b.value))
  {
    BreakDecides(v, INITIAL, steps, id);
  }

  /** Every other failed run has left the freshness record alone: what is stored is the latest
      record any other invocation has written. */
  lemma FailedRunKeepsFreshness(v: Verifier, steps: seq<Step>, id: nat)
    requires id < |Reach(v, steps).procs| && !OnCourse(Reach(v, steps).procs[id].phase)
    requires var b := FirstBreak(v, INITIAL, steps, id); b.Some? && !PastTheRecord(b.value)
    ensures
      var s := Reach(v, steps);
      && s.last == LatestRecord(s.log)
      && forall i :: 0 <= i < |s.log| && s.log[i].Recorded? ==> s.log[i].proc != id
  {
    FailedRunRecordedIff(v, steps, id);
    LatestRunRecord(v, INITIAL, steps);
  }

  /** The stage an invocation is at exits badly or is killed, or its verification refuses the
      catalog it has fetched. */
  predicate ChildOrValidationFails(v: Verifier, s: State, step: Step, id: nat) {
    && Live(s, id) && Touches(step, id)
    && var p := s.procs[id];
    (p.phase.AtExec? && !step.Advance?) || (p.phase.AtFresh? && Verdict(v, p).None?)
  }

  /** Any validation or child failure leaves the previous freshness record unchanged, at once and
      for as long as that run goes on: whatever follows, it never writes one. */
  lemma ChildOrValidationFailureKeepsFreshness(v: Verifier, before: seq<Step>, step: Step, after: seq<Step>, id: nat)
    requires ChildOrValidationFails(v, Reach(v, before), step, id)
    ensures
      var t := Reach(v, before + ([step] + after));
      && Next(v, Reach(v, before), step).last == Reach(v, before).last
      && id < |t.procs| && !OnCourse(t.procs[id].phase) && !HasRecorded(t.log, id)
  {
    var s := Reach(v, before);
    var b := BreakOf(v, s, step, id);
    ReachInv(v, before);
    BreakRecords(v, s, step, id, b.value);
    OffCourseRecordsNothing(v, Next(v, s, step), after, id);
    RunConcat(v, INITIAL, before, [step] + after);
    assert ([step] + after)[1..] == after;
  }

  // ----- a run that fails and has advanced the record -----

  function Times(n: nat, step: Step): seq<Step> {
    if n == 0 then [] else [step] + Times(n - 1, step)
  }

  /** A run whose operations all succeed up to and including the freshness write; then writing
      the metrics fails, and the handler journals that. */
  function FailingHistory(v: Verifier, id: nat, run: Run, q: Inputs, exit: Option<int>): seq<Step> {
    [Start(run)] + Times(2 * (FIXED_STAGES + v.points(q)) + 5, Advance(id, q))
    + [Fail(id, true, exit, false), Advance(id, q)]
  }

  lemma {:induction false} ReachesReport(v: Verifier, s: State, id: nat, q: Inputs, n: nat, record: Freshness)
    requires OnTrack(v, s, id, q) && n + 2 == Left(v, q, s.procs[id].phase) && v.verdict(q) == Some(record)
    requires s.procs[id].phase.AtReport? ==> s.last == Some(record) && s.procs[id].inputs == Some(q)
    ensures
      var t := RunSteps(v, s, Times(n, Advance(id, q)));
      && id < |t.procs| && t.procs[id] == Proc(s.procs[id].run, Some(q), AtReport) && t.last == Some(record)
    decreases n
  {
    if n > 0 {
      var t := Next(v, s, Advance(id, q));
      OwnStep(v, s, id, q);
      ReportAfterRecord(v, s, id, q, record);
      ReachesReport(v, t, id, q, n - 1, record);
      var rest := Times(n - 1, Advance(id, q));
      assert ([Advance(id, q)] + rest)[1..] == rest;
    }
  }

  lemma ReportAfterRecord(v: Verifier, s: State, id: nat, q: Inputs, record: Freshness)
    requires OnTrack(v, s, id, q) && Live(s, id) && v.verdict(q) == Some(record)
    requires !s.procs[id].phase.AtReport?
    ensures
      var t := Next(v, s, Advance(id, q));
      && id < |t.procs| && t.procs[id].run == s.procs[id].run
      && (t.procs[id].phase.AtReport? ==> t.last == Some(record) && t.procs[id].inputs == Some(q))
  {
  }

  lemma MetricsFail(v: Verifier, s: State, id: nat, run: Run, q: Inputs, exit: Option<int>)
    requires id < |s.procs| && s.procs[id] == Proc(run, Some(q), AtReport)
    ensures
      var t := RunSteps(v, s, [Fail(id, true, exit, false), Advance(id, q)]);
      && id < |t.procs| && t.procs[id].phase == Ended(false) && t.last == s.last
      && t.journal == Some(Journal(Failed, StageAt(FIXED_STAGES - 1 + v.points(q)), run))
  {
    var steps := [Fail(id, true, exit, false), Advance(id, q)];
    var t := Next(v, s, steps[0]);
    assert steps[1..] == [Advance(id, q)] && steps[1..][1..] == [];
    assert t.procs[id].phase == AtHandler(Failed, StageAt(FIXED_STAGES - 1 + v.points(q)));
    assert RunSteps(v, t, steps[1..]) == RunSteps(v, Next(v, t, Advance(id, q)), []);
  }

  lemma TakesTheLock(v: Verifier, s: State, id: nat, run: Run, q: Inputs, record: Freshness)
    requires s.lock.None? && s.journal.None? && id == |s.procs|
    requires v.verdict(q) == Some(record) && record.run == run.business
    ensures
      var t := Next(v, Next(v, s, Start(run)), Advance(id, q));
      && OnTrack(v, t, id, q) && t.procs[id].phase.AtCheck? && t.procs[id].run == run
  {
  }

  /** The promise does not extend to what fails after the record: after any history that leaves
      no lock and no journal, and for every catalog the verification accepts, a run can end as
      failed, with its journal in state failed, and with its own record stored. */
  lemma FailedRunMayAdvanceFreshness(
      k: Platform, before: seq<Step>, run: Run, q: Inputs, record: Freshness, exit: Option<int>)
    requires Reach(VerifierOf(k), before).lock.None? && Reach(VerifierOf(k), before).journal.None?
    requires VerifierOf(k).verdict(q) == Some(record) && record.run == run.business
    ensures
      var v := VerifierOf(k);
      var id := |Reach(v, before).procs|;
      var t := Reach(v, before + FailingHistory(v, id, run, q, exit));
      && id < |t.procs| && t.procs[id].phase == Ended(false) && t.last == Some(record)
      && t.journal == Some(Journal(Failed, StageAt(FIXED_STAGES - 1 + v.points(q)), run))
  {
    var v := VerifierOf(k);
    var s := Reach(v, before);
    FailingHistoryFrom(v, s, |s.procs|, run, q, record, exit);
    RunConcat(v, INITIAL, before, FailingHistory(v, |s.procs|, run, q, exit));
  }

  lemma FailingHistoryFrom(
      v: Verifier, s: State, id: nat, run: Run, q: Inputs, record: Freshness, exit: Option<int>)
    requires s.lock.None? && s.journal.None? && id == |s.procs|
    requires v.verdict(q) == Some(record) && record.run == run.business
    ensures
      var t := RunSteps(v, s, FailingHistory(v, id, run, q, exit));
      && id < |t.procs| && t.procs[id].phase == Ended(false) && t.last == Some(record)
      && t.journal == Some(Journal(Failed, StageAt(FIXED_STAGES - 1 + v.points(q)), run))
  {
    var own, end := Advance(id, q), [Fail(id, true, exit, false), Advance(id, q)];
    var n := 2 * (FIXED_STAGES + v.points(q)) + 4;
    var started := Next(v, s, Start(run));
    var checking := Next(v, started, own);
    TakesTheLock(v, s, id, run, q, record);
    ReachesReport(v, checking, id, q, n, record);
    MetricsFail(v, RunSteps(v, checking, Times(n, own)), id, run, q, exit);
    RunConcat(v, checking, Times(n, own), end);
    var rest := Times(n, own) + end;
    assert FailingHistory(v, id, run, q, exit) == [Start(run)] + ([own] + rest);
    assert ([Start(run)] + ([own] + rest))[1..] == [own] + rest;
    assert ([own] + rest)[1..] == rest;
  }
}
