/** Which stages an invocation executes, in which order, and what its journal says of the one that
    failed. */
module SchedulerStages {
  import opened Foundations
  import opened CatalogCheck
  import opened Scheduler
  import opened SchedulerInvariant
  import opened SchedulerTheorems

  /** The stages before the verification of the catalog. */
  ghost const FIXED: seq<Stage> := [LedgerPublish, LedgerFetch, BusinessPublish, BusinessFetch, BusinessCatalog]

  /** The first n stages of a run: the fixed ones, then one ledger download for every point. */
  ghost function Stages(n: nat): seq<Stage> {
    if n <= 5 then FIXED[..n] else FIXED + seq(n - 5, i => CatalogLedgerFetch)
  }

  ghost function Planned(i: nat): Stage {
    if i < 5 then FIXED[i] else CatalogLedgerFetch
  }

  /** The state a failed stage is journaled with. */
  ghost function FailedState(stage: Stage, exit: Option<int>): JournalState {
    if (stage == LedgerPublish || stage == BusinessPublish) && (exit == Some(75) || exit == Some(76))
    then ReconciliationRequired else Failed
  }

  lemma NextStage(i: nat)
    ensures StageAt(i) == Planned(i) && Stages(i + 1) == Stages(i) + [Planned(i)]
  {
  }

  // ----- in which order -----

  /** The stages an invocation has executed, by the log. */
  ghost function StagesOf(log: seq<Event>, id: nat): seq<Stage> {
    if log == [] then [] else
    var e := log[|log| - 1];
    StagesOf(log[..|log| - 1], id) + if e.Exec? && e.proc == id then [e.stage] else []
  }

  lemma StagesSnoc(log: seq<Event>, e: Event, id: nat)
    ensures StagesOf(log + [e], id) == StagesOf(log, id) + if e.Exec? && e.proc == id then [e.stage] else []
  {
    assert (log + [e])[..|log|] == log;
  }

  /** How far an invocation is: the stages it has executed are the first ones of the plan. */
  ghost predicate Ordered(v: Verifier, log: seq<Event>, p: Proc, id: nat) {
    var stages := StagesOf(log, id);
    match p.phase
    case AtLock => stages == []
    case AtCheck => stages == []
    case AtMkdir => stages == []
    case AtAllocate => stages == []
    case AtJournal(i) => stages == Stages(i) && InPlan(v, p, i)
    case AtExec(i) => stages == Stages(i) && InPlan(v, p, i)
    case AtHandler(_, _) => exists n :: stages == Stages(n)
    case Ended(false) => exists n :: stages == Stages(n)
    case _ => p.inputs.Some? && stages == Stages(5 + v.points(p.inputs.value))
  }

  /** Stage i is fixed, or belongs to a point of the catalog that was brought. */
  ghost predicate InPlan(v: Verifier, p: Proc, i: nat) {
    i < 5 || (p.inputs.Some? && i < 5 + v.points(p.inputs.value))
  }

  ghost predicate AllOrdered(v: Verifier, s: State) {
    && (forall id :: 0 <= id < |s.procs| ==> Ordered(v, s.log, s.procs[id], id))
    && (forall id :: id >= |s.procs| ==> StagesOf(s.log, id) == [])
  }

  /** A step that executes no stage. */
  lemma QuietOrder(v: Verifier, s: State, t: State, id: nat)
    requires AllOrdered(v, s) && OneProc(s, t, id)
    requires t.log == s.log || exists e: Event :: !e.Exec? && t.log == s.log + [e]
    requires Ordered(v, s.log, t.procs[id], id)
    ensures AllOrdered(v, t)
  {
    forall other: nat ensures StagesOf(t.log, other) == StagesOf(s.log, other) {
      if t.log != s.log {
        var e: Event :| !e.Exec? && t.log == s.log + [e];
        StagesSnoc(s.log, e, other);
      }
    }
    forall other | 0 <= other < |t.procs| ensures Ordered(v, t.log, t.procs[other], other) {
      if other != id { assert Ordered(v, s.log, s.procs[other], other); }
    }
  }

  lemma ExecOrder(v: Verifier, s: State, t: State, id: nat, i: nat, journal: Option<Journal>)
    requires AllOrdered(v, s) && OneProc(s, t, id) && s.procs[id].phase == AtExec(i)
    requires t.log == s.log + [Exec(id, s.procs[id].run, StageAt(i), journal)]
    requires t.procs[id].phase in {AtJournal(i + 1), AtFresh} ==>
               t.procs[id].phase == AfterStage(v, i, t.procs[id].inputs) && (i < 4 || t.procs[id].inputs.Some?)
    requires i >= 5 ==> t.procs[id].inputs == s.procs[id].inputs
    requires var p := t.procs[id].phase; p == AtJournal(i + 1) || p == AtFresh || p.AtHandler? || p == Ended(false)
    ensures AllOrdered(v, t)
  {
    var e := Exec(id, s.procs[id].run, StageAt(i), journal);
    NextStage(i);
    assert Ordered(v, s.log, s.procs[id], id);
    forall other: nat
      ensures StagesOf(t.log, other) == StagesOf(s.log, other) + if other == id then [StageAt(i)] else []
    {
      StagesSnoc(s.log, e, other);
    }
    assert StagesOf(t.log, id) == Stages(i + 1);
    forall other | 0 <= other < |t.procs| ensures Ordered(v, t.log, t.procs[other], other) {
      if other != id { assert Ordered(v, s.log, s.procs[other], other); }
    }
  }

  lemma AdvanceOrder(v: Verifier, s: State, id: nat, inputs: Inputs)
    requires AllOrdered(v, s) && Live(s, id)
    ensures AllOrdered(v, AdvanceProc(v, s, id, inputs))
  {
    var t := AdvanceProc(v, s, id, inputs);
    var p := s.procs[id];
    assert Ordered(v, s.log, p, id);
    if p.phase.AtExec? {
      ExecOrder(v, s, t, id, p.phase.i, s.journal);
    } else {
      if p.phase.AtFresh? && Verdict(v, p).Some? {
        assert t.log == s.log + [Recorded(id, Verdict(v, p).value)];
      }
      assert Stages(0) == [];
      QuietOrder(v, s, t, id);
    }
  }

  lemma StopOrder(v: Verifier, s: State, id: nat, landed: bool, phase: Phase)
    requires AllOrdered(v, s) && Live(s, id) && (phase.AtHandler? || phase == Ended(false))
    ensures AllOrdered(v, Stop(v, s, id, landed, phase))
  {
    var t := Stop(v, s, id, landed, phase);
    var p := s.procs[id];
    assert Ordered(v, s.log, p, id);
    if landed && p.phase.AtExec? {
      ExecOrder(v, s, t, id, p.phase.i, s.journal);
    } else {
      if landed && p.phase.AtFresh? && Verdict(v, p).Some? {
        assert t.log == s.log + [Recorded(id, Verdict(v, p).value)];
      }
      assert Stages(0) == [];
      QuietOrder(v, s, t, id);
    }
  }

  lemma NextOrder(v: Verifier, s: State, step: Step)
    requires AllOrdered(v, s)
    ensures AllOrdered(v, Next(v, s, step))
  {
    var t := Next(v, s, step);
    match step {
      case Start(_) =>
        forall id | 0 <= id < |t.procs| ensures Ordered(v, t.log, t.procs[id], id) {
          if id < |s.procs| { assert Ordered(v, s.log, s.procs[id], id); }
        }
      case Advance(id, inputs) => if Live(s, id) { AdvanceOrder(v, s, id, inputs); }
      case Fail(id, caught, exit, landed) =>
        if Live(s, id) { StopOrder(v, s, id, landed, Recovery(v, s.procs[id], caught, exit)); }
      case Crash(id, landed) => if Live(s, id) { StopOrder(v, s, id, landed, Ended(false)); }
      case RemoveJournal =>
        if s.lock.None? {
          forall id: nat ensures StagesOf(t.log, id) == StagesOf(s.log, id) { StagesSnoc(s.log, OperatorRemoved, id); }
          forall id | 0 <= id < |t.procs| ensures Ordered(v, t.log, t.procs[id], id) {
            assert Ordered(v, s.log, s.procs[id], id);
          }
        }
    }
  }

  lemma {:induction false} RunOrder(v: Verifier, s: State, steps: seq<Step>)
    requires AllOrdered(v, s)
    ensures AllOrdered(v, RunSteps(v, s, steps))
    decreases |steps|
  {
    if steps != [] {
      NextOrder(v, s, steps[0]);
      RunOrder(v, Next(v, s, steps[0]), steps[1..]);
    }
  }

  /** In every history, the stages that an invocation has executed are the first ones of
      ledger_publish, ledger_fetch, business_publish, business_fetch, business_catalog and then a
      catalog_ledger_fetch for each point; one that succeeded has executed them all, once each. */
  lemma StagesInOrder(v: Verifier, steps: seq<Step>, id: nat)
    requires id < |Reach(v, steps).procs|
    ensures
      var s := Reach(v, steps);
      && (exists n :: StagesOf(s.log, id) == Stages(n))
      && (s.procs[id].phase == Ended(true) ==>
            s.procs[id].inputs.Some? && StagesOf(s.log, id) ==
            [LedgerPublish, LedgerFetch, BusinessPublish, BusinessFetch, BusinessCatalog]
            + seq(v.points(s.procs[id].inputs.value), i => CatalogLedgerFetch))
  {
    RunOrder(v, INITIAL, steps);
    var s := Reach(v, steps);
    assert Ordered(v, s.log, s.procs[id], id);
    assert Stages(0) == [];
    if s.procs[id].phase == Ended(true) {
      var n := v.points(s.procs[id].inputs.value);
      if n == 0 { assert FIXED[..5] == FIXED + seq(n, i => CatalogLedgerFetch); }
    }
  }

  // ----- the journal of a failed stage -----

  /** When a stage fails and its exception is handled, the journal that named it goes from running
      to reconciliation_required exactly for an exit code 75 or 76 of ledger_publish or
      business_publish, and to failed otherwise; stage and run stay as they were. */
  lemma FailedStageIsJournaled(
        v: Verifier, before: seq<Step>, id: nat, exit: Option<int>, landed: bool, inputs: Inputs)
    requires id < |Reach(v, before).procs| && Reach(v, before).procs[id].phase.AtExec?
    ensures
      var s := Reach(v, before);
      var t := Next(v, Next(v, s, Fail(id, true, exit, landed)), Advance(id, inputs));
      && s.journal.Some? && s.journal.value.state == Running && s.journal.value.run == s.procs[id].run
      && t.journal == Some(Journal(FailedState(s.journal.value.stage, exit), s.journal.value.stage, s.procs[id].run))
      && id < |t.procs| && t.procs[id].phase == Ended(false)
  {
    ReachInv(v, before);
    assert PhaseOk(Reach(v, before), id);
  }
}
