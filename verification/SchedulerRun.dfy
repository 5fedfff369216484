/** One invocation as it runs, against the files of the state directory. Every execution of
    it, however its operations end, is a run of the step system. */
module SchedulerRun {
  import opened Foundations
  import opened CatalogCheck
  import opened Scheduler
  import opened SchedulerTheorems
  import opened SchedulerStages

  /** How one operation ends. What raises or dies may have had its effect. */
  datatype Fate = Succeeds | Raises(caught: bool, exit: Option<int>, landed: bool) | Dies(landed: bool)

  predicate Lands(fate: Fate) {
    fate.Succeeds? || fate.landed
  }

  function StepOf(id: nat, fate: Fate, inputs: Inputs): Step {
    match fate
    case Succeeds => Advance(id, inputs)
    case Raises(caught, exit, landed) => Fail(id, caught, exit, landed)
    case Dies(landed) => Crash(id, landed)
  }

  ghost predicate Follows(v: Verifier, a: State, b: State) {
    exists steps :: b == RunSteps(v, a, steps)
  }

  lemma FollowsNext(v: Verifier, a: State, b: State, step: Step)
    requires Follows(v, a, b)
    ensures Follows(v, a, Next(v, b, step))
  {
    var steps :| b == RunSteps(v, a, steps);
    RunConcat(v, a, steps, [step]);
    assert RunSteps(v, b, [step]) == RunSteps(v, Next(v, b, step), []) by { assert [step][1..] == []; }
    assert Next(v, b, step) == RunSteps(v, a, steps + [step]);
  }

  lemma FollowsItself(v: Verifier, a: State)
    ensures Follows(v, a, a)
  {
    assert a == RunSteps(v, a, []);
  }

  /** The state directory. `model` is history: the state of the step system it stands for. */
  class StateDir {
    var journal: Option<Journal>
    var last: Option<Freshness>
    var locked: bool
    ghost var model: State

    ghost predicate Agrees()
      reads this
    {
      model.journal == journal && model.last == last && (model.lock.Some? <==> locked)
    }

    /** This invocation is inside the lock, at this place of its run. */
    ghost predicate At(id: nat, run: Run, phase: Phase)
      reads this
    {
      && id < |model.procs| && model.procs[id].run == run && model.procs[id].phase == phase
      && model.lock == Some(id) && Agrees()
    }

    /** This invocation is about to write this journal. */
    ghost predicate Writes(id: nat, run: Run, state: JournalState, stage: Stage)
      reads this
    {
      && id < |model.procs| && model.procs[id].run == run && Agrees()
      && match model.procs[id].phase
         case AtAllocate => state == Running && stage == Allocated
         case AtJournal(i) => state == Running && stage == StageAt(i)
         case AtHandler(s, g) => state == s && stage == g
         case _ => false
    }

    constructor ()
      ensures Agrees() && model == INITIAL
    {
      journal, last, locked, model := None, None, false, INITIAL;
    }

    /** One journal write. */
    method WriteJournal(
          v: Verifier, ghost id: nat, state: JournalState, stage: Stage, run: Run, fate: Fate, ghost inputs: Inputs,
          ghost before: State)
      requires Follows(v, before, model)
      requires Writes(id, run, state, stage)
      modifies this
      ensures model == Next(v, old(model), StepOf(id, fate, inputs)) && Follows(v, before, model)
      ensures journal == model.journal && last == model.last && locked == old(locked)
      ensures journal == if Lands(fate) then Some(Journal(state, stage, run)) else old(journal)
      ensures last == old(last)
    {
      if Lands(fate) { journal := Some(Journal(state, stage, run)); }
      FollowsNext(v, before, model, StepOf(id, fate, inputs));
      model := Next(v, model, StepOf(id, fate, inputs));
    }

    /** One operation without an effect on these files. */
    method Operate(v: Verifier, ghost id: nat, fate: Fate, ghost inputs: Inputs, ghost before: State)
      requires Follows(v, before, model) && id < |model.procs| && Agrees()
      requires var p := model.procs[id].phase; p.AtMkdir? || p.AtExec? || p.AtReport?
      modifies this`model
      ensures model == Next(v, old(model), StepOf(id, fate, inputs)) && Follows(v, before, model)
      ensures journal == model.journal && last == model.last
    {
      FollowsNext(v, before, model, StepOf(id, fate, inputs));
      model := Next(v, model, StepOf(id, fate, inputs));
    }

    /** The lock goes with the file descriptor. */
    method Release()
      requires model.lock.None? && model.journal == journal && model.last == last
      modifies this`locked
      ensures Agrees()
    {
      locked := false;
    }

    /** An exception has been caught: the handler writes the journal once more. */
    method Handle(
          v: Verifier, ghost id: nat, state: JournalState, stage: Stage, run: Run, fate: Fate, ghost inputs: Inputs,
          ghost before: State)
      requires Follows(v, before, model) && At(id, run, AtHandler(state, stage))
      modifies this
      ensures Agrees() && Follows(v, before, model)
      ensures |model.procs| == |old(model).procs| && model.procs[id].phase == Ended(false)
      ensures journal == if Lands(fate) then Some(Journal(state, stage, run)) else old(journal)
      ensures last == old(last)
    {
      WriteJournal(v, id, state, stage, run, fate, inputs, before);
      Release();
    }
  }

  /** What every piece of an invocation keeps: the directory follows the step system, and no
      other invocation is touched. */
  ghost predicate OnCourse(dir: StateDir, v: Verifier, id: nat, before: State)
    reads dir
  {
    dir.Agrees() && |dir.model.procs| == id + 1 && Follows(v, before, dir.model)
  }

  ghost predicate Over(dir: StateDir, v: Verifier, id: nat, before: State, success: bool)
    reads dir
  {
    OnCourse(dir, v, id, before) && dir.model.procs[id].phase == Ended(success)
  }

  /** A failed operation: into the handler if an exception was caught, out otherwise. */
  method Leave(
        dir: StateDir, v: Verifier, ghost id: nat, fate: Fate, next: Fate, state: JournalState, stage: Stage,
        run: Run, ghost inputs: Inputs, ghost before: State)
    requires |dir.model.procs| == id + 1 && Follows(v, before, dir.model) && !fate.Succeeds?
    requires dir.model.journal == dir.journal && dir.model.last == dir.last
    requires if fate.Raises? && fate.caught then dir.At(id, run, AtHandler(state, stage))
             else dir.model.lock.None? && dir.model.procs[id].phase == Ended(false)
    modifies dir
    ensures Over(dir, v, id, before, false)
    ensures dir.journal ==
            if fate.Raises? && fate.caught && Lands(next) then Some(Journal(state, stage, run)) else old(dir.journal)
    ensures dir.last == old(dir.last)
  {
    if fate.Raises? && fate.caught {
      dir.Handle(v, id, state, stage, run, next, inputs, before);
    } else {
      dir.Release();
    }
  }

  /** From the lock to the first journal. */
  method Enter(
        dir: StateDir, v: Verifier, ghost id: nat, run: Run, mkdir: Fate, first: Fate, ghost inputs: Inputs,
        ghost before: State)
    returns (ok: bool)
    requires OnCourse(dir, v, id, before) && dir.model.procs[id] == Proc(run, None, AtLock)
    requires dir.model.lock.Some? ==> dir.model.lock.value < id
    modifies dir
    ensures ok ==> OnCourse(dir, v, id, before) && dir.At(id, run, AtJournal(0))
    ensures !ok ==> Over(dir, v, id, before, false)
    ensures ok <==> !old(dir.locked) && old(dir.journal).None? && mkdir.Succeeds? && first.Succeeds?
    ensures dir.journal == if !old(dir.locked) && old(dir.journal).None? && mkdir.Succeeds? && Lands(first)
                           then Some(Journal(Running, Allocated, run)) else old(dir.journal)
    ensures dir.last == old(dir.last)
  {
    ok := TakeTheLock(dir, v, id, run, inputs, before);
    if !ok { return; }
    dir.Operate(v, id, mkdir, inputs, before);
    if !mkdir.Succeeds? { dir.Release(); return false; }
    dir.WriteJournal(v, id, Running, Allocated, run, first, inputs, before);
    if !first.Succeeds? { dir.Release(); return false; }
  }

  /** The lock, then the look for a journal. */
  method TakeTheLock(
        dir: StateDir, v: Verifier, ghost id: nat, run: Run, ghost inputs: Inputs, ghost before: State)
    returns (ok: bool)
    requires OnCourse(dir, v, id, before) && dir.model.procs[id] == Proc(run, None, AtLock)
    requires dir.model.lock.Some? ==> dir.model.lock.value < id
    modifies dir
    ensures ok <==> !old(dir.locked) && old(dir.journal).None?
    ensures ok ==> OnCourse(dir, v, id, before) && dir.At(id, run, AtMkdir)
    ensures !ok ==> Over(dir, v, id, before, false)
    ensures dir.journal == old(dir.journal) && dir.last == old(dir.last)
  {
    FollowsNext(v, before, dir.model, Advance(id, inputs));
    dir.model := Next(v, dir.model, Advance(id, inputs));
    if dir.locked { return false; }
    dir.locked := true;
    FollowsNext(v, before, dir.model, Advance(id, inputs));
    dir.model := Next(v, dir.model, Advance(id, inputs));
    if dir.journal.Some? { dir.Release(); return false; }
    return true;
  }

  /** The journal of a stage is written before the stage is started. */
  method JournalStage(
        dir: StateDir, v: Verifier, ghost id: nat, i: nat, run: Run, fate: Fate, next: Fate, ghost inputs: Inputs,
        ghost before: State)
    returns (ok: bool)
    requires OnCourse(dir, v, id, before) && dir.At(id, run, AtJournal(i))
    modifies dir
    ensures ok ==> OnCourse(dir, v, id, before) && dir.At(id, run, AtExec(i))
    ensures ok ==> dir.model.procs[id].inputs == old(dir.model.procs[id].inputs)
    ensures ok <==> fate.Succeeds?
    ensures dir.journal == if fate.Raises? && fate.caught && Lands(next) then Some(Journal(Failed, Planned(i), run))
                           else if Lands(fate) then Some(Journal(Running, Planned(i), run)) else old(dir.journal)
    ensures !ok ==> Over(dir, v, id, before, false)
  {
    NextStage(i);
    dir.WriteJournal(v, id, Running, StageAt(i), run, fate, inputs, before);
    ok := fate.Succeeds?;
    if !ok { Leave(dir, v, id, fate, next, Failed, StageAt(i), run, inputs, before); }
  }

  /** The stage itself; the catalog stage brings the inputs of the loop. When it fails, the handler
      leaves failed or reconciliation_required, by stage and exit code, if its write takes effect. */
  method ExecuteStage(
        dir: StateDir, v: Verifier, ghost id: nat, i: nat, run: Run, fate: Fate, next: Fate, ghost inputs: Inputs,
        ghost before: State)
    returns (ok: bool)
    requires OnCourse(dir, v, id, before) && dir.At(id, run, AtExec(i))
    modifies dir
    ensures ok ==> OnCourse(dir, v, id, before)
    ensures ok ==> dir.model.procs[id].inputs ==
                   if i + 1 == FIXED_STAGES then Some(inputs) else old(dir.model.procs[id].inputs)
    ensures ok ==> dir.At(id, run, AfterStage(v, i, dir.model.procs[id].inputs))
    ensures !ok ==> Over(dir, v, id, before, false)
    ensures ok <==> fate.Succeeds?
    ensures dir.journal == if fate.Raises? && fate.caught && Lands(next)
                           then Some(Journal(FailedState(Planned(i), fate.exit), Planned(i), run)) else old(dir.journal)
  {
    NextStage(i);
    dir.Operate(v, id, fate, inputs, before);
    ok := fate.Succeeds?;
    if !ok {
      var state := FailureState(i, if fate.Raises? then fate.exit else None);
      Leave(dir, v, id, fate, next, state, StageAt(i), run, inputs, before);
    }
  }

  /** Judge the catalog and record success. */
  method RecordSuccess(
        dir: StateDir, v: Verifier, ghost id: nat, run: Run, stage: Stage, fate: Fate, next: Fate, inputs: Inputs,
        ghost before: State)
    returns (ok: bool)
    requires OnCourse(dir, v, id, before) && dir.At(id, run, AtFresh) && dir.model.procs[id].inputs == Some(inputs)
    requires stage == StageAt(FIXED_STAGES - 1 + v.points(inputs))
    modifies dir
    ensures ok ==> OnCourse(dir, v, id, before) && dir.At(id, run, AtReport)
    ensures ok ==> dir.model.procs[id].inputs == Some(inputs)
    ensures
      var accepted := v.verdict(inputs).Some? && v.verdict(inputs).value.run == run.business;
      && (ok <==> accepted && fate.Succeeds?)
      && dir.last == (if accepted && Lands(fate) then v.verdict(inputs) else old(dir.last))
      && dir.journal == if (!accepted || (fate.Raises? && fate.caught)) && Lands(next)
                        then Some(Journal(Failed, Planned(4 + v.points(inputs)), run)) else old(dir.journal)
    ensures !ok ==> Over(dir, v, id, before, false)
  {
    NextStage(4 + v.points(inputs));
    var record := v.verdict(inputs);
    if record.None? || record.value.run != run.business {
      Refuse(dir, v, id, run, stage, next, inputs, before);
      return false;
    }
    if Lands(fate) { dir.last := record; }
    FollowsNext(v, before, dir.model, StepOf(id, fate, inputs));
    dir.model := Next(v, dir.model, StepOf(id, fate, inputs));
    ok := fate.Succeeds?;
    if !ok { Leave(dir, v, id, fate, next, Failed, stage, run, inputs, before); }
  }

  /** The catalog is refused: the handler journals that. */
  method Refuse(
        dir: StateDir, v: Verifier, ghost id: nat, run: Run, stage: Stage, next: Fate, ghost inputs: Inputs,
        ghost before: State)
    requires OnCourse(dir, v, id, before) && dir.At(id, run, AtFresh) && dir.model.procs[id].inputs == Some(inputs)
    requires v.verdict(inputs).None? || v.verdict(inputs).value.run != run.business
    requires stage == StageAt(FIXED_STAGES - 1 + v.points(inputs))
    modifies dir
    ensures Over(dir, v, id, before, false) && dir.last == old(dir.last)
    ensures dir.journal == if Lands(next) then Some(Journal(Failed, stage, run)) else old(dir.journal)
  {
    FollowsNext(v, before, dir.model, Advance(id, inputs));
    dir.model := Next(v, dir.model, Advance(id, inputs));
    dir.Handle(v, id, Failed, stage, run, next, inputs, before);
  }

  method Report(
        dir: StateDir, v: Verifier, ghost id: nat, run: Run, stage: Stage, fate: Fate, next: Fate,
        ghost inputs: Inputs, ghost before: State)
    returns (ok: bool)
    requires OnCourse(dir, v, id, before) && dir.At(id, run, AtReport) && dir.model.procs[id].inputs == Some(inputs)
    requires stage == StageAt(FIXED_STAGES - 1 + v.points(inputs))
    modifies dir
    ensures ok ==> OnCourse(dir, v, id, before) && dir.At(id, run, AtUnlink)
    ensures ok <==> fate.Succeeds?
    ensures dir.last == old(dir.last)
    ensures dir.journal == if fate.Raises? && fate.caught && Lands(next)
                           then Some(Journal(Failed, Planned(4 + v.points(inputs)), run)) else old(dir.journal)
    ensures !ok ==> Over(dir, v, id, before, false)
  {
    NextStage(4 + v.points(inputs));
    dir.Operate(v, id, fate, inputs, before);
    ok := fate.Succeeds?;
    if !ok { Leave(dir, v, id, fate, next, Failed, stage, run, inputs, before); }
  }

  /** The journal is removed last, then the lock goes. */
  method RemoveJournalLast(
        dir: StateDir, v: Verifier, ghost id: nat, run: Run, fate: Fate, ghost inputs: Inputs, ghost before: State)
    returns (success: bool)
    requires OnCourse(dir, v, id, before) && dir.At(id, run, AtUnlink)
    modifies dir
    ensures Over(dir, v, id, before, success) && dir.last == old(dir.last)
    ensures success <==> fate.Succeeds?
    ensures dir.journal == if Lands(fate) then None else old(dir.journal)
  {
    if Lands(fate) { dir.journal := None; }
    FollowsNext(v, before, dir.model, StepOf(id, fate, inputs));
    dir.model := Next(v, dir.model, StepOf(id, fate, inputs));
    success := fate.Succeeds?;
    dir.Release();
  }

  /** run_once. The directory follows the step system, and the invocation ends; so everything
      proved of all histories of the step system holds of the files an invocation leaves. On
      success the journal is gone and the freshness record is the verified one, of this run. */
  method RunOnce(dir: StateDir, v: Verifier, run: Run, fates: nat -> Fate, inputs: Inputs) returns (success: bool)
    requires dir.Agrees() && (dir.model.lock.Some? ==> dir.model.lock.value < |dir.model.procs|)
    modifies dir
    ensures Over(dir, v, |old(dir.model).procs|, old(dir.model), success)
    ensures success ==> dir.journal.None? && dir.last == v.verdict(inputs) && dir.last.Some?
    ensures success ==> dir.last.value.run == run.business
  {
    ghost var before := dir.model;
    ghost var id := |before.procs|;
    FollowsItself(v, before);
    FollowsNext(v, before, dir.model, Start(run));
    dir.model := Next(v, dir.model, Start(run));
    success := Enter(dir, v, id, run, fates(0), fates(1), inputs, before);
    if !success { return; }
    var n: nat;
    success, n := RunStages(dir, v, id, run, fates, inputs, before);
    if !success { return; }
    success := Conclude(dir, v, id, run, fates, n, inputs, before);
  }

  /** The stages, one after the other: the fixed ones, then one for every point of the catalog. */
  method RunStages(
        dir: StateDir, v: Verifier, ghost id: nat, run: Run, fates: nat -> Fate, inputs: Inputs, ghost before: State)
    returns (ok: bool, n: nat)
    requires OnCourse(dir, v, id, before) && dir.At(id, run, AtJournal(0))
    modifies dir
    ensures ok ==> OnCourse(dir, v, id, before) && dir.At(id, run, AtFresh)
    ensures ok ==> dir.model.procs[id].inputs == Some(inputs)
    ensures !ok ==> Over(dir, v, id, before, false)
  {
    var i, stages := 0, FIXED_STAGES;
    n := 2;
    while i < stages
      invariant 0 <= i <= stages && (i < FIXED_STAGES ==> stages == FIXED_STAGES)
      invariant OnCourse(dir, v, id, before) && dir.At(id, run, if i < stages then AtJournal(i) else AtFresh)
      invariant i >= FIXED_STAGES ==> stages == FIXED_STAGES + v.points(inputs)
      invariant i >= FIXED_STAGES ==> dir.model.procs[id].inputs == Some(inputs)
      decreases FIXED_STAGES + v.points(inputs) - i
    {
      ok := JournalStage(dir, v, id, i, run, fates(n), fates(n + 1), inputs, before);
      if !ok { return; }
      ok := ExecuteStage(dir, v, id, i, run, fates(n + 1), fates(n + 2), inputs, before);
      if !ok { return; }
      if i + 1 == FIXED_STAGES { stages := FIXED_STAGES + v.points(inputs); }
      i, n := i + 1, n + 2;
    }
    ok := true;
  }

  method Conclude(
        dir: StateDir, v: Verifier, ghost id: nat, run: Run, fates: nat -> Fate, n: nat, inputs: Inputs,
        ghost before: State)
    returns (success: bool)
    requires OnCourse(dir, v, id, before) && dir.At(id, run, AtFresh) && dir.model.procs[id].inputs == Some(inputs)
    modifies dir
    ensures Over(dir, v, id, before, success)
    ensures success ==> dir.journal.None? && dir.last == v.verdict(inputs) && dir.last.Some?
    ensures success ==> dir.last.value.run == run.business
  {
    var stage := StageAt(FIXED_STAGES - 1 + v.points(inputs));
    success := RecordSuccess(dir, v, id, run, stage, fates(n), fates(n + 1), inputs, before);
    if !success { return; }
    success := Report(dir, v, id, run, stage, fates(n + 1), fates(n + 2), inputs, before);
    if !success { return; }
    success := RemoveJournalLast(dir, v, id, run, fates(n + 2), inputs, before);
  }
}
