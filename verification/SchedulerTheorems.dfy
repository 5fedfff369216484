/** What the coordinator guarantees over every history of invocations. */
module SchedulerTheorems {
  import opened Foundations
  import opened Retention
  import opened CatalogCheck
  import opened CatalogTheorems
  import opened Scheduler
  import opened SchedulerInvariant

  // ----- safety over any history -----

  /** Whenever a stage is started, the durable journal says that exactly this run is running
      exactly this stage. */
  lemma StagesRunJournaled(v: Verifier, steps: seq<Step>, i: nat)
    requires i < |Reach(v, steps).log| && Reach(v, steps).log[i].Exec?
    ensures var e := Reach(v, steps).log[i]; e.journal == Some(Journal(Running, e.stage, e.run))
  {
    ReachInv(v, steps);
    assert EventOk(v, Reach(v, steps).procs, Reach(v, steps).log[i]);
  }

  /** Two invocations never both execute stages without, in between, a freshness record that
      names the earlier run or an operator's removal of the journal. */
  lemma RunsAreSeparated(v: Verifier, steps: seq<Step>, i: nat, j: nat)
    requires i < j < |Reach(v, steps).log| && Reach(v, steps).log[i].Exec? && Reach(v, steps).log[j].Exec?
    requires Reach(v, steps).log[i].proc != Reach(v, steps).log[j].proc
    ensures
      var log := Reach(v, steps).log;
      exists l :: i < l < j &&
        (log[l].OperatorRemoved? || (log[l].Recorded? && log[l].record.run == log[i].run.business))
  {
    ReachInv(v, steps);
    var s := Reach(v, steps);
    var l :| i < l < j && (s.log[l].OperatorRemoved? || (s.log[l].Recorded? && s.log[l].proc == s.log[i].proc));
    assert EventOk(v, s.procs, s.log[i]) && EventOk(v, s.procs, s.log[l]);
  }

  /** A run that has executed a stage and neither recorded success nor was cleared away by an
      operator since is still named by the journal, whatever happened to its process, and
      every later invocation is turned away by it. */
  lemma UnfinishedRunStaysJournaled(v: Verifier, steps: seq<Step>, i: nat)
    requires i < |Reach(v, steps).log| && Reach(v, steps).log[i].Exec?
    requires !Closed(Reach(v, steps).log, i)
    ensures
      var s := Reach(v, steps);
      && s.journal.Some? && s.journal.value.run == s.log[i].run
      && forall id: nat, inputs :: Live(s, id) && s.procs[id].phase.AtCheck? ==>
           Onward(v, Learn(s, id, inputs), id) == Ended(false)
  {
    ReachInv(v, steps);
    var s := Reach(v, steps);
    assert EventOk(v, s.procs, s.log[i]);
  }

  // ----- what success stands for -----

  function PointsOf(q: Inputs): nat {
    if q.catalog.Arr? then |ValidItems(q.catalog.items)| else 0
  }

  /** The verification a run really performs. */
  function VerifierOf(k: Platform): Verifier {
    Verifier(
      (q: Inputs) => PointsOf(q),
      (q: Inputs) =>
        if CatalogOk(k, JudgeOf(k, q), q) then Some(Freshness(q.run, ManifestCutoff(k, q), PointsOf(q))) else None)
  }

  /** The record is about a catalog whose newest COMPLETE point is this run, of the recorded
      cutoff, and every valid point of which is backed by a verified ledger archive. */
  ghost predicate Justified(k: Platform, q: Inputs, record: Freshness) {
    && q.catalog.Arr?
    && record.run == q.run
    && record.points == |ValidItems(q.catalog.items)| >= 2
    && NewestIs(Entries(k, q.catalog.items), record.run, k.Utc(record.cutoff))
    && AllBacked(k, q, ValidItems(q.catalog.items))
  }

  ghost predicate AllBacked(k: Platform, q: Inputs, items: seq<Json>) {
    && (forall i, j :: 0 <= i < j < |items| ==> RunOf(k, items[i]) != RunOf(k, items[j]))
    && (forall i :: 0 <= i < |items| ==> q.fetch(i).Some? && LedgerBehind(k, q.key, items[i], q.fetch(i).value))
  }

  /** The record is justified by what this invocation had fetched itself. */
  ghost predicate JustifiedBy(k: Platform, p: Proc, record: Freshness) {
    p.inputs.Some? && record.run == p.run.business && Justified(k, p.inputs.value, record)
  }

  lemma VerdictJustified(k: Platform, p: Proc, record: Freshness)
    requires Lawful(k) && Verdict(VerifierOf(k), p) == Some(record)
    ensures JustifiedBy(k, p, record)
  {
    RecordedRunIsNewest(k, p.inputs.value);
  }

  lemma RecordJustified(k: Platform, v: Verifier, s: State, i: nat)
    requires Lawful(k) && v == VerifierOf(k) && i < |s.log| && s.log[i].Recorded? && EventOk(v, s.procs, s.log[i])
    ensures s.log[i].proc < |s.procs| && JustifiedBy(k, s.procs[s.log[i].proc], s.log[i].record)
  {
    VerdictJustified(k, s.procs[s.log[i].proc], s.log[i].record);
  }

  /** Freshness never lies: at any time, the stored record was written by a run about itself,
      and in the catalog that very invocation had fetched, the run is the newest COMPLETE point
      and every valid point is backed by a ledger archive it had fetched. */
  lemma FreshnessIsJustified(k: Platform, steps: seq<Step>)
    requires Lawful(k) && Reach(VerifierOf(k), steps).last.Some?
    ensures
      var s := Reach(VerifierOf(k), steps);
      exists i :: 0 <= i < |s.log| && s.log[i].Recorded? && s.log[i].record == s.last.value
        && s.log[i].proc < |s.procs| && JustifiedBy(k, s.procs[s.log[i].proc], s.last.value)
  {
    var v := VerifierOf(k);
    var s := Reach(v, steps);
    ReachInv(v, steps);
    var i :| 0 <= i < |s.log| && s.log[i].Recorded? && s.log[i].record == s.last.value;
    RecordJustified(k, v, s, i);
  }

  /** A run that reports success has recorded it, about itself, and justified by what it had
      fetched itself. */
  lemma SuccessIsJustified(k: Platform, steps: seq<Step>, id: nat)
    requires Lawful(k) && id < |Reach(VerifierOf(k), steps).procs|
    requires Reach(VerifierOf(k), steps).procs[id].phase == Ended(true)
    ensures
      var s := Reach(VerifierOf(k), steps);
      exists record :: Recorded(id, record) in s.log && JustifiedBy(k, s.procs[id], record)
  {
    var v := VerifierOf(k);
    var s := Reach(v, steps);
    ReachInv(v, steps);
    assert HasRecorded(s.log, id);
    var i :| 0 <= i < |s.log| && s.log[i].Recorded? && s.log[i].proc == id;
    RecordJustified(k, v, s, i);
    assert s.log[i] == Recorded(id, s.log[i].record);
  }

  // ----- progress -----

  predicate Touches(step: Step, id: nat) {
    match step
    case Advance(other, _) => other == id
    case Fail(other, _, _, _) => other == id
    case Crash(other, _) => other == id
    case _ => false
  }

  /** Every step of this invocation succeeds; its catalog stage brings q. */
  ghost predicate Undisturbed(steps: seq<Step>, id: nat, q: Inputs) {
    forall i :: 0 <= i < |steps| && Touches(steps[i], id) ==> steps[i] == Advance(id, q)
  }

  function Operations(steps: seq<Step>, id: nat): nat {
    if steps == [] then 0 else (if Touches(steps[0], id) then 1 else 0) + Operations(steps[1..], id)
  }

  /** How many operations a successful run still has ahead. */
  function Left(v: Verifier, q: Inputs, phase: Phase): nat {
    var total := FIXED_STAGES + v.points(q);
    match phase
    case AtLock => 2 * total + 7
    case AtCheck => 2 * total + 6
    case AtMkdir => 2 * total + 5
    case AtAllocate => 2 * total + 4
    case AtJournal(i) => if i < total then 2 * (total - i) + 3 else 0
    case AtExec(i) => if i < total then 2 * (total - i) + 2 else 0
    case AtFresh => 3
    case AtReport => 2
    case AtUnlink => 1
    case _ => 0
  }

  /** The invocation holds the lock, has found no journal, and its verification will accept. */
  ghost predicate OnTrack(v: Verifier, s: State, id: nat, q: Inputs) {
    && id < |s.procs|
    && var p := s.procs[id];
    && v.verdict(q).Some? && v.verdict(q).value.run == p.run.business
    && match p.phase
       case AtCheck => s.journal.None?
       case AtMkdir => true
       case AtAllocate => true
       case AtJournal(i) => i < FIXED_STAGES || (i < FIXED_STAGES + v.points(q) && p.inputs == Some(q))
       case AtExec(i) => i < FIXED_STAGES || (i < FIXED_STAGES + v.points(q) && p.inputs == Some(q))
       case AtFresh => p.inputs == Some(q)
       case AtReport => true
       case AtUnlink => true
       case Ended(success) => success
       case _ => false
  }

  lemma OwnStep(v: Verifier, s: State, id: nat, q: Inputs)
    requires OnTrack(v, s, id, q) && Live(s, id)
    ensures
      var t := Next(v, s, Advance(id, q));
      && OnTrack(v, t, id, q)
      && Left(v, q, t.procs[id].phase) + 1 == Left(v, q, s.procs[id].phase)
  {
  }

  /** While the lock is held, an invocation outside it is turned away and touches nothing. */
  lemma TurnedAway(v: Verifier, s: State, other: nat, inputs: Inputs, landed: bool, phase: Phase)
    requires Live(s, other) && !InLock(s.procs[other].phase) && s.lock.Some? && s.lock != Some(other)
    ensures AdvanceProc(v, s, other, inputs) == Update(s, other, Ended(false))
    ensures Stop(v, s, other, landed, phase) == Update(s, other, phase)
  {
  }

  lemma StaysIfUntouched(v: Verifier, s: State, t: State, id: nat, q: Inputs)
    requires OnTrack(v, s, id, q) && id < |t.procs| && t.procs[id] == s.procs[id]
    requires s.procs[id].phase.AtCheck? ==> t.journal == s.journal
    ensures OnTrack(v, t, id, q)
  {
  }

  lemma OtherIsOutside(v: Verifier, s: State, id: nat, q: Inputs, other: nat)
    requires Inv(v, s) && OnTrack(v, s, id, q) && s.procs[id].phase.AtCheck? && Live(s, other) && other != id
    ensures !InLock(s.procs[other].phase) && s.lock == Some(id)
  {
  }

  lemma OthersKeepProc(v: Verifier, s: State, step: Step, id: nat)
    requires id < |s.procs| && !Touches(step, id)
    ensures var t := Next(v, s, step); id < |t.procs| && t.procs[id] == s.procs[id]
  {
  }

  lemma OthersStep(v: Verifier, s: State, step: Step, id: nat, q: Inputs)
    requires Inv(v, s) && OnTrack(v, s, id, q) && !Touches(step, id)
    ensures OnTrack(v, Next(v, s, step), id, q) && Next(v, s, step).procs[id] == s.procs[id]
  {
    var t := Next(v, s, step);
    OthersKeepProc(v, s, step, id);
    if s.procs[id].phase.AtCheck? {
      assert t.journal == s.journal by {
        match step {
          case Start(_) =>
          case Advance(other, inputs) =>
            if Live(s, other) {
              OtherIsOutside(v, s, id, q, other);
              TurnedAway(v, s, other, inputs, false, Ended(false));
            }
          case Fail(other, caught, exit, landed) =>
            if Live(s, other) {
              OtherIsOutside(v, s, id, q, other);
              TurnedAway(v, s, other, q, landed, Recovery(v, s.procs[other], caught, exit));
            }
          case Crash(other, landed) =>
            if Live(s, other) {
              OtherIsOutside(v, s, id, q, other);
              TurnedAway(v, s, other, q, landed, Ended(false));
            }
          case RemoveJournal => assert s.lock == Some(id);
        }
      }
    }
    StaysIfUntouched(v, s, t, id, q);
  }

  lemma {:induction false} StaysOnTrack(v: Verifier, s: State, steps: seq<Step>, id: nat, q: Inputs)
    requires Inv(v, s) && OnTrack(v, s, id, q) && Undisturbed(steps, id, q)
    requires Operations(steps, id) >= Left(v, q, s.procs[id].phase)
    ensures
      var t := RunSteps(v, s, steps);
      id < |t.procs| && t.procs[id].phase == Ended(true)
    decreases |steps|
  {
    if steps != [] {
      var step := steps[0];
      NextKeeps(v, s, step);
      assert Undisturbed(steps[1..], id, q) by {
        assert forall i :: 0 <= i < |steps[1..]| ==> steps[1..][i] == steps[i + 1];
      }
      if Touches(step, id) {
        assert step == Advance(id, q);
        if Live(s, id) { OwnStep(v, s, id, q); }
      } else {
        OthersStep(v, s, step, id, q);
      }
      StaysOnTrack(v, Next(v, s, step), steps[1..], id, q);
    }
  }

  lemma {:induction false} RunConcat(v: Verifier, s: State, a: seq<Step>, b: seq<Step>)
    ensures RunSteps(v, s, a + b) == RunSteps(v, RunSteps(v, s, a), b)
    decreases |a|
  {
    if a == [] {
      assert a + b == b;
    } else {
      assert (a + b)[0] == a[0] && (a + b)[1..] == a[1..] + b;
      RunConcat(v, Next(v, s, a[0]), a[1..], b);
    }
  }

  /** An invocation that has the lock, finds no journal, and whose operations all succeed with a
      catalog its verification accepts, ends in success after 2 * (5 + points) + 6 operations,
      whatever other invocations do meanwhile. */
  lemma LockHolderCompletes(v: Verifier, before: seq<Step>, after: seq<Step>, id: nat, q: Inputs)
    requires id < |Reach(v, before).procs| && Reach(v, before).procs[id].phase.AtCheck?
    requires Reach(v, before).journal.None?
    requires v.verdict(q).Some? && v.verdict(q).value.run == Reach(v, before).procs[id].run.business
    requires Undisturbed(after, id, q) && Operations(after, id) >= 2 * (FIXED_STAGES + v.points(q)) + 6
    ensures
      var t := Reach(v, before + after);
      id < |t.procs| && t.procs[id].phase == Ended(true) && HasRecorded(t.log, id)
  {
    ReachInv(v, before);
    StaysOnTrack(v, Reach(v, before), after, id, q);
    RunConcat(v, INITIAL, before, after);
    ReachInv(v, before + after);
  }
}
