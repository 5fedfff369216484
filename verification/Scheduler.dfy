/** The scheduled coordinator as a step system: any number of invocations, each of which may
    be rejected, fail or crash at any point, one durable journal, one lock and one freshness
    record. A schedule is any sequence of steps; a step that is not enabled changes nothing. */
module Scheduler {
  import opened Foundations
  import opened CatalogCheck

  /** The ids a run allocates for itself. */
  datatype Run = Run(ledger: string, business: string, cutoff: string)

  datatype Stage =
    | Allocated | LedgerPublish | LedgerFetch | BusinessPublish | BusinessFetch | BusinessCatalog | CatalogLedgerFetch

  datatype JournalState = Running | Failed | ReconciliationRequired

  /** pending-run.json */
  datatype Journal = Journal(state: JournalState, stage: Stage, run: Run)

  /** Where an invocation is; `i` numbers the external stages it executes. */
  datatype Phase =
    | AtLock                                        // about to take the lock
    | AtCheck                                       // about to look for a journal
    | AtMkdir
    | AtAllocate                                    // about to write the first journal
    | AtJournal(i: nat)                             // about to journal stage i
    | AtExec(i: nat)                                // about to execute stage i
    | AtFresh                                       // about to judge the catalog and record success
    | AtReport                                      // metrics and log line
    | AtUnlink                                      // about to remove the journal
    | AtHandler(state: JournalState, stage: Stage)  // an exception handler about to write the journal
    | Ended(success: bool)

  /** `inputs` is what the catalog stage brought, with the downloads that follow. */
  datatype Proc = Proc(run: Run, inputs: Option<Inputs>, phase: Phase)

  /** `journal` in an Exec event is what the disk held when the stage was started. */
  datatype Event =
    | Exec(proc: nat, run: Run, stage: Stage, journal: Option<Journal>)
    | Recorded(proc: nat, record: Freshness)
    | OperatorRemoved

  /** `open` is history: the invocation that has executed a stage since its last freshness record
      and since the last operator removal. No step consults it. */
  datatype State = State(
    journal: Option<Journal>, last: Option<Freshness>, lock: Option<nat>,
    procs: seq<Proc>, log: seq<Event>, open: Option<nat>)

  const INITIAL := State(None, None, None, [], [], None)

  /** How many catalog points an input has, and the record its verification yields. */
  datatype Verifier = Verifier(points: Inputs -> nat, verdict: Inputs -> Option<Freshness>)

  datatype Step =
    | Start(run: Run)
    | Advance(id: nat, inputs: Inputs)                           // its next operation succeeds
    | Fail(id: nat, caught: bool, exit: Option<int>, landed: bool)  // it raises; `landed`: its effect took place anyway
    | Crash(id: nat, landed: bool)
    | RemoveJournal                                              // an operator, with the timer stopped

  const FIXED_STAGES: nat := 5

  function StageAt(i: nat): Stage {
    if i == 0 then LedgerPublish else if i == 1 then LedgerFetch else if i == 2 then BusinessPublish
    else if i == 3 then BusinessFetch else if i == 4 then BusinessCatalog else CatalogLedgerFetch
  }

  /** What comes after stage i has succeeded. */
  function AfterStage(v: Verifier, i: nat, inputs: Option<Inputs>): Phase {
    if i + 1 < FIXED_STAGES then AtJournal(i + 1)
    else if inputs.Some? && i + 1 < FIXED_STAGES + v.points(inputs.value) then AtJournal(i + 1)
    else AtFresh
  }

  /** The state a failed stage leaves in the journal: only a publisher's ambiguous exit asks for
      reconciliation. */
  function FailureState(i: nat, exit: Option<int>): JournalState {
    if StageAt(i) in {LedgerPublish, BusinessPublish} && exit in {Some(75), Some(76)}
    then ReconciliationRequired else Failed
  }

  predicate InLock(p: Phase) {
    !p.AtLock? && !p.Ended?
  }

  function Update(s: State, id: nat, phase: Phase): State
    requires id < |s.procs|
  {
    s.(procs := s.procs[id := s.procs[id].(phase := phase)],
       lock := if phase.Ended? && s.lock == Some(id) then None else s.lock)
  }

  function Write(s: State, state: JournalState, stage: Stage, run: Run): State {
    s.(journal := Some(Journal(state, stage, run)))
  }

  function Execute(s: State, id: nat, i: nat): State
    requires id < |s.procs|
  {
    s.(log := s.log + [Exec(id, s.procs[id].run, StageAt(i), s.journal)], open := Some(id))
  }

  /** The record an invocation may write: verified, and about its own run. */
  function Verdict(v: Verifier, p: Proc): Option<Freshness> {
    if p.inputs.None? then None
    else
      var record := v.verdict(p.inputs.value);
      if record.Some? && record.value.run == p.run.business then record else None
  }

  function Record(s: State, id: nat, record: Freshness): State {
    s.(last := Some(record), log := s.log + [Recorded(id, record)],
       open := if s.open == Some(id) then None else s.open)
  }

  /** The durable effect of the next operation of an invocation. */
  function Effect(v: Verifier, s: State, id: nat): State
    requires id < |s.procs|
  {
    var p := s.procs[id];
    match p.phase
    case AtAllocate => Write(s, Running, Allocated, p.run)
    case AtJournal(i) => Write(s, Running, StageAt(i), p.run)
    case AtExec(i) => Execute(s, id, i)
    case AtFresh => if Verdict(v, p).Some? then Record(s, id, Verdict(v, p).value) else s
    case AtUnlink => s.(journal := None)
    case AtHandler(state, stage) => Write(s, state, stage, p.run)
    case _ => s
  }

  /** Where an invocation goes when its operation succeeds. */
  function Onward(v: Verifier, s: State, id: nat): Phase
    requires id < |s.procs|
  {
    var p := s.procs[id];
    match p.phase
    case AtLock => if s.lock.None? then AtCheck else Ended(false)
    case AtCheck => if s.journal.None? then AtMkdir else Ended(false)
    case AtMkdir => AtAllocate
    case AtAllocate => AtJournal(0)
    case AtJournal(i) => AtExec(i)
    case AtExec(i) => AfterStage(v, i, p.inputs)
    case AtFresh => if Verdict(v, p).Some? then AtReport else AtHandler(Failed, StageAt(LastStage(v, p)))
    case AtReport => AtUnlink
    case AtUnlink => Ended(true)
    case AtHandler(_, _) => Ended(false)
    case Ended(_) => p.phase
  }

  /** The number of the last stage an invocation executes. */
  function LastStage(v: Verifier, p: Proc): nat {
    FIXED_STAGES - 1 + if p.inputs.Some? then v.points(p.inputs.value) else 0
  }

  /** Where an exception leads: into a handler inside the try block, out of the invocation
      everywhere else and for the exceptions no handler names. */
  function Recovery(v: Verifier, p: Proc, caught: bool, exit: Option<int>): Phase {
    if !caught then Ended(false)
    else match p.phase
      case AtJournal(i) => AtHandler(Failed, StageAt(i))
      case AtExec(i) => AtHandler(FailureState(i, exit), StageAt(i))
      case AtFresh => AtHandler(Failed, StageAt(LastStage(v, p)))
      case AtReport => AtHandler(Failed, StageAt(LastStage(v, p)))
      case _ => Ended(false)
  }

  predicate Live(s: State, id: nat) {
    id < |s.procs| && !s.procs[id].phase.Ended?
  }

  /** The catalog stage brings the inputs of the verification loop. */
  function Learn(s: State, id: nat, inputs: Inputs): State
    requires id < |s.procs|
  {
    if s.procs[id].phase == AtExec(FIXED_STAGES - 1)
    then s.(procs := s.procs[id := s.procs[id].(inputs := Some(inputs))]) else s
  }

  function TakeLock(s: State, id: nat): State
    requires id < |s.procs|
  {
    if s.procs[id].phase.AtLock? && s.lock.None? then s.(lock := Some(id)) else s
  }

  function AdvanceProc(v: Verifier, s: State, id: nat, inputs: Inputs): State
    requires id < |s.procs|
  {
    var learned := Learn(s, id, inputs);
    Update(Effect(v, TakeLock(learned, id), id), id, Onward(v, learned, id))
  }

  function Stop(v: Verifier, s: State, id: nat, landed: bool, phase: Phase): State
    requires id < |s.procs|
  {
    Update(if landed then Effect(v, s, id) else s, id, phase)
  }

  function Next(v: Verifier, s: State, step: Step): State {
    match step
    case Start(run) => s.(procs := s.procs + [Proc(run, None, AtLock)])
    case Advance(id, inputs) => if Live(s, id) then AdvanceProc(v, s, id, inputs) else s
    case Fail(id, caught, exit, landed) =>
      if Live(s, id) then Stop(v, s, id, landed, Recovery(v, s.procs[id], caught, exit)) else s
    case Crash(id, landed) => if Live(s, id) then Stop(v, s, id, landed, Ended(false)) else s
    case RemoveJournal =>
      if s.lock.None? then s.(journal := None, log := s.log + [OperatorRemoved], open := None) else s
  }

  function RunSteps(v: Verifier, s: State, steps: seq<Step>): State
    decreases |steps|
  {
    if steps == [] then s else RunSteps(v, Next(v, s, steps[0]), steps[1..])
  }

  function Reach(v: Verifier, steps: seq<Step>): State {
    RunSteps(v, INITIAL, steps)
  }
}
