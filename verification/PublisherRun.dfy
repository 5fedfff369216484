/** One publisher as it runs, while any number of other clients work on the same bucket. Every
    execution of it, however its operations end, is a run of the step system. */
module PublisherRun {
  import opened Foundations
  import opened GroupRules
  import opened PublisherProtocol
  import opened PublisherInvariant
  import opened PublisherPreservation
  import opened PublisherTheorems
  import opened PublisherExitCodes
  import opened PublisherReconciliation

  /** How one operation ends: the provider answers, or it errors or the process dies, and what
      was sent may still take effect. */
  datatype Fate = Answered | Errors(sent: bool, fault: Fault) | Dies(sent: bool)

  function StepOf(id: nat, fate: Fate): Step {
    match fate
    case Answered => Advance(id)
    case Errors(sent, fault) => Fail(id, sent, fault)
    case Dies(sent) => Crash(id, sent)
  }

  /** What the exit of a publisher is when an operation is not answered. */
  function Exit(c: Client, fate: Fate): Outcome {
    match fate
    case Answered => Crashed
    case Errors(_, fault) => ErrorOutcome(c, fault)
    case Dies(_) => Crashed
  }

  /** What an operation that is not answered leads to, `last` from the upload of COMPLETE on: a dead
      process reports nothing, the commit phase only that it is unknown, any other operation whether
      the provider or something else failed. */
  ghost function Told(fate: Fate, last: bool): Outcome
    requires !fate.Answered?
  {
    if fate.Dies? then Crashed else if last then CommitUnknown
    else if fate.fault == Internal then InternalFailure else ProviderFailure
  }

  ghost predicate Follows(check: Check, a: State, b: State) {
    exists steps :: b == Run(check, a, steps)
  }

  lemma FollowsRun(check: Check, a: State, b: State, more: seq<Step>)
    requires Follows(check, a, b)
    ensures Follows(check, a, Run(check, b, more))
  {
    var steps :| b == Run(check, a, steps);
    RunConcat(check, a, steps, more);
    assert Run(check, b, more) == Run(check, a, steps + more);
  }

  lemma FollowsNext(check: Check, a: State, b: State, step: Step)
    requires Follows(check, a, b)
    ensures Follows(check, a, Next(check, b, step))
  {
    FollowsRun(check, a, b, [step]);
    assert [step][1..] == [];
    assert Run(check, b, [step]) == Run(check, Next(check, b, step), []);
  }

  /** None of these steps is an operation of this client. */
  ghost predicate Foreign(steps: seq<Step>, id: nat) {
    forall i :: 0 <= i < |steps| ==> !Touches(steps[i], id)
  }

  lemma {:induction false} ForeignKeeps(check: Check, s: State, steps: seq<Step>, id: nat)
    requires id < |s.clients| && Foreign(steps, id)
    ensures var t := Run(check, s, steps); id < |t.clients| && t.clients[id] == s.clients[id]
    decreases |steps|
  {
    if steps != [] {
      UntouchedClient(check, s, steps[0], id);
      assert Foreign(steps[1..], id) by { assert forall i :: 0 <= i < |steps[1..]| ==> steps[1..][i] == steps[i + 1]; }
      ForeignKeeps(check, Next(check, s, steps[0]), steps[1..], id);
    }
  }

  /** The bucket and the receipts on disk. `model` is the state of the step system they stand for;
      the other clients take their steps on it, so what they do to the bucket is computed from it. */
  class Bucket {
    var store: Store
    var receipts: set<Receipt>
    var model: State

    predicate Agrees()
      reads this
    {
      model.store == store && model.receipts == receipts
    }

    /** This publisher is running, at this place. */
    predicate At(id: nat, c: Client, phase: Phase)
      requires c.Publisher?
      reads this
    {
      Agrees() && id < |model.clients| && model.clients[id] == c.(phase := phase, status := Running)
    }

    constructor ()
      ensures Agrees() && model == INITIAL
    {
      store, receipts, model := map[], {}, INITIAL;
    }

    /** The others work on the bucket between two operations of this client. */
    method Others(check: Check, steps: seq<Step>, ghost before: State)
      requires Follows(check, before, model)
      modifies this
      ensures model == Run(check, old(model), steps) && Agrees() && Follows(check, before, model)
    {
      FollowsRun(check, before, model, steps);
      model := Run(check, model, steps);
      store, receipts := model.store, model.receipts;
    }
  }

  /** What every piece of a publisher keeps, and how it ends. */
  ghost predicate HasStopped(b: Bucket, check: Check, id: nat, before: State, outcome: Outcome)
    reads b
  {
    && b.Agrees() && Follows(check, before, b.model)
    && id < |b.model.clients| && b.model.clients[id].Publisher? && b.model.clients[id].status == Stopped(outcome)
  }

  /** An operation that is not answered. What it had sent is in flight, not in the store. */
  method GiveUp(
        b: Bucket, check: Check, id: nat, c: Client, phase: Phase, fate: Fate, ghost before: State)
    returns (outcome: Outcome)
    requires c.Publisher? && !fate.Answered? && b.At(id, c, phase) && Follows(check, before, b.model)
    modifies b
    ensures HasStopped(b, check, id, before, outcome) && outcome == Exit(c.(phase := phase), fate)
    ensures outcome != Committed && b.store == old(b.store)
    ensures b.model.flight == old(b.model).flight + Underway(c, phase, fate)
  {
    FollowsNext(check, before, b.model, StepOf(id, fate));
    var t := Next(check, b.model, StepOf(id, fate));
    SentStaysInFlight(check, b.model, id, fate);
    b.model := t;
    b.receipts := t.receipts;
    outcome := Exit(c.(phase := phase), fate);
  }

  /** The upload that an operation had sent when it was cut short: the lease or a member. */
  ghost function Underway(c: Client, phase: Phase, fate: Fate): set<(Key, Bytes)>
    requires c.Publisher? && !fate.Answered?
  {
    if fate.sent && phase == AtLease then {(LeaseKey(c.run), c.lease)}
    else if fate.sent && phase.AtPut? && phase.i < |c.order| && c.order[phase.i] in c.files
    then {(MemberKey(c.prefix, c.run, c.order[phase.i]), c.files[c.order[phase.i]])}
    else {}
  }

  lemma SentStaysInFlight(check: Check, s: State, id: nat, fate: Fate)
    requires Live(s, id) && s.clients[id].Publisher? && !fate.Answered?
    ensures Next(check, s, StepOf(id, fate)).store == s.store
    ensures Next(check, s, StepOf(id, fate)).flight == s.flight + Underway(s.clients[id], s.clients[id].phase, fate)
    ensures |Next(check, s, StepOf(id, fate)).clients| == |s.clients|
    ensures Next(check, s, StepOf(id, fate)).clients[id] == Halt(s.clients[id], Exit(s.clients[id], fate))
  {
  }

  /** The conditional create of the lease: past it exactly if it is answered and there was no lease;
      an answer that there is one is a conflict. */
  method TakeLease(
        b: Bucket, check: Check, id: nat, c: Client, fate: Fate, ghost before: State)
    returns (ok: bool, outcome: Outcome)
    requires c.Publisher? && b.At(id, c, AtLease) && Follows(check, before, b.model)
    modifies b
    ensures ok ==> b.At(id, c, AtProbe) && Follows(check, before, b.model)
    ensures ok <==> fate.Answered? && LeaseKey(c.run) !in old(b.store)
    ensures b.store == if ok then old(b.store)[LeaseKey(c.run) := c.lease] else old(b.store)
    ensures !ok ==>
              outcome == if fate.Answered? || fate == Errors(fate.sent, Refused) then Conflict else Told(fate, false)
    ensures !ok ==> HasStopped(b, check, id, before, outcome) && outcome != Committed
  {
    outcome := Conflict;
    if !fate.Answered? {
      outcome := GiveUp(b, check, id, c, AtLease, fate, before);
      return false, outcome;
    }
    FollowsNext(check, before, b.model, Advance(id));
    b.model := Next(check, b.model, Advance(id));
    if LeaseKey(c.run) in b.store { return false, Conflict; }
    b.store := b.store[LeaseKey(c.run) := c.lease];
    ok := true;
  }

  /** The look for an earlier COMPLETE. */
  method Probe(
        b: Bucket, check: Check, id: nat, c: Client, fate: Fate, ghost before: State)
    returns (ok: bool, outcome: Outcome)
    requires c.Publisher? && b.At(id, c, AtProbe) && Follows(check, before, b.model)
    modifies b
    ensures ok ==> b.At(id, c, AtPut(0)) && Follows(check, before, b.model)
    ensures ok <==> fate.Answered? && MemberKey(c.prefix, c.run, Complete) !in old(b.store)
    ensures b.store == old(b.store)
    ensures !ok ==> outcome == if fate.Answered? then Conflict else Told(fate, false)
    ensures !ok ==> HasStopped(b, check, id, before, outcome) && outcome != Committed
  {
    outcome := Conflict;
    if !fate.Answered? {
      outcome := GiveUp(b, check, id, c, AtProbe, fate, before);
      return false, outcome;
    }
    FollowsNext(check, before, b.model, Advance(id));
    b.model := Next(check, b.model, Advance(id));
    ok := MemberKey(c.prefix, c.run, Complete) !in b.store;
  }

  method Put(
        b: Bucket, check: Check, id: nat, c: Client, i: nat, fate: Fate, ghost before: State)
    returns (ok: bool, outcome: Outcome)
    requires c.Publisher? && CanHandle(c, i) && b.At(id, c, AtPut(i)) && Follows(check, before, b.model)
    modifies b
    ensures ok ==> b.At(id, c, AtStat(i)) && Follows(check, before, b.model)
    ensures ok <==> fate.Answered?
    ensures b.store == if ok then old(b.store)[MemberKey(c.prefix, c.run, c.order[i]) := c.files[c.order[i]]]
                       else old(b.store)
    ensures !ok ==> outcome == Told(fate, i + 1 == |c.order|)
    ensures !ok ==> HasStopped(b, check, id, before, outcome) && outcome != Committed
  {
    outcome := CommitUnknown;
    if !fate.Answered? {
      outcome := GiveUp(b, check, id, c, AtPut(i), fate, before);
      return false, outcome;
    }
    b.store := b.store[MemberKey(c.prefix, c.run, c.order[i]) := c.files[c.order[i]]];
    FollowsNext(check, before, b.model, Advance(id));
    b.model := Next(check, b.model, Advance(id));
    ok := true;
  }

  /** The size first, then the content. */
  method Stat(
        b: Bucket, check: Check, id: nat, c: Client, i: nat, fate: Fate, ghost before: State)
    returns (ok: bool, outcome: Outcome)
    requires c.Publisher? && CanHandle(c, i) && b.At(id, c, AtStat(i)) && Follows(check, before, b.model)
    modifies b
    ensures ok ==> b.At(id, c, AtRead(i)) && Follows(check, before, b.model)
    ensures
      var key := MemberKey(c.prefix, c.run, c.order[i]);
      && (ok <==> fate.Answered? && key in old(b.store) && |old(b.store)[key]| == |c.files[c.order[i]]|)
      && (!ok ==> outcome == if !fate.Answered? then Told(fate, i + 1 == |c.order|)
                             else if i + 1 == |c.order| then CommitUnknown
                             else if key in old(b.store) then ProviderFailure else InternalFailure)
    ensures b.store == old(b.store)
    ensures !ok ==> HasStopped(b, check, id, before, outcome) && outcome != Committed
  {
    outcome := CommitUnknown;
    if !fate.Answered? {
      outcome := GiveUp(b, check, id, c, AtStat(i), fate, before);
      return false, outcome;
    }
    FollowsNext(check, before, b.model, Advance(id));
    b.model := Next(check, b.model, Advance(id));
    var key := MemberKey(c.prefix, c.run, c.order[i]);
    ok := key in b.store && |b.store[key]| == |c.files[c.order[i]]|;
    outcome := ErrorOutcome(c.(phase := AtStat(i)), if key in b.store then Provider else Internal);
  }

  function AfterRead(c: Client, i: nat): Phase
    requires c.Publisher?
  {
    if i + 1 < |c.order| then AtPut(i + 1) else AtReceipt
  }

  method Read(
        b: Bucket, check: Check, id: nat, c: Client, i: nat, fate: Fate, ghost before: State)
    returns (ok: bool, outcome: Outcome)
    requires c.Publisher? && CanHandle(c, i) && b.At(id, c, AtRead(i)) && Follows(check, before, b.model)
    modifies b
    ensures ok ==> b.At(id, c, AfterRead(c, i)) && Follows(check, before, b.model)
    ensures
      var key := MemberKey(c.prefix, c.run, c.order[i]);
      ok <==> fate.Answered? && key in old(b.store) && old(b.store)[key] == c.files[c.order[i]]
    ensures !ok ==> outcome == if !fate.Answered? then Told(fate, i + 1 == |c.order|)
                               else if i + 1 == |c.order| then CommitUnknown else ProviderFailure
    ensures b.store == old(b.store)
    ensures !ok ==> HasStopped(b, check, id, before, outcome) && outcome != Committed
  {
    outcome := ErrorOutcome(c.(phase := AtRead(i)), Provider);
    if !fate.Answered? {
      outcome := GiveUp(b, check, id, c, AtRead(i), fate, before);
      return false, outcome;
    }
    FollowsNext(check, before, b.model, Advance(id));
    b.model := Next(check, b.model, Advance(id));
    var key := MemberKey(c.prefix, c.run, c.order[i]);
    ok := key in b.store && Sha256(b.store[key]) == Sha256(c.files[c.order[i]]);
  }

  /** The receipt, after everything else. */
  method WriteReceipt(
        b: Bucket, check: Check, id: nat, c: Client, complete: Digest, fate: Fate, ghost before: State)
    returns (outcome: Outcome)
    requires c.Publisher? && check(c.run, c.files) == Some(complete)
    requires b.At(id, c, AtReceipt) && Follows(check, before, b.model)
    modifies b
    ensures outcome == if fate.Answered? then Committed else Told(fate, true)
    ensures b.store == old(b.store)
    ensures HasStopped(b, check, id, before, outcome)
    ensures outcome == Committed ==> Receipt(c.run, complete, Sha256(c.lease)) in b.receipts
  {
    if !fate.Answered? {
      outcome := GiveUp(b, check, id, c, AtReceipt, fate, before);
      return;
    }
    b.receipts := b.receipts + {Receipt(c.run, complete, Sha256(c.lease))};
    FollowsNext(check, before, b.model, Advance(id));
    b.model := Next(check, b.model, Advance(id));
    outcome := Committed;
  }

  /** One member: upload, compare the size, download and compare the content. Others may work on
      the bucket before each of the three. */
  method PublishMember(
        b: Bucket, check: Check, id: nat, c: Client, i: nat, fates: nat -> Fate, others: nat -> seq<Step>, n: nat,
        ghost before: State)
    returns (ok: bool, outcome: Outcome)
    requires c.Publisher? && CanHandle(c, i) && b.At(id, c, AtPut(i)) && Follows(check, before, b.model)
    requires forall j :: Foreign(others(j), id)
    modifies b
    ensures ok ==> b.At(id, c, AfterRead(c, i)) && Follows(check, before, b.model)
    ensures !ok ==> HasStopped(b, check, id, before, outcome) && outcome != Committed
  {
    Yield(b, check, id, c, AtPut(i), others(n), before);
    ok, outcome := Put(b, check, id, c, i, fates(n), before);
    if !ok { return; }
    Yield(b, check, id, c, AtStat(i), others(n + 1), before);
    ok, outcome := Stat(b, check, id, c, i, fates(n + 1), before);
    if !ok { return; }
    Yield(b, check, id, c, AtRead(i), others(n + 2), before);
    ok, outcome := Read(b, check, id, c, i, fates(n + 2), before);
  }

  /** The others may work on the bucket here. */
  method Yield(b: Bucket, check: Check, id: nat, c: Client, phase: Phase, steps: seq<Step>, ghost before: State)
    requires c.Publisher? && b.At(id, c, phase) && Follows(check, before, b.model) && Foreign(steps, id)
    modifies b
    ensures b.At(id, c, phase) && Follows(check, before, b.model)
  {
    ForeignKeeps(check, b.model, steps, id);
    b.Others(check, steps, before);
  }

  /** _publish, for a snapshot that has been validated. Whatever the others do in between and
      however its operations end, the bucket follows the step system and the publisher stops with
      the outcome it reports. So its exit code means what ExitCodesMeanWhatTheySay proves. */
  method Publish(
      b: Bucket, check: Check, run: string, prefix: seq<string>, files: Files, lease: Bytes,
      fates: nat -> Fate, others: nat -> seq<Step>)
    returns (outcome: Outcome)
    requires b.Agrees() && MayStart(check, run, files, lease)
    requires forall j :: Foreign(others(j), |b.model.clients|)
    modifies b
    ensures HasStopped(b, check, |old(b.model).clients|, old(b.model), outcome)
    ensures outcome == Committed ==>
              Receipt(run, check(run, files).value, Sha256(lease)) in b.receipts
  {
    ghost var before := b.model;
    var id := |b.model.clients|;
    var c := Start(b, check, run, prefix, files, lease);
    outcome := PublishFrom(b, check, id, c, check(run, files).value, fates, others, before);
  }

  /** The snapshot is checked and the random lease value made before the first request. */
  method Start(
        b: Bucket, check: Check, run: string, prefix: seq<string>, files: Files, lease: Bytes)
    returns (c: Client)
    requires b.Agrees() && MayStart(check, run, files, lease)
    modifies b
    ensures c.Publisher? && b.At(|old(b.model).clients|, c, AtLease) && Follows(check, old(b.model), b.model)
    ensures c.run == run && c.files == files && c.lease == lease
    ensures c.order != [] && forall i :: 0 <= i < |c.order| ==> c.order[i] in c.files
  {
    ghost var before := b.model;
    var kind := KindOf(files.Keys).value;
    c := Publisher(run, prefix, PutOrder(kind), files, lease, AtLease, Running);
    assert before == Run(check, before, []);
    FollowsNext(check, before, b.model, StartPublisher(run, prefix, files, lease));
    b.model := Next(check, b.model, StartPublisher(run, prefix, files, lease));
    PutOrderListsMembers(kind);
  }

  /** Lease, look for COMPLETE, members, receipt. */
  method PublishFrom(
      b: Bucket, check: Check, id: nat, c: Client, complete: Digest, fates: nat -> Fate, others: nat -> seq<Step>,
      ghost before: State)
    returns (outcome: Outcome)
    requires c.Publisher? && b.At(id, c, AtLease) && Follows(check, before, b.model)
    requires check(c.run, c.files) == Some(complete)
    requires c.order != [] && forall i :: 0 <= i < |c.order| ==> c.order[i] in c.files
    requires forall j :: Foreign(others(j), id)
    modifies b
    ensures HasStopped(b, check, id, before, outcome)
    ensures outcome == Committed ==> Receipt(c.run, complete, Sha256(c.lease)) in b.receipts
  {
    var ok: bool;
    Yield(b, check, id, c, AtLease, others(0), before);
    ok, outcome := TakeLease(b, check, id, c, fates(0), before);
    if !ok { return; }
    Yield(b, check, id, c, AtProbe, others(1), before);
    ok, outcome := Probe(b, check, id, c, fates(1), before);
    if !ok { return; }
    ok, outcome := PublishMembers(b, check, id, c, fates, others, before);
    if !ok { return; }
    outcome := WriteReceipt(b, check, id, c, complete, fates(2 + 3 * |c.order|), before);
  }

  /** Every member in upload order; COMPLETE is the last. */
  method PublishMembers(
        b: Bucket, check: Check, id: nat, c: Client, fates: nat -> Fate, others: nat -> seq<Step>,
        ghost before: State)
    returns (ok: bool, outcome: Outcome)
    requires c.Publisher? && c.order != [] && (forall i :: 0 <= i < |c.order| ==> c.order[i] in c.files)
    requires b.At(id, c, AtPut(0)) && Follows(check, before, b.model)
    requires forall j :: Foreign(others(j), id)
    modifies b
    ensures ok ==> b.At(id, c, AtReceipt) && Follows(check, before, b.model)
    ensures !ok ==> HasStopped(b, check, id, before, outcome) && outcome != Committed
  {
    outcome := CommitUnknown;
    for i := 0 to |c.order|
      invariant b.At(id, c, if i < |c.order| then AtPut(i) else AtReceipt) && Follows(check, before, b.model)
    {
      ok, outcome := PublishMember(b, check, id, c, i, fates, others, 2 + 3 * i, before);
      if !ok { return; }
    }
    ok := true;
  }

  /** A publisher that starts from a reachable bucket leaves a reachable bucket, so all theorems
      about the step system hold of what it leaves; success, for one, means that COMPLETE is remote. */
  lemma PublisherLeavesReachable(k: Platform, steps: seq<Step>, s: State, id: nat)
    returns (all: seq<Step>)
    requires Follows(SnapshotCheck(k), Reach(SnapshotCheck(k), steps), s)
    requires id < |s.clients| && s.clients[id].Publisher? && s.clients[id].status == Stopped(Committed)
    ensures s == Reach(SnapshotCheck(k), all)
    ensures CompleteRemote(s, s.clients[id].prefix, s.clients[id].run)
  {
    var check := SnapshotCheck(k);
    var more :| s == Run(check, Reach(check, steps), more);
    RunConcat(check, INITIAL, steps, more);
    all := steps + more;
    SuccessNeedsComplete(k, all, id);
  }
}
