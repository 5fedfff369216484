/** One reconciler as it runs: it reads objects one at a time while others work on the bucket,
    checks what it has read, and writes a receipt. Every execution is a run of the step system. */
module ReconcilerRun {
  import opened Foundations
  import opened GroupRules
  import opened PublisherProtocol
  import opened PublisherTheorems
  import opened PublisherExitCodes
  import opened PublisherRun

  /** This reconciler is running and remembers exactly this. */
  predicate Holds(b: Bucket, id: nat, c: Client)
    reads b
  {
    b.Agrees() && id < |b.model.clients| && b.model.clients[id] == c && c.Reconciler? && c.status.Running?
  }

  ghost predicate Done(b: Bucket, check: Check, id: nat, before: State, outcome: Outcome)
    reads b
  {
    && b.Agrees() && Follows(check, before, b.model)
    && id < |b.model.clients| && b.model.clients[id].Reconciler? && b.model.clients[id].status == Stopped(outcome)
  }

  /** What a reconciler reports when an operation is not answered. */
  function Verdict(fate: Fate): Outcome {
    if fate.Dies? then Crashed else CommitUnknown
  }

  /** Others work on the bucket, then the next operation of this reconciler is answered or not. */
  method Turn(
        b: Bucket, check: Check, id: nat, c: Client, steps: seq<Step>, fate: Fate, ghost before: State)
    returns (ok: bool, outcome: Outcome)
    requires Holds(b, id, c) && Follows(check, before, b.model) && Foreign(steps, id)
    modifies b
    ensures ok ==> Holds(b, id, c) && Follows(check, before, b.model) && outcome == CommitUnknown
    ensures !ok ==> Done(b, check, id, before, outcome) && outcome != Committed
    ensures ok <==> fate.Answered?
    ensures !ok ==> outcome == if fate.Dies? then Crashed else CommitUnknown
  {
    outcome := CommitUnknown;
    ForeignKeeps(check, b.model, steps, id);
    b.Others(check, steps, before);
    ok := fate.Answered?;
    if !ok {
      FollowsNext(check, before, b.model, StepOf(id, fate));
      NothingIsSent(check, b.model, id, fate);
      b.model := Next(check, b.model, StepOf(id, fate));
      b.receipts := b.model.receipts;
      outcome := Verdict(fate);
    }
  }

  lemma NothingIsSent(check: Check, s: State, id: nat, fate: Fate)
    requires Live(s, id) && s.clients[id].Reconciler? && !fate.Answered?
    ensures Next(check, s, StepOf(id, fate)).store == s.store
    ensures |Next(check, s, StepOf(id, fate)).clients| == |s.clients|
    ensures Next(check, s, StepOf(id, fate)).clients[id] == Halt(s.clients[id], Verdict(fate))
  {
  }

  /** The answered operation, as the step system sees it. */
  method Record(b: Bucket, check: Check, id: nat, c: Client, ghost before: State)
    requires Holds(b, id, c) && Follows(check, before, b.model) && !c.lookup.WriteReceipt?
    modifies b`model
    ensures b.model == AdvanceReconciler(check, old(b.model), id) && Follows(check, before, b.model)
    ensures b.Agrees()
  {
    FollowsNext(check, before, b.model, Advance(id));
    ReconcilerReads(check, b.model, id);
    b.model := Next(check, b.model, Advance(id));
  }

  lemma ReconcilerReads(check: Check, s: State, id: nat)
    requires Live(s, id) && s.clients[id].Reconciler? && !s.clients[id].lookup.WriteReceipt?
    ensures
      var t := AdvanceReconciler(check, s, id);
      t.store == s.store && t.receipts == s.receipts && |t.clients| == |s.clients|
  {
  }

  /** _download_remote of the lease: its size, then its content. `seen` is the bucket as that size
      was asked for. */
  method FetchLease(
        b: Bucket, check: Check, id: nat, start: Client, fates: nat -> Fate, others: nat -> seq<Step>,
        ghost before: State)
    returns (ok: bool, c: Client, outcome: Outcome, ghost seen: Store)
    requires Holds(b, id, start) && start.lookup.StatLease? && Follows(check, before, b.model)
    requires forall j :: Foreign(others(j), id)
    modifies b
    ensures ok ==> Holds(b, id, c) && Follows(check, before, b.model)
    ensures
      var key := LeaseKey(start.run);
      && (ok <==> fates(0).Answered? && fates(1).Answered?
                  && key in seen && key in b.store && |b.store[key]| == |seen[key]|)
      && (ok ==> c == start.(lookup := ProbeBusiness, leaseRead := b.store[key]))
    ensures !ok ==> Done(b, check, id, before, outcome) && outcome != Committed
  {
    c := start;
    ok, outcome := Turn(b, check, id, c, others(0), fates(0), before);
    seen := b.store;
    if !ok { return; }
    var key := LeaseKey(c.run);
    ok := key in b.store;
    var size := if ok then |b.store[key]| else 0;
    Record(b, check, id, c, before);
    if !ok { return; }
    c := c.(lookup := ReadLease(size));
    ok, outcome := Turn(b, check, id, c, others(1), fates(1), before);
    if !ok { return; }
    ok := key in b.store && |b.store[key]| == size;
    var lease := if ok then b.store[key] else [];
    Record(b, check, id, c, before);
    if !ok { return; }
    c := c.(lookup := ProbeBusiness, leaseRead := lease);
  }

  /** Which of the two manifests exists decides the kind; both or none is a failure. `seen` is the
      bucket as the business manifest was looked for; the ledger manifest is looked for last. */
  method FindKind(
        b: Bucket, check: Check, id: nat, start: Client, fates: nat -> Fate, others: nat -> seq<Step>,
        ghost before: State)
    returns (ok: bool, kind: Kind, c: Client, outcome: Outcome, ghost seen: Store)
    requires Holds(b, id, start) && start.lookup.ProbeBusiness? && Follows(check, before, b.model)
    requires forall j :: Foreign(others(j), id)
    modifies b
    ensures ok ==> Holds(b, id, c) && Follows(check, before, b.model)
    ensures ok ==> c == start.(lookup := StatMember(kind, 0), fetched := map[])
    ensures
      var business := MemberKey(start.prefix, start.run, Manifest) in seen;
      var ledger := MemberKey(start.prefix, start.run, LedgerManifest) in b.store;
      && (ok <==> fates(2).Answered? && fates(3).Answered? && business != ledger)
      && (ok ==> kind == if business then Business else Ledger)
    ensures !ok ==> Done(b, check, id, before, outcome) && outcome != Committed
  {
    c, kind := start, Business;
    ok, outcome := Turn(b, check, id, c, others(2), fates(2), before);
    seen := b.store;
    if !ok { return; }
    var business := MemberKey(c.prefix, c.run, Manifest) in b.store;
    Record(b, check, id, c, before);
    c := c.(lookup := ProbeLedger(business));
    ok, outcome := Turn(b, check, id, c, others(3), fates(3), before);
    if !ok { return; }
    var ledger := MemberKey(c.prefix, c.run, LedgerManifest) in b.store;
    Record(b, check, id, c, before);
    ok := business != ledger;
    kind := if business then Business else Ledger;
    c := c.(lookup := StatMember(kind, 0), fetched := map[]);
  }

  /** _download_remote of one member: exactly what is found with the size that was seen before.
      `seen` is the bucket as that size was asked for. */
  method FetchMember(
        b: Bucket, check: Check, id: nat, start: Client, kind: Kind, i: nat, fates: nat -> Fate,
        others: nat -> seq<Step>, n: nat, ghost before: State)
    returns (ok: bool, c: Client, outcome: Outcome, ghost seen: Store)
    requires i < |FetchOrder(kind)| && Holds(b, id, start) && start.lookup == StatMember(kind, i)
    requires Follows(check, before, b.model)
    requires forall j :: Foreign(others(j), id)
    modifies b
    ensures ok ==> Holds(b, id, c) && Follows(check, before, b.model)
    ensures
      var key := MemberKey(start.prefix, start.run, FetchOrder(kind)[i]);
      && (ok <==> fates(n).Answered? && fates(n + 1).Answered?
                  && key in seen && key in b.store && |b.store[key]| == |seen[key]|)
      && (ok ==> c == start.(lookup := AfterMember(kind, i),
                             fetched := start.fetched[FetchOrder(kind)[i] := b.store[key]]))
    ensures !ok ==> Done(b, check, id, before, outcome) && outcome != Committed
  {
    c := start;
    ok, outcome := Turn(b, check, id, c, others(n), fates(n), before);
    seen := b.store;
    if !ok { return; }
    var name := FetchOrder(kind)[i];
    var key := MemberKey(c.prefix, c.run, name);
    ok := key in b.store;
    var size := if ok then |b.store[key]| else 0;
    Record(b, check, id, c, before);
    if !ok { return; }
    c := c.(lookup := ReadMember(kind, i, size));
    ok, outcome := Turn(b, check, id, c, others(n + 1), fates(n + 1), before);
    if !ok { return; }
    ok := key in b.store && |b.store[key]| == size;
    var content := if ok then b.store[key] else [];
    Record(b, check, id, c, before);
    if !ok { return; }
    c := c.(lookup := AfterMember(kind, i), fetched := c.fetched[name := content]);
  }

  /** All members of the kind, in name order. */
  method FetchMembers(
        b: Bucket, check: Check, id: nat, start: Client, kind: Kind, fates: nat -> Fate, others: nat -> seq<Step>,
        ghost before: State)
    returns (ok: bool, c: Client, outcome: Outcome)
    requires Holds(b, id, start) && start.lookup == StatMember(kind, 0) && Follows(check, before, b.model)
    requires forall j :: Foreign(others(j), id)
    modifies b
    ensures ok ==> Holds(b, id, c) && Follows(check, before, b.model)
    ensures ok ==> c == start.(lookup := WriteReceipt(kind), fetched := c.fetched)
    ensures !ok ==> Done(b, check, id, before, outcome) && outcome != Committed
  {
    c, outcome := start, CommitUnknown;
    for i := 0 to |FetchOrder(kind)|
      invariant Holds(b, id, c) && Follows(check, before, b.model)
      invariant c == start.(lookup := if i < |FetchOrder(kind)| then StatMember(kind, i) else WriteReceipt(kind),
                            fetched := c.fetched)
    {
      ghost var seen;
      ok, c, outcome, seen := FetchMember(b, check, id, c, kind, i, fates, others, 4 + 2 * i, before);
      if !ok { return; }
    }
    ok := true;
  }

  /** The snapshot that was read is checked, the lease measured, the receipt written. */
  method Conclude(
        b: Bucket, check: Check, id: nat, c: Client, steps: seq<Step>, fate: Fate, ghost before: State)
    returns (outcome: Outcome)
    requires Holds(b, id, c) && c.lookup.WriteReceipt? && Follows(check, before, b.model) && Foreign(steps, id)
    modifies b
    ensures Done(b, check, id, before, outcome)
    ensures outcome == Committed <==> fate.Answered? && check(c.run, c.fetched).Some? && |c.leaseRead| == 32
    ensures outcome == Committed ==> Receipt(c.run, check(c.run, c.fetched).value, Sha256(c.leaseRead)) in b.receipts
    ensures outcome == Committed || outcome == if fate.Dies? then Crashed else CommitUnknown
  {
    var ok: bool;
    ok, outcome := Turn(b, check, id, c, steps, fate, before);
    if !ok { return; }
    var complete := check(c.run, c.fetched);
    outcome := CommitUnknown;
    if complete.Some? && |c.leaseRead| == 32 {
      b.receipts := b.receipts + {Receipt(c.run, complete.value, Sha256(c.leaseRead))};
      outcome := Committed;
    }
    FollowsNext(check, before, b.model, Advance(id));
    b.model := Next(check, b.model, Advance(id));
  }

  /** _reconcile. The bucket follows the step system and the reconciler stops with the outcome it
      reports; it changes no object. Success leaves the receipt of what it has read. */
  method Reconcile(
        b: Bucket, check: Check, run: string, prefix: seq<string>, fates: nat -> Fate, others: nat -> seq<Step>)
    returns (outcome: Outcome)
    requires b.Agrees() && ValidRunId(run)
    requires forall j :: Foreign(others(j), |b.model.clients|)
    modifies b
    ensures Done(b, check, |old(b.model).clients|, old(b.model), outcome)
    ensures outcome == Committed ==> exists r :: r in b.receipts && r.run == run
  {
    ghost var before := b.model;
    var id := |b.model.clients|;
    var c := Reconciler(run, prefix, [], map[], StatLease, Running);
    assert before == Run(check, before, []);
    FollowsNext(check, before, b.model, StartReconciler(run, prefix));
    b.model := Next(check, b.model, StartReconciler(run, prefix));
    var ok: bool;
    ghost var seen;
    ok, c, outcome, seen := FetchLease(b, check, id, c, fates, others, before);
    if !ok { return; }
    var kind: Kind;
    ok, kind, c, outcome, seen := FindKind(b, check, id, c, fates, others, before);
    if !ok { return; }
    ok, c, outcome := FetchMembers(b, check, id, c, kind, fates, others, before);
    if !ok { return; }
    outcome := Conclude(b, check, id, c, others(18), fates(18), before);
  }

  /** A reconciler that starts from a reachable bucket leaves a reachable bucket; its success means
      that COMPLETE is remote. */
  lemma ReconcilerLeavesReachable(k: Platform, steps: seq<Step>, s: State, id: nat) returns (all: seq<Step>)
    requires Follows(SnapshotCheck(k), Reach(SnapshotCheck(k), steps), s)
    requires id < |s.clients| && s.clients[id].Reconciler? && s.clients[id].status == Stopped(Committed)
    ensures s == Reach(SnapshotCheck(k), all)
    ensures CompleteRemote(s, s.clients[id].prefix, s.clients[id].run)
  {
    var check := SnapshotCheck(k);
    var more :| s == Run(check, Reach(check, steps), more);
    RunConcat(check, INITIAL, steps, more);
    all := steps + more;
    SuccessNeedsComplete(k, all, id);
  }
}
