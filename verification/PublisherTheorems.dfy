/** What the publisher protocol guarantees on every schedule: COMPLETE stands for a whole
    valid group, receipts are true and agree, exit codes mean what they say, and an
    ambiguous commit can always be settled by a reconciler. */
module PublisherTheorems {
  import opened Foundations
  import opened GroupRules
  import opened PublisherProtocol
  import opened PublisherInvariant
  import opened PublisherPreservation

  /** The check both commands really use. */
  function SnapshotCheck(k: Platform): Check {
    (run: string, files: Files) =>
      match ValidateSnapshot(k, run, files)
      case Ok(complete) => Some(complete)
      case Err(_) => None
  }

  lemma SnapshotCheckAcceptsOnlyGroups(k: Platform)
    ensures AcceptsOnlyGroups(SnapshotCheck(k))
  {
  }

  lemma ReachSound(k: Platform, steps: seq<Step>)
    ensures Inv(SnapshotCheck(k), Reach(SnapshotCheck(k), steps))
  {
    SnapshotCheckAcceptsOnlyGroups(k);
    ReachInv(SnapshotCheck(k), steps);
  }

  /** The lease admits one client: on every schedule, at most one publisher of a run is ever past
      its conditional create, and the lease in the bucket is that publisher's. */
  lemma AtMostOnePastTheLease(k: Platform, steps: seq<Step>, a: nat, b: nat)
    requires var s := Reach(SnapshotCheck(k), steps); a < |s.clients| && b < |s.clients|
    requires var s := Reach(SnapshotCheck(k), steps); Past(s.clients[a]) && Past(s.clients[b])
    requires var s := Reach(SnapshotCheck(k), steps); s.clients[a].run == s.clients[b].run
    ensures a == b
    ensures
      var s := Reach(SnapshotCheck(k), steps);
      LeaseKey(s.clients[a].run) in s.store && s.store[LeaseKey(s.clients[a].run)] == s.clients[a].lease
  {
    ReachSound(k, steps);
    OwnsItsRun(SnapshotCheck(k), Reach(SnapshotCheck(k), steps), a);
    OwnsItsRun(SnapshotCheck(k), Reach(SnapshotCheck(k), steps), b);
  }

  predicate CompleteRemote(s: State, prefix: seq<string>, run: string) {
    MemberKey(prefix, run, Complete) in s.store
  }

  /** The objects a download of the group would find. */
  function RemoteGroup(store: Store, prefix: seq<string>, run: string): Files {
    map m: Member | MemberKey(prefix, run, m) in store :: store[MemberKey(prefix, run, m)]
  }

  lemma OwnerUploadedAll(check: Check, s: State, prefix: seq<string>, run: string)
    requires Inv(check, s) && CompleteRemote(s, prefix, run)
    ensures HasOwner(s, run) && Owner(s, run).prefix == prefix && Owner(s, run) in s.clients
    ensures RemoteGroup(s.store, prefix, run) == Owner(s, run).files
  {
    var mark := MemberKey(prefix, run, Complete);
    assert Genuine(s, mark, s.store[mark]);
    var c := Owner(s, run);
    assert c in s.clients && WellFormed(check, c) && Backed(s.store, c);
    var last := |c.order| - 1;
    assert Issued(c) == |c.order|;
    assert Done(c) >= last;
    forall m | m in c.files ensures MemberKey(prefix, run, m) in s.store {
      var j :| 0 <= j < |c.order| && c.order[j] == m;
      if j < last { assert MemberKey(c.prefix, c.run, c.order[j]) in s.store; }
    }
    forall m: Member | MemberKey(prefix, run, m) in s.store
      ensures m in c.files && c.files[m] == s.store[MemberKey(prefix, run, m)]
    {
      assert Genuine(s, MemberKey(prefix, run, m), s.store[MemberKey(prefix, run, m)]);
    }
  }

  /** What the check accepts. */
  lemma CheckedIsWhole(k: Platform, run: string, files: Files)
    requires SnapshotCheck(k)(run, files).Some?
    ensures WholeGroup(k, run, files) && ValidateSnapshot(k, run, files).Ok? && Complete in files
    ensures SnapshotCheck(k)(run, files).value == Sha256(files[if Manifest in files then Manifest else LedgerManifest])
    ensures files[Complete] == k.Hex(SnapshotCheck(k)(run, files).value) + [NEWLINE]
  {
    SnapshotAcceptedIff(k, run, files);
  }

  /** COMPLETE means complete. Whatever the schedule, once COMPLETE is remote for a run, the
      remote group is a whole group of that run, named by it in its manifest, with every payload
      the manifest binds; it passes the snapshot check as downloaded, is byte for byte the snapshot
      of the one publisher past the lease of that run, and no object of the run exists anywhere
      else in the bucket. */
  lemma CompleteMeansWholeGroup(k: Platform, steps: seq<Step>, prefix: seq<string>, run: string)
    requires CompleteRemote(Reach(SnapshotCheck(k), steps), prefix, run)
    ensures
      var s := Reach(SnapshotCheck(k), steps);
      var group := RemoteGroup(s.store, prefix, run);
      && ValidRunId(run) && WholeGroup(k, run, group)
      && ValidateSnapshot(k, run, group).Ok?
      && HasOwner(s, run)
      && group == Owner(s, run).files
      && LeaseKey(run) in s.store && s.store[LeaseKey(run)] == Owner(s, run).lease
      && (forall id :: 0 <= id < |s.clients| && Past(s.clients[id]) && s.clients[id].run == run ==> id == s.owner[run])
      && (forall key :: key in s.store && key.MemberKey? && key.run == run ==> key.prefix == prefix)
  {
    var s := Reach(SnapshotCheck(k), steps);
    ReachSound(k, steps);
    OwnerUploadedAll(SnapshotCheck(k), s, prefix, run);
    OwnerIsChecked(SnapshotCheck(k), s, run);
    CheckedIsWhole(k, run, Owner(s, run).files);
    OnlyUnderOnePrefix(SnapshotCheck(k), s, prefix, run);
  }

  lemma OwnerIsChecked(check: Check, s: State, run: string)
    requires Inv(check, s) && HasOwner(s, run)
    ensures ValidRunId(run) && check(run, Owner(s, run).files).Some? && |Owner(s, run).lease| == 32
    ensures LeaseKey(run) in s.store && s.store[LeaseKey(run)] == Owner(s, run).lease
  {
    assert WellFormed(check, Owner(s, run));
  }

  lemma OnlyUnderOnePrefix(check: Check, s: State, prefix: seq<string>, run: string)
    requires Inv(check, s) && HasOwner(s, run) && Owner(s, run).prefix == prefix
    ensures forall key :: key in s.store && key.MemberKey? && key.run == run ==> key.prefix == prefix
    ensures forall id :: 0 <= id < |s.clients| && Past(s.clients[id]) && s.clients[id].run == run ==> id == s.owner[run]
  {
    forall key | key in s.store && key.MemberKey? && key.run == run ensures key.prefix == prefix {
      assert Genuine(s, key, s.store[key]);
    }
  }

  /** Nothing remote is ever lost or replaced by a later step. */
  lemma RemoteIsPermanent(k: Platform, before: seq<Step>, after: seq<Step>, key: Key)
    requires key in Reach(SnapshotCheck(k), before).store
    ensures
      var s, t := Reach(SnapshotCheck(k), before), Reach(SnapshotCheck(k), before + after);
      key in t.store && t.store[key] == s.store[key] && s.receipts <= t.receipts
  {
    var check := SnapshotCheck(k);
    ReachSound(k, before);
    SnapshotCheckAcceptsOnlyGroups(k);
    RunKeeps(check, Reach(check, before), after);
    RunConcat(check, INITIAL, before, after);
  }

  /** The receipt that the remote objects of a run justify: COMPLETE and a whole group are there,
      and it carries the hash of the group's manifest and of the 32 bytes of the lease. */
  ghost predicate Attests(k: Platform, store: Store, prefix: seq<string>, r: Receipt) {
    var group := RemoteGroup(store, prefix, r.run);
    && MemberKey(prefix, r.run, Complete) in store
    && store[MemberKey(prefix, r.run, Complete)] == k.Hex(r.complete) + [NEWLINE]
    && WholeGroup(k, r.run, group)
    && r.complete == Sha256(group[if Manifest in group then Manifest else LedgerManifest])
    && LeaseKey(r.run) in store
    && r.lease == Sha256(store[LeaseKey(r.run)])
    && |store[LeaseKey(r.run)]| == 32
  }

  /** Every receipt ever written, by a publisher or a reconciler, complete or cut short by an
      error, describes a group whose COMPLETE is remote. */
  lemma ReceiptsAreTrue(k: Platform, steps: seq<Step>, r: Receipt)
    requires r in Reach(SnapshotCheck(k), steps).receipts
    ensures
      var s := Reach(SnapshotCheck(k), steps);
      HasOwner(s, r.run) && Attests(k, s.store, Owner(s, r.run).prefix, r)
  {
    var s := Reach(SnapshotCheck(k), steps);
    ReachSound(k, steps);
    assert ReceiptJustified(SnapshotCheck(k), s, r);
    ReceiptMatchesOwner(SnapshotCheck(k), s, r);
    JustifiedIsAttested(k, s.store, Owner(s, r.run).prefix, r, Owner(s, r.run).files);
  }

  lemma ReceiptMatchesOwner(check: Check, s: State, r: Receipt)
    requires Inv(check, s) && ReceiptJustified(check, s, r)
    ensures CompleteRemote(s, Owner(s, r.run).prefix, r.run)
    ensures RemoteGroup(s.store, Owner(s, r.run).prefix, r.run) == Owner(s, r.run).files
    ensures check(r.run, Owner(s, r.run).files) == Some(r.complete)
    ensures LeaseKey(r.run) in s.store
    ensures r.lease == Sha256(s.store[LeaseKey(r.run)]) && |s.store[LeaseKey(r.run)]| == 32
  {
    OwnerUploadedAll(check, s, Owner(s, r.run).prefix, r.run);
    OwnerIsChecked(check, s, r.run);
  }

  lemma JustifiedIsAttested(k: Platform, store: Store, prefix: seq<string>, r: Receipt, files: Files)
    requires MemberKey(prefix, r.run, Complete) in store && RemoteGroup(store, prefix, r.run) == files
    requires SnapshotCheck(k)(r.run, files) == Some(r.complete)
    requires LeaseKey(r.run) in store && r.lease == Sha256(store[LeaseKey(r.run)]) && |store[LeaseKey(r.run)]| == 32
    ensures Attests(k, store, prefix, r)
  {
    CheckedIsWhole(k, r.run, files);
    assert files[Complete] == store[MemberKey(prefix, r.run, Complete)];
  }

  /** Receipts for one run in one bucket never differ, whoever wrote them and whichever
      destination prefix they were asked about. */
  lemma ReceiptsAgree(k: Platform, steps: seq<Step>, a: Receipt, b: Receipt)
    requires a in Reach(SnapshotCheck(k), steps).receipts && b in Reach(SnapshotCheck(k), steps).receipts
    requires a.run == b.run
    ensures a == b
  {
    ReachSound(k, steps);
    assert ReceiptJustified(SnapshotCheck(k), Reach(SnapshotCheck(k), steps), a);
    assert ReceiptJustified(SnapshotCheck(k), Reach(SnapshotCheck(k), steps), b);
  }

  // ----- a run that can no longer commit -----

  predicate IsComplete(key: Key, run: string) {
    key.MemberKey? && key.run == run && key.member == Complete
  }

  predicate OwnerStopped(s: State, run: string) {
    run in s.owner ==> s.owner[run] < |s.clients| && s.clients[s.owner[run]].status.Stopped?
  }

  /** The lease is taken, its owner has stopped, and no COMPLETE is remote or on its way. */
  ghost predicate Abandoned(s: State, run: string) {
    && LeaseKey(run) in s.store
    && OwnerStopped(s, run)
    && (forall key :: key in s.store ==> !IsComplete(key, run))
    && (forall put :: put in s.flight ==> !IsComplete(put.0, run))
  }

  lemma LiveDoesNotOwn(check: Check, s: State, id: nat, run: string)
    requires Inv(check, s) && Abandoned(s, run) && Live(s, id)
    ensures !(Past(s.clients[id]) && s.clients[id].run == run)
    ensures run in s.owner ==> s.owner[run] != id
  {
  }

  /** A step of a live client that sends nothing for the run. */
  lemma ClientKeepsAbandoned(check: Check, s: State, t: State, id: nat, run: string)
    requires Inv(check, s) && Abandoned(s, run) && Live(s, id)
    requires id < |t.clients| && t.clients == s.clients[id := t.clients[id]]
    requires run in t.owner ==> run in s.owner && t.owner[run] == s.owner[run]
    requires LeaseKey(run) in t.store
    requires forall key :: key in t.store && key !in s.store ==> !IsComplete(key, run)
    requires forall put :: put in t.flight && put !in s.flight ==> !IsComplete(put.0, run)
    ensures Abandoned(t, run)
  {
    LiveDoesNotOwn(check, s, id, run);
  }

  lemma HaltKeepsAbandoned(check: Check, s: State, id: nat, run: string, sent: bool, outcome: Outcome)
    requires Inv(check, s) && Abandoned(s, run) && Live(s, id)
    ensures Abandoned(Update(if sent then Send(check, s, id) else s, id, Halt(s.clients[id], outcome)), run)
  {
    LiveDoesNotOwn(check, s, id, run);
    var t := Update(if sent then Send(check, s, id) else s, id, Halt(s.clients[id], outcome));
    ClientKeepsAbandoned(check, s, t, id, run);
  }

  lemma PublisherFootprint(check: Check, s: State, id: nat)
    requires Live(s, id) && s.clients[id].Publisher?
    ensures
      var c := s.clients[id];
      var t := AdvancePublisher(check, s, id);
      && |t.clients| == |s.clients| && t.clients == s.clients[id := t.clients[id]]
      && t.flight == s.flight
      && (c.phase.AtLease? ==>
            || (t.store == s.store && t.owner == s.owner)
            || (LeaseKey(c.run) !in s.store && t.store == s.store[LeaseKey(c.run) := c.lease]
                && t.owner == s.owner[c.run := id]))
      && (c.phase.AtPut? ==>
            || t.store == s.store
            || (CanHandle(c, c.phase.i) && t.store == s.store[Target(c, c.phase.i) := Local(c, c.phase.i)]))
      && (!c.phase.AtLease? && !c.phase.AtPut? ==> t.store == s.store)
      && (!c.phase.AtLease? ==> t.owner == s.owner)
  {
    match s.clients[id].phase {
      case AtLease =>
      case AtProbe =>
      case AtPut(_) =>
      case AtStat(_) =>
      case AtRead(_) =>
      case AtReceipt =>
    }
  }

  lemma ReconcilerFootprint(check: Check, s: State, id: nat)
    requires Live(s, id) && s.clients[id].Reconciler?
    ensures
      var t := AdvanceReconciler(check, s, id);
      && |t.clients| == |s.clients| && t.clients == s.clients[id := t.clients[id]]
      && t.flight == s.flight && t.store == s.store && t.owner == s.owner
  {
  }

  /** An answered operation of a client changes that client, and no other client or upload in flight. */
  lemma AdvanceFootprint(check: Check, s: State, id: nat)
    requires Live(s, id)
    ensures
      var t := Next(check, s, Advance(id));
      |t.clients| == |s.clients| && t.clients == s.clients[id := t.clients[id]] && t.flight == s.flight
  {
    if s.clients[id].Publisher? { PublisherFootprint(check, s, id); } else { ReconcilerFootprint(check, s, id); }
  }

  lemma AdvanceKeepsAbandoned(check: Check, s: State, id: nat, run: string)
    requires Inv(check, s) && Abandoned(s, run) && Live(s, id)
    ensures Abandoned(Next(check, s, Advance(id)), run)
  {
    LiveDoesNotOwn(check, s, id, run);
    if s.clients[id].Publisher? {
      PublisherFootprint(check, s, id);
      ClientKeepsAbandoned(check, s, AdvancePublisher(check, s, id), id, run);
    } else {
      ReconcilerFootprint(check, s, id);
      ClientKeepsAbandoned(check, s, AdvanceReconciler(check, s, id), id, run);
    }
  }

  lemma NextKeepsAbandoned(check: Check, s: State, step: Step, run: string)
    requires Inv(check, s) && Abandoned(s, run)
    ensures Abandoned(Next(check, s, step), run)
  {
    match step {
      case StartPublisher(_, _, _, _) =>
      case StartReconciler(_, _) =>
      case Advance(id) =>
        if Live(s, id) { AdvanceKeepsAbandoned(check, s, id, run); }
      case Fail(id, sent, fault) =>
        if Live(s, id) { HaltKeepsAbandoned(check, s, id, run, sent, ErrorOutcome(s.clients[id], fault)); }
      case Crash(id, sent) =>
        if Live(s, id) { HaltKeepsAbandoned(check, s, id, run, sent, Crashed); }
      case Land(key, content) =>
        if (key, content) in s.flight { assert (key, content).0 == key; }
      case Drop(_, _) =>
    }
  }

  lemma {:induction false} RunKeepsAbandoned(check: Check, s: State, steps: seq<Step>, run: string)
    requires AcceptsOnlyGroups(check) && Inv(check, s) && Abandoned(s, run)
    ensures Inv(check, Run(check, s, steps)) && Abandoned(Run(check, s, steps), run)
    decreases |steps|
  {
    if steps != [] {
      NextKeepsAbandoned(check, s, steps[0], run);
      NextKeeps(check, s, steps[0]);
      RunKeepsAbandoned(check, Next(check, s, steps[0]), steps[1..], run);
    }
  }

  /** An abandoned run stays uncommitted on every continuation: no COMPLETE, no receipt, no
      client that ever reports success for it. */
  lemma AbandonedNeverCommits(k: Platform, before: seq<Step>, after: seq<Step>, run: string)
    requires Abandoned(Reach(SnapshotCheck(k), before), run)
    ensures
      var t := Reach(SnapshotCheck(k), before + after);
      && (forall prefix :: !CompleteRemote(t, prefix, run))
      && (forall r :: r in t.receipts ==> r.run != run)
  {
    var check := SnapshotCheck(k);
    var t := Reach(check, before + after);
    ReachSound(k, before);
    SnapshotCheckAcceptsOnlyGroups(k);
    RunKeepsAbandoned(check, Reach(check, before), after, run);
    RunConcat(check, INITIAL, before, after);
    forall r | r in t.receipts ensures r.run != run {
      assert ReceiptJustified(check, t, r);
      assert !IsComplete(MemberKey(Owner(t, r.run).prefix, r.run, Complete), run);
    }
    forall prefix ensures !CompleteRemote(t, prefix, run) {
      assert IsComplete(MemberKey(prefix, run, Complete), run);
    }
  }

  /** Without a lease a run has no owner, and so no object: a lease that lands late is nobody's. */
  lemma LateLeaseAbandons(check: Check, s: State, run: string, lease: Bytes)
    requires Inv(check, s) && (LeaseKey(run), lease) in s.flight && LeaseKey(run) !in s.store
    ensures Abandoned(Next(check, s, Land(LeaseKey(run), lease)), run)
  {
    forall key | key in s.store && key.MemberKey? ensures key.run != run {
      assert Genuine(s, key, s.store[key]);
    }
    forall put | put in s.flight && put.0.MemberKey? ensures put.0.run != run {
      assert Genuine(s, put.0, put.1);
    }
  }

  /** A conditional create that took effect after its publisher was told of an error: the lease then
      stays, and the run has no COMPLETE and no receipt on any continuation. */
  lemma LateLeaseEndsTheRun(k: Platform, before: seq<Step>, after: seq<Step>, run: string, lease: Bytes)
    requires (LeaseKey(run), lease) in Reach(SnapshotCheck(k), before).flight
    requires LeaseKey(run) !in Reach(SnapshotCheck(k), before).store
    ensures
      var t := Reach(SnapshotCheck(k), before + [Land(LeaseKey(run), lease)] + after);
      && LeaseKey(run) in t.store && t.store[LeaseKey(run)] == lease
      && (forall prefix :: !CompleteRemote(t, prefix, run))
      && (forall r :: r in t.receipts ==> r.run != run)
  {
    var check := SnapshotCheck(k);
    var s, land := Reach(check, before), Land(LeaseKey(run), lease);
    ReachSound(k, before);
    RunConcat(check, INITIAL, before, [land]);
    assert Reach(check, before + [land]) == Next(check, s, land);
    LateLeaseAbandons(check, s, run, lease);
    AbandonedNeverCommits(k, before + [land], after, run);
    RemoteIsPermanent(k, before + [land], after, LeaseKey(run));
  }
}
