/** A COMPLETE that is absent after "commit unknown" and arrives later, or never: for every snapshot
    the publisher accepts there is a history in which both are still possible. */
module PublisherLateCommit {
  import opened Foundations
  import opened GroupRules
  import opened PublisherProtocol
  import opened PublisherInvariant
  import opened PublisherTheorems
  import opened PublisherExitCodes

  /** The run has left no trace: no lease and no member of it is remote or under way. */
  ghost predicate Untouched(s: State, run: string) {
    && (forall key :: key in s.store ==> key.run != run)
    && (forall put :: put in s.flight ==> put.0.run != run)
  }

  ghost predicate NoComplete(s: State, run: string) {
    && (forall key :: key in s.store ==> !IsComplete(key, run))
    && (forall put :: put in s.flight ==> !IsComplete(put.0, run))
  }

  /** This publisher holds the lease and is about to upload member i; no COMPLETE has been sent. */
  ghost predicate Uploading(s: State, id: nat, c: Client, i: nat)
    requires c.Publisher?
  {
    && id < |s.clients| && s.clients[id] == c.(phase := AtPut(i), status := Running)
    && LeaseKey(c.run) in s.store && c.run in s.owner && s.owner[c.run] == id && NoComplete(s, c.run)
  }

  /** What a publisher starts with: every member at hand, COMPLETE the last one and only there. */
  ghost predicate Prepared(c: Client) {
    && c.Publisher? && c.order != [] && c.order[|c.order| - 1] == Complete
    && forall i :: 0 <= i < |c.order| ==> c.order[i] in c.files && (c.order[i] == Complete ==> i + 1 == |c.order|)
  }

  // ----- the way to the last upload -----

  function ThreeMore(check: Check, s: State, id: nat): State {
    Next(check, Next(check, Next(check, s, Advance(id)), Advance(id)), Advance(id))
  }

  /** One member other than COMPLETE: uploaded, measured and read back. */
  lemma MemberUploaded(check: Check, s: State, id: nat, c: Client, i: nat)
    requires Prepared(c) && Uploading(s, id, c, i) && i + 1 < |c.order|
    ensures Uploading(ThreeMore(check, s, id), id, c, i + 1)
  {
    var key, content := MemberKey(c.prefix, c.run, c.order[i]), c.files[c.order[i]];
    var s1 := Next(check, s, Advance(id));
    var s2 := Next(check, s1, Advance(id));
    assert CanHandle(s.clients[id], i);
    assert s1 == Update(s, id, c.(phase := AtStat(i), status := Running)).(store := s.store[key := content]);
    assert s2 == Update(s1, id, c.(phase := AtRead(i), status := Running));
    assert c.order[i] != Complete;
  }

  function Advances(id: nat, n: nat): seq<Step> {
    if n == 0 then [] else [Advance(id)] + Advances(id, n - 1)
  }

  lemma RunAdvance(check: Check, s: State, id: nat, n: nat)
    requires n > 0
    ensures Run(check, s, Advances(id, n)) == Run(check, Next(check, s, Advance(id)), Advances(id, n - 1))
  {
    assert Advances(id, n)[1..] == Advances(id, n - 1);
  }

  lemma RunThree(check: Check, s: State, id: nat, n: nat)
    ensures Run(check, s, Advances(id, n + 3)) == Run(check, ThreeMore(check, s, id), Advances(id, n))
  {
    var s1 := Next(check, s, Advance(id));
    RunAdvance(check, s, id, n + 3);
    RunAdvance(check, s1, id, n + 2);
    RunAdvance(check, Next(check, s1, Advance(id)), id, n + 1);
  }

  /** All members but COMPLETE, from member i on: `left` are still to come. */
  lemma {:induction false} MembersUploaded(check: Check, s: State, t: State, id: nat, c: Client, i: nat, left: nat)
    requires Prepared(c) && i + left + 1 == |c.order| && Uploading(s, id, c, i)
    requires t == Run(check, s, Advances(id, 3 * left))
    ensures Uploading(t, id, c, |c.order| - 1)
    decreases left
  {
    if left > 0 {
      MemberUploaded(check, s, id, c, i);
      RunThree(check, s, id, 3 * (left - 1));
      MembersUploaded(check, ThreeMore(check, s, id), t, id, c, i + 1, left - 1);
    }
  }

  lemma PastTheLease(check: Check, s: State, c: Client, id: nat)
    requires c.Publisher? && c.phase.AtLease? && c.status.Running? && Untouched(s, c.run)
    requires id < |s.clients| && s.clients[id] == c
    ensures Uploading(Next(check, Next(check, s, Advance(id)), Advance(id)), id, c, 0)
  {
    var s1 := Next(check, s, Advance(id));
    assert LeaseKey(c.run) !in s.store && MemberKey(c.prefix, c.run, Complete) !in s.store;
    assert s1 == Update(s, id, c.(phase := AtProbe))
                 .(store := s.store[LeaseKey(c.run) := c.lease], owner := s.owner[c.run := id]);
    assert MemberKey(c.prefix, c.run, Complete) !in s1.store;
  }

  // ----- commit unknown -----

  /** The publisher has stopped as "commit unknown", its COMPLETE is not remote, and this upload of
      it is the one that may still arrive. */
  ghost predicate Pending(s: State, id: nat, run: string, put: (Key, Bytes)) {
    && id < |s.clients| && s.clients[id].status == Stopped(CommitUnknown)
    && LeaseKey(run) in s.store && run in s.owner && s.owner[run] == id
    && put in s.flight && IsComplete(put.0, run)
    && (forall key :: key in s.store ==> !IsComplete(key, run))
    && (forall other :: other in s.flight && IsComplete(other.0, run) ==> other == put)
  }

  lemma LastUploadFails(check: Check, s: State, id: nat, c: Client)
    requires Prepared(c) && Uploading(s, id, c, |c.order| - 1)
    ensures Pending(Next(check, s, Fail(id, true, Provider)), id, c.run,
                    (MemberKey(c.prefix, c.run, Complete), c.files[Complete]))
  {
    assert CanHandle(s.clients[id], |c.order| - 1);
  }

  /** Start, lease, probe, every member but COMPLETE, and the upload of COMPLETE that is sent and
      reported as failed. */
  function PendingHistory(run: string, prefix: seq<string>, files: Files, lease: Bytes, id: nat, n: nat): seq<Step> {
    [StartPublisher(run, prefix, files, lease)] + Advances(id, n) + [Fail(id, true, Provider)]
  }

  lemma StartedIsPrepared(run: string, prefix: seq<string>, files: Files, lease: Bytes, kind: Kind)
    requires KindOf(files.Keys) == Some(kind)
    ensures Prepared(Publisher(run, prefix, PutOrder(kind), files, lease, AtLease, Running))
  {
    PutOrderListsMembers(kind);
    var order := PutOrder(kind);
    forall i | 0 <= i < |order| ensures order[i] in files && (order[i] == Complete ==> i + 1 == |order|) {
      assert order[i] in Members(kind);
    }
  }

  /** From the lease to the last upload, without interruption. */
  lemma ReachesLastUpload(check: Check, t: State, u: State, id: nat, c: Client, n: nat)
    requires Prepared(c) && c.phase.AtLease? && c.status.Running? && Untouched(t, c.run)
    requires id < |t.clients| && t.clients[id] == c && n == |c.order| - 1 && u == Run(check, t, Advances(id, 3 * n + 2))
    ensures Uploading(u, id, c, |c.order| - 1)
  {
    var t1 := Next(check, t, Advance(id));
    PastTheLease(check, t, c, id);
    RunAdvance(check, t, id, 3 * n + 2);
    RunAdvance(check, t1, id, 3 * n + 1);
    MembersUploaded(check, Next(check, t1, Advance(id)), u, id, c, 0, n);
  }

  lemma ReachesPending(
      check: Check, s: State, run: string, prefix: seq<string>, files: Files, lease: Bytes, kind: Kind, n: nat)
    requires MayStart(check, run, files, lease) && Untouched(s, run)
    requires KindOf(files.Keys) == Some(kind) && n == |PutOrder(kind)| - 1
    ensures Complete in files
    ensures Pending(Run(check, s, PendingHistory(run, prefix, files, lease, |s.clients|, 3 * n + 2)), |s.clients|, run,
                    (MemberKey(prefix, run, Complete), files[Complete]))
  {
    var c := Publisher(run, prefix, PutOrder(kind), files, lease, AtLease, Running);
    var id, first := |s.clients|, StartPublisher(run, prefix, files, lease);
    var t := Next(check, s, first);
    var u := Run(check, t, Advances(id, 3 * n + 2));
    StartedIsPrepared(run, prefix, files, lease, kind);
    assert t == s.(clients := s.clients + [c]);
    ReachesLastUpload(check, t, u, id, c, n);
    LastUploadFails(check, u, id, c);
    HistoryRuns(check, s, first, Advances(id, 3 * n + 2), Fail(id, true, Provider));
  }

  lemma HistoryRuns(check: Check, s: State, first: Step, middle: seq<Step>, last: Step)
    ensures Run(check, s, [first] + middle + [last]) == Next(check, Run(check, Next(check, s, first), middle), last)
  {
    RunConcat(check, s, [first] + middle, [last]);
    assert ([first] + middle)[1..] == middle && [last][1..] == [];
  }

  // ----- late, or never -----

  /** What is pending may land, and then the run is committed; or be dropped, and then it never is. */
  lemma PendingLandsOrNever(k: Platform, before: seq<Step>, id: nat, run: string, put: (Key, Bytes))
    requires Pending(Reach(SnapshotCheck(k), before), id, run, put)
    ensures OwnerStopped(Reach(SnapshotCheck(k), before), run)
    ensures CompleteInFlight(Reach(SnapshotCheck(k), before), run)
    ensures forall p :: !CompleteRemote(Reach(SnapshotCheck(k), before), p, run)
    ensures CompleteRemote(Reach(SnapshotCheck(k), before + [Land(put.0, put.1)]), put.0.prefix, run)
    ensures forall after, p :: !CompleteRemote(Reach(SnapshotCheck(k), before + [Drop(put.0, put.1)] + after), p, run)
  {
    var check := SnapshotCheck(k);
    var s := Reach(check, before);
    forall p ensures !CompleteRemote(s, p, run) { assert IsComplete(MemberKey(p, run, Complete), run); }
    OneMore(check, before, Land(put.0, put.1));
    OneMore(check, before, Drop(put.0, put.1));
    assert Abandoned(Next(check, s, Drop(put.0, put.1)), run);
    forall after, p ensures !CompleteRemote(Reach(check, before + [Drop(put.0, put.1)] + after), p, run) {
      AbandonedNeverCommits(k, before + [Drop(put.0, put.1)], after, run);
    }
  }

  lemma OneMore(check: Check, before: seq<Step>, step: Step)
    ensures Reach(check, before + [step]) == Next(check, Reach(check, before), step)
  {
    RunConcat(check, INITIAL, before, [step]);
    assert [step][1..] == [];
  }

  /** From every history in which a run has left no trace, and for every snapshot of it that is
      accepted: a publisher can stop as "commit unknown" with its COMPLETE absent, one continuation
      commits the run without any client running, and another makes sure that it never is. */
  lemma CommitUnknownMayLand(
      k: Platform, before: seq<Step>, run: string, prefix: seq<string>, files: Files, lease: Bytes)
    returns (steps: seq<Step>)
    requires MayStart(SnapshotCheck(k), run, files, lease) && Untouched(Reach(SnapshotCheck(k), before), run)
    ensures
      var id := |Reach(SnapshotCheck(k), before).clients|;
      var s := Reach(SnapshotCheck(k), before + steps);
      && id < |s.clients| && s.clients[id].status == Stopped(CommitUnknown)
      && LeaseKey(run) in s.store && OwnerStopped(s, run) && CompleteInFlight(s, run)
      && forall p :: !CompleteRemote(s, p, run)
    ensures Complete in files
    ensures
      var land := Land(MemberKey(prefix, run, Complete), files[Complete]);
      CompleteRemote(Reach(SnapshotCheck(k), before + steps + [land]), prefix, run)
    ensures
      var drop := Drop(MemberKey(prefix, run, Complete), files[Complete]);
      forall after, p :: !CompleteRemote(Reach(SnapshotCheck(k), before + steps + [drop] + after), p, run)
  {
    var check := SnapshotCheck(k);
    var s := Reach(check, before);
    var kind := KindOf(files.Keys).value;
    var id, n := |s.clients|, |PutOrder(kind)| - 1;
    steps := PendingHistory(run, prefix, files, lease, id, 3 * n + 2);
    ReachesPending(check, s, run, prefix, files, lease, kind, n);
    RunConcat(check, INITIAL, before, steps);
    PendingLandsOrNever(k, before + steps, id, run, (MemberKey(prefix, run, Complete), files[Complete]));
  }

  // ----- accepted snapshots exist -----

  /** A ledger group with an empty archive. */
  function SmallManifest(run: string): Json {
    Obj(map[ArchiveRunId := Str(run), ArchiveHash := Hash(Sha256([])), SizeBytes := Int(0)])
  }

  function SmallGroup(k: Platform, run: string): Files {
    var payload := k.Print(SmallManifest(run));
    map[LedgerArchive := [], LedgerManifest := payload, LedgerManifestSig := [],
        Complete := k.Hex(Sha256(payload)) + [NEWLINE]]
  }

  lemma SmallGroupIsAccepted(k: Platform, run: string)
    requires Lawful(k)
    ensures KindOf(SmallGroup(k, run).Keys) == Some(Ledger) && SnapshotCheck(k)(run, SmallGroup(k, run)).Some?
  {
    var files := SmallGroup(k, run);
    assert files.Keys == Members(Ledger);
    assert DatabaseDump in Members(Business) && DatabaseDump !in Members(Ledger);
    assert k.Parse(files[LedgerManifest]) == Some(SmallManifest(run));
  }

  /** On every lawful platform and for every run id this happens, from the first step on. */
  lemma SomeCommitLandsLate(k: Platform, run: string) returns (steps: seq<Step>, land: Step, drop: Step)
    requires Lawful(k) && ValidRunId(run)
    ensures
      var s := Reach(SnapshotCheck(k), steps);
      && |s.clients| > 0 && s.clients[0].status == Stopped(CommitUnknown)
      && LeaseKey(run) in s.store && OwnerStopped(s, run) && CompleteInFlight(s, run)
      && forall p :: !CompleteRemote(s, p, run)
    ensures land.Land? && exists p :: CompleteRemote(Reach(SnapshotCheck(k), steps + [land]), p, run)
    ensures drop.Drop?
            && forall after, p :: !CompleteRemote(Reach(SnapshotCheck(k), steps + [drop] + after), p, run)
  {
    var files := SmallGroup(k, run);
    SmallGroupIsAccepted(k, run);
    assert Reach(SnapshotCheck(k), []) == INITIAL;
    steps := CommitUnknownMayLand(k, [], run, [], files, seq(32, i => 0));
    assert [] + steps == steps;
    var key := MemberKey([], run, Complete);
    land, drop := Land(key, files[Complete]), Drop(key, files[Complete]);
  }
}
