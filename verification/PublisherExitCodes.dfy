/** What a publisher's exit code says about the remote run, now and for ever. */
module PublisherExitCodes {
  import opened Foundations
  import opened GroupRules
  import opened PublisherProtocol
  import opened PublisherInvariant
  import opened PublisherPreservation
  import opened PublisherTheorems

  /** In the commit phase: from the COMPLETE upload onwards. */
  predicate Committing(c: Client)
    requires c.Publisher?
  {
    match c.phase
    case AtLease => false
    case AtProbe => false
    case AtPut(i) => i + 1 >= |c.order|
    case AtStat(i) => i + 1 >= |c.order|
    case AtRead(i) => i + 1 >= |c.order|
    case AtReceipt => true
  }

  predicate Written(receipts: set<Receipt>, receipt: Option<Receipt>) {
    receipt.Some? && receipt.value in receipts
  }

  /** A publisher's outcome fits where it stopped; success means its receipt was written. */
  predicate HonestPublisher(check: Check, receipts: set<Receipt>, c: Client)
    requires c.Publisher?
  {
    match c.status
    case Running => true
    case Stopped(outcome) =>
      && (outcome.Committed? ==> c.phase.AtReceipt? && Written(receipts, PublisherReceipt(check, c)))
      && (outcome.Conflict? || outcome.ProviderFailure? || outcome.InternalFailure? ==> !Committing(c))
      && (outcome.CommitUnknown? ==> Committing(c))
  }

  predicate HonestReconciler(check: Check, receipts: set<Receipt>, c: Client)
    requires c.Reconciler?
  {
    match c.status
    case Running => true
    case Stopped(outcome) =>
      && (outcome.Committed? ==> c.lookup.WriteReceipt? && Written(receipts, ReconcilerReceipt(check, c)))
      && !outcome.Conflict? && !outcome.ProviderFailure? && !outcome.InternalFailure?
  }

  predicate Honest(check: Check, receipts: set<Receipt>, c: Client) {
    if c.Publisher? then HonestPublisher(check, receipts, c) else HonestReconciler(check, receipts, c)
  }

  ghost predicate AllHonest(check: Check, s: State) {
    forall c :: c in s.clients ==> Honest(check, s.receipts, c)
  }

  lemma OneClientHonest(check: Check, s: State, t: State, id: nat)
    requires AllHonest(check, s) && s.receipts <= t.receipts
    requires id < |s.clients| && id < |t.clients| && t.clients == s.clients[id := t.clients[id]]
    requires Honest(check, t.receipts, t.clients[id])
    ensures AllHonest(check, t)
  {
    forall c | c in t.clients ensures Honest(check, t.receipts, c) {
      if c != t.clients[id] { assert c in s.clients; }
    }
  }

  lemma PublisherHonest(check: Check, s: State, id: nat)
    requires Live(s, id) && s.clients[id].Publisher? && check(s.clients[id].run, s.clients[id].files).Some?
    ensures
      var t := AdvancePublisher(check, s, id);
      s.receipts <= t.receipts && |t.clients| == |s.clients| && Honest(check, t.receipts, t.clients[id])
  {
    var c := s.clients[id];
    match c.phase {
      case AtLease =>
      case AtProbe =>
      case AtPut(_) =>
      case AtStat(_) =>
        assert forall fault :: HonestPublisher(check, s.receipts, Halt(c, ErrorOutcome(c, fault)));
      case AtRead(_) => assert HonestPublisher(check, s.receipts, Halt(c, ErrorOutcome(c, Provider)));
      case AtReceipt =>
    }
  }

  lemma ReconcilerHonest(check: Check, s: State, id: nat)
    requires Live(s, id) && s.clients[id].Reconciler?
    ensures
      var t := AdvanceReconciler(check, s, id);
      s.receipts <= t.receipts && |t.clients| == |s.clients| && Honest(check, t.receipts, t.clients[id])
  {
  }

  lemma AdvanceHonest(check: Check, s: State, id: nat)
    requires Inv(check, s) && AllHonest(check, s) && Live(s, id)
    ensures AllHonest(check, Next(check, s, Advance(id)))
  {
    AdvanceFootprint(check, s, id);
    ClientOk(check, s, id);
    if s.clients[id].Publisher? {
      PublisherHonest(check, s, id);
    } else {
      ReconcilerHonest(check, s, id);
    }
    OneClientHonest(check, s, Next(check, s, Advance(id)), id);
  }

  lemma NextHonest(check: Check, s: State, step: Step)
    requires Inv(check, s) && AllHonest(check, s)
    ensures AllHonest(check, Next(check, s, step))
  {
    match step {
      case StartPublisher(_, _, _, _) =>
      case StartReconciler(_, _) =>
      case Advance(id) =>
        if Live(s, id) { AdvanceHonest(check, s, id); }
      case Fail(id, sent, fault) =>
        if Live(s, id) { OneClientHonest(check, s, Next(check, s, step), id); }
      case Crash(id, sent) =>
        if Live(s, id) { OneClientHonest(check, s, Next(check, s, step), id); }
      case Land(_, _) =>
      case Drop(_, _) =>
    }
  }

  lemma {:induction false} RunHonest(check: Check, s: State, steps: seq<Step>)
    requires AcceptsOnlyGroups(check) && Inv(check, s) && AllHonest(check, s)
    ensures AllHonest(check, Run(check, s, steps))
    decreases |steps|
  {
    if steps != [] {
      NextHonest(check, s, steps[0]);
      NextKeeps(check, s, steps[0]);
      RunHonest(check, Next(check, s, steps[0]), steps[1..]);
    }
  }

  /** A publisher past its lease that stopped before its commit phase has sent no COMPLETE. */
  lemma NotCommittingMeansAbandoned(check: Check, s: State, id: nat)
    requires Inv(check, s) && id < |s.clients|
    requires Past(s.clients[id]) && s.clients[id].status.Stopped? && !Committing(s.clients[id])
    ensures Abandoned(s, s.clients[id].run)
  {
    var c := s.clients[id];
    OwnsItsRun(check, s, id);
    ClientOk(check, s, id);
    forall key | key in s.store ensures !IsComplete(key, c.run) {
      assert key.MemberKey? ==> Genuine(s, key, s.store[key]);
    }
    forall put | put in s.flight ensures !IsComplete(put.0, c.run) {
      assert put.0.MemberKey? ==> Genuine(s, put.0, put.1);
    }
  }

  /** COMPLETE of the run has been sent and may still arrive. */
  ghost predicate CompleteInFlight(s: State, run: string) {
    exists put :: put in s.flight && IsComplete(put.0, run)
  }

  /** The documented meaning of the exit codes, for a publisher that got past its lease:
      - success: COMPLETE is remote and its receipt is on disk;
      - conflict, provider failure or internal failure: the run is abandoned and, by AbandonedNeverCommits, can
        never commit;
      - commit unknown: every payload member is remote and verified, and the run is either
        committed, or still has its COMPLETE on the way, or is abandoned. */
  lemma ExitCodesMeanWhatTheySay(k: Platform, steps: seq<Step>, id: nat)
    requires id < |Reach(SnapshotCheck(k), steps).clients|
    requires Past(Reach(SnapshotCheck(k), steps).clients[id])
    requires Reach(SnapshotCheck(k), steps).clients[id].status.Stopped?
    ensures
      var s := Reach(SnapshotCheck(k), steps);
      var c := s.clients[id];
      match c.status.outcome
      case Committed => CompleteRemote(s, c.prefix, c.run) && exists r :: r in s.receipts && r.run == c.run
      case Conflict => Abandoned(s, c.run)
      case ProviderFailure => Abandoned(s, c.run)
      case InternalFailure => Abandoned(s, c.run)
      case CommitUnknown =>
        && (forall m :: m in c.files && m != Complete ==>
              m in RemoteGroup(s.store, c.prefix, c.run) && RemoteGroup(s.store, c.prefix, c.run)[m] == c.files[m])
        && (CompleteRemote(s, c.prefix, c.run) || CompleteInFlight(s, c.run) || Abandoned(s, c.run))
      case Crashed => CompleteRemote(s, c.prefix, c.run) || CompleteInFlight(s, c.run) || Abandoned(s, c.run)
  {
    var check := SnapshotCheck(k);
    var s := Reach(check, steps);
    var c := s.clients[id];
    ReachSound(k, steps);
    SnapshotCheckAcceptsOnlyGroups(k);
    RunHonest(check, INITIAL, steps);
    ClientOk(check, s, id);
    OwnsItsRun(check, s, id);
    assert Honest(check, s.receipts, c);
    match c.status.outcome {
      case Committed =>
        assert ReceiptJustified(check, s, PublisherReceipt(check, c).value);
      case Conflict => NotCommittingMeansAbandoned(check, s, id);
      case ProviderFailure => NotCommittingMeansAbandoned(check, s, id);
      case InternalFailure => NotCommittingMeansAbandoned(check, s, id);
      case CommitUnknown =>
        PayloadRemote(check, s, id);
        SentOrAbandoned(check, s, id);
      case Crashed => SentOrAbandoned(check, s, id);
    }
  }

  lemma PayloadRemote(check: Check, s: State, id: nat)
    requires Inv(check, s) && id < |s.clients| && s.clients[id].Publisher? && Committing(s.clients[id])
    ensures
      var c := s.clients[id];
      forall m :: m in c.files && m != Complete ==>
        m in RemoteGroup(s.store, c.prefix, c.run) && RemoteGroup(s.store, c.prefix, c.run)[m] == c.files[m]
  {
    var c := s.clients[id];
    ClientOk(check, s, id);
    OwnsItsRun(check, s, id);
    forall m | m in c.files && m != Complete
      ensures MemberKey(c.prefix, c.run, m) in s.store && s.store[MemberKey(c.prefix, c.run, m)] == c.files[m]
    {
      var j :| 0 <= j < |c.order| && c.order[j] == m;
      assert MemberKey(c.prefix, c.run, c.order[j]) in s.store;
      assert Genuine(s, MemberKey(c.prefix, c.run, m), s.store[MemberKey(c.prefix, c.run, m)]);
    }
  }

  lemma SentOrAbandoned(check: Check, s: State, id: nat)
    requires Inv(check, s) && id < |s.clients| && Past(s.clients[id]) && s.clients[id].status.Stopped?
    ensures
      var c := s.clients[id];
      CompleteRemote(s, c.prefix, c.run) || CompleteInFlight(s, c.run) || Abandoned(s, c.run)
  {
    var c := s.clients[id];
    OwnsItsRun(check, s, id);
    if !CompleteRemote(s, c.prefix, c.run) && !CompleteInFlight(s, c.run) {
      forall key | key in s.store ensures !IsComplete(key, c.run) {
        assert key.MemberKey? ==> Genuine(s, key, s.store[key]);
      }
    }
  }

  /** Some schedule leads from here to a remote COMPLETE. */
  ghost predicate CanStillCommit(k: Platform, before: seq<Step>, run: string) {
    exists after, prefix :: CompleteRemote(Reach(SnapshotCheck(k), before + after), prefix, run)
  }

  /** Once the lease holder of a run has stopped, the run can still come to be committed exactly
      when its COMPLETE is remote already or was sent and may still arrive. PublisherLateCommit
      gives histories in which it is absent and yet appears, without any client running. */
  lemma CommitStillPossibleIff(k: Platform, before: seq<Step>, run: string)
    requires LeaseKey(run) in Reach(SnapshotCheck(k), before).store
    requires OwnerStopped(Reach(SnapshotCheck(k), before), run)
    ensures
      var s := Reach(SnapshotCheck(k), before);
      CanStillCommit(k, before, run) <==> (exists prefix :: CompleteRemote(s, prefix, run)) || CompleteInFlight(s, run)
  {
    var check := SnapshotCheck(k);
    var s := Reach(check, before);
    if prefix :| CompleteRemote(s, prefix, run) {
      assert before + [] == before;
      assert CompleteRemote(Reach(check, before + []), prefix, run);
    } else if CompleteInFlight(s, run) {
      var put :| put in s.flight && IsComplete(put.0, run);
      var land := Land(put.0, put.1);
      RunConcat(check, INITIAL, before, [land]);
      assert [land][1..] == [];
      assert Reach(check, before + [land]) == Next(check, s, land);
      assert CompleteRemote(Reach(check, before + [land]), put.0.prefix, run);
    } else {
      forall key | key in s.store ensures !IsComplete(key, run) {
        assert IsComplete(key, run) ==> CompleteRemote(s, key.prefix, run);
      }
      forall after, prefix ensures !CompleteRemote(Reach(check, before + after), prefix, run) {
        AbandonedNeverCommits(k, before, after, run);
      }
    }
  }

  /** No client, publisher or reconciler, ever reports success for a group whose COMPLETE is
      not remote. */
  lemma SuccessNeedsComplete(k: Platform, steps: seq<Step>, id: nat)
    requires id < |Reach(SnapshotCheck(k), steps).clients|
    requires Reach(SnapshotCheck(k), steps).clients[id].status == Stopped(Committed)
    ensures
      var s := Reach(SnapshotCheck(k), steps);
      CompleteRemote(s, s.clients[id].prefix, s.clients[id].run)
  {
    var check := SnapshotCheck(k);
    var s := Reach(check, steps);
    var c := s.clients[id];
    ReachSound(k, steps);
    SnapshotCheckAcceptsOnlyGroups(k);
    RunHonest(check, INITIAL, steps);
    assert c in s.clients && Honest(check, s.receipts, c);
    if c.Publisher? {
      PublisherReceiptJustified(check, s, id);
      OwnsItsRun(check, s, id);
    } else {
      FetchedIsOwned(check, s, c);
    }
  }
}
