/** Safety is not bought by refusing: a publisher that holds the lease and meets no fault
    commits, whatever the other clients do. */
module PublisherProgress {
  import opened Foundations
  import opened GroupRules
  import opened PublisherProtocol
  import opened PublisherInvariant
  import opened PublisherPreservation
  import opened PublisherTheorems
  import opened PublisherExitCodes
  import opened PublisherReconciliation

  /** How many answered operations a publisher past its lease still needs. */
  function Left(c: Client): nat
    requires c.Publisher?
  {
    var n := |c.order|;
    if c.status.Stopped? then 0
    else match c.phase
      case AtLease => 3 * n + 3
      case AtProbe => 3 * n + 2
      case AtPut(i) => if i < n then 3 * (n - i) + 1 else 0
      case AtStat(i) => if i < n then 3 * (n - i) else 0
      case AtRead(i) => if i < n then 3 * (n - i) - 1 else 0
      case AtReceipt => 1
  }

  /** Running, or stopped because it succeeded. */
  predicate Winning(s: State, id: nat) {
    && id < |s.clients| && Past(s.clients[id])
    && (s.clients[id].status.Stopped? ==> s.clients[id].status.outcome == Committed)
  }

  /** The objects the owner reads back are its own. */
  lemma ReadsBackItsOwn(check: Check, s: State, id: nat, i: nat)
    requires Inv(check, s) && id < |s.clients| && Past(s.clients[id]) && i < Done(s.clients[id])
    requires i < |s.clients[id].order|
    ensures CanHandle(s.clients[id], i)
    ensures var c := s.clients[id]; Target(c, i) in s.store && s.store[Target(c, i)] == Local(c, i)
  {
    var c := s.clients[id];
    ClientOk(check, s, id);
    OwnsItsRun(check, s, id);
    assert c.order[i] in c.files.Keys;
    assert MemberKey(c.prefix, c.run, c.order[i]) in s.store;
    assert Genuine(s, Target(c, i), s.store[Target(c, i)]);
  }

  lemma NoCompleteYet(check: Check, s: State, id: nat)
    requires Inv(check, s) && id < |s.clients| && s.clients[id].Publisher? && s.clients[id].phase.AtProbe?
    ensures MemberKey(s.clients[id].prefix, s.clients[id].run, Complete) !in s.store
  {
    OwnsItsRun(check, s, id);
    var key := MemberKey(s.clients[id].prefix, s.clients[id].run, Complete);
    assert key in s.store ==> Genuine(s, key, s.store[key]);
  }

  lemma OwnVerifyStep(check: Check, s: State, id: nat)
    requires Inv(check, s) && Winning(s, id) && Live(s, id)
    requires s.clients[id].phase.AtStat? || s.clients[id].phase.AtRead?
    ensures
      var t := AdvancePublisher(check, s, id);
      Winning(t, id) && Left(s.clients[id]) > 0 && Left(t.clients[id]) == Left(s.clients[id]) - 1
  {
    var i := s.clients[id].phase.i;
    assert i < |s.clients[id].order| by { ClientOk(check, s, id); }
    ReadsBackItsOwn(check, s, id, i);
  }

  lemma OwnStep(check: Check, s: State, id: nat)
    requires Inv(check, s) && Winning(s, id) && Live(s, id)
    ensures
      var t := AdvancePublisher(check, s, id);
      Winning(t, id) && Left(s.clients[id]) > 0 && Left(t.clients[id]) == Left(s.clients[id]) - 1
  {
    var c := s.clients[id];
    if c.phase.AtStat? || c.phase.AtRead? {
      OwnVerifyStep(check, s, id);
    } else {
      ClientOk(check, s, id);
      if c.phase.AtProbe? { NoCompleteYet(check, s, id); }
      if c.phase.AtPut? { assert c.order[c.phase.i] in c.files.Keys; }
    }
  }

  lemma {:induction false} KeepsWinning(check: Check, s: State, steps: seq<Step>, id: nat)
    requires AcceptsOnlyGroups(check) && Inv(check, s) && Winning(s, id)
    requires Undisturbed(steps, id) && Operations(steps, id) >= Left(s.clients[id])
    ensures var t := Run(check, s, steps); id < |t.clients| && t.clients[id].status == Stopped(Committed)
    decreases |steps|
  {
    if steps == [] {
      ClientOk(check, s, id);
    } else {
      var step := steps[0];
      NextKeeps(check, s, step);
      assert Undisturbed(steps[1..], id) by {
        forall i | 0 <= i < |steps[1..]| && Touches(steps[1..][i], id) ensures steps[1..][i].Advance? {
          assert steps[1..][i] == steps[i + 1];
        }
      }
      if !Touches(step, id) {
        UntouchedClient(check, s, step, id);
      } else if Live(s, id) {
        OwnStep(check, s, id);
      }
      KeepsWinning(check, Next(check, s, step), steps[1..], id);
    }
  }

  /** A publisher past its lease whose own operations are all answered succeeds after at most
      23 of them: nobody can make it fail. */
  lemma LeaseHolderCommits(k: Platform, before: seq<Step>, after: seq<Step>, id: nat)
    requires Live(Reach(SnapshotCheck(k), before), id) && Past(Reach(SnapshotCheck(k), before).clients[id])
    requires Undisturbed(after, id) && Operations(after, id) >= Left(Reach(SnapshotCheck(k), before).clients[id])
    ensures
      var t := Reach(SnapshotCheck(k), before + after);
      && id < |t.clients| && t.clients[id].status == Stopped(Committed)
      && CompleteRemote(t, t.clients[id].prefix, t.clients[id].run)
  {
    var check := SnapshotCheck(k);
    ReachSound(k, before);
    SnapshotCheckAcceptsOnlyGroups(k);
    KeepsWinning(check, Reach(check, before), after, id);
    RunConcat(check, INITIAL, before, after);
    SuccessNeedsComplete(k, before + after, id);
  }
}
