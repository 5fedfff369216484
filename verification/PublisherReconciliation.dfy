/** Reconciliation settles every ambiguous commit: a reconciler that meets no fault succeeds
    exactly when COMPLETE is remote, even while publishers and other reconcilers keep running. */
module PublisherReconciliation {
  import opened Foundations
  import opened GroupRules
  import opened PublisherProtocol
  import opened PublisherInvariant
  import opened PublisherPreservation
  import opened PublisherTheorems

  predicate Touches(step: Step, id: nat) {
    match step
    case Advance(j) => j == id
    case Fail(j, _, _) => j == id
    case Crash(j, _) => j == id
    case _ => false
  }

  /** No operation of this client fails; the others may fail and crash at will. */
  ghost predicate Undisturbed(steps: seq<Step>, id: nat) {
    forall i :: 0 <= i < |steps| && Touches(steps[i], id) ==> steps[i].Advance?
  }

  function Operations(steps: seq<Step>, id: nat): nat {
    if steps == [] then 0 else (if steps[0] == Advance(id) then 1 else 0) + Operations(steps[1..], id)
  }

  /** Enough operations for either kind: 5 lookups around two per member. */
  const ENOUGH: nat := 19

  /** How many answered operations a reconciler still needs for a group of this kind. */
  function Remaining(c: Client, kind: Kind): nat
    requires c.Reconciler?
  {
    var n := |FetchOrder(kind)|;
    if c.status.Stopped? then 0
    else match c.lookup
      case StatLease => 2 * n + 5
      case ReadLease(_) => 2 * n + 4
      case ProbeBusiness => 2 * n + 3
      case ProbeLedger(_) => 2 * n + 2
      case StatMember(_, i) => if i < n then 2 * (n - i) + 1 else 0
      case ReadMember(_, i, _) => if i < n then 2 * (n - i) else 0
      case WriteReceipt(_) => 1
  }

  /** The whole group and the lease are remote; it has this kind. */
  ghost predicate GroupRemote(s: State, prefix: seq<string>, run: string, kind: Kind) {
    && CompleteRemote(s, prefix, run)
    && HasOwner(s, run) && LeaseKey(run) in s.store
    && Owner(s, run).files.Keys == Members(kind)
    && (forall m: Member :: MemberKey(prefix, run, m) in s.store <==> m in Owner(s, run).files)
  }

  /** Nothing the reconciler remembers contradicts the remote group. */
  ghost predicate OnTrack(check: Check, s: State, id: nat, prefix: seq<string>, run: string, kind: Kind) {
    && id < |s.clients|
    && var c := s.clients[id];
    && c.Reconciler? && c.run == run && c.prefix == prefix
    && (c.status.Stopped? ==>
          c.status.outcome == Committed && HasOwner(s, run) &&
          PublisherReceipt(check, Owner(s, run)).Some? && PublisherReceipt(check, Owner(s, run)).value in s.receipts)
    && (match c.lookup
        case StatLease => true
        case ReadLease(size) => LeaseKey(run) in s.store && |s.store[LeaseKey(run)]| == size
        case ProbeBusiness => true
        case ProbeLedger(business) => business == kind.Business?
        case StatMember(found, i) => found == kind && i < |FetchOrder(kind)|
        case ReadMember(found, i, size) =>
          && found == kind && i < |FetchOrder(kind)|
          && MemberKey(prefix, run, FetchOrder(kind)[i]) in s.store
          && |s.store[MemberKey(prefix, run, FetchOrder(kind)[i])]| == size
        case WriteReceipt(found) => found == kind)
  }

  lemma CompleteGroupRemote(check: Check, s: State, prefix: seq<string>, run: string) returns (kind: Kind)
    requires AcceptsOnlyGroups(check) && Inv(check, s) && CompleteRemote(s, prefix, run)
    ensures GroupRemote(s, prefix, run, kind)
  {
    OwnerUploadedAll(check, s, prefix, run);
    var o := Owner(s, run);
    assert WellFormed(check, o) && check(run, o.files).Some?;
    kind := KindOf(o.files.Keys).value;
    var group := RemoteGroup(s.store, prefix, run);
    forall m: Member ensures MemberKey(prefix, run, m) in s.store <==> m in o.files {
      assert m in group <==> MemberKey(prefix, run, m) in s.store;
    }
  }

  /** The group stays whole whatever anyone does next. */
  lemma GroupStays(check: Check, s: State, t: State, prefix: seq<string>, run: string, kind: Kind)
    requires Keeps(check, s, t)
    requires GroupRemote(s, prefix, run, kind)
    ensures GroupRemote(t, prefix, run, kind)
  {
    assert Continues(s.clients[s.owner[run]], t.clients[s.owner[run]]);
    forall m: Member | MemberKey(prefix, run, m) in t.store ensures m in Owner(t, run).files {
      assert Genuine(t, MemberKey(prefix, run, m), t.store[MemberKey(prefix, run, m)]);
    }
  }

  /** Another client's step leaves the reconciler on track, with as much left to do. */
  lemma OthersKeepTrack(check: Check, s: State, step: Step, id: nat, prefix: seq<string>, run: string, kind: Kind)
    requires AcceptsOnlyGroups(check) && Inv(check, s) && OnTrack(check, s, id, prefix, run, kind)
    requires !Touches(step, id)
    ensures
      var t := Next(check, s, step);
      OnTrack(check, t, id, prefix, run, kind) && t.clients[id] == s.clients[id]
  {
    var t := Next(check, s, step);
    NextKeeps(check, s, step);
    UntouchedClient(check, s, step, id);
    if HasOwner(s, run) { assert Continues(s.clients[s.owner[run]], t.clients[s.owner[run]]); }
  }

  lemma UntouchedClient(check: Check, s: State, step: Step, id: nat)
    requires id < |s.clients| && !Touches(step, id)
    ensures var t := Next(check, s, step); id < |t.clients| && t.clients[id] == s.clients[id]
  {
    match step {
      case Advance(j) => if Live(s, j) { AdvanceFootprint(check, s, j); }
      case _ =>
    }
  }

  lemma HeaderOnTrack(check: Check, s: State, id: nat, prefix: seq<string>, run: string, kind: Kind)
    requires GroupRemote(s, prefix, run, kind)
    requires OnTrack(check, s, id, prefix, run, kind) && Live(s, id)
    requires !s.clients[id].lookup.WriteReceipt? && !s.clients[id].lookup.StatMember?
    requires !s.clients[id].lookup.ReadMember?
    ensures
      var t := AdvanceReconciler(check, s, id);
      && OnTrack(check, t, id, prefix, run, kind)
      && Remaining(t.clients[id], kind) == Remaining(s.clients[id], kind) - 1
  {
    assert Manifest in Owner(s, run).files.Keys <==> kind.Business?;
    assert LedgerManifest in Owner(s, run).files.Keys <==> kind.Ledger?;
  }

  lemma StatOnTrack(check: Check, s: State, id: nat, prefix: seq<string>, run: string, kind: Kind)
    requires GroupRemote(s, prefix, run, kind)
    requires OnTrack(check, s, id, prefix, run, kind) && Live(s, id)
    requires s.clients[id].lookup.StatMember?
    ensures
      var t := AdvanceReconciler(check, s, id);
      && OnTrack(check, t, id, prefix, run, kind)
      && Remaining(t.clients[id], kind) == Remaining(s.clients[id], kind) - 1
  {
    FetchOrderListsMembers(kind);
    var i := s.clients[id].lookup.i;
    assert FetchOrder(kind)[i] in Owner(s, run).files.Keys;
  }

  lemma ReadOnTrack(check: Check, s: State, id: nat, prefix: seq<string>, run: string, kind: Kind)
    requires GroupRemote(s, prefix, run, kind)
    requires OnTrack(check, s, id, prefix, run, kind) && Live(s, id)
    requires s.clients[id].lookup.ReadMember?
    ensures
      var t := AdvanceReconciler(check, s, id);
      && OnTrack(check, t, id, prefix, run, kind)
      && Remaining(t.clients[id], kind) == Remaining(s.clients[id], kind) - 1
  {
    var c := s.clients[id];
    var i := c.lookup.i;
    var name := FetchOrder(kind)[i];
    var key := MemberKey(prefix, run, name);
    FetchOrderListsMembers(kind);
    assert name in Owner(s, run).files.Keys;
    assert AdvanceReconciler(check, s, id)
           == Update(s, id, c.(lookup := AfterMember(kind, i), fetched := c.fetched[name := s.store[key]]));
  }

  lemma MemberOnTrack(check: Check, s: State, id: nat, prefix: seq<string>, run: string, kind: Kind)
    requires GroupRemote(s, prefix, run, kind)
    requires OnTrack(check, s, id, prefix, run, kind) && Live(s, id)
    requires s.clients[id].lookup.StatMember? || s.clients[id].lookup.ReadMember?
    ensures
      var t := AdvanceReconciler(check, s, id);
      && OnTrack(check, t, id, prefix, run, kind)
      && Remaining(t.clients[id], kind) == Remaining(s.clients[id], kind) - 1
  {
    if s.clients[id].lookup.StatMember? {
      StatOnTrack(check, s, id, prefix, run, kind);
    } else {
      ReadOnTrack(check, s, id, prefix, run, kind);
    }
  }

  lemma CommitOnTrack(check: Check, s: State, id: nat, prefix: seq<string>, run: string, kind: Kind)
    requires AcceptsOnlyGroups(check) && Inv(check, s) && GroupRemote(s, prefix, run, kind)
    requires OnTrack(check, s, id, prefix, run, kind) && Live(s, id)
    requires s.clients[id].lookup.WriteReceipt?
    ensures
      var t := AdvanceReconciler(check, s, id);
      && OnTrack(check, t, id, prefix, run, kind)
      && Remaining(t.clients[id], kind) == 0
  {
    var c := s.clients[id];
    ReconcilerReceiptJustified(check, s, c);
    var r := ReconcilerReceipt(check, c).value;
    var t := AdvanceReconciler(check, s, id);
    assert t == Commit(s, id, Some(r));
    assert HasOwner(t, run) && Owner(t, run) == Owner(s, run);
  }

  /** One answered operation brings the reconciler one step closer; the last one commits. */
  lemma AdvanceOnTrack(check: Check, s: State, id: nat, prefix: seq<string>, run: string, kind: Kind)
    requires AcceptsOnlyGroups(check) && Inv(check, s) && GroupRemote(s, prefix, run, kind)
    requires OnTrack(check, s, id, prefix, run, kind) && Live(s, id)
    ensures
      var t := AdvanceReconciler(check, s, id);
      && OnTrack(check, t, id, prefix, run, kind)
      && Remaining(t.clients[id], kind) == Remaining(s.clients[id], kind) - 1
  {
    var lookup := s.clients[id].lookup;
    if lookup.WriteReceipt? {
      CommitOnTrack(check, s, id, prefix, run, kind);
    } else if lookup.StatMember? || lookup.ReadMember? {
      MemberOnTrack(check, s, id, prefix, run, kind);
    } else {
      HeaderOnTrack(check, s, id, prefix, run, kind);
    }
  }

  lemma {:induction false} StaysOnTrack(
        check: Check, s: State, steps: seq<Step>, id: nat, prefix: seq<string>, run: string, kind: Kind)
    requires AcceptsOnlyGroups(check) && Inv(check, s) && GroupRemote(s, prefix, run, kind)
    requires OnTrack(check, s, id, prefix, run, kind)
    requires Undisturbed(steps, id)
    requires Operations(steps, id) >= Remaining(s.clients[id], kind)
    ensures
      var t := Run(check, s, steps);
      OnTrack(check, t, id, prefix, run, kind) && t.clients[id].status == Stopped(Committed)
    decreases |steps|
  {
    if steps == [] {
      assert Remaining(s.clients[id], kind) == 0;
    } else {
      var step := steps[0];
      var t := Next(check, s, step);
      NextKeeps(check, s, step);
      GroupStays(check, s, t, prefix, run, kind);
      assert Undisturbed(steps[1..], id) by {
        forall i | 0 <= i < |steps[1..]| && Touches(steps[1..][i], id) ensures steps[1..][i].Advance? {
          assert steps[1..][i] == steps[i + 1];
        }
      }
      if !Touches(step, id) {
        OthersKeepTrack(check, s, step, id, prefix, run, kind);
      } else if Live(s, id) {
        AdvanceOnTrack(check, s, id, prefix, run, kind);
      }
      StaysOnTrack(check, t, steps[1..], id, prefix, run, kind);
    }
  }

  lemma StartedOnTrack(check: Check, s: State, prefix: seq<string>, run: string, kind: Kind)
    requires ValidRunId(run) && GroupRemote(s, prefix, run, kind)
    ensures
      var u := Next(check, s, StartReconciler(run, prefix));
      OnTrack(check, u, |s.clients|, prefix, run, kind) && Remaining(u.clients[|s.clients|], kind) <= ENOUGH
  {
  }

  lemma SettlesFrom(check: Check, s: State, after: seq<Step>, prefix: seq<string>, run: string)
    requires AcceptsOnlyGroups(check) && Inv(check, s) && ValidRunId(run) && CompleteRemote(s, prefix, run)
    requires Undisturbed(after, |s.clients|) && Operations(after, |s.clients|) >= ENOUGH
    ensures
      var t := Run(check, s, [StartReconciler(run, prefix)] + after);
      && |s.clients| < |t.clients| && t.clients[|s.clients|].status == Stopped(Committed)
      && HasOwner(t, run)
      && PublisherReceipt(check, Owner(t, run)).Some?
      && PublisherReceipt(check, Owner(t, run)).value in t.receipts
  {
    var start := StartReconciler(run, prefix);
    var u := Next(check, s, start);
    NextKeeps(check, s, start);
    var kind := CompleteGroupRemote(check, s, prefix, run);
    GroupStays(check, s, u, prefix, run, kind);
    StartedOnTrack(check, s, prefix, run, kind);
    StaysOnTrack(check, u, after, |s.clients|, prefix, run, kind);
    assert ([start] + after)[0] == start && ([start] + after)[1..] == after;
  }

  /** A reconciler started once COMPLETE is remote, whose own operations are all answered,
      reports success after at most ENOUGH of them, whatever the others do in between, and
      its receipt is the one the publisher of the run writes. */
  lemma ReconcilerSettlesCommit(k: Platform, before: seq<Step>, after: seq<Step>, prefix: seq<string>, run: string)
    requires ValidRunId(run) && CompleteRemote(Reach(SnapshotCheck(k), before), prefix, run)
    requires Undisturbed(after, |Reach(SnapshotCheck(k), before).clients|)
    requires Operations(after, |Reach(SnapshotCheck(k), before).clients|) >= ENOUGH
    ensures
      var id := |Reach(SnapshotCheck(k), before).clients|;
      var t := Reach(SnapshotCheck(k), before + ([StartReconciler(run, prefix)] + after));
      && id < |t.clients| && t.clients[id].status == Stopped(Committed)
      && HasOwner(t, run)
      && PublisherReceipt(SnapshotCheck(k), Owner(t, run)).Some?
      && PublisherReceipt(SnapshotCheck(k), Owner(t, run)).value in t.receipts
  {
    ReachSound(k, before);
    SnapshotCheckAcceptsOnlyGroups(k);
    SettlesFrom(SnapshotCheck(k), Reach(SnapshotCheck(k), before), after, prefix, run);
    RunConcat(SnapshotCheck(k), INITIAL, before, [StartReconciler(run, prefix)] + after);
  }
}
