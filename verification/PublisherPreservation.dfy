/** Every step of the publisher protocol keeps the invariant and only adds to the store. */
module PublisherPreservation {
  import opened Foundations
  import opened GroupRules
  import opened PublisherProtocol
  import opened PublisherInvariant

  lemma GenuineStays(a: State, b: State, key: Key, content: Bytes)
    requires Grows(a, b) && AllContinue(a, b)
    requires key.MemberKey? && Genuine(a, key, content)
    ensures Genuine(b, key, content)
  {
    var id := a.owner[key.run];
    assert Continues(a.clients[id], b.clients[id]);
    var i :| 0 <= i < Issued(a.clients[id]) && i < |a.clients[id].order| && a.clients[id].order[i] == key.member;
    assert b.clients[id].order[i] == key.member;
  }

  lemma ReceiptStays(check: Check, a: State, b: State, r: Receipt)
    requires Grows(a, b) && AllContinue(a, b)
    requires ReceiptJustified(check, a, r)
    ensures ReceiptJustified(check, b, r)
  {
    assert Continues(a.clients[a.owner[r.run]], b.clients[a.owner[r.run]]);
  }

  lemma BackedStays(a: State, b: State, c: Client)
    requires Grows(a, b) && Backed(a.store, c)
    ensures Backed(b.store, c)
  {
  }

  lemma OwnersStay(check: Check, a: State, b: State)
    requires Inv(check, a) && Grows(a, b) && AllContinue(a, b)
    ensures forall run :: run in a.owner ==>
              HasOwner(b, run) && LeaseKey(run) in b.store && b.store[LeaseKey(run)] == Owner(b, run).lease
  {
    forall run | run in a.owner
      ensures HasOwner(b, run) && LeaseKey(run) in b.store && b.store[LeaseKey(run)] == Owner(b, run).lease
    {
      assert HasOwner(a, run);
      assert Continues(a.clients[a.owner[run]], b.clients[a.owner[run]]);
    }
  }

  lemma ObjectsStay(check: Check, a: State, b: State)
    requires Inv(check, a) && Grows(a, b) && AllContinue(a, b)
    requires forall key :: key in b.store && key !in a.store && key.MemberKey? ==> Genuine(b, key, b.store[key])
    requires forall put :: put in b.flight && put !in a.flight && put.0.MemberKey? ==> Genuine(b, put.0, put.1)
    requires forall r :: r in b.receipts && r !in a.receipts ==> ReceiptJustified(check, b, r)
    ensures ObjectsGenuine(b)
    ensures forall r :: r in b.receipts ==> ReceiptJustified(check, b, r)
  {
    forall key | key in b.store && key.MemberKey? ensures Genuine(b, key, b.store[key]) {
      if key in a.store { GenuineStays(a, b, key, b.store[key]); }
    }
    forall put | put in b.flight && put.0.MemberKey? ensures Genuine(b, put.0, put.1) {
      if put in a.flight { GenuineStays(a, b, put.0, put.1); }
    }
    forall r | r in b.receipts ensures ReceiptJustified(check, b, r) {
      if r in a.receipts { ReceiptStays(check, a, b, r); }
    }
  }

  /** `b` differs from `a` in client `id` alone, which may be new; its own obligations hold. */
  ghost predicate OneClient(check: Check, a: State, b: State, id: nat) {
    && id <= |a.clients| && id < |b.clients|
    && (if id < |a.clients| then b.clients == a.clients[id := b.clients[id]] && Continues(a.clients[id], b.clients[id])
        else b.clients == a.clients + [b.clients[id]])
    && WellFormed(check, b.clients[id])
    && Backed(b.store, b.clients[id])
    && (forall run :: run in b.owner && run !in a.owner ==>
          && b.owner[run] == id && Past(b.clients[id]) && b.clients[id].run == run
          && LeaseKey(run) in b.store && b.store[LeaseKey(run)] == b.clients[id].lease)
    && (Past(b.clients[id]) ==> b.clients[id].run in b.owner && b.owner[b.clients[id].run] == id)
  }

  lemma Preserve(check: Check, a: State, b: State, id: nat)
    requires Inv(check, a) && Grows(a, b)
    requires OneClient(check, a, b, id)
    requires forall key :: key in b.store && key !in a.store && key.MemberKey? ==> Genuine(b, key, b.store[key])
    requires forall put :: put in b.flight && put !in a.flight && put.0.MemberKey? ==> Genuine(b, put.0, put.1)
    requires forall r :: r in b.receipts && r !in a.receipts ==> ReceiptJustified(check, b, r)
    ensures Keeps(check, a, b)
  {
    assert AllContinue(a, b);
    OwnersStay(check, a, b);
    ObjectsStay(check, a, b);
    forall c | c in b.clients ensures WellFormed(check, c) && Backed(b.store, c) {
      if c != b.clients[id] {
        assert c in a.clients;
        BackedStays(a, b, c);
      }
    }
    forall j | 0 <= j < |b.clients| && Past(b.clients[j])
      ensures b.clients[j].run in b.owner && b.owner[b.clients[j].run] == j
    {
      if j != id { assert b.clients[j] == a.clients[j]; }
    }
  }

  /** The special case of a step that touches no object, upload, lease or receipt. */
  lemma PreserveQuiet(check: Check, a: State, id: nat, c: Client)
    requires Inv(check, a) && id < |a.clients|
    requires Continues(a.clients[id], c) && WellFormed(check, c) && Backed(a.store, c)
    requires Past(c) ==> Past(a.clients[id])
    ensures Keeps(check, a, Update(a, id, c))
  {
    Preserve(check, a, Update(a, id, c), id);
  }

  // ----- publisher steps -----

  lemma ClientOk(check: Check, s: State, id: nat)
    requires Inv(check, s) && id < |s.clients|
    ensures WellFormed(check, s.clients[id]) && Backed(s.store, s.clients[id])
  {
  }

  lemma LeaseStep(check: Check, s: State, id: nat, c: Client)
    requires Inv(check, s) && Live(s, id) && c == s.clients[id] && c.Publisher? && c.phase.AtLease?
    requires LeaseKey(c.run) !in s.store
    ensures Keeps(check, s, Update(s, id, c.(phase := AtProbe))
                            .(store := s.store[LeaseKey(c.run) := c.lease], owner := s.owner[c.run := id]))
  {
    ClientOk(check, s, id);
    assert c.run !in s.owner;
    var t := Update(s, id, c.(phase := AtProbe))
             .(store := s.store[LeaseKey(c.run) := c.lease], owner := s.owner[c.run := id]);
    assert t.clients[id] == c.(phase := AtProbe);
    Preserve(check, s, t, id);
  }

  lemma OwnsItsRun(check: Check, s: State, id: nat)
    requires Inv(check, s) && id < |s.clients| && Past(s.clients[id])
    ensures HasOwner(s, s.clients[id].run) && Owner(s, s.clients[id].run) == s.clients[id]
  {
    assert HasOwner(s, s.clients[id].run);
  }

  /** An upload can only repeat what is already there. */
  lemma UploadGrows(check: Check, s: State, id: nat, c: Client, i: nat)
    requires Inv(check, s) && id < |s.clients| && c == s.clients[id] && Past(c) && CanHandle(c, i)
    ensures Target(c, i) in s.store ==> s.store[Target(c, i)] == Local(c, i)
  {
    if Target(c, i) in s.store {
      OwnsItsRun(check, s, id);
      assert Genuine(s, Target(c, i), s.store[Target(c, i)]);
    }
  }

  lemma UploadBacked(store: Store, c: Client, i: nat)
    requires c.Publisher? && c.phase == AtPut(i) && UploadsRemote(store, c) && CanHandle(c, i)
    ensures UploadsRemote(store[Target(c, i) := Local(c, i)], c.(phase := AtStat(i)))
  {
  }

  lemma PutStep(check: Check, s: State, id: nat, c: Client)
    requires Inv(check, s) && Live(s, id) && c == s.clients[id] && c.Publisher? && c.phase.AtPut?
    requires CanHandle(c, c.phase.i)
    ensures Keeps(check, s, Update(s, id, c.(phase := AtStat(c.phase.i)))
                            .(store := s.store[Target(c, c.phase.i) := Local(c, c.phase.i)]))
  {
    var i := c.phase.i;
    var d := c.(phase := AtStat(i));
    var t := Update(s, id, d).(store := s.store[Target(c, i) := Local(c, i)]);
    assert Grows(s, t) by { UploadGrows(check, s, id, c, i); }
    assert OneClient(check, s, t, id) by {
      ClientOk(check, s, id);
      OwnsItsRun(check, s, id);
      UploadBacked(s.store, c, i);
    }
    assert Genuine(t, Target(c, i), Local(c, i)) by {
      OwnsItsRun(check, s, id);
      assert t.clients[id] == d && d.order[i] == c.order[i];
    }
    Preserve(check, s, t, id);
  }

  lemma PhaseStep(check: Check, s: State, id: nat, c: Client, phase: Phase)
    requires Inv(check, s) && Live(s, id) && c == s.clients[id] && Past(c)
    requires !c.phase.AtReceipt? && !c.phase.AtPut?
    requires
      || (c.phase.AtProbe? && phase == AtPut(0))
      || (c.phase.AtStat? && phase == AtRead(c.phase.i))
      || (c.phase.AtRead? && phase == if c.phase.i + 1 < |c.order| then AtPut(c.phase.i + 1) else AtReceipt)
    ensures Keeps(check, s, Update(s, id, c.(phase := phase)))
  {
    ClientOk(check, s, id);
    PreserveQuiet(check, s, id, c.(phase := phase));
  }

  /** A publisher about to write its receipt has COMPLETE remote. */
  lemma PublisherReceiptJustified(check: Check, s: State, id: nat)
    requires Inv(check, s) && id < |s.clients| && s.clients[id].Publisher? && s.clients[id].phase.AtReceipt?
    ensures PublisherReceipt(check, s.clients[id]).Some?
    ensures ReceiptJustified(check, s, PublisherReceipt(check, s.clients[id]).value)
  {
    var c := s.clients[id];
    assert WellFormed(check, c) && Backed(s.store, c);
    OwnsItsRun(check, s, id);
    assert MemberKey(c.prefix, c.run, c.order[|c.order| - 1]) in s.store;
  }

  // ----- reconciler steps -----

  lemma SameKind(kind: Kind, names: set<Member>)
    requires KindOf(names).Some? && ManifestOf(kind) in names
    ensures names == Members(kind)
  {
  }

  /** A reconciler that has every member has exactly its owner's files. */
  lemma FetchedIsOwned(check: Check, s: State, c: Client)
    requires AcceptsOnlyGroups(check)
    requires Inv(check, s) && c in s.clients && c.Reconciler? && c.lookup.WriteReceipt?
    ensures HasOwner(s, c.run)
    ensures Owner(s, c.run).prefix == c.prefix && Owner(s, c.run).files == c.fetched
    ensures Owner(s, c.run).lease == c.leaseRead
    ensures MemberKey(c.prefix, c.run, Complete) in s.store
  {
    assert WellFormed(check, c) && Backed(s.store, c);
    var mark := MemberKey(c.prefix, c.run, ManifestOf(c.lookup.kind));
    assert Genuine(s, mark, s.store[mark]);
    var o := Owner(s, c.run);
    assert o in s.clients && WellFormed(check, o);
    SameKind(c.lookup.kind, o.files.Keys);
    forall m | m in c.fetched ensures o.files[m] == c.fetched[m] {
      assert Genuine(s, MemberKey(c.prefix, c.run, m), c.fetched[m]);
    }
    assert Complete in c.fetched;
  }

  lemma ReconcilerReceiptJustified(check: Check, s: State, c: Client)
    requires AcceptsOnlyGroups(check)
    requires Inv(check, s) && c in s.clients && c.Reconciler? && c.lookup.WriteReceipt?
    ensures ReconcilerReceipt(check, c).Some?
    ensures ReceiptJustified(check, s, ReconcilerReceipt(check, c).value)
  {
    FetchedIsOwned(check, s, c);
    assert Owner(s, c.run) in s.clients && WellFormed(check, Owner(s, c.run));
  }

  lemma FetchedGrows(kind: Kind, i: nat, names: set<Member>)
    requires i < |FetchOrder(kind)| && Lists(FetchOrder(kind)[..i], names)
    ensures i + 1 < |FetchOrder(kind)| ==> Lists(FetchOrder(kind)[..i + 1], names + {FetchOrder(kind)[i]})
    ensures i + 1 == |FetchOrder(kind)| ==> names + {FetchOrder(kind)[i]} == Members(kind)
  {
    var order := FetchOrder(kind);
    FetchOrderListsMembers(kind);
    var now, next := order[..i], order[..i + 1];
    forall m ensures m in names + {order[i]} <==> exists j :: 0 <= j < |next| && next[j] == m {
      if m in names {
        var j :| 0 <= j < |now| && now[j] == m;
        assert next[j] == m;
      }
      if m == order[i] { assert next[i] == m; }
      if j :| 0 <= j < |next| && next[j] == m {
        if j < i { assert now[j] == m; }
      }
    }
    if i + 1 == |order| { assert next == order; }
  }

  lemma LookupStep(check: Check, s: State, id: nat, d: Client)
    requires Inv(check, s) && Live(s, id) && s.clients[id].Reconciler? && d.Reconciler?
    requires d.run == s.clients[id].run && d.prefix == s.clients[id].prefix
    requires WellFormed(check, d) && ReadsCurrent(s.store, d)
    ensures Keeps(check, s, Update(s, id, d))
  {
    PreserveQuiet(check, s, id, d);
  }

  lemma ReadMemberStep(check: Check, s: State, id: nat, c: Client, d: Client)
    requires Inv(check, s) && Live(s, id) && c == s.clients[id] && c.Reconciler? && c.lookup.ReadMember?
    requires c.lookup.i < |FetchOrder(c.lookup.kind)|
    requires
      var name := FetchOrder(c.lookup.kind)[c.lookup.i];
      var key := MemberKey(c.prefix, c.run, name);
      && key in s.store
      && d == c.(lookup := AfterMember(c.lookup.kind, c.lookup.i), fetched := c.fetched[name := s.store[key]])
    ensures Keeps(check, s, Update(s, id, d))
  {
    ClientOk(check, s, id);
    var name := FetchOrder(c.lookup.kind)[c.lookup.i];
    FetchedGrows(c.lookup.kind, c.lookup.i, c.fetched.Keys);
    assert d.fetched.Keys == c.fetched.Keys + {name};
    LookupStep(check, s, id, d);
  }

  lemma ReconcilerStep(check: Check, s: State, id: nat)
    requires Inv(check, s) && Live(s, id) && s.clients[id].Reconciler? && !s.clients[id].lookup.WriteReceipt?
    ensures Keeps(check, s, AdvanceReconciler(check, s, id))
  {
    var t := AdvanceReconciler(check, s, id);
    var c := s.clients[id];
    ClientOk(check, s, id);
    if t == Update(s, id, Halt(c, CommitUnknown)) {
      HaltQuiet(check, s, id, CommitUnknown);
    } else if c.lookup.ReadMember? {
      ReadMemberStep(check, s, id, c, t.clients[id]);
    } else {
      LookupStep(check, s, id, t.clients[id]);
    }
  }

  // ----- receipts -----

  lemma HaltQuiet(check: Check, s: State, id: nat, outcome: Outcome)
    requires Inv(check, s) && Live(s, id)
    ensures Keeps(check, s, Update(s, id, Halt(s.clients[id], outcome)))
  {
    var c := s.clients[id];
    assert WellFormed(check, c) && Backed(s.store, c);
    PreserveQuiet(check, s, id, Halt(c, outcome));
  }

  lemma HaltWithReceipt(check: Check, s: State, id: nat, outcome: Outcome, r: Receipt)
    requires Inv(check, s) && Live(s, id) && ReceiptJustified(check, s, r)
    ensures Keeps(check, s, Update(s, id, Halt(s.clients[id], outcome)).(receipts := s.receipts + {r}))
  {
    HaltQuiet(check, s, id, outcome);
    var quiet := Update(s, id, Halt(s.clients[id], outcome));
    var t := quiet.(receipts := s.receipts + {r});
    assert Grows(s, t) && AllContinue(s, t);
    ReceiptStays(check, s, t, r);
    OwnersStay(check, s, t);
    ObjectsStay(check, s, t);
    assert LeaseAgreement(t) by { assert LeaseAgreement(quiet); }
  }

  lemma HaltWithUpload(check: Check, s: State, id: nat, outcome: Outcome, key: Key, content: Bytes)
    requires Inv(check, s) && Live(s, id) && s.clients[id].Publisher?
    requires
      var c := s.clients[id];
      || (c.phase.AtLease? && key == LeaseKey(c.run))
      || (c.phase.AtPut? && CanHandle(c, c.phase.i) && key == Target(c, c.phase.i) && content == Local(c, c.phase.i))
    ensures Keeps(check, s, Update(s.(flight := s.flight + {(key, content)}), id, Halt(s.clients[id], outcome)))
  {
    var c := s.clients[id];
    var t := Update(s.(flight := s.flight + {(key, content)}), id, Halt(c, outcome));
    assert WellFormed(check, c) && Backed(s.store, c);
    if c.phase.AtPut? {
      OwnsItsRun(check, s, id);
      var d := Halt(c, outcome);
      assert t.clients[id] == d && d.order[c.phase.i] == key.member && c.phase.i < Issued(d);
      assert Genuine(t, key, content);
    }
    Preserve(check, s, t, id);
  }

  /** A failing or crashing client, with or without the effect it had sent. */
  lemma HaltStep(check: Check, s: State, id: nat, sent: bool, outcome: Outcome)
    requires AcceptsOnlyGroups(check)
    requires Inv(check, s) && Live(s, id)
    ensures Keeps(check, s, Update(if sent then Send(check, s, id) else s, id, Halt(s.clients[id], outcome)))
  {
    var c := s.clients[id];
    if sent && c.Publisher? && c.phase.AtReceipt? {
      PublisherReceiptJustified(check, s, id);
      HaltWithReceipt(check, s, id, outcome, PublisherReceipt(check, c).value);
    } else if sent && c.Publisher? && c.phase.AtLease? {
      HaltWithUpload(check, s, id, outcome, LeaseKey(c.run), c.lease);
    } else if sent && c.Publisher? && c.phase.AtPut? && CanHandle(c, c.phase.i) {
      HaltWithUpload(check, s, id, outcome, Target(c, c.phase.i), Local(c, c.phase.i));
    } else if sent && c.Reconciler? && c.lookup.WriteReceipt? {
      ReconcilerReceiptJustified(check, s, c);
      HaltWithReceipt(check, s, id, outcome, ReconcilerReceipt(check, c).value);
    } else {
      HaltQuiet(check, s, id, outcome);
    }
  }

  lemma CommitStep(check: Check, s: State, id: nat)
    requires AcceptsOnlyGroups(check)
    requires Inv(check, s) && Live(s, id)
    requires if s.clients[id].Publisher? then s.clients[id].phase.AtReceipt? else s.clients[id].lookup.WriteReceipt?
    ensures
      var c := s.clients[id];
      Keeps(check, s, Commit(s, id, if c.Publisher? then PublisherReceipt(check, c) else ReconcilerReceipt(check, c)))
  {
    var c := s.clients[id];
    if c.Publisher? {
      PublisherReceiptJustified(check, s, id);
      HaltWithReceipt(check, s, id, Committed, PublisherReceipt(check, c).value);
    } else {
      ReconcilerReceiptJustified(check, s, c);
      HaltWithReceipt(check, s, id, Committed, ReconcilerReceipt(check, c).value);
    }
  }

  // ----- the environment -----

  lemma StartStep(check: Check, s: State, c: Client)
    requires Inv(check, s) && WellFormed(check, c) && !Past(c) && (c.Reconciler? ==> c.lookup.StatLease?)
    ensures Keeps(check, s, s.(clients := s.clients + [c]))
  {
    Preserve(check, s, s.(clients := s.clients + [c]), |s.clients|);
  }

  lemma LandStep(check: Check, s: State, key: Key, content: Bytes)
    requires Inv(check, s) && (key, content) in s.flight
    ensures Keeps(check, s, s.(store := PutObject(s.store, key, content)))
  {
    var t := s.(store := PutObject(s.store, key, content));
    var put := (key, content);
    if key.MemberKey? {
      assert put in s.flight && Genuine(s, put.0, put.1);
      if key in s.store { assert Genuine(s, key, s.store[key]); }
    }
    assert Grows(s, t) && AllContinue(s, t);
    if key.MemberKey? { GenuineStays(s, t, key, content); }
    OwnersStay(check, s, t);
    ObjectsStay(check, s, t);
    forall c | c in t.clients ensures Backed(t.store, c) { BackedStays(s, t, c); }
    assert LeaseAgreement(t) by { assert t.clients == s.clients && t.owner == s.owner; }
  }

  lemma DropStep(check: Check, s: State, key: Key, content: Bytes)
    requires Inv(check, s)
    ensures Keeps(check, s, s.(flight := s.flight - {(key, content)}))
  {
    var t := s.(flight := s.flight - {(key, content)});
    assert Grows(s, t) && AllContinue(s, t);
    OwnersStay(check, s, t);
    ObjectsStay(check, s, t);
    assert LeaseAgreement(t) by { assert t.clients == s.clients && t.owner == s.owner; }
  }

  // ----- all steps, all schedules -----

  lemma PublisherStep(check: Check, s: State, id: nat)
    requires Inv(check, s) && Live(s, id) && s.clients[id].Publisher? && !s.clients[id].phase.AtReceipt?
    ensures Keeps(check, s, AdvancePublisher(check, s, id))
  {
    var t := AdvancePublisher(check, s, id);
    var c := s.clients[id];
    StandStill(check, s);
    HaltQuiet(check, s, id, Conflict);
    HaltQuiet(check, s, id, ErrorOutcome(c, Provider));
    HaltQuiet(check, s, id, ErrorOutcome(c, Internal));
    if t.clients[id].status.Running? && t != s {
      if c.phase.AtLease? { LeaseStep(check, s, id, c); }
      else if c.phase.AtPut? { PutStep(check, s, id, c); }
      else { PhaseStep(check, s, id, c, t.clients[id].phase); }
    }
  }

  lemma AdvanceStep(check: Check, s: State, id: nat)
    requires AcceptsOnlyGroups(check)
    requires Inv(check, s) && Live(s, id)
    ensures Keeps(check, s, Next(check, s, Advance(id)))
  {
    var c := s.clients[id];
    if c.Publisher? {
      if c.phase.AtReceipt? { CommitStep(check, s, id); } else { PublisherStep(check, s, id); }
    } else {
      if c.lookup.WriteReceipt? { CommitStep(check, s, id); } else { ReconcilerStep(check, s, id); }
    }
  }

  lemma StandStill(check: Check, s: State)
    requires Inv(check, s)
    ensures Keeps(check, s, s)
  {
  }

  lemma StartPublisherKeeps(check: Check, s: State, run: string, prefix: seq<string>, files: Files, lease: Bytes)
    requires Inv(check, s) && MayStart(check, run, files, lease)
    ensures Keeps(check, s, Next(check, s, StartPublisher(run, prefix, files, lease)))
  {
    var order := PutOrder(KindOf(files.Keys).value);
    assert Lists(order, files.Keys) && order != [] && order[|order| - 1] == Complete by {
      PutOrderListsMembers(KindOf(files.Keys).value);
    }
    StartStep(check, s, Publisher(run, prefix, order, files, lease, AtLease, Running));
  }

  lemma NextKeeps(check: Check, s: State, step: Step)
    requires AcceptsOnlyGroups(check)
    requires Inv(check, s)
    ensures Keeps(check, s, Next(check, s, step))
  {
    match step {
      case StartPublisher(run, prefix, files, lease) =>
        if MayStart(check, run, files, lease) {
          StartPublisherKeeps(check, s, run, prefix, files, lease);
        } else {
          StandStill(check, s);
        }
      case StartReconciler(run, prefix) =>
        if ValidRunId(run) {
          StartStep(check, s, Reconciler(run, prefix, [], map[], StatLease, Running));
        } else {
          StandStill(check, s);
        }
      case Advance(id) =>
        if Live(s, id) { AdvanceStep(check, s, id); } else { StandStill(check, s); }
      case Fail(id, sent, fault) =>
        if Live(s, id) {
          HaltStep(check, s, id, sent, ErrorOutcome(s.clients[id], fault));
        } else {
          StandStill(check, s);
        }
      case Crash(id, sent) =>
        if Live(s, id) { HaltStep(check, s, id, sent, Crashed); } else { StandStill(check, s); }
      case Land(key, content) =>
        if (key, content) in s.flight { LandStep(check, s, key, content); } else { StandStill(check, s); }
      case Drop(key, content) => DropStep(check, s, key, content);
    }
  }

  lemma KeepsTransitive(check: Check, a: State, b: State, c: State)
    requires Keeps(check, a, b) && Keeps(check, b, c)
    ensures Keeps(check, a, c)
  {
    forall id | 0 <= id < |a.clients| ensures Continues(a.clients[id], c.clients[id]) {
      assert Continues(a.clients[id], b.clients[id]) && Continues(b.clients[id], c.clients[id]);
    }
  }

  lemma {:induction false} RunKeeps(check: Check, s: State, steps: seq<Step>)
    requires AcceptsOnlyGroups(check)
    requires Inv(check, s)
    ensures Keeps(check, s, Run(check, s, steps))
    decreases |steps|
  {
    StandStill(check, s);
    if steps != [] {
      var t := Next(check, s, steps[0]);
      NextKeeps(check, s, steps[0]);
      RunKeeps(check, t, steps[1..]);
      KeepsTransitive(check, s, t, Run(check, s, steps));
    }
  }

  lemma ReachInv(check: Check, steps: seq<Step>)
    requires AcceptsOnlyGroups(check)
    ensures Inv(check, Reach(check, steps))
  {
    RunKeeps(check, INITIAL, steps);
  }
}
