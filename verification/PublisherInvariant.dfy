/** The inductive invariant of the publisher protocol: it ties the lease owner of a run,
    every client's position and the remote objects together. */
module PublisherInvariant {
  import opened Foundations
  import opened GroupRules
  import opened PublisherProtocol

  /** An accepted snapshot holds exactly the members of one kind. */
  ghost predicate AcceptsOnlyGroups(check: Check) {
    forall run, files :: check(run, files).Some? ==> KindOf(files.Keys).Some?
  }

  ghost predicate WellFormed(check: Check, c: Client) {
    if c.Publisher? then
      && Lists(c.order, c.files.Keys)
      && c.order != [] && c.order[|c.order| - 1] == Complete
      && ValidRunId(c.run) && check(c.run, c.files).Some?
      && |c.lease| == 32
      && (c.phase.AtPut? || c.phase.AtStat? || c.phase.AtRead? ==> c.phase.i < |c.order|)
    else
      && (c.lookup.StatMember? || c.lookup.ReadMember? ==>
            c.lookup.i < |FetchOrder(c.lookup.kind)| && Lists(FetchOrder(c.lookup.kind)[..c.lookup.i], c.fetched.Keys))
      && (c.lookup.WriteReceipt? ==> c.fetched.Keys == Members(c.lookup.kind))
  }

  /** How many members, in upload order, are known to be remote. */
  function Done(c: Client): nat
    requires c.Publisher?
  {
    match c.phase
    case AtLease => 0
    case AtProbe => 0
    case AtPut(i) => i
    case AtStat(i) => i + 1
    case AtRead(i) => i + 1
    case AtReceipt => |c.order|
  }

  /** How many members may be remote or in flight: a failed upload counts. */
  function Issued(c: Client): nat
    requires c.Publisher?
  {
    if c.phase.AtPut? && c.status.Stopped? then c.phase.i + 1 else Done(c)
  }

  /** Past its lease: the conditional create succeeded. */
  predicate Past(c: Client) {
    c.Publisher? && !c.phase.AtLease?
  }

  predicate HasOwner(s: State, run: string) {
    run in s.owner && s.owner[run] < |s.clients| && Past(s.clients[s.owner[run]]) && s.clients[s.owner[run]].run == run
  }

  function Owner(s: State, run: string): (c: Client)
    requires HasOwner(s, run)
  {
    s.clients[s.owner[run]]
  }

  /** The object is one of the first uploads of this client. */
  predicate UploadedBy(c: Client, key: Key, content: Bytes)
    requires c.Publisher? && key.MemberKey?
  {
    && key.run == c.run
    && key.prefix == c.prefix
    && key.member in c.files
    && content == c.files[key.member]
    && exists i :: 0 <= i < Issued(c) && i < |c.order| && c.order[i] == key.member
  }

  /** The object was uploaded by the owner of its run, with the owner's bytes. */
  predicate Genuine(s: State, key: Key, content: Bytes)
    requires key.MemberKey?
  {
    HasOwner(s, key.run) && UploadedBy(Owner(s, key.run), key, content)
  }

  ghost predicate LeaseAgreement(s: State) {
    && (forall run :: run in s.owner ==>
          HasOwner(s, run) && LeaseKey(run) in s.store && s.store[LeaseKey(run)] == Owner(s, run).lease)
    && (forall id :: 0 <= id < |s.clients| && Past(s.clients[id]) ==>
          s.clients[id].run in s.owner && s.owner[s.clients[id].run] == id)
  }

  ghost predicate ObjectsGenuine(s: State) {
    && (forall key :: key in s.store && key.MemberKey? ==> Genuine(s, key, s.store[key]))
    && (forall put :: put in s.flight && put.0.MemberKey? ==> Genuine(s, put.0, put.1))
  }

  /** What a publisher has finished uploading is remote. */
  ghost predicate UploadsRemote(store: Store, c: Client)
    requires c.Publisher?
  {
    forall j :: 0 <= j < Done(c) && j < |c.order| ==> MemberKey(c.prefix, c.run, c.order[j]) in store
  }

  predicate ReceiptJustified(check: Check, s: State, r: Receipt) {
    && HasOwner(s, r.run)
    && MemberKey(Owner(s, r.run).prefix, r.run, Complete) in s.store
    && PublisherReceipt(check, Owner(s, r.run)) == Some(r)
  }

  /** Everything a reconciler has read is still what the store holds. */
  ghost predicate ReadsCurrent(store: Store, c: Client)
    requires c.Reconciler?
  {
    && (!c.lookup.StatLease? && !c.lookup.ReadLease? ==>
          LeaseKey(c.run) in store && store[LeaseKey(c.run)] == c.leaseRead)
    && (c.lookup.ProbeLedger? && c.lookup.business ==> MemberKey(c.prefix, c.run, Manifest) in store)
    && (c.lookup.StatMember? || c.lookup.ReadMember? || c.lookup.WriteReceipt? ==>
          && MemberKey(c.prefix, c.run, ManifestOf(c.lookup.kind)) in store
          && forall m :: m in c.fetched ==>
               MemberKey(c.prefix, c.run, m) in store && store[MemberKey(c.prefix, c.run, m)] == c.fetched[m])
  }

  /** What the store must hold for a client to be where it is. */
  ghost predicate Backed(store: Store, c: Client) {
    if c.Publisher? then UploadsRemote(store, c) else ReadsCurrent(store, c)
  }

  ghost predicate Inv(check: Check, s: State) {
    && (forall c :: c in s.clients ==> WellFormed(check, c) && Backed(s.store, c))
    && LeaseAgreement(s)
    && ObjectsGenuine(s)
    && (forall r :: r in s.receipts ==> ReceiptJustified(check, s, r))
  }

  /** Remote objects are never removed or replaced. */
  ghost predicate Grows(a: State, b: State) {
    && (forall key :: key in a.store ==> key in b.store && b.store[key] == a.store[key])
    && a.receipts <= b.receipts
    && (forall run :: run in a.owner ==> run in b.owner && b.owner[run] == a.owner[run])
  }

  /** A client keeps its identity, a stopped one stays stopped, a publisher never goes back. */
  predicate Continues(a: Client, b: Client) {
    && a.Publisher? == b.Publisher? && a.run == b.run && a.prefix == b.prefix
    && (a.status.Stopped? ==> a == b)
    && (a.Publisher? ==>
          && a.order == b.order && a.files == b.files && a.lease == b.lease
          && Issued(a) <= Issued(b) && (Past(a) ==> Past(b)))
  }

  ghost predicate AllContinue(a: State, b: State) {
    |a.clients| <= |b.clients| && forall id :: 0 <= id < |a.clients| ==> Continues(a.clients[id], b.clients[id])
  }

  /** One step or many: the invariant holds again, nothing remote was lost. */
  ghost predicate Keeps(check: Check, a: State, b: State) {
    Inv(check, b) && Grows(a, b) && AllContinue(a, b)
  }
}
