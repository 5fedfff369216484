/** What a publishable group is: its members, and the check a private snapshot
    must pass before anything is uploaded (and again when it is reconciled). */
module GroupRules {
  import opened Foundations

  datatype Kind = Business | Ledger

  datatype Member =
    | DatabaseDump | BusinessSnapshot | Inventory | ReferenceProof | Manifest | ManifestSig
    | LedgerArchive | LedgerManifest | LedgerManifestSig
    | Complete

  type Files = map<Member, Bytes>

  function Members(kind: Kind): set<Member> {
    match kind
    case Business => {DatabaseDump, BusinessSnapshot, Inventory, ReferenceProof, Manifest, ManifestSig, Complete}
    case Ledger => {LedgerArchive, LedgerManifest, LedgerManifestSig, Complete}
  }

  function ManifestOf(kind: Kind): Member {
    if kind.Business? then Manifest else LedgerManifest
  }

  /** The members in the order they are uploaded: names sorted, COMPLETE last. */
  function PutOrder(kind: Kind): seq<Member> {
    match kind
    case Business => [BusinessSnapshot, DatabaseDump, Inventory, Manifest, ManifestSig, ReferenceProof, Complete]
    case Ledger => [LedgerManifest, LedgerManifestSig, LedgerArchive, Complete]
  }

  /** The members in the order they are downloaded: plain name order, COMPLETE first. */
  function FetchOrder(kind: Kind): seq<Member> {
    match kind
    case Business => [Complete, BusinessSnapshot, DatabaseDump, Inventory, Manifest, ManifestSig, ReferenceProof]
    case Ledger => [Complete, LedgerManifest, LedgerManifestSig, LedgerArchive]
  }

  /** `order` lists every name exactly once. */
  ghost predicate Lists(order: seq<Member>, names: set<Member>) {
    && (forall m :: m in names <==> exists i :: 0 <= i < |order| && order[i] == m)
    && (forall i, j :: 0 <= i < j < |order| ==> order[i] != order[j])
  }

  /** The place of a member in the upload order. */
  function Rank(m: Member): nat {
    match m
    case BusinessSnapshot => 0
    case DatabaseDump => 1
    case Inventory => 2
    case Manifest => 3
    case ManifestSig => 4
    case ReferenceProof => 5
    case LedgerManifest => 0
    case LedgerManifestSig => 1
    case LedgerArchive => 2
    case Complete => 6
  }

  lemma PlacedMember(kind: Kind, i: nat)
    requires i < |PutOrder(kind)|
    ensures PutOrder(kind)[i] in Members(kind)
    ensures if i == |PutOrder(kind)| - 1 then PutOrder(kind)[i] == Complete
            else PutOrder(kind)[i] != Complete && Rank(PutOrder(kind)[i]) == i
  {
    match kind {
      case Business =>
      case Ledger =>
    }
  }

  lemma MemberPlaced(kind: Kind, m: Member)
    requires m in Members(kind) && m != Complete
    ensures Rank(m) < |PutOrder(kind)| - 1 && PutOrder(kind)[Rank(m)] == m
  {
    match kind {
      case Business =>
      case Ledger =>
    }
  }

  lemma PutOrderListsMembers(kind: Kind)
    ensures Lists(PutOrder(kind), Members(kind))
    ensures PutOrder(kind)[|PutOrder(kind)| - 1] == Complete
  {
    var order := PutOrder(kind);
    forall i | 0 <= i < |order|
      ensures order[i] in Members(kind)
      ensures if i == |order| - 1 then order[i] == Complete else order[i] != Complete && Rank(order[i]) == i
    {
      PlacedMember(kind, i);
    }
    forall m | m in Members(kind) ensures exists i :: 0 <= i < |order| && order[i] == m {
      if m == Complete { assert order[|order| - 1] == m; } else { MemberPlaced(kind, m); }
    }
  }

  lemma FetchOrderIs(kind: Kind)
    ensures FetchOrder(kind) == [Complete] + PutOrder(kind)[..|PutOrder(kind)| - 1]
  {
    match kind {
      case Business =>
      case Ledger =>
    }
  }

  lemma FetchOrderListsMembers(kind: Kind)
    ensures Lists(FetchOrder(kind), Members(kind))
    ensures FetchOrder(kind)[0] == Complete
  {
    var order := FetchOrder(kind);
    FetchOrderIs(kind);
    forall i | 0 <= i < |order|
      ensures order[i] in Members(kind)
      ensures if i == 0 then order[i] == Complete else order[i] != Complete && Rank(order[i]) == i - 1
    {
      PlacedMember(kind, if i == 0 then |order| - 1 else i - 1);
    }
    forall m | m in Members(kind) ensures exists i :: 0 <= i < |order| && order[i] == m {
      if m == Complete {
        assert order[0] == m;
      } else {
        MemberPlaced(kind, m);
        assert order[Rank(m) + 1] == m;
      }
    }
  }

  datatype Rejection =
    | UnexpectedMembers | BadManifest | RunMismatch | BadEvidence | PayloadMismatch | BadMarker

  /** One payload against the hash and size its manifest records. */
  function CheckBinding(k: Platform, hash: Json, size: Json, content: Bytes): Option<Rejection> {
    if !IsSha256(k, hash) || !size.Int? || size.number < 0 then Some(BadEvidence)
    else if |content| != size.number || hash != Hash(Sha256(content)) then Some(PayloadMismatch)
    else None
  }

  function CheckEvidence(k: Platform, evidence: Json, content: Bytes): Option<Rejection> {
    if !evidence.Obj? then Some(BadEvidence)
    else CheckBinding(k, Get(evidence, ContentHash), Get(evidence, SizeBytes), content)
  }

  function CheckBusinessPayload(k: Platform, manifest: Json, files: Files): Option<Rejection>
    requires files.Keys == Members(Business)
  {
    var business := Get(manifest, BusinessPart);
    var database := CheckEvidence(k, Get(manifest, Database), files[DatabaseDump]);
    if database.Some? then database else
    var snapshot := CheckEvidence(k, business, files[BusinessSnapshot]);
    if snapshot.Some? then snapshot else
    CheckBinding(k, Get(business, InventoryHash), Int(|files[Inventory]|), files[Inventory])
  }

  function CheckLedgerPayload(k: Platform, manifest: Json, files: Files): Option<Rejection>
    requires files.Keys == Members(Ledger)
  {
    CheckBinding(k, Get(manifest, ArchiveHash), Get(manifest, SizeBytes), files[LedgerArchive])
  }

  /** Validation of a snapshot already known to hold exactly the members of `kind`. */
  function ValidateAs(k: Platform, run: string, kind: Kind, files: Files): Result<Digest, Rejection>
    requires files.Keys == Members(kind)
  {
    var payload := files[ManifestOf(kind)];
    match k.Parse(payload)
    case None => Err(BadManifest)
    case Some(manifest) =>
      var runField := if kind.Business? then BackupRunId else ArchiveRunId;
      if Get(manifest, runField) != Str(run) then Err(RunMismatch) else
      var refused :=
        if kind.Business? then CheckBusinessPayload(k, manifest, files) else CheckLedgerPayload(k, manifest, files);
      if refused.Some? then Err(refused.value) else
      if files[Complete] != k.Hex(Sha256(payload)) + [NEWLINE] then Err(BadMarker) else
      Ok(Sha256(payload))
  }

  function KindOf(names: set<Member>): Option<Kind> {
    if names == Members(Business) then Some(Business)
    else if names == Members(Ledger) then Some(Ledger)
    else None
  }

  function ValidateSnapshot(k: Platform, run: string, files: Files): Result<Digest, Rejection> {
    match KindOf(files.Keys)
    case None => Err(UnexpectedMembers)
    case Some(kind) => ValidateAs(k, run, kind, files)
  }

  /** An accepted snapshot determines every payload byte from its manifest: two accepted
      snapshots of one kind with the same manifest agree on every payload the manifest binds
      and on the marker. */
  lemma SameManifestSamePayload(k: Platform, run: string, kind: Kind, a: Files, b: Files)
    requires a.Keys == Members(kind) && b.Keys == Members(kind)
    requires ValidateAs(k, run, kind, a).Ok? && ValidateAs(k, run, kind, b).Ok?
    requires a[ManifestOf(kind)] == b[ManifestOf(kind)]
    ensures a[Complete] == b[Complete]
    ensures kind.Business? ==>
              a[DatabaseDump] == b[DatabaseDump] && a[BusinessSnapshot] == b[BusinessSnapshot]
              && a[Inventory] == b[Inventory]
    ensures kind.Ledger? ==> a[LedgerArchive] == b[LedgerArchive]
  {
    var manifest := k.Parse(a[ManifestOf(kind)]).value;
    if kind.Business? {
      assert CheckBusinessPayload(k, manifest, a).None? && CheckBusinessPayload(k, manifest, b).None?;
    } else {
      assert CheckLedgerPayload(k, manifest, a).None? && CheckLedgerPayload(k, manifest, b).None?;
    }
  }

  // ----- what an accepted snapshot is -----

  /** A whole business group of this run: its seven members, a manifest that names the run and
      records hash and size of dump and snapshot and the hash of the inventory, and a COMPLETE that
      is the manifest's hash as a line. */
  ghost predicate BusinessGroup(k: Platform, run: string, files: Files) {
    && files.Keys == {DatabaseDump, BusinessSnapshot, Inventory, ReferenceProof, Manifest, ManifestSig, Complete}
    && k.Parse(files[Manifest]).Some?
    && var manifest := k.Parse(files[Manifest]).value;
    && Says(manifest, BackupRunId, Str(run))
    && SaysIn(manifest, Database, ContentHash, Hash(Sha256(files[DatabaseDump])))
    && SaysIn(manifest, Database, SizeBytes, Int(|files[DatabaseDump]|))
    && SaysIn(manifest, BusinessPart, ContentHash, Hash(Sha256(files[BusinessSnapshot])))
    && SaysIn(manifest, BusinessPart, SizeBytes, Int(|files[BusinessSnapshot]|))
    && SaysIn(manifest, BusinessPart, InventoryHash, Hash(Sha256(files[Inventory])))
    && files[Complete] == k.Hex(Sha256(files[Manifest])) + [10]
  }

  /** A whole ledger group of this run: the same for its four members. */
  ghost predicate LedgerGroup(k: Platform, run: string, files: Files) {
    && files.Keys == {LedgerArchive, LedgerManifest, LedgerManifestSig, Complete}
    && k.Parse(files[LedgerManifest]).Some?
    && var manifest := k.Parse(files[LedgerManifest]).value;
    && Says(manifest, ArchiveRunId, Str(run))
    && Says(manifest, ArchiveHash, Hash(Sha256(files[LedgerArchive])))
    && Says(manifest, SizeBytes, Int(|files[LedgerArchive]|))
    && files[Complete] == k.Hex(Sha256(files[LedgerManifest])) + [10]
  }

  ghost predicate WholeGroup(k: Platform, run: string, files: Files) {
    BusinessGroup(k, run, files) || LedgerGroup(k, run, files)
  }

  lemma KindsDiffer()
    ensures Members(Business) != Members(Ledger)
  {
    assert DatabaseDump in Members(Business) && DatabaseDump !in Members(Ledger);
  }

  /** A snapshot is accepted exactly when it is a whole group of this very run, and then under the
      hash of its manifest. */
  lemma SnapshotAcceptedIff(k: Platform, run: string, files: Files)
    ensures ValidateSnapshot(k, run, files).Ok? <==> WholeGroup(k, run, files)
    ensures
      var verdict := ValidateSnapshot(k, run, files);
      && (BusinessGroup(k, run, files) ==> verdict == Ok(Sha256(files[Manifest])))
      && (LedgerGroup(k, run, files) ==> verdict == Ok(Sha256(files[LedgerManifest])))
  {
    KindsDiffer();
    if files.Keys == Members(Business) {
      BusinessAcceptedIff(k, run, files);
    } else if files.Keys == Members(Ledger) {
      LedgerAcceptedIff(k, run, files);
    }
  }

  lemma BusinessAcceptedIff(k: Platform, run: string, files: Files)
    requires files.Keys == Members(Business)
    ensures ValidateAs(k, run, Business, files).Ok? <==> BusinessGroup(k, run, files)
    ensures ValidateAs(k, run, Business, files).Ok? ==>
              ValidateAs(k, run, Business, files) == Ok(Sha256(files[Manifest]))
  {
  }

  lemma LedgerAcceptedIff(k: Platform, run: string, files: Files)
    requires files.Keys == Members(Ledger)
    ensures ValidateAs(k, run, Ledger, files).Ok? <==> LedgerGroup(k, run, files)
    ensures ValidateAs(k, run, Ledger, files).Ok? ==>
              ValidateAs(k, run, Ledger, files) == Ok(Sha256(files[LedgerManifest]))
  {
  }
}
