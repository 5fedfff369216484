/** What an accepted backup manifest, reference certificate, inventory and group are, field by field,
    and what command_backup puts into a group. */
module BackupAcceptance {
  import opened Foundations
  import opened GroupRules
  import opened ManifestScan
  import opened LedgerRules
  import opened LedgerAcceptance
  import opened ReferenceProof
  import opened BackupManifest
  import opened BackupGroup
  import opened Scalars

  ghost predicate Keys(j: Json, keys: set<Field>) {
    j.Obj? && j.fields.Keys == keys
  }

  /** int() accepts the value of this field, and it is at least n. */
  ghost predicate AtLeast(k: Platform, j: Json, field: Field, n: int) {
    j.Obj? && field in j.fields && IntCast(k, j.fields[field]).Some? && IntCast(k, j.fields[field]).value >= n
  }

  ghost predicate DigestIn(k: Platform, j: Json, field: Field) {
    && j.Obj? && field in j.fields
    && (j.fields[field].Hash? || (j.fields[field].Str? && k.DigestText(j.fields[field].text)))
  }

  /** The value of this field is not one of Python's empty ones. */
  ghost predicate Filled(j: Json, field: Field) {
    j.Obj? && field in j.fields
    && j.fields[field] !in {Null, Bool(false), Int(0), Float(Halves(0, 0)), Str(""), Arr([]), Obj(map[])}
  }

  // ----- the certificate -----

  /** A certificate of exactly these fields: pinned validator and query, this inventory hash, a
      natural number that is both the expected and the checked count, and no mismatch. */
  ghost predicate Certificate(pinned: Pinned, proof: Json, expected: Json, inventory: Json) {
    && Keys(proof, {SchemaVersion, ValidatorId, QueryFingerprint, InventoryHash, Expected, Checked, Mismatches})
    && IsNumber(proof.fields[SchemaVersion], 1)
    && Says(proof, ValidatorId, Str(pinned.validator))
    && Says(proof, QueryFingerprint, Hash(Sha256(pinned.query)))
    && Says(proof, InventoryHash, inventory)
    && (expected.Bool? || (expected.Int? && expected.number >= 0))
    && Equals(proof.fields[Expected], expected) && Equals(proof.fields[Checked], expected)
    && IsNumber(proof.fields[Mismatches], 0)
  }

  lemma CertificateAcceptedIff(pinned: Pinned, proof: Json, expected: Json, inventory: Json)
    requires inventory.Hash? || inventory.Str?
    ensures ProofOk(pinned, proof, expected, inventory) <==> Certificate(pinned, proof, expected, inventory)
  {
    EqualsIntIff(Get(proof, SchemaVersion), 1);
    EqualsIntIff(Get(proof, Mismatches), 0);
  }

  /** The hashes of a database's keys. */
  ghost function KeyHashes(k: Platform, keys: seq<string>): set<string> {
    set i | 0 <= i < |keys| :: k.Text(Hash(Sha256(k.Utf8(keys[i]))))
  }

  /** The key hash an inventory item gives, as text. */
  ghost function KeyHashIn(k: Platform, item: Json): string {
    if item.Obj? && KeyHash in item.fields then k.Text(item.fields[KeyHash]) else k.Text(Str(""))
  }

  lemma KeyHashesAre(k: Platform, keys: seq<string>)
    ensures DatabaseHashes(k, keys) == KeyHashes(k, keys)
  {
    forall i | 0 <= i < |keys| ensures keys[i] in KeySet(keys) {}
  }

  /** Objects fit for comparison: each has a digest of its own. */
  ghost predicate Comparable(k: Platform, objects: seq<Json>) {
    && (forall i :: 0 <= i < |objects| ==> objects[i].Obj? && k.DigestText(KeyHashIn(k, objects[i])))
    && (forall i, j :: 0 <= i < j < |objects| ==> KeyHashIn(k, objects[i]) != KeyHashIn(k, objects[j]))
  }

  ghost function Listed(k: Platform, objects: seq<Json>): set<string> {
    set i | 0 <= i < |objects| :: KeyHashIn(k, objects[i])
  }

  lemma ComparableIff(k: Platform, objects: seq<Json>)
    ensures HashesOk(k, objects) <==> Comparable(k, objects)
    ensures Comparable(k, objects) ==> InventoryHashes(k, objects) == Listed(k, objects)
  {
    InventoryFitIff(k, objects);
    assert forall i :: 0 <= i < |objects| ==> HashText(k, objects[i]) == KeyHashIn(k, objects[i]);
    if Comparable(k, objects) {
      HashTextsCount(k, objects);
      var texts := HashTexts(k, objects);
      assert forall i :: 0 <= i < |objects| ==> texts[i] == KeyHashIn(k, objects[i]);
    }
  }

  ghost predicate ProperKeys(keys: seq<string>) {
    (forall i, j :: 0 <= i < j < |keys| ==> keys[i] != keys[j]) && "" !in keys
  }

  lemma ProperKeysIff(keys: seq<string>)
    ensures KeysOk(keys) <==> ProperKeys(keys)
  {
    KeyCount(keys);
    assert "" in KeySet(keys) <==> "" in keys;
  }

  /** The certificate of a comparison: it counts the keys, and the hashes that are on one side only. */
  ghost function CertificateOf(
      k: Platform, pinned: Pinned, keys: seq<string>, inventory: Json, listed: set<string>): Json
  {
    var database := KeyHashes(k, keys);
    Obj(map[SchemaVersion := Int(1), ValidatorId := Str(pinned.validator),
            QueryFingerprint := Hash(Sha256(pinned.query)), InventoryHash := Hash(Sha256(k.Print(inventory))),
            Expected := Int(|keys|), Checked := Int(|keys|),
            Mismatches := Int(|(database - listed) + (listed - database)|)])
  }

  /** The certificate that is built, for distinct, non-empty keys and an inventory fit for comparison. */
  lemma BuiltCertificateIs(k: Platform, pinned: Pinned, keys: seq<string>, inventory: Json, proof: Json)
    ensures BuildProof(k, pinned, keys, inventory) == Some(proof) <==>
      && Get(inventory, Objects).Arr?
      && Comparable(k, Get(inventory, Objects).items) && ProperKeys(keys)
      && proof == CertificateOf(k, pinned, keys, inventory, Listed(k, Get(inventory, Objects).items))
  {
    KeyHashesAre(k, keys);
    ProperKeysIff(keys);
    if Get(inventory, Objects).Arr? { ComparableIff(k, Get(inventory, Objects).items); }
  }

  // ----- the inventory -----

  ghost predicate ListedObject(k: Platform, item: Json) {
    && Keys(item, {KeyHash, ContentHash, SizeBytes})
    && DigestIn(k, item, KeyHash) && DigestIn(k, item, ContentHash) && AtLeast(k, item, SizeBytes, 0)
  }

  /** An inventory is counted exactly when it has schema 1 and lists objects of exactly three
      fields, two digests and a size. */
  lemma InventoryCountedIff(k: Platform, file: Bytes, n: nat)
    ensures CheckInventory(k, file) == Some(n) <==>
      && k.Parse(file).Some?
      && var inventory := k.Parse(file).value;
      && inventory.Obj? && SchemaVersion in inventory.fields && IsNumber(inventory.fields[SchemaVersion], 1)
      && Objects in inventory.fields && inventory.fields[Objects].Arr? && |inventory.fields[Objects].items| == n
      && forall i :: 0 <= i < n ==> ListedObject(k, inventory.fields[Objects].items[i])
  {
    if k.Parse(file).Some? {
      var inventory := k.Parse(file).value;
      EqualsIntIff(Get(inventory, SchemaVersion), 1);
      if Get(inventory, Objects).Arr? {
        var items := Get(inventory, Objects).items;
        forall i | 0 <= i < |items| ensures InventoryItemOk(k, items[i]) <==> ListedObject(k, items[i]) {}
      }
    }
  }

  // ----- the manifest -----

  /** A digest, after "sha256:" or alone. */
  ghost predicate PinnedDigest(k: Platform, text: string) {
    if "sha256:" <= text then k.DigestText(text[7..]) else k.DigestText(text)
  }

  ghost predicate Header(k: Platform, root: Json) {
    && Keys(root, {SchemaVersion, BackupRunId, RunState, BackupCutoff, ScheduleHours, Toolchain, Database, BusinessPart,
                   ReferencePart, LedgerPart, RetentionPart, Gates})
    && IsNumber(root.fields[SchemaVersion], 1) && Says(root, RunState, Str("complete"))
    && root.fields[BackupRunId].Str? && ValidRunId(root.fields[BackupRunId].text)
    && root.fields[BackupCutoff].Str? && k.Utc(root.fields[BackupCutoff].text).Some?
    && IsNumber(root.fields[ScheduleHours], 12)
  }

  lemma HeaderAcceptedIff(k: Platform, root: Json)
    ensures HeaderOk(k, root) <==> Header(k, root)
  {
    EqualsIntIff(Get(root, SchemaVersion), 1);
    EqualsIntIff(Get(root, ScheduleHours), 12);
  }

  ghost predicate ToolchainSound(k: Platform, j: Json) {
    && Keys(j, {Image, ImageDigest, Postgres, MinioClient, DestinationClient})
    && PinnedDigest(k, k.Text(j.fields[ImageDigest]))
    && Filled(j, Image) && Filled(j, Postgres) && Filled(j, MinioClient) && Filled(j, DestinationClient)
  }

  lemma ToolchainAcceptedIff(k: Platform, j: Json)
    ensures ToolchainOk(k, j) <==> ToolchainSound(k, j)
  {
    FalsyIff(Get(j, Image));
    FalsyIff(Get(j, Postgres));
    FalsyIff(Get(j, MinioClient));
    FalsyIff(Get(j, DestinationClient));
    PinnedIff(k, k.Text(Get(j, ImageDigest)));
  }

  ghost predicate PayloadsSound(k: Platform, database: Json, business: Json) {
    && Keys(database, {Format, ContentHash, SizeBytes, ListEntries}) && Says(database, Format, Str("custom"))
    && AtLeast(k, database, SizeBytes, 1) && AtLeast(k, database, ListEntries, 1) && DigestIn(k, database, ContentHash)
    && Keys(business, {ContentHash, SizeBytes, ObjectCount, InventoryHash})
    && AtLeast(k, business, SizeBytes, 1) && AtLeast(k, business, ObjectCount, 0)
    && DigestIn(k, business, ContentHash) && DigestIn(k, business, InventoryHash)
  }

  lemma PayloadsAcceptedIff(k: Platform, database: Json, business: Json)
    ensures DatabaseOk(k, database) && BusinessOk(k, business) <==> PayloadsSound(k, database, business)
  {
  }

  ghost predicate LedgerSound(k: Platform, j: Json) {
    && Keys(j, {ArchiveRunId, CutoffUtc, ManifestHash, KeyVersions})
    && ValidRunId(k.Text(j.fields[ArchiveRunId])) && k.Utc(k.Text(j.fields[CutoffUtc])).Some?
    && DigestIn(k, j, ManifestHash)
    && j.fields[KeyVersions].Arr? && j.fields[KeyVersions].items != []
    && forall i :: 0 <= i < |j.fields[KeyVersions].items| ==>
         var item := j.fields[KeyVersions].items[i]; item.Hash? || (item.Str? && item != Str(""))
  }

  lemma LedgerPartAcceptedIff(k: Platform, j: Json)
    ensures LedgerPartOk(k, j) <==> LedgerSound(k, j)
  {
    var versions := Get(j, KeyVersions);
    if versions.Arr? {
      forall i | 0 <= i < |versions.items|
        ensures NonEmptyText(versions.items[i])
                <==> versions.items[i].Hash? || (versions.items[i].Str? && versions.items[i] != Str("")) {}
    }
  }

  ghost predicate PolicySound(k: Platform, retention: Json, gates: Json) {
    && Keys(retention, {WindowDays, PolicyVersion})
    && AtLeast(k, retention, WindowDays, 1) && Filled(retention, PolicyVersion)
    && Keys(gates, {ListGate, HashGate, InventoryGate, ReferenceGate})
    && Filled(gates, ListGate) && Filled(gates, HashGate)
    && Filled(gates, InventoryGate) && Filled(gates, ReferenceGate)
  }

  lemma PolicyAcceptedIff(k: Platform, retention: Json, gates: Json)
    ensures RetentionOk(k, retention) && GatesOk(gates) <==> PolicySound(k, retention, gates)
  {
    FalsyIff(Get(retention, PolicyVersion));
    FalsyIff(Get(gates, ListGate));
    FalsyIff(Get(gates, HashGate));
    FalsyIff(Get(gates, InventoryGate));
    FalsyIff(Get(gates, ReferenceGate));
  }

  /** A manifest is accepted exactly when nothing in it is screened out, it has exactly the fields of
      a complete restore point of schema 1 on a schedule of 12 hours, and every part is sound: a
      pinned image, a non-empty dump and snapshot, a certificate without mismatch for the very
      inventory, ledger evidence, a retention window, and all four gates passed. */
  lemma ManifestAcceptedIff(k: Platform, pinned: Pinned, root: Json)
    ensures ManifestOk(k, pinned, root) <==>
      && AllHarmless(k, root) && Header(k, root)
      && ToolchainSound(k, root.fields[Toolchain])
      && PayloadsSound(k, root.fields[Database], root.fields[BusinessPart])
      && Certificate(pinned, root.fields[ReferencePart], Get(root.fields[ReferencePart], Expected),
                     root.fields[BusinessPart].fields[InventoryHash])
      && LedgerSound(k, root.fields[LedgerPart])
      && PolicySound(k, root.fields[RetentionPart], root.fields[Gates])
  {
    CleanIff(k, root);
    HeaderAcceptedIff(k, root);
    ToolchainAcceptedIff(k, Get(root, Toolchain));
    PayloadsAcceptedIff(k, Get(root, Database), Get(root, BusinessPart));
    LedgerPartAcceptedIff(k, Get(root, LedgerPart));
    PolicyAcceptedIff(k, Get(root, RetentionPart), Get(root, Gates));
    var inventory := Get(Get(root, BusinessPart), InventoryHash);
    if inventory.Hash? || inventory.Str? {
      CertificateAcceptedIff(pinned, Get(root, ReferencePart), Get(Get(root, ReferencePart), Expected), inventory);
    }
  }

  // ----- a fetched group -----

  /** Canonical manifest, signed and marked; dump, snapshot and inventory are those it records, by
      hash and size; the dump lists as many entries and the inventory as many objects as it says. */
  ghost predicate BackupBytes(k: Platform, files: Files, key: Bytes, lister: Lister, manifest: Json) {
    && {DatabaseDump, BusinessSnapshot, Inventory, GroupRules.Manifest, ManifestSig, Complete} <= files.Keys
    && k.Parse(files[GroupRules.Manifest]) == Some(manifest) && files[GroupRules.Manifest] == k.Print(manifest)
    && SignedWith(k, files[GroupRules.Manifest], key, files[ManifestSig])
    && Marks(k, files[Complete], files[GroupRules.Manifest])
    && SaysIn(manifest, Database, ContentHash, Hash(Sha256(files[DatabaseDump])))
    && Measures(manifest, Database, SizeBytes, |files[DatabaseDump]|)
    && Measures(manifest, Database, ListEntries, lister(files[DatabaseDump]))
    && SaysIn(manifest, BusinessPart, ContentHash, Hash(Sha256(files[BusinessSnapshot])))
    && Measures(manifest, BusinessPart, SizeBytes, |files[BusinessSnapshot]|)
    && SaysIn(manifest, BusinessPart, InventoryHash, Hash(Sha256(files[Inventory])))
    && CheckInventory(k, files[Inventory]).Some?
    && Measures(manifest, BusinessPart, ObjectCount, CheckInventory(k, files[Inventory]).value)
  }

  /** The field of the part is the number n. */
  ghost predicate Measures(manifest: Json, part: Field, field: Field, n: int) {
    && manifest.Obj? && part in manifest.fields && manifest.fields[part].Obj? && field in manifest.fields[part].fields
    && IsNumber(manifest.fields[part].fields[field], n)
  }

  lemma MeasuresIff(manifest: Json, part: Field, field: Field, n: int)
    ensures EqualsInt(Get(Get(manifest, part), field), n) <==> Measures(manifest, part, field, n)
  {
    EqualsIntIff(Get(Get(manifest, part), field), n);
  }

  lemma BackupBytesIff(k: Platform, files: Files, key: Bytes, lister: Lister, manifest: Json)
    requires Lawful(k)
    ensures BackupBytes(k, files, key, lister, manifest) <==>
            && PARTS <= files.Keys && k.Parse(files[GroupRules.Manifest]) == Some(manifest)
            && GroupBytesOk(k, manifest, files, key, lister)
  {
    if PARTS <= files.Keys {
      SignedIff(k, files[GroupRules.Manifest], key, files[ManifestSig]);
      MarkedIff(k, files[GroupRules.Manifest], files[Complete]);
      MeasuresIff(manifest, Database, SizeBytes, |files[DatabaseDump]|);
      MeasuresIff(manifest, Database, ListEntries, lister(files[DatabaseDump]));
      MeasuresIff(manifest, BusinessPart, SizeBytes, |files[BusinessSnapshot]|);
      var n := CheckInventory(k, files[Inventory]);
      if n.Some? { MeasuresIff(manifest, BusinessPart, ObjectCount, n.value); }
    }
  }

  /** A fetched group is accepted, with this manifest, exactly when its bytes are those the manifest
      records, the manifest names the run, and the manifest is acceptable itself. */
  lemma BackupAcceptedIff(
        k: Platform, ok: Json -> bool, name: string, files: Files, key: Bytes, lister: Lister, manifest: Json)
    requires Lawful(k)
    ensures ValidateGroup(k, ok, name, files, key, lister) == Some(manifest) <==>
            && ValidRunId(name) && ok(manifest) && Says(manifest, BackupRunId, Str(name))
            && BackupBytes(k, files, key, lister, manifest)
  {
    BackupBytesIff(k, files, key, lister, manifest);
  }

  // ----- a staged group -----

  /** The paired ledger group is whole, no older than the backup, and this is its evidence: its run,
      its cutoff, its manifest's hash and all key versions. */
  ghost predicate Paired(k: Platform, b: BackupInputs, ledger: Json, evidence: Json) {
    && ValidRunId(b.ledgerName) && SoundHistory(k, b.history)
    && ArchiveBytes(k, b.ledgerFiles, b.ledgerKey, ledger)
    && ArchiveFields(k, b.ledgerName, b.history, b.cutoff, ledger)
    && evidence == Obj(map[
         ArchiveRunId := Str(b.ledgerName), CutoffUtc := Get(ledger, CutoffUtc),
         ManifestHash := Hash(Sha256(k.Print(ledger))), KeyVersions := Arr(VersionNames(b.history))])
  }

  lemma PairedIff(k: Platform, b: BackupInputs, evidence: Json)
    requires Lawful(k)
    ensures PairLedger(k, b) == Some(evidence) <==>
            AllHarmless(k, evidence) && exists ledger :: Paired(k, b, ledger, evidence)
  {
    CleanIff(k, evidence);
    var found := ValidateLedgerGroup(k, b.ledgerName, b.ledgerFiles, b.ledgerKey, b.history, b.cutoff);
    if found.Some? {
      ArchiveAcceptedIff(k, b.ledgerName, b.ledgerFiles, b.ledgerKey, b.history, b.cutoff, found.value);
      assert PairLedger(k, b) == Some(evidence) ==> Paired(k, b, found.value, evidence);
    }
    if ledger :| Paired(k, b, ledger, evidence) {
      ArchiveAcceptedIff(k, b.ledgerName, b.ledgerFiles, b.ledgerKey, b.history, b.cutoff, ledger);
    }
  }

  /** The whole manifest command_backup writes. */
  ghost function ManifestOfRun(b: BackupInputs, entries: int, objects: nat, references: Json, ledger: Json): Json {
    Obj(map[
      SchemaVersion := Int(1), BackupRunId := Str(b.run), RunState := Str("complete"), BackupCutoff := Str(b.cutoff),
      ScheduleHours := Int(12),
      Toolchain := Obj(map[
        Image := Str(b.image), ImageDigest := Str(b.imageDigest), Postgres := Str("16.9"),
        MinioClient := Str("RELEASE.2025-07-21T05-28-08Z"), DestinationClient := Str("external-atomic-publisher-v1")]),
      Database := Obj(map[
        Format := Str("custom"), ContentHash := Hash(Sha256(b.dump)), SizeBytes := Int(|b.dump|),
        ListEntries := Int(entries)]),
      BusinessPart := Obj(map[
        ContentHash := Hash(Sha256(b.snapshot)), SizeBytes := Int(|b.snapshot|), ObjectCount := Int(objects),
        InventoryHash := Hash(Sha256(b.inventory))]),
      ReferencePart := references, LedgerPart := ledger,
      RetentionPart := Obj(map[WindowDays := Int(b.windowDays), PolicyVersion := Str(b.policy)]),
      Gates := Obj(map[ListGate := Bool(true), HashGate := Bool(true), InventoryGate := Bool(true),
                       ReferenceGate := Bool(true)])])
  }

  lemma ManifestIsWritten(b: BackupInputs, entries: int, objects: nat, references: Json, ledger: Json)
    ensures ManifestFor(ContentOf(b, entries, objects, references, ledger))
            == ManifestOfRun(b, entries, objects, references, ledger)
  {
  }

  /** What has been checked when a group is staged: a valid run id and cutoff, a paired ledger, a dump
      that lists entries, a snapshot, an inventory that counts objects, a certificate without mismatch
      for the database's keys, a pinned image, an acceptable manifest and a key of 32 bytes. */
  ghost predicate Ready(
      k: Platform, pinned: Pinned, ok: Json -> bool, lister: Lister, b: BackupInputs, objects: nat, references: Json,
      ledger: Json, manifest: Json)
  {
    && b.elsewhere && ValidRunId(b.run) && k.Utc(b.cutoff).Some?
    && PairLedger(k, b) == Some(ledger)
    && b.dump != [] && lister(b.dump) > 0 && b.snapshot != [] && CheckInventory(k, b.inventory) == Some(objects)
    && k.Parse(b.inventory).Some?
    && BuildProof(k, pinned, b.databaseKeys, k.Parse(b.inventory).value) == Some(references)
    && Certificate(pinned, references, Int(|b.databaseKeys|), Hash(Sha256(b.inventory)))
    && PinnedDigest(k, b.imageDigest) && b.image != "" && b.policy != ""
    && ok(manifest) && |b.key| >= 32
  }

  /** Dump, snapshot and inventory as delivered, the manifest in canonical form, its signature and its
      hash as lines. */
  ghost function StagedFiles(k: Platform, b: BackupInputs, manifest: Json): Files {
    map[DatabaseDump := b.dump, BusinessSnapshot := b.snapshot, Inventory := b.inventory,
        GroupRules.Manifest := k.Print(manifest), ManifestSig := k.TagHex(Hmac(b.key, k.Print(manifest))) + [10],
        Complete := k.Hex(Sha256(k.Print(manifest))) + [10]]
  }

  /** A group is staged exactly when everything is ready, and it is the one of the run's manifest. */
  lemma BackupStagedIff(k: Platform, pinned: Pinned, ok: Json -> bool, lister: Lister, b: BackupInputs, files: Files)
    ensures StageBackup(k, pinned, ok, lister, b) == Some(files) <==>
            exists objects, references, ledger, manifest ::
              && Ready(k, pinned, ok, lister, b, objects, references, ledger, manifest)
              && manifest == ManifestOfRun(b, lister(b.dump), objects, references, ledger)
              && files == StagedFiles(k, b, manifest)
  {
    if StageBackup(k, pinned, ok, lister, b) == Some(files) {
      var ledger, objects := PairLedger(k, b).value, CheckInventory(k, b.inventory).value;
      var references := Certify(k, pinned, b).value;
      var manifest := ManifestFor(ContentOf(b, lister(b.dump), objects, references, ledger));
      ManifestIsWritten(b, lister(b.dump), objects, references, ledger);
      ReadyMeansStaged(k, pinned, ok, lister, b, objects, references, ledger, manifest);
      assert Ready(k, pinned, ok, lister, b, objects, references, ledger, manifest);
    }
    forall objects, references, ledger, manifest
      | Ready(k, pinned, ok, lister, b, objects, references, ledger, manifest)
        && manifest == ManifestOfRun(b, lister(b.dump), objects, references, ledger)
      ensures StageBackup(k, pinned, ok, lister, b) == Some(StagedFiles(k, b, manifest))
    {
      ManifestIsWritten(b, lister(b.dump), objects, references, ledger);
      ReadyMeansStaged(k, pinned, ok, lister, b, objects, references, ledger, manifest);
    }
  }

  lemma ReadyMeansStaged(
      k: Platform, pinned: Pinned, ok: Json -> bool, lister: Lister, b: BackupInputs, objects: nat, references: Json,
      ledger: Json, manifest: Json)
    requires PairLedger(k, b) == Some(ledger) && CheckInventory(k, b.inventory) == Some(objects)
    requires k.Parse(b.inventory).Some?
             && BuildProof(k, pinned, b.databaseKeys, k.Parse(b.inventory).value) == Some(references)
    requires manifest == ManifestFor(ContentOf(b, lister(b.dump), objects, references, ledger))
    ensures StageBackup(k, pinned, ok, lister, b) ==
            if Ready(k, pinned, ok, lister, b, objects, references, ledger, manifest)
            then Some(StagedFiles(k, b, manifest)) else None
  {
    CertifiedIff(k, pinned, b, references);
    PinnedIff(k, b.imageDigest);
    GroupIsStaged(k, b, manifest);
  }

  lemma GroupIsStaged(k: Platform, b: BackupInputs, manifest: Json)
    ensures GroupFor(k, manifest, b) == StagedFiles(k, b, manifest)
  {
  }

  lemma CertifiedIff(k: Platform, pinned: Pinned, b: BackupInputs, references: Json)
    requires k.Parse(b.inventory).Some?
             && BuildProof(k, pinned, b.databaseKeys, k.Parse(b.inventory).value) == Some(references)
    ensures Certify(k, pinned, b) ==
            if Certificate(pinned, references, Int(|b.databaseKeys|), Hash(Sha256(b.inventory))) then Some(references)
            else None
  {
    CertificateAcceptedIff(pinned, references, Int(|b.databaseKeys|), Hash(Sha256(b.inventory)));
  }

  lemma PinnedIff(k: Platform, text: string)
    ensures k.DigestText(DropDigestPrefix(text)) <==> PinnedDigest(k, text)
  {
    assert |"sha256:"| == 7;
  }
}
