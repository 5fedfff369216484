/** A business backup group: how command_backup stages one, and how a fetched one is judged. */
module BackupGroup {
  import opened Foundations
  import opened GroupRules
  import opened ManifestScan
  import opened LedgerRules
  import opened ReferenceProof
  import opened BackupManifest

  /** pg_restore --list: how many entries a dump lists. It always answers alike. */
  type Lister = Bytes -> int

  // ----- the inventory file -----

  predicate InventoryItemOk(k: Platform, item: Json) {
    && HasExactly(item, {KeyHash, ContentHash, SizeBytes})
    && IsSha256(k, Get(item, KeyHash)) && IsSha256(k, Get(item, ContentHash))
    && NonNegative(k, Get(item, SizeBytes))
  }

  /** _validate_business_inventory on a parsed file: the number of objects. */
  function CheckInventory(k: Platform, file: Bytes): Option<nat> {
    match k.Parse(file)
    case None => None
    case Some(inventory) =>
      if !EqualsInt(Get(inventory, SchemaVersion), 1) || !Get(inventory, Objects).Arr? then None else
      var items := Get(inventory, Objects).items;
      if forall i :: 0 <= i < |items| ==> InventoryItemOk(k, items[i]) then Some(|items|) else None
  }

  // ----- judging a fetched group -----

  const PARTS := {DatabaseDump, BusinessSnapshot, Inventory, Manifest, ManifestSig, Complete}

  /** A payload file against the size and hash recorded for it. */
  predicate PayloadMatches(evidence: Json, content: Bytes) {
    EqualsInt(Get(evidence, SizeBytes), |content|) && Get(evidence, ContentHash) == Hash(Sha256(content))
  }

  predicate InventoryMatches(k: Platform, evidence: Json, file: Bytes) {
    && CheckInventory(k, file).Some?
    && Get(evidence, InventoryHash) == Hash(Sha256(file))
    && EqualsInt(Get(evidence, ObjectCount), CheckInventory(k, file).value)
  }

  predicate GroupBytesOk(k: Platform, manifest: Json, files: Files, key: Bytes, lister: Lister)
    requires PARTS <= files.Keys
  {
    && files[Manifest] == k.Print(manifest)
    && Signed(k, files[Manifest], key, files[ManifestSig])
    && Marked(k, files[Manifest], files[Complete])
    && PayloadMatches(Get(manifest, Database), files[DatabaseDump])
    && PayloadMatches(Get(manifest, BusinessPart), files[BusinessSnapshot])
    && InventoryMatches(k, Get(manifest, BusinessPart), files[Inventory])
    && EqualsInt(Get(Get(manifest, Database), ListEntries), lister(files[DatabaseDump]))
  }

  /** validate_complete_backup_group on the fetched group `name`: the manifest it accepts.
      `ok` is validate_backup_manifest. */
  function ValidateGroup(
      k: Platform, ok: Json -> bool, name: string, files: Files, key: Bytes, lister: Lister): Option<Json> {
    if !ValidRunId(name) || !(PARTS <= files.Keys) then None else
    match k.Parse(files[Manifest])
    case None => None
    case Some(manifest) =>
      if ok(manifest) && Get(manifest, BackupRunId) == Str(name) && GroupBytesOk(k, manifest, files, key, lister)
      then Some(manifest) else None
  }

  function ManifestCheck(k: Platform, pinned: Pinned): Json -> bool {
    (root: Json) => ManifestOk(k, pinned, root)
  }

  // ----- staging a group -----

  /** What command_backup works on: its settings, the paired ledger group, and what the database,
      the snapshot client and the reference query delivered. `elsewhere` stands for the checks
      whose only effect is to refuse: destinations, buckets, the image name, the secret files. */
  datatype BackupInputs = BackupInputs(
    elsewhere: bool, run: string, cutoff: string, image: string, imageDigest: string,
    windowDays: int, policy: string, key: Bytes,
    ledgerName: string, ledgerFiles: Files, ledgerKey: Bytes, history: Json,
    dump: Bytes, snapshot: Bytes, inventory: Bytes, databaseKeys: seq<string>)

  /** validate_ledger_pairing: the evidence recorded for the paired ledger group. */
  function PairLedger(k: Platform, b: BackupInputs): Option<Json> {
    match ValidateLedgerGroup(k, b.ledgerName, b.ledgerFiles, b.ledgerKey, b.history, b.cutoff)
    case None => None
    case Some(ledger) =>
      if LedgerManifest !in b.ledgerFiles then None else
      var evidence := Obj(map[
        ArchiveRunId := Get(ledger, ArchiveRunId), CutoffUtc := Get(ledger, CutoffUtc),
        ManifestHash := Hash(Sha256(b.ledgerFiles[LedgerManifest])), KeyVersions := Arr(VersionNames(b.history))]);
      if Clean(k, evidence) then Some(evidence) else None
  }

  /** The certificate of the reference query, once the command has accepted it itself. */
  function Certify(k: Platform, pinned: Pinned, b: BackupInputs): Option<Json> {
    match k.Parse(b.inventory)
    case None => None
    case Some(inventory) =>
      match BuildProof(k, pinned, b.databaseKeys, inventory)
      case None => None
      case Some(proof) =>
        if ProofOk(pinned, proof, Int(|b.databaseKeys|), Hash(Sha256(b.inventory))) then Some(proof) else None
  }

  function ContentOf(b: BackupInputs, entries: int, objects: nat, references: Json, ledger: Json): Content {
    Content(b.run, b.cutoff, b.image, b.imageDigest, b.dump, entries, b.snapshot, objects, b.inventory,
            references, ledger, b.windowDays, b.policy)
  }

  function GroupFor(k: Platform, manifest: Json, b: BackupInputs): Files {
    var payload := k.Print(manifest);
    map[DatabaseDump := b.dump, BusinessSnapshot := b.snapshot, Inventory := b.inventory, Manifest := payload,
        ManifestSig := SignatureFile(k, payload, b.key), Complete := MarkerFile(k, payload)]
  }

  /** The group command_backup stages for publication, if it gets that far. */
  function StageBackup(k: Platform, pinned: Pinned, ok: Json -> bool, lister: Lister, b: BackupInputs): Option<Files> {
    if !b.elsewhere || !ValidRunId(b.run) || k.Utc(b.cutoff).None? then None else
    var ledger := PairLedger(k, b);
    if ledger.None? || b.dump == [] || lister(b.dump) <= 0 || b.snapshot == [] then None else
    var objects := CheckInventory(k, b.inventory);
    var references := Certify(k, pinned, b);
    if objects.None? || references.None? then None else
    if !k.DigestText(DropDigestPrefix(b.imageDigest)) || b.image == "" || b.policy == "" then None else
    var manifest := ManifestFor(ContentOf(b, lister(b.dump), objects.value, references.value, ledger.value));
    if ok(manifest) && |b.key| >= MIN_KEY_LENGTH then Some(GroupFor(k, manifest, b)) else None
  }

  // ----- producer meets verifier -----

  lemma StagedParts(k: Platform, pinned: Pinned, ok: Json -> bool, lister: Lister, b: BackupInputs, files: Files)
    returns (c: Content)
    requires StageBackup(k, pinned, ok, lister, b) == Some(files)
    ensures files == GroupFor(k, ManifestFor(c), b) && ok(ManifestFor(c))
    ensures ValidRunId(b.run) && |b.key| >= MIN_KEY_LENGTH
    ensures c.run == b.run && c.dump == b.dump && c.snapshot == b.snapshot && c.inventory == b.inventory
    ensures c.entries == lister(b.dump) && CheckInventory(k, b.inventory) == Some(c.objects)
    ensures Certify(k, pinned, b) == Some(c.references)
  {
    c := ContentOf(b, lister(b.dump), CheckInventory(k, b.inventory).value, Certify(k, pinned, b).value,
                   PairLedger(k, b).value);
  }

  /** A manifest agrees with payload files it was made from. */
  predicate Describes(
        manifest: Json, run: string, dump: Bytes, entries: int, snapshot: Bytes, inventory: Bytes, objects: nat)
  {
    var database, business := Get(manifest, Database), Get(manifest, BusinessPart);
    && Get(manifest, BackupRunId) == Str(run)
    && PayloadMatches(database, dump) && PayloadMatches(business, snapshot)
    && Get(database, ListEntries) == Int(entries)
    && Get(business, InventoryHash) == Hash(Sha256(inventory)) && Get(business, ObjectCount) == Int(objects)
  }

  lemma BuiltManifestDescribes(c: Content, manifest: Json)
    requires manifest == ManifestFor(c)
    ensures Describes(manifest, c.run, c.dump, c.entries, c.snapshot, c.inventory, c.objects)
  {
    ManifestFields(c);
    PartsDescribe(c);
  }

  lemma PartsDescribe(c: Content)
    ensures PayloadMatches(DatabaseFor(c), c.dump) && PayloadMatches(BusinessFor(c), c.snapshot)
    ensures Get(DatabaseFor(c), ListEntries) == Int(c.entries)
    ensures Get(BusinessFor(c), InventoryHash) == Hash(Sha256(c.inventory))
    ensures Get(BusinessFor(c), ObjectCount) == Int(c.objects)
  {
  }

  lemma DescribedIsAccepted(
      k: Platform, ok: Json -> bool, lister: Lister, b: BackupInputs, manifest: Json, objects: nat, files: Files)
    requires Lawful(k) && |b.key| >= MIN_KEY_LENGTH && ValidRunId(b.run) && ok(manifest)
    requires Describes(manifest, b.run, b.dump, lister(b.dump), b.snapshot, b.inventory, objects)
    requires CheckInventory(k, b.inventory) == Some(objects)
    requires files == GroupFor(k, manifest, b)
    ensures ValidateGroup(k, ok, b.run, files, b.key, lister) == Some(manifest)
    ensures files.Keys == PARTS
    ensures files[DatabaseDump] == b.dump && files[BusinessSnapshot] == b.snapshot && files[Inventory] == b.inventory
  {
    OwnSignatureVerifies(k, k.Print(manifest), b.key);
    DescribedBytes(k, lister, b, manifest, objects, files);
    assert k.Parse(files[Manifest]) == Some(manifest);
  }

  lemma DescribedBytes(k: Platform, lister: Lister, b: BackupInputs, manifest: Json, objects: nat, files: Files)
    requires Describes(manifest, b.run, b.dump, lister(b.dump), b.snapshot, b.inventory, objects)
    requires CheckInventory(k, b.inventory) == Some(objects)
    requires PARTS <= files.Keys && files[Manifest] == k.Print(manifest)
    requires Signed(k, files[Manifest], b.key, files[ManifestSig]) && Marked(k, files[Manifest], files[Complete])
    requires files[DatabaseDump] == b.dump && files[BusinessSnapshot] == b.snapshot && files[Inventory] == b.inventory
    ensures GroupBytesOk(k, manifest, files, b.key, lister)
  {
    assert InventoryMatches(k, Get(manifest, BusinessPart), files[Inventory]);
  }

  /** Producer meets verifier: every group command_backup stages is accepted by
      validate_complete_backup_group under the same key and a lister that answers alike. */
  lemma StagedBackupIsAccepted(k: Platform, pinned: Pinned, lister: Lister, b: BackupInputs, files: Files)
    returns (manifest: Json)
    requires Lawful(k)
    requires StageBackup(k, pinned, ManifestCheck(k, pinned), lister, b) == Some(files)
    ensures ValidateGroup(k, ManifestCheck(k, pinned), b.run, files, b.key, lister) == Some(manifest)
    ensures files[DatabaseDump] == b.dump && files[BusinessSnapshot] == b.snapshot && files[Inventory] == b.inventory
  {
    manifest := StagedIsAccepted(k, pinned, ManifestCheck(k, pinned), lister, b, files);
  }

  lemma StagedIsAccepted(k: Platform, pinned: Pinned, ok: Json -> bool, lister: Lister, b: BackupInputs, files: Files)
    returns (manifest: Json)
    requires Lawful(k) && StageBackup(k, pinned, ok, lister, b) == Some(files)
    ensures ValidateGroup(k, ok, b.run, files, b.key, lister) == Some(manifest)
    ensures files.Keys == PARTS
    ensures files[DatabaseDump] == b.dump && files[BusinessSnapshot] == b.snapshot && files[Inventory] == b.inventory
  {
    var c := StagedParts(k, pinned, ok, lister, b, files);
    manifest := ManifestFor(c);
    BuiltManifestDescribes(c, manifest);
    DescribedIsAccepted(k, ok, lister, b, manifest, c.objects, files);
  }

  /** A staged group certifies its references: for the set of objects its inventory lists, the
      database referred to exactly those, and as many as the manifest counts. */
  lemma StagedBackupReferencesMatch(
      k: Platform, pinned: Pinned, ok: Json -> bool, lister: Lister, b: BackupInputs, files: Files, stored: set<string>)
    requires Lawful(k) && InjectiveUtf8(k)
    requires StageBackup(k, pinned, ok, lister, b) == Some(files)
    requires k.Parse(b.inventory).Some? && ObjectsOf(k.Parse(b.inventory).value).Some?
    requires InventoryHashes(k, ObjectsOf(k.Parse(b.inventory).value).value) == Digests(k, stored)
    ensures KeySet(b.databaseKeys) == stored
    ensures CheckInventory(k, b.inventory) == Some(|b.databaseKeys|)
  {
    var c := StagedParts(k, pinned, ok, lister, b, files);
    CertifiedReferencesMatch(k, pinned, b, stored);
  }

  lemma CertifiedReferencesMatch(k: Platform, pinned: Pinned, b: BackupInputs, stored: set<string>)
    requires Lawful(k) && InjectiveUtf8(k)
    requires Certify(k, pinned, b).Some? && CheckInventory(k, b.inventory).Some?
    requires k.Parse(b.inventory).Some? && ObjectsOf(k.Parse(b.inventory).value).Some?
    requires InventoryHashes(k, ObjectsOf(k.Parse(b.inventory).value).value) == Digests(k, stored)
    ensures KeySet(b.databaseKeys) == stored
    ensures CheckInventory(k, b.inventory) == Some(|b.databaseKeys|)
  {
    ProofCertifiesEquality(k, pinned, b.databaseKeys, k.Parse(b.inventory).value, stored, b.inventory);
  }

  // ----- an accepted group is pinned by its manifest -----

  lemma AcceptedParts(
        k: Platform, ok: Json -> bool, name: string, files: Files, key: Bytes, lister: Lister, manifest: Json)
    requires ValidateGroup(k, ok, name, files, key, lister) == Some(manifest)
    ensures PARTS <= files.Keys && files[Manifest] == k.Print(manifest)
    ensures Get(manifest, BackupRunId) == Str(name) && ok(manifest)
    ensures Get(Get(manifest, Database), ContentHash) == Hash(Sha256(files[DatabaseDump]))
    ensures Get(Get(manifest, BusinessPart), ContentHash) == Hash(Sha256(files[BusinessSnapshot]))
    ensures Get(Get(manifest, BusinessPart), InventoryHash) == Hash(Sha256(files[Inventory]))
    ensures Signed(k, files[Manifest], key, files[ManifestSig])
  {
    assert GroupBytesOk(k, manifest, files, key, lister);
  }

  /** The manifest pins the group: any two accepted groups with the same manifest bytes, whatever
      their names, keys and listers, are one run with identical dump, snapshot and inventory. */
  lemma SameManifestSameContents(
      k: Platform, ok: Json -> bool,
      name1: string, a: Files, key1: Bytes, lister1: Lister, m1: Json,
      name2: string, b: Files, key2: Bytes, lister2: Lister, m2: Json)
    requires ValidateGroup(k, ok, name1, a, key1, lister1) == Some(m1)
    requires ValidateGroup(k, ok, name2, b, key2, lister2) == Some(m2)
    requires Manifest in a && Manifest in b && a[Manifest] == b[Manifest]
    ensures name1 == name2 && PARTS <= a.Keys && PARTS <= b.Keys
    ensures a[DatabaseDump] == b[DatabaseDump] && a[BusinessSnapshot] == b[BusinessSnapshot]
    ensures a[Inventory] == b[Inventory]
  {
    AcceptedParts(k, ok, name1, a, key1, lister1, m1);
    AcceptedParts(k, ok, name2, b, key2, lister2, m2);
    assert k.Parse(a[Manifest]) == Some(m1) && k.Parse(b[Manifest]) == Some(m2);
  }

  /** Two accepted groups under one key with different dumps never carry the same signature:
      a signature stands for one dump, one snapshot and one inventory. */
  lemma SameSignatureSameContents(
      k: Platform, ok: Json -> bool, key: Bytes,
      name1: string, a: Files, lister1: Lister, m1: Json,
      name2: string, b: Files, lister2: Lister, m2: Json)
    requires Lawful(k) && (forall s, t :: k.TagHex(s) == k.TagHex(t) ==> s == t)
    requires ValidateGroup(k, ok, name1, a, key, lister1) == Some(m1)
    requires ValidateGroup(k, ok, name2, b, key, lister2) == Some(m2)
    requires ManifestSig in a && ManifestSig in b && Strip(a[ManifestSig]) == Strip(b[ManifestSig])
    ensures PARTS <= a.Keys && PARTS <= b.Keys
    ensures a[DatabaseDump] == b[DatabaseDump] && a[BusinessSnapshot] == b[BusinessSnapshot]
    ensures a[Inventory] == b[Inventory]
  {
    AcceptedParts(k, ok, name1, a, key, lister1, m1);
    AcceptedParts(k, ok, name2, b, key, lister2, m2);
    assert Hmac(key, a[Manifest]) == Hmac(key, b[Manifest]);
    SameManifestSameContents(k, ok, name1, a, key, lister1, m1, name2, b, key, lister2, m2);
  }
}
