/** The manifest of a business backup: what the validator demands of each of its parts. */
module BackupManifest {
  import opened Foundations
  import opened ManifestScan
  import opened ReferenceProof

  const DIGEST_PREFIX := "sha256:"

  /** str.removeprefix("sha256:") */
  function DropDigestPrefix(s: string): string {
    if DIGEST_PREFIX <= s then s[|DIGEST_PREFIX|..] else s
  }

  /** int(value) > 0, where int() succeeds. */
  predicate Positive(k: Platform, j: Json) {
    IntCast(k, j).Some? && IntCast(k, j).value > 0
  }

  predicate NonNegative(k: Platform, j: Json) {
    IntCast(k, j).Some? && IntCast(k, j).value >= 0
  }

  predicate RunText(j: Json) {
    j.Str? && ValidRunId(j.text)
  }

  predicate TimeText(k: Platform, j: Json) {
    j.Str? && k.Utc(j.text).Some?
  }

  predicate NonEmptyText(j: Json) {
    j.Hash? || (j.Str? && j.text != "")
  }

  predicate ToolchainOk(k: Platform, j: Json) {
    && HasExactly(j, {Image, ImageDigest, Postgres, MinioClient, DestinationClient})
    && k.DigestText(DropDigestPrefix(k.Text(Get(j, ImageDigest))))
    && Truthy(Get(j, Image)) && Truthy(Get(j, Postgres))
    && Truthy(Get(j, MinioClient)) && Truthy(Get(j, DestinationClient))
  }

  predicate DatabaseOk(k: Platform, j: Json) {
    && HasExactly(j, {Format, ContentHash, SizeBytes, ListEntries})
    && Get(j, Format) == Str("custom")
    && Positive(k, Get(j, SizeBytes)) && Positive(k, Get(j, ListEntries))
    && IsSha256(k, Get(j, ContentHash))
  }

  predicate BusinessOk(k: Platform, j: Json) {
    && HasExactly(j, {ContentHash, SizeBytes, ObjectCount, InventoryHash})
    && Positive(k, Get(j, SizeBytes)) && NonNegative(k, Get(j, ObjectCount))
    && IsSha256(k, Get(j, ContentHash)) && IsSha256(k, Get(j, InventoryHash))
  }

  predicate LedgerPartOk(k: Platform, j: Json) {
    && HasExactly(j, {ArchiveRunId, CutoffUtc, ManifestHash, KeyVersions})
    && ValidRunId(k.Text(Get(j, ArchiveRunId)))
    && k.Utc(k.Text(Get(j, CutoffUtc))).Some?
    && IsSha256(k, Get(j, ManifestHash))
    && var versions := Get(j, KeyVersions);
    && versions.Arr? && versions.items != []
    && forall i :: 0 <= i < |versions.items| ==> NonEmptyText(versions.items[i])
  }

  predicate RetentionOk(k: Platform, j: Json) {
    HasExactly(j, {WindowDays, PolicyVersion}) && Positive(k, Get(j, WindowDays)) && Truthy(Get(j, PolicyVersion))
  }

  predicate GatesOk(j: Json) {
    && HasExactly(j, {ListGate, HashGate, InventoryGate, ReferenceGate})
    && Truthy(Get(j, ListGate)) && Truthy(Get(j, HashGate))
    && Truthy(Get(j, InventoryGate)) && Truthy(Get(j, ReferenceGate))
  }

  predicate HeaderOk(k: Platform, root: Json) {
    && HasExactly(root, {SchemaVersion, BackupRunId, RunState, BackupCutoff, ScheduleHours, Toolchain, Database,
                         BusinessPart, ReferencePart, LedgerPart, RetentionPart, Gates})
    && EqualsInt(Get(root, SchemaVersion), 1) && Get(root, RunState) == Str("complete")
    && RunText(Get(root, BackupRunId)) && TimeText(k, Get(root, BackupCutoff))
    && EqualsInt(Get(root, ScheduleHours), 12)
  }

  /** The checks of the parts, one predicate a part. */
  predicate PartsOk(k: Platform, pinned: Pinned, root: Json) {
    && ToolchainOk(k, Get(root, Toolchain))
    && DatabaseOk(k, Get(root, Database))
    && BusinessOk(k, Get(root, BusinessPart))
    && ProofOk(pinned, Get(root, ReferencePart), Get(Get(root, ReferencePart), Expected),
               Get(Get(root, BusinessPart), InventoryHash))
    && LedgerPartOk(k, Get(root, LedgerPart))
    && RetentionOk(k, Get(root, RetentionPart))
    && GatesOk(Get(root, Gates))
  }

  /** validate_backup_manifest */
  predicate ManifestOk(k: Platform, pinned: Pinned, root: Json) {
    Clean(k, root) && HeaderOk(k, root) && PartsOk(k, pinned, root)
  }

  // ----- the manifest command_backup writes -----

  /** What goes into a manifest. */
  datatype Content = Content(
    run: string, cutoff: string, image: string, imageDigest: string,
    dump: Bytes, entries: int, snapshot: Bytes, objects: nat, inventory: Bytes,
    references: Json, ledger: Json, windowDays: int, policy: string)

  function ToolchainFor(c: Content): Json {
    Obj(map[Image := Str(c.image), ImageDigest := Str(c.imageDigest), Postgres := Str("16.9"),
            MinioClient := Str("RELEASE.2025-07-21T05-28-08Z"),
            DestinationClient := Str("external-atomic-publisher-v1")])
  }

  function DatabaseFor(c: Content): Json {
    Obj(map[Format := Str("custom"), ContentHash := Hash(Sha256(c.dump)),
            SizeBytes := Int(|c.dump|), ListEntries := Int(c.entries)])
  }

  function BusinessFor(c: Content): Json {
    Obj(map[ContentHash := Hash(Sha256(c.snapshot)), SizeBytes := Int(|c.snapshot|),
            ObjectCount := Int(c.objects), InventoryHash := Hash(Sha256(c.inventory))])
  }

  function RetentionFor(c: Content): Json {
    Obj(map[WindowDays := Int(c.windowDays), PolicyVersion := Str(c.policy)])
  }

  function GatesFor(): Json {
    Obj(map[ListGate := Bool(true), HashGate := Bool(true), InventoryGate := Bool(true), ReferenceGate := Bool(true)])
  }

  function ManifestFor(c: Content): Json {
    Obj(map[SchemaVersion := Int(1), BackupRunId := Str(c.run), RunState := Str("complete"),
            BackupCutoff := Str(c.cutoff), ScheduleHours := Int(12), Toolchain := ToolchainFor(c),
            Database := DatabaseFor(c), BusinessPart := BusinessFor(c), ReferencePart := c.references,
            LedgerPart := c.ledger, RetentionPart := RetentionFor(c), Gates := GatesFor()])
  }

  lemma ManifestFields(c: Content)
    ensures
      var m := ManifestFor(c);
      && Get(m, Toolchain) == ToolchainFor(c) && Get(m, Database) == DatabaseFor(c)
      && Get(m, BusinessPart) == BusinessFor(c)
      && Get(m, ReferencePart) == c.references && Get(m, LedgerPart) == c.ledger
      && Get(m, RetentionPart) == RetentionFor(c) && Get(m, Gates) == GatesFor()
      && Get(m, BackupRunId) == Str(c.run) && Get(m, BackupCutoff) == Str(c.cutoff)
  {
  }

  lemma ManifestKeys(c: Content)
    ensures HasExactly(ManifestFor(c), {SchemaVersion, BackupRunId, RunState, BackupCutoff, ScheduleHours, Toolchain,
                                        Database, BusinessPart, ReferencePart, LedgerPart, RetentionPart, Gates})
  {
  }

  lemma HeaderFields(c: Content)
    ensures
      var m := ManifestFor(c);
      && Get(m, SchemaVersion) == Int(1) && Get(m, RunState) == Str("complete") && Get(m, ScheduleHours) == Int(12)
      && Get(m, BackupRunId) == Str(c.run) && Get(m, BackupCutoff) == Str(c.cutoff)
  {
  }

  lemma HeaderIff(k: Platform, c: Content, m: Json)
    requires m == ManifestFor(c)
    ensures HeaderOk(k, m) <==> ValidRunId(c.run) && k.Utc(c.cutoff).Some?
  {
    ManifestKeys(c);
    HeaderFields(c);
  }

  lemma ToolchainIff(k: Platform, c: Content)
    requires Lawful(k)
    ensures ToolchainOk(k, ToolchainFor(c)) <==> c.image != "" && k.DigestText(DropDigestPrefix(c.imageDigest))
  {
  }

  lemma PayloadPartsIff(k: Platform, c: Content)
    ensures DatabaseOk(k, DatabaseFor(c)) <==> c.dump != [] && c.entries > 0
    ensures BusinessOk(k, BusinessFor(c)) <==> c.snapshot != []
    ensures Get(BusinessFor(c), InventoryHash) == Hash(Sha256(c.inventory))
    ensures RetentionOk(k, RetentionFor(c)) <==> c.windowDays > 0 && c.policy != ""
    ensures GatesOk(GatesFor())
  {
  }

  /** Exactly when the validator accepts a manifest of the producer's form: nothing in it is
      screened out and each of its parts is non-trivial. */
  lemma BuiltManifestOkIff(k: Platform, pinned: Pinned, c: Content)
    requires Lawful(k)
    ensures ManifestOk(k, pinned, ManifestFor(c)) <==>
            && Clean(k, ManifestFor(c))
            && ValidRunId(c.run) && k.Utc(c.cutoff).Some?
            && c.image != "" && k.DigestText(DropDigestPrefix(c.imageDigest))
            && c.dump != [] && c.entries > 0 && c.snapshot != []
            && ProofOk(pinned, c.references, Get(c.references, Expected), Hash(Sha256(c.inventory)))
            && LedgerPartOk(k, c.ledger)
            && c.windowDays > 0 && c.policy != ""
  {
    ManifestFields(c);
    HeaderIff(k, c, ManifestFor(c));
    ToolchainIff(k, c);
    PayloadPartsIff(k, c);
  }
}
