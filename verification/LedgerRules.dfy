/** The deletion-ledger archive: how a group is staged, what makes a fetched group
    acceptable, and the proof that a restored ledger came from it. */
module LedgerRules {
  import opened Foundations
  import opened GroupRules
  import opened ManifestScan
  import opened Pieces

  // ----- signatures and markers -----

  const MIN_KEY_LENGTH: nat := 32

  /** verify_hmac_signature. Non-ASCII signature files decode to nothing that could match. */
  predicate Signed(k: Platform, payload: Bytes, key: Bytes, signature: Bytes) {
    |key| >= MIN_KEY_LENGTH && Strip(signature) == k.TagHex(Hmac(key, payload))
  }

  /** The COMPLETE marker names this payload. */
  predicate Marked(k: Platform, payload: Bytes, marker: Bytes) {
    Strip(marker) == k.Hex(Sha256(payload))
  }

  function SignatureFile(k: Platform, payload: Bytes, key: Bytes): Bytes {
    k.TagHex(Hmac(key, payload)) + [NEWLINE]
  }

  function MarkerFile(k: Platform, payload: Bytes): Bytes {
    k.Hex(Sha256(payload)) + [NEWLINE]
  }

  lemma OwnSignatureVerifies(k: Platform, payload: Bytes, key: Bytes)
    requires Lawful(k) && |key| >= MIN_KEY_LENGTH
    ensures Signed(k, payload, key, SignatureFile(k, payload, key))
    ensures Marked(k, payload, MarkerFile(k, payload))
  {
    StripHexLine(k.TagHex(Hmac(key, payload)));
    StripHexLine(k.Hex(Sha256(payload)));
  }

  // ----- the signing-key history -----

  function ObjectItems(items: seq<Json>): seq<Json> {
    if items == [] then []
    else if items[0].Obj? then [items[0]] + ObjectItems(items[1..]) else ObjectItems(items[1..])
  }

  function ActiveItems(items: seq<Json>): seq<Json> {
    if items == [] then []
    else if Get(items[0], Status) == Str("active") then [items[0]] + ActiveItems(items[1..])
    else ActiveItems(items[1..])
  }

  /** The `version` of every object in the history, Null where it is missing. */
  function VersionNames(history: Json): seq<Json> {
    var versions := Get(history, Versions);
    if versions.Arr? then VersionsOf(ObjectItems(versions.items)) else []
  }

  function VersionsOf(items: seq<Json>): seq<Json> {
    if items == [] then [] else [Get(items[0], Version)] + VersionsOf(items[1..])
  }

  predicate HistoryOk(k: Platform, history: Json) {
    var versions := Get(history, Versions);
    var active := Get(history, ActiveKeyVersion);
    && EqualsInt(Get(history, SchemaVersion), 1)
    && versions.Arr? && |versions.items| >= 2
    && (exists i :: 0 <= i < |VersionNames(history)| && Equals(active, VersionNames(history)[i]))
    && |ActiveItems(versions.items)| == 1
    && Equals(Get(ActiveItems(versions.items)[0], Version), active)
    && Clean(k, history)
  }

  /** The identities and places involved in one backup. */
  datatype Boundary = Boundary(
    businessBuckets: seq<string>, ledgerBucket: string, capabilities: set<string>,
    businessDestination: string, ledgerDestination: string)

  predicate BoundaryOk(k: Platform, b: Boundary, history: Json) {
    && b.ledgerBucket !in b.businessBuckets
    && "ledger:restore" !in b.capabilities && "ledger:delete" !in b.capabilities
    && TrimEnd('/', b.businessDestination) != TrimEnd('/', b.ledgerDestination)
    && HistoryOk(k, history)
  }

  // ----- staging and validating an archive group -----

  predicate IsLedgerManifest(j: Json) {
    HasExactly(j, {SchemaVersion, ArchiveRunId, CutoffUtc, ArchiveHash,
                   SizeBytes, EntryCount, KeyVersion, LifecyclePolicy})
  }

  function LedgerManifestFor(
        run: string, cutoff: string, archive: Bytes, entries: int, version: Json, policy: string): Json
  {
    Obj(map[SchemaVersion := Int(1), ArchiveRunId := Str(run), CutoffUtc := Str(cutoff),
            ArchiveHash := Hash(Sha256(archive)), SizeBytes := Int(|archive|), EntryCount := Int(entries),
            KeyVersion := version, LifecyclePolicy := Str(policy)])
  }

  /** The group command_ledger_archive stages for publication, if it gets that far. */
  function StageLedger(
      k: Platform, b: Boundary, history: Json, key: Bytes,
      run: string, cutoff: string, archive: Bytes, summary: Json, policy: string): Option<Files> {
    if !BoundaryOk(k, b, history) || !ValidRunId(run) || archive == [] then None else
    if !summary.Obj? || cutoff == "" || policy == "" then None else
    if Get(history, ActiveKeyVersion, Arr([])) != Get(history, ActiveKeyVersion) then None else
    var entries := IntCast(k, Get(summary, EntryCount, Int(-1)));
    if entries.None? || entries.value < 0 || k.Utc(cutoff).None? then None else
    var manifest := LedgerManifestFor(run, cutoff, archive, entries.value, Get(history, ActiveKeyVersion), policy);
    if !Clean(k, manifest) || |key| < MIN_KEY_LENGTH then None else
    var payload := k.Print(manifest);
    Some(map[LedgerArchive := archive, LedgerManifest := payload,
             LedgerManifestSig := SignatureFile(k, payload, key), Complete := MarkerFile(k, payload)])
  }

  predicate LedgerBytesOk(k: Platform, manifest: Json, files: Files, key: Bytes)
    requires Members(Ledger) <= files.Keys
  {
    && files[LedgerManifest] == k.Print(manifest)
    && Signed(k, files[LedgerManifest], key, files[LedgerManifestSig])
    && Marked(k, files[LedgerManifest], files[Complete])
    && IsSha256(k, Get(manifest, ArchiveHash))
    && EqualsInt(Get(manifest, SizeBytes), |files[LedgerArchive]|)
    && Get(manifest, ArchiveHash) == Hash(Sha256(files[LedgerArchive]))
  }

  /** validate_ledger_archive_group on the fetched group `name`: the manifest it accepts. */
  function ValidateLedgerGroup(
      k: Platform, name: string, files: Files, key: Bytes, history: Json, minimum: string): Option<Json> {
    if !ValidRunId(name) || !HistoryOk(k, history) || !(Members(Ledger) <= files.Keys) then None else
    match k.Parse(files[LedgerManifest])
    case None => None
    case Some(manifest) =>
      if !IsLedgerManifest(manifest) || !EqualsInt(Get(manifest, SchemaVersion), 1) then None else
      if Get(manifest, ArchiveRunId) != Str(name) then None else
      if !Equals(Get(manifest, KeyVersion), Get(history, ActiveKeyVersion)) then None else
      if !LedgerBytesOk(k, manifest, files, key) then None else
      var entries := IntValue(Get(manifest, EntryCount));
      if entries.None? || entries.value < 0 then None else
      var cutoff := k.Utc(k.Text(Get(manifest, CutoffUtc)));
      if cutoff.None? || k.Utc(minimum).None? || cutoff.value < k.Utc(minimum).value then None else
      Some(manifest)
  }

  lemma LedgerManifestFields(run: string, cutoff: string, archive: Bytes, entries: int, version: Json, policy: string)
    ensures
      var m := LedgerManifestFor(run, cutoff, archive, entries, version, policy);
      && IsLedgerManifest(m)
      && Get(m, SchemaVersion) == Int(1) && Get(m, ArchiveRunId) == Str(run) && Get(m, CutoffUtc) == Str(cutoff)
      && Get(m, ArchiveHash) == Hash(Sha256(archive)) && Get(m, SizeBytes) == Int(|archive|)
      && Get(m, EntryCount) == Int(entries) && Get(m, KeyVersion) == version
  {
  }

  /** What a staged group consists of. */
  lemma StagedLedgerParts(
      k: Platform, b: Boundary, history: Json, key: Bytes,
      run: string, cutoff: string, archive: Bytes, summary: Json, policy: string, files: Files)
    returns (manifest: Json, entries: nat)
    requires StageLedger(k, b, history, key, run, cutoff, archive, summary, policy) == Some(files)
    ensures ValidRunId(run) && HistoryOk(k, history) && |key| >= MIN_KEY_LENGTH && k.Utc(cutoff).Some?
    ensures files.Keys == Members(Ledger)
    ensures files[LedgerManifest] == k.Print(manifest) && files[LedgerArchive] == archive
    ensures files[LedgerManifestSig] == SignatureFile(k, k.Print(manifest), key)
    ensures files[Complete] == MarkerFile(k, k.Print(manifest))
    ensures manifest == LedgerManifestFor(run, cutoff, archive, entries, Get(history, ActiveKeyVersion), policy)
  {
    entries := IntCast(k, Get(summary, EntryCount, Int(-1))).value;
    manifest := LedgerManifestFor(run, cutoff, archive, entries, Get(history, ActiveKeyVersion), policy);
  }

  lemma AcceptedWhen(
        k: Platform, name: string, files: Files, key: Bytes, history: Json, minimum: string, manifest: Json)
    requires ValidRunId(name) && HistoryOk(k, history) && Members(Ledger) <= files.Keys
    requires k.Parse(files[LedgerManifest]) == Some(manifest) && LedgerBytesOk(k, manifest, files, key)
    requires IsLedgerManifest(manifest) && Get(manifest, SchemaVersion) == Int(1)
    requires Get(manifest, ArchiveRunId) == Str(name)
    requires Get(manifest, KeyVersion) == Get(history, ActiveKeyVersion)
    requires Get(manifest, EntryCount).Int? && Get(manifest, EntryCount).number >= 0
    requires k.Utc(minimum).Some? && k.Utc(k.Text(Get(manifest, CutoffUtc))).Some?
    requires k.Utc(minimum).value <= k.Utc(k.Text(Get(manifest, CutoffUtc))).value
    ensures ValidateLedgerGroup(k, name, files, key, history, minimum) == Some(manifest)
  {
  }

  /** Archive meets verifier: whatever command_ledger_archive stages is accepted, under the
      same key and history, for every business cutoff that is not later than its own. */
  lemma StagedLedgerIsAccepted(
      k: Platform, b: Boundary, history: Json, key: Bytes,
      run: string, cutoff: string, archive: Bytes, summary: Json, policy: string, minimum: string, files: Files)
    returns (manifest: Json)
    requires Lawful(k)
    requires StageLedger(k, b, history, key, run, cutoff, archive, summary, policy) == Some(files)
    requires k.Utc(minimum).Some? && k.Utc(minimum).value <= k.Utc(cutoff).value
    ensures ValidateLedgerGroup(k, run, files, key, history, minimum) == Some(manifest)
    ensures Get(manifest, ArchiveRunId) == Str(run) && Get(manifest, CutoffUtc) == Str(cutoff)
    ensures files[LedgerArchive] == archive
  {
    var entries: nat;
    manifest, entries := StagedLedgerParts(k, b, history, key, run, cutoff, archive, summary, policy, files);
    PartsAreAccepted(k, history, key, run, cutoff, archive, entries, policy, manifest, files, minimum);
  }

  lemma PartsAreAccepted(
      k: Platform, history: Json, key: Bytes, run: string, cutoff: string, archive: Bytes, entries: nat, policy: string,
      manifest: Json, files: Files, minimum: string)
    requires Lawful(k) && ValidRunId(run) && HistoryOk(k, history) && |key| >= MIN_KEY_LENGTH
    requires k.Utc(minimum).Some? && k.Utc(cutoff).Some? && k.Utc(minimum).value <= k.Utc(cutoff).value
    requires files.Keys == Members(Ledger)
    requires files[LedgerManifest] == k.Print(manifest) && files[LedgerArchive] == archive
    requires files[LedgerManifestSig] == SignatureFile(k, k.Print(manifest), key)
    requires files[Complete] == MarkerFile(k, k.Print(manifest))
    requires manifest == LedgerManifestFor(run, cutoff, archive, entries, Get(history, ActiveKeyVersion), policy)
    ensures ValidateLedgerGroup(k, run, files, key, history, minimum) == Some(manifest)
    ensures Get(manifest, ArchiveRunId) == Str(run) && Get(manifest, CutoffUtc) == Str(cutoff)
  {
    LedgerManifestFields(run, cutoff, archive, entries, Get(history, ActiveKeyVersion), policy);
    OwnSignatureVerifies(k, k.Print(manifest), key);
    AcceptedWhen(k, run, files, key, history, minimum, manifest);
  }

  /** An accepted group is pinned by its manifest: two groups accepted with the same manifest
      bytes are one run and hold the same archive. */
  lemma SameLedgerManifestSameArchive(
      k: Platform, m1: Json, name1: string, a: Files, key1: Bytes, history1: Json, minimum1: string,
      m2: Json, name2: string, b: Files, key2: Bytes, history2: Json, minimum2: string)
    requires ValidateLedgerGroup(k, name1, a, key1, history1, minimum1) == Some(m1)
    requires ValidateLedgerGroup(k, name2, b, key2, history2, minimum2) == Some(m2)
    requires LedgerManifest in a && LedgerManifest in b && a[LedgerManifest] == b[LedgerManifest]
    ensures name1 == name2 && LedgerArchive in a && LedgerArchive in b && a[LedgerArchive] == b[LedgerArchive]
  {
    AcceptedLedgerFields(k, name1, a, key1, history1, minimum1, m1);
    AcceptedLedgerFields(k, name2, b, key2, history2, minimum2, m2);
    assert k.Parse(a[LedgerManifest]) == Some(m1) == Some(m2);
  }

  // ----- the restore proof -----

  predicate IsRestoreProof(j: Json) {
    HasExactly(j, {SchemaVersion, Status, LedgerRunId, BusinessRunId,
                   GenerationId, ArchiveHash, CutoffUtc, RestoredEntries})
  }

  /** validate_ledger_restore_proof */
  predicate RestoreProofOk(
      k: Platform, payload: Bytes, signature: Bytes, key: Bytes, manifest: Json, run: string, generation: string) {
    && ValidRunId(run) && ValidRunId(generation)
    && Signed(k, payload, key, signature)
    && k.Parse(payload).Some?
    && var proof := k.Parse(payload).value;
    && IsRestoreProof(proof)
    && EqualsInt(Get(proof, SchemaVersion), 1) && Get(proof, Status) == Str("verified")
    && Equals(Get(proof, LedgerRunId), Get(manifest, ArchiveRunId))
    && Get(proof, BusinessRunId) == Str(run)
    && Get(proof, GenerationId) == Str(generation)
    && Equals(Get(proof, ArchiveHash), Get(manifest, ArchiveHash))
    && Equals(Get(proof, CutoffUtc), Get(manifest, CutoffUtc))
    && Equals(Get(proof, RestoredEntries), Get(manifest, EntryCount))
  }

  lemma AcceptedLedgerFields(
        k: Platform, name: string, files: Files, key: Bytes, history: Json, minimum: string, manifest: Json)
    requires ValidateLedgerGroup(k, name, files, key, history, minimum) == Some(manifest)
    ensures Members(Ledger) <= files.Keys && files[LedgerManifest] == k.Print(manifest)
    ensures Signed(k, files[LedgerManifest], key, files[LedgerManifestSig])
    ensures Get(manifest, ArchiveRunId) == Str(name)
    ensures Get(manifest, ArchiveHash) == Hash(Sha256(files[LedgerArchive]))
    ensures k.Utc(k.Text(Get(manifest, CutoffUtc))).Some? && k.Utc(minimum).Some?
    ensures k.Utc(k.Text(Get(manifest, CutoffUtc))).value >= k.Utc(minimum).value
  {
    assert LedgerBytesOk(k, manifest, files, key);
  }

  lemma RestoreProofFields(
      k: Platform, payload: Bytes, signature: Bytes, key: Bytes, manifest: Json, run: string, generation: string,
      name: string, archive: Digest)
    requires RestoreProofOk(k, payload, signature, key, manifest, run, generation)
    requires Get(manifest, ArchiveRunId) == Str(name) && Get(manifest, ArchiveHash) == Hash(archive)
    ensures k.Parse(payload).Some?
    ensures
      var proof := k.Parse(payload).value;
      && Get(proof, BusinessRunId) == Str(run) && Get(proof, GenerationId) == Str(generation)
      && Get(proof, LedgerRunId) == Str(name) && Get(proof, ArchiveHash) == Hash(archive)
  {
  }

  /** A proof binds one restore: the same signed bytes cannot stand for another archive,
      business run or recovery generation. */
  lemma RestoreProofBindsOneRestore(
      k: Platform, payload: Bytes,
      sig1: Bytes, key1: Bytes, run1: string, generation1: string, m1: Json,
      name1: string, files1: Files, akey1: Bytes, history1: Json, min1: string,
      sig2: Bytes, key2: Bytes, run2: string, generation2: string, m2: Json,
      name2: string, files2: Files, akey2: Bytes, history2: Json, min2: string)
    requires ValidateLedgerGroup(k, name1, files1, akey1, history1, min1) == Some(m1)
    requires ValidateLedgerGroup(k, name2, files2, akey2, history2, min2) == Some(m2)
    requires RestoreProofOk(k, payload, sig1, key1, m1, run1, generation1)
    requires RestoreProofOk(k, payload, sig2, key2, m2, run2, generation2)
    ensures run1 == run2 && generation1 == generation2 && name1 == name2
    ensures Members(Ledger) <= files1.Keys && Members(Ledger) <= files2.Keys
    ensures files1[LedgerArchive] == files2[LedgerArchive]
  {
    AcceptedLedgerFields(k, name1, files1, akey1, history1, min1, m1);
    AcceptedLedgerFields(k, name2, files2, akey2, history2, min2, m2);
    RestoreProofFields(k, payload, sig1, key1, m1, run1, generation1, name1, Sha256(files1[LedgerArchive]));
    RestoreProofFields(k, payload, sig2, key2, m2, run2, generation2, name2, Sha256(files2[LedgerArchive]));
  }
}
