/** What an accepted ledger archive, an accepted restore proof and an accepted key history are,
    field by field, and what command_ledger_archive puts into a group. */
module LedgerAcceptance {
  import opened Foundations
  import opened GroupRules
  import opened ManifestScan
  import opened LedgerRules
  import opened Pieces
  import opened Scalars

  // ----- signatures -----

  /** Signed with at least 32 bytes of key; blanks around the signature do not count. */
  ghost predicate SignedWith(k: Platform, payload: Bytes, key: Bytes, signature: Bytes) {
    |key| >= 32 && exists front, back :: Padded(signature, front, k.TagHex(Hmac(key, payload)), back)
  }

  ghost predicate Marks(k: Platform, marker: Bytes, payload: Bytes) {
    exists front, back :: Padded(marker, front, k.Hex(Sha256(payload)), back)
  }

  lemma HexIsStripped(s: Bytes)
    requires IsHexText(s)
    ensures Stripped(s)
  {
    assert IsHexByte(s[0]) && IsHexByte(s[|s| - 1]);
  }

  /** Only one text without blanks at its ends lies between blanks. */
  lemma {:induction false} PaddedStrips(s: Bytes, front: Bytes, inner: Bytes, back: Bytes)
    requires Padded(s, front, inner, back) && Stripped(inner) && inner != []
    ensures Strip(s) == inner
    decreases |s|
  {
    if front != [] {
      assert s[0] == front[0] && s[1..] == front[1..] + inner + back;
      assert Blank(front[1..]);
      PaddedStrips(s[1..], front[1..], inner, back);
    } else {
      assert s[0] == inner[0];
      if back != [] {
        var shorter := back[..|back| - 1];
        assert s[|s| - 1] == back[|back| - 1] && s[..|s| - 1] == front + inner + shorter;
        assert Blank(shorter);
        PaddedStrips(s[..|s| - 1], front, inner, shorter);
      } else {
        assert s == inner;
      }
    }
  }

  lemma StripIff(s: Bytes, inner: Bytes)
    requires IsHexText(inner)
    ensures Strip(s) == inner <==> exists front, back :: Padded(s, front, inner, back)
  {
    HexIsStripped(inner);
    var front, back := StripIs(s);
    if front', back' :| Padded(s, front', inner, back') { PaddedStrips(s, front', inner, back'); }
  }

  lemma SignedIff(k: Platform, payload: Bytes, key: Bytes, signature: Bytes)
    requires Lawful(k)
    ensures Signed(k, payload, key, signature) <==> SignedWith(k, payload, key, signature)
  {
    StripIff(signature, k.TagHex(Hmac(key, payload)));
  }

  lemma MarkedIff(k: Platform, payload: Bytes, marker: Bytes)
    requires Lawful(k)
    ensures Marked(k, payload, marker) <==> Marks(k, marker, payload)
  {
    StripIff(marker, k.Hex(Sha256(payload)));
  }

  // ----- the key history -----

  /** The version of the item, or Null. */
  ghost predicate VersionIs(item: Json, version: Json) {
    item.Obj? && version == if Version in item.fields then item.fields[Version] else Null
  }

  ghost predicate Active(item: Json) {
    Says(item, Status, Str("active"))
  }

  /** Exactly one item is active, the one at i, and its version is this one. */
  ghost predicate OnlyActive(items: seq<Json>, i: int, version: Json) {
    && 0 <= i < |items| && Active(items[i])
    && (exists own :: VersionIs(items[i], own) && Equals(own, version))
    && forall j :: 0 <= j < |items| && Active(items[j]) ==> j == i
  }

  ghost predicate SoundHistory(k: Platform, history: Json) {
    && history.Obj? && SchemaVersion in history.fields && IsNumber(history.fields[SchemaVersion], 1)
    && Versions in history.fields && history.fields[Versions].Arr? && |history.fields[Versions].items| >= 2
    && (exists i :: OnlyActive(history.fields[Versions].items, i, Get(history, ActiveKeyVersion)))
    && AllHarmless(k, history)
  }

  lemma {:induction false} VersionsOfObjects(items: seq<Json>, version: Json)
    ensures version in VersionsOf(ObjectItems(items)) <==>
            exists i :: 0 <= i < |items| && VersionIs(items[i], version)
    decreases |items|
  {
    if items != [] {
      VersionsOfObjects(items[1..], version);
      assert items == [items[0]] + items[1..];
      if items[0].Obj? { assert ([items[0]] + ObjectItems(items[1..]))[1..] == ObjectItems(items[1..]); }
      if i :| 0 <= i < |items| && VersionIs(items[i], version) {
        if i > 0 { assert items[1..][i - 1] == items[i]; }
      }
      if j :| 0 <= j < |items[1..]| && VersionIs(items[1..][j], version) { assert items[j + 1] == items[1..][j]; }
    }
  }

  lemma {:induction false} ActiveItemsAre(items: seq<Json>)
    ensures forall item :: item in ActiveItems(items) <==> item in items && Active(item)
    ensures ActiveItems(items) == [] <==> forall i :: 0 <= i < |items| ==> !Active(items[i])
    ensures |ActiveItems(items)| == 1 <==> exists i :: OneActive(items, i)
    ensures forall i :: OneActive(items, i) ==> ActiveItems(items) == [items[i]]
    decreases |items|
  {
    if items != [] {
      ActiveItemsAre(items[1..]);
      assert items == [items[0]] + items[1..];
      forall i | OneActive(items, i) ensures ActiveItems(items) == [items[i]] {
        if i > 0 {
          assert items[1..][i - 1] == items[i] && !Active(items[0]);
          assert OneActive(items[1..], i - 1);
        } else {
          assert forall j :: 0 <= j < |items[1..]| ==> items[1..][j] == items[j + 1];
        }
      }
      if |ActiveItems(items)| == 1 {
        if Active(items[0]) {
          assert ActiveItems(items[1..]) == [];
          assert forall j :: 0 < j < |items| ==> items[1..][j - 1] == items[j];
          assert OneActive(items, 0);
        } else {
          var i :| OneActive(items[1..], i);
          assert forall j :: 0 < j < |items| ==> items[1..][j - 1] == items[j];
          assert OneActive(items, i + 1);
        }
      }
    }
  }

  ghost predicate OneActive(items: seq<Json>, i: int) {
    0 <= i < |items| && Active(items[i]) && forall j :: 0 <= j < |items| && Active(items[j]) ==> j == i
  }

  /** The checks on the items: one is active, and its version is the active one and listed. */
  lemma ItemsAcceptedIff(items: seq<Json>, active: Json)
    ensures (exists i :: OnlyActive(items, i, active)) <==>
            && |ActiveItems(items)| == 1 && Equals(Get(ActiveItems(items)[0], Version), active)
            && exists own :: own in VersionsOf(ObjectItems(items)) && Equals(active, own)
  {
    ActiveItemsAre(items);
    if i :| OneActive(items, i) {
      var own := Get(items[i], Version);
      assert VersionIs(items[i], own) && ActiveItems(items) == [items[i]];
      VersionsOfObjects(items, own);
      assert Equals(own, active) ==> OnlyActive(items, i, active) && Equals(active, own);
    }
    if i :| OnlyActive(items, i, active) { assert OneActive(items, i); }
  }

  /** A key history is accepted exactly when it has two versions or more, exactly one is active, and
      that one is the active key version; nothing in it is screened out. */
  lemma HistoryAcceptedIff(k: Platform, history: Json)
    ensures HistoryOk(k, history) <==> SoundHistory(k, history)
  {
    EqualsIntIff(Get(history, SchemaVersion), 1);
    CleanIff(k, history);
    var versions, active := Get(history, Versions), Get(history, ActiveKeyVersion);
    if versions.Arr? {
      ItemsAcceptedIff(versions.items, active);
      NamesAreVersions(history, versions.items, active);
    }
  }

  lemma NamesAreVersions(history: Json, items: seq<Json>, active: Json)
    requires Get(history, Versions) == Arr(items)
    ensures (exists i :: 0 <= i < |VersionNames(history)| && Equals(active, VersionNames(history)[i])) <==>
            exists own :: own in VersionsOf(ObjectItems(items)) && Equals(active, own)
  {
    var names := VersionNames(history);
    if own :| own in names && Equals(active, own) {
      var i :| 0 <= i < |names| && names[i] == own;
      assert Equals(active, names[i]);
    }
  }

  // ----- an accepted archive -----

  /** Exactly these fields: schema 1, this name, the active key, a count of entries, and a cutoff
      that is no earlier than asked for. */
  ghost predicate ArchiveFields(k: Platform, name: string, history: Json, minimum: string, manifest: Json) {
    && manifest.Obj? && manifest.fields.Keys == {SchemaVersion, ArchiveRunId, CutoffUtc, ArchiveHash, SizeBytes,
                                                 EntryCount, KeyVersion, LifecyclePolicy}
    && IsNumber(manifest.fields[SchemaVersion], 1)
    && manifest.fields[ArchiveRunId] == Str(name)
    && Equals(manifest.fields[KeyVersion], Get(history, ActiveKeyVersion))
    && (manifest.fields[EntryCount].Bool?
        || (manifest.fields[EntryCount].Int? && manifest.fields[EntryCount].number >= 0))
    && NotBefore(k, k.Text(manifest.fields[CutoffUtc]), minimum)
  }

  /** Both are times, and the first is not before the second. */
  ghost predicate NotBefore(k: Platform, time: string, minimum: string) {
    k.Utc(time).Some? && k.Utc(minimum).Some? && k.Utc(time).value >= k.Utc(minimum).value
  }

  /** The manifest in canonical form, signed and marked, with the archive's hash and size. */
  ghost predicate ArchiveBytes(k: Platform, files: Files, key: Bytes, manifest: Json) {
    && {LedgerArchive, LedgerManifest, LedgerManifestSig, Complete} <= files.Keys
    && k.Parse(files[LedgerManifest]) == Some(manifest) && files[LedgerManifest] == k.Print(manifest)
    && SignedWith(k, files[LedgerManifest], key, files[LedgerManifestSig])
    && Marks(k, files[Complete], files[LedgerManifest])
    && Says(manifest, ArchiveHash, Hash(Sha256(files[LedgerArchive])))
    && manifest.Obj? && SizeBytes in manifest.fields && IsNumber(manifest.fields[SizeBytes], |files[LedgerArchive]|)
  }

  lemma ArchiveBytesIff(k: Platform, files: Files, key: Bytes, manifest: Json)
    requires Lawful(k)
    ensures ArchiveBytes(k, files, key, manifest) <==>
            && Members(Ledger) <= files.Keys && k.Parse(files[LedgerManifest]) == Some(manifest)
            && LedgerBytesOk(k, manifest, files, key)
  {
    if Members(Ledger) <= files.Keys {
      EqualsIntIff(Get(manifest, SizeBytes), |files[LedgerArchive]|);
      SignedIff(k, files[LedgerManifest], key, files[LedgerManifestSig]);
      MarkedIff(k, files[LedgerManifest], files[Complete]);
    }
  }

  /** An archive group is accepted, with this manifest, exactly when it is a whole group under this
      name and the key history is sound. */
  lemma ArchiveAcceptedIff(
        k: Platform, name: string, files: Files, key: Bytes, history: Json, minimum: string, manifest: Json)
    requires Lawful(k)
    ensures ValidateLedgerGroup(k, name, files, key, history, minimum) == Some(manifest) <==>
            && ValidRunId(name) && SoundHistory(k, history)
            && ArchiveBytes(k, files, key, manifest) && ArchiveFields(k, name, history, minimum, manifest)
  {
    HistoryAcceptedIff(k, history);
    ArchiveBytesIff(k, files, key, manifest);
    EqualsIntIff(Get(manifest, SchemaVersion), 1);
  }

  // ----- an accepted restore proof -----

  /** A signed proof of exactly these fields, about the archive of this manifest, this business run
      and this generation, with the archive's cutoff and all of its entries restored. */
  ghost predicate ProofOfRestore(
      k: Platform, payload: Bytes, signature: Bytes, key: Bytes, manifest: Json, run: string, generation: string)
  {
    && ValidRunId(run) && ValidRunId(generation) && SignedWith(k, payload, key, signature) && k.Parse(payload).Some?
    && var proof := k.Parse(payload).value;
    && proof.Obj? && proof.fields.Keys == {SchemaVersion, Status, LedgerRunId, BusinessRunId, GenerationId, ArchiveHash,
                                           CutoffUtc, RestoredEntries}
    && IsNumber(proof.fields[SchemaVersion], 1)
    && proof.fields[Status] == Str("verified")
    && proof.fields[BusinessRunId] == Str(run)
    && proof.fields[GenerationId] == Str(generation)
    && Equals(proof.fields[LedgerRunId], Get(manifest, ArchiveRunId))
    && Equals(proof.fields[ArchiveHash], Get(manifest, ArchiveHash))
    && Equals(proof.fields[CutoffUtc], Get(manifest, CutoffUtc))
    && Equals(proof.fields[RestoredEntries], Get(manifest, EntryCount))
  }

  lemma RestoreProofAcceptedIff(
      k: Platform, payload: Bytes, signature: Bytes, key: Bytes, manifest: Json, run: string, generation: string)
    requires Lawful(k)
    ensures RestoreProofOk(k, payload, signature, key, manifest, run, generation)
            <==> ProofOfRestore(k, payload, signature, key, manifest, run, generation)
  {
    SignedIff(k, payload, key, signature);
    if k.Parse(payload).Some? { EqualsIntIff(Get(k.Parse(payload).value, SchemaVersion), 1); }
  }

  // ----- a staged archive -----

  /** What command_ledger_archive demands before it stages anything. */
  ghost predicate Stageable(
      k: Platform, b: Boundary, history: Json, key: Bytes, run: string, cutoff: string, archive: Bytes, summary: Json,
      policy: string)
  {
    && b.ledgerBucket !in b.businessBuckets
    && b.capabilities !! {"ledger:restore", "ledger:delete"}
    && TrimEnd('/', b.businessDestination) != TrimEnd('/', b.ledgerDestination)
    && SoundHistory(k, history) && ActiveKeyVersion in history.fields
    && ValidRunId(run) && archive != [] && k.Utc(cutoff).Some? && cutoff != "" && policy != "" && |key| >= 32
    && summary.Obj? && Counted(k, summary) >= 0
  }

  /** The entries that the summary counts; -1 where it counts none. */
  ghost function Counted(k: Platform, summary: Json): int {
    if summary.Obj? && EntryCount in summary.fields && IntCast(k, summary.fields[EntryCount]).Some?
    then IntCast(k, summary.fields[EntryCount]).value else -1
  }

  /** The manifest that names run, cutoff, archive, entries, active key and policy. */
  ghost function ArchiveManifest(
      k: Platform, history: Json, run: string, cutoff: string, archive: Bytes, summary: Json, policy: string): Json
  {
    Obj(map[SchemaVersion := Int(1), ArchiveRunId := Str(run), CutoffUtc := Str(cutoff),
            ArchiveHash := Hash(Sha256(archive)), SizeBytes := Int(|archive|),
            EntryCount := Int(Counted(k, summary)), KeyVersion := Get(history, ActiveKeyVersion),
            LifecyclePolicy := Str(policy)])
  }

  /** A group is staged exactly when all demands are met and its manifest passes the screen, and it
      holds the archive, that manifest in canonical form, its signature and its hash as lines. */
  lemma LedgerStagedIff(
      k: Platform, b: Boundary, history: Json, key: Bytes, run: string, cutoff: string, archive: Bytes, summary: Json,
      policy: string, files: Files)
    ensures
      var manifest := ArchiveManifest(k, history, run, cutoff, archive, summary, policy);
      StageLedger(k, b, history, key, run, cutoff, archive, summary, policy) == Some(files) <==>
      && Stageable(k, b, history, key, run, cutoff, archive, summary, policy)
      && AllHarmless(k, manifest)
      && files == map[LedgerArchive := archive, LedgerManifest := k.Print(manifest),
                      LedgerManifestSig := k.TagHex(Hmac(key, k.Print(manifest))) + [10],
                      Complete := k.Hex(Sha256(k.Print(manifest))) + [10]]
  {
    HistoryAcceptedIff(k, history);
    CleanIff(k, ArchiveManifest(k, history, run, cutoff, archive, summary, policy));
  }
}
