/** The evidence a restore leaves behind, and the one reading of it that later steps accept. */
module RestoreBinding {
  import opened Foundations
  import opened Scalars

  /** What later steps are bound to. */
  datatype Binding = Binding(
    run: string, generation: string, restoreId: string, backupManifest: string, ledgerManifest: string)

  const BINDING_FIELDS := {BackupRunId, GenerationId, RestoreId, BackupManifestHash, LedgerManifestHash}

  const STARTED := "restore_started_traffic_closed"
  const RESTORED := "restored_traffic_closed"

  /** _restore_binding; None is an error. */
  function BindingOf(k: Platform, restore: Json): Option<Binding> {
    if !EqualsInt(Get(restore, SchemaVersion), 1) || Get(restore, RunState) != Str(RESTORED)
       || Get(restore, TrafficOpen) != Bool(false) || !restore.Obj? || !(BINDING_FIELDS <= restore.fields.Keys)
    then None else
    var b := Binding(
      k.Text(Get(restore, BackupRunId)), k.Text(Get(restore, GenerationId)), k.Text(Get(restore, RestoreId)),
      k.Text(Get(restore, BackupManifestHash)), k.Text(Get(restore, LedgerManifestHash)));
    if ValidBinding(k, b) then Some(b) else None
  }

  predicate ValidBinding(k: Platform, b: Binding) {
    && ValidRunId(b.run) && ValidRunId(b.generation) && k.Uuid(b.restoreId).Some?
    && k.DigestText(b.backupManifest) && k.DigestText(b.ledgerManifest)
  }

  /** The record written before anything is restored. */
  function StartedRecord(run: string, generation: string): Json {
    Obj(map[SchemaVersion := Int(1), RunState := Str(STARTED), BackupRunId := Str(run),
            GenerationId := Str(generation), TrafficOpen := Bool(false)])
  }

  function RestoreGates(ledgerFirst: bool): Json {
    Obj(map[Database := Bool(true), ObjectsGate := Bool(true), LedgerGate := Bool(ledgerFirst)])
  }

  /** The record written once everything is restored. */
  function RestoredRecord(
      run: string, generation: string, restoreId: string, cutoff: string, backup: Digest, ledger: Digest,
      ledgerFirst: bool): Json
  {
    Obj(map[SchemaVersion := Int(1), RunState := Str(RESTORED), BackupRunId := Str(run),
            GenerationId := Str(generation), RestoreId := Str(restoreId), BackupCutoff := Str(cutoff),
            BackupManifestHash := Hash(backup), LedgerManifestHash := Hash(ledger), TrafficOpen := Bool(false),
            Gates := RestoreGates(ledgerFirst)])
  }

  /** A restore that has only started is no basis for anything. */
  lemma StartedIsNotBound(k: Platform, run: string, generation: string)
    ensures BindingOf(k, StartedRecord(run, generation)).None?
  {
    assert STARTED[8] != RESTORED[8];
  }

  lemma RestoredFields(
      run: string, generation: string, restoreId: string, cutoff: string, backup: Digest, ledger: Digest, first: bool)
    ensures
      var m := RestoredRecord(run, generation, restoreId, cutoff, backup, ledger, first);
      && m.Obj? && BINDING_FIELDS <= m.fields.Keys
      && Get(m, SchemaVersion) == Int(1) && Get(m, RunState) == Str(RESTORED) && Get(m, TrafficOpen) == Bool(false)
      && Get(m, BackupRunId) == Str(run) && Get(m, GenerationId) == Str(generation)
      && Get(m, RestoreId) == Str(restoreId)
      && Get(m, BackupManifestHash) == Hash(backup) && Get(m, LedgerManifestHash) == Hash(ledger)
  {
  }

  lemma BoundWhen(
        k: Platform, m: Json, run: string, generation: string, restoreId: string, backup: Digest, ledger: Digest)
    requires Lawful(k) && ValidRunId(run) && ValidRunId(generation) && k.Uuid(restoreId).Some?
    requires m.Obj? && BINDING_FIELDS <= m.fields.Keys
    requires Get(m, SchemaVersion) == Int(1) && Get(m, RunState) == Str(RESTORED) && Get(m, TrafficOpen) == Bool(false)
    requires Get(m, BackupRunId) == Str(run) && Get(m, GenerationId) == Str(generation)
    requires Get(m, RestoreId) == Str(restoreId)
    requires Get(m, BackupManifestHash) == Hash(backup) && Get(m, LedgerManifestHash) == Hash(ledger)
    ensures BindingOf(k, m) == Some(Binding(run, generation, restoreId, k.Text(Hash(backup)), k.Text(Hash(ledger))))
  {
  }

  /** A completed restore is what later steps are bound to. */
  lemma RestoredIsBound(
      k: Platform, run: string, generation: string, restoreId: string, cutoff: string, backup: Digest, ledger: Digest,
      first: bool)
    requires Lawful(k) && ValidRunId(run) && ValidRunId(generation) && k.Uuid(restoreId).Some?
    ensures BindingOf(k, RestoredRecord(run, generation, restoreId, cutoff, backup, ledger, first))
            == Some(Binding(run, generation, restoreId, k.Text(Hash(backup)), k.Text(Hash(ledger))))
  {
    RestoredFields(run, generation, restoreId, cutoff, backup, ledger, first);
    var record := RestoredRecord(run, generation, restoreId, cutoff, backup, ledger, first);
    BoundWhen(k, record, run, generation, restoreId, backup, ledger);
  }

  /** What a later step reads as a completed restore: exactly the documents of schema 1 in state
      restored_traffic_closed, with traffic closed and five fields, two run ids, a UUID and two
      digests, whose texts are the binding. */
  lemma BindingIff(k: Platform, restore: Json, b: Binding)
    ensures BindingOf(k, restore) == Some(b) <==>
      && restore.Obj? && SchemaVersion in restore.fields && IsNumber(restore.fields[SchemaVersion], 1)
      && Says(restore, RunState, Str("restored_traffic_closed")) && Says(restore, TrafficOpen, Bool(false))
      && {BackupRunId, GenerationId, RestoreId, BackupManifestHash, LedgerManifestHash} <= restore.fields.Keys
      && b == Binding(
           k.Text(restore.fields[BackupRunId]), k.Text(restore.fields[GenerationId]), k.Text(restore.fields[RestoreId]),
           k.Text(restore.fields[BackupManifestHash]), k.Text(restore.fields[LedgerManifestHash]))
      && ValidRunId(b.run) && ValidRunId(b.generation) && k.Uuid(b.restoreId).Some?
      && k.DigestText(b.backupManifest) && k.DigestText(b.ledgerManifest)
  {
    EqualsIntIff(Get(restore, SchemaVersion), 1);
  }
}
