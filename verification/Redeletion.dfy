/** The re-deletion protocol after a restore: whatever its external commands do, it leaves a
    record bound to this restore, and a verified one only for verified evidence of this run. */
module Redeletion {
  import opened Foundations
  import opened RestoreBinding
  import opened ChildEnvironment
  import opened Scalars

  const FAILED_STATE := "b2b3_failed_traffic_closed"
  const VERIFIED_STATE := "b2b3_verified_traffic_closed"

  const RELEASE_FAILED := "b2b3_release_preflight_failed"
  const PREFLIGHT_FAILED := "b2b3_evidence_preflight_failed"
  const CLI_FAILED := "b2b3_cli_failed"
  const WORKER_FAILED := "b2b3_worker_or_evidence_failed"

  function FailureRecord(b: Binding, code: string): Json {
    Obj(map[SchemaVersion := Int(1), RunState := Str(FAILED_STATE), BackupRunId := Str(b.run),
            GenerationId := Str(b.generation), RestoreId := Str(b.restoreId),
            BackupManifestHash := Str(b.backupManifest), LedgerManifestHash := Str(b.ledgerManifest),
            ErrorCode := Str(code), TrafficOpen := Bool(false)])
  }

  function VerifiedRecord(b: Binding): Json {
    Obj(map[SchemaVersion := Int(1), RunState := Str(VERIFIED_STATE), BackupRunId := Str(b.run),
            GenerationId := Str(b.generation), RestoreId := Str(b.restoreId),
            BackupManifestHash := Str(b.backupManifest), LedgerManifestHash := Str(b.ledgerManifest),
            TrafficOpen := Bool(false), TrafficDecision := Str("external_environment_required")])
  }

  // ----- the worker's evidence -----

  /** A JSON string that spells this text. */
  predicate Spells(k: Platform, j: Json, text: string) {
    (j.Str? || j.Hash?) && k.Text(j) == text
  }

  predicate BoundTo(k: Platform, evidence: Json, b: Binding) {
    && Spells(k, Get(evidence, BackupRunId), b.run)
    && Spells(k, Get(evidence, GenerationId), b.generation)
    && Spells(k, Get(evidence, RestoreId), b.restoreId)
    && Spells(k, Get(evidence, BackupManifestHash), b.backupManifest)
    && Spells(k, Get(evidence, LedgerManifestHash), b.ledgerManifest)
  }

  predicate ChecksOk(checks: Json) {
    && HasExactly(checks, {ObjectsAbsent, DatabaseRedacted, LedgerConsistent, RecoveryCompleted})
    && Get(checks, ObjectsAbsent) == Bool(true) && Get(checks, DatabaseRedacted) == Bool(true)
    && Get(checks, LedgerConsistent) == Bool(true) && Get(checks, RecoveryCompleted) == Bool(true)
  }

  predicate PositiveCount(j: Json) {
    j.Int? && j.number > 0
  }

  predicate CountsOk(counts: Json) {
    && HasExactly(counts, {PreparedCount, CompletedCount, DeletedCount})
    && PositiveCount(Get(counts, PreparedCount)) && PositiveCount(Get(counts, CompletedCount))
    && PositiveCount(Get(counts, DeletedCount))
    && Get(counts, PreparedCount) == Get(counts, CompletedCount)
  }

  predicate EvidenceOk(k: Platform, evidence: Json, b: Binding) {
    && HasExactly(evidence, {SchemaVersion, Status, TrafficOpen, Checks, Counts} + BINDING_FIELDS)
    && EqualsInt(Get(evidence, SchemaVersion), 1)
    && Get(evidence, Status) == Str("complete") && Get(evidence, TrafficOpen) == Bool(false)
    && BoundTo(k, evidence, b)
    && ChecksOk(Get(evidence, Checks)) && CountsOk(Get(evidence, Counts))
  }

  /** validate_b2b3_evidence: `restore` is the restore evidence as read again. */
  function ValidateEvidence(k: Platform, restore: Option<Json>, payload: Option<Bytes>, signature: Option<Bytes>,
                            verifies: (Bytes, Bytes) -> bool): Option<Json> {
    if payload.None? || signature.None? || !verifies(payload.value, signature.value) || restore.None? then None else
    var evidence := k.Parse(payload.value);
    var b := BindingOf(k, restore.value);
    if evidence.None? || b.None? || !EvidenceOk(k, evidence.value, b.value) then None else evidence
  }

  // ----- one run of the protocol -----

  datatype Answer = Good | RaisedBefore | RaisedAfter

  /** Everything outside the protocol: `restore` and `restoreAgain` are what the two readings of
      the restore evidence give; the two unlinks may raise, with or without effect; `prepared`
      lists the counts the CLI printed, None when it failed; the worker writes either file, both
      or neither, whether it succeeds or not. */
  datatype World = World(
    restore: Option<Json>, restoreAgain: Option<Json>, base: map<string, string>,
    released: bool, secretsOk: bool, evidenceUnlink: Answer, signatureUnlink: Answer,
    prepared: Option<seq<nat>>, workerOk: bool, wroteEvidence: Option<Bytes>, wroteSignature: Option<Bytes>,
    verifies: (Bytes, Bytes) -> bool, success: Answer, failure: Answer)

  datatype Refusal = NotRestored | Failed(code: string) | RecordNotWritten

  /** The closed-evidence file, and the worker's evidence and signature files. */
  class Disk {
    var closed: Option<Json>
    var evidence: Option<Bytes>
    var signature: Option<Bytes>

    constructor (closed: Option<Json>, evidence: Option<Bytes>, signature: Option<Bytes>)
      ensures this.closed == closed && this.evidence == evidence && this.signature == signature
    {
      this.closed, this.evidence, this.signature := closed, evidence, signature;
    }

    method WriteClosed(record: Json, answer: Answer) returns (ok: bool)
      modifies this`closed
      ensures ok == answer.Good?
      ensures closed == if answer.RaisedBefore? then old(closed) else Some(record)
    {
      if !answer.RaisedBefore? { closed := Some(record); }
      ok := answer.Good?;
    }

    /** The old evidence goes, then the old signature; what fails ends it. */
    method Clear(evidenceUnlink: Answer, signatureUnlink: Answer) returns (ok: bool)
      modifies this`evidence, this`signature
      ensures ok <==> evidenceUnlink.Good? && signatureUnlink.Good?
      ensures ok ==> evidence == None && signature == None
      ensures evidence in {old(evidence), None} && signature in {old(signature), None}
    {
      if !evidenceUnlink.RaisedBefore? { evidence := None; }
      if !evidenceUnlink.Good? { return false; }
      if !signatureUnlink.RaisedBefore? { signature := None; }
      return signatureUnlink.Good?;
    }

    /** The worker replaces the files it writes; what it does not write stays. */
    method Work(newEvidence: Option<Bytes>, newSignature: Option<Bytes>)
      modifies this`evidence, this`signature
      ensures evidence == if newEvidence.Some? then newEvidence else old(evidence)
      ensures signature == if newSignature.Some? then newSignature else old(signature)
    {
      if newEvidence.Some? { evidence := newEvidence; }
      if newSignature.Some? { signature := newSignature; }
    }
  }

  predicate PreflightOk(w: World) {
    w.secretsOk && w.evidenceUnlink.Good? && w.signatureUnlink.Good?
  }

  predicate CliOk(w: World) {
    && w.restore.Some? && BackupCutoff in (if w.restore.value.Obj? then w.restore.value.fields else map[])
    && w.prepared.Some? && |w.prepared.value| == 1 && w.prepared.value[0] > 0
  }

  /** What must hold for the run to be recorded as verified: the worker has written both files
      itself, and they prove this restore. */
  predicate Proven(k: Platform, w: World, b: Binding, evidence: Json) {
    && CliOk(w) && w.workerOk
    && ValidateEvidence(k, w.restoreAgain, w.wroteEvidence, w.wroteSignature, w.verifies) == Some(evidence)
    && Get(Get(evidence, Counts), PreparedCount) == Int(w.prepared.value[0])
    && BoundTo(k, evidence, b) && Get(evidence, Status) == Str("complete") && Get(evidence, TrafficOpen) == Bool(false)
  }

  /** The stage at which a run stops, if it does. */
  function FirstFailure(k: Platform, w: World, b: Binding): Option<string> {
    if !w.released then Some(RELEASE_FAILED)
    else if !PreflightOk(w) then Some(PREFLIGHT_FAILED)
    else if !CliOk(w) then Some(CLI_FAILED)
    else
      var evidence := ValidateEvidence(k, w.restoreAgain, w.wroteEvidence, w.wroteSignature, w.verifies);
      if evidence.None? || !Proven(k, w, b, evidence.value) || !w.success.Good? then Some(WORKER_FAILED)
      else None
  }

  /** write_drill_failure_evidence, then the error. */
  method Fail(disk: Disk, b: Binding, code: string, answer: Answer) returns (result: Result<Json, Refusal>)
    modifies disk`closed
    ensures result == if answer.Good? then Err(Failed(code)) else Err(RecordNotWritten)
    ensures disk.closed == if answer.RaisedBefore? then old(disk.closed) else Some(FailureRecord(b, code))
  {
    var ok := disk.WriteClosed(FailureRecord(b, code), answer);
    result := if ok then Err(Failed(code)) else Err(RecordNotWritten);
  }

  /** run_b2b3_protocol. Without a completed restore nothing is touched. With one, success means
      that the verified record of this restore is on disk and that the evidence and signature
      files, both written by this run's worker, prove it; whatever these files held before the
      run counts for nothing and is gone once the preflight has passed. A reported failure means
      that the failure record of this restore is on disk and names the stage. Only when a record
      cannot be written is neither certain; even then a verified record never appears unproven. */
  method RunProtocol(k: Platform, disk: Disk, w: World) returns (result: Result<Json, Refusal>)
    requires LawfulUuid(k)
    modifies disk
    ensures w.restore.None? || BindingOf(k, w.restore.value).None? ==>
              result == Err(NotRestored) && disk.closed == old(disk.closed)
              && disk.evidence == old(disk.evidence) && disk.signature == old(disk.signature)
    ensures w.restore.Some? && BindingOf(k, w.restore.value).Some? ==>
              var b := BindingOf(k, w.restore.value).value;
              && (result.Ok? <==> FirstFailure(k, w, b).None?)
              && (result.Ok? ==> disk.closed == Some(VerifiedRecord(b)) && Proven(k, w, b, result.value)
                                 && w.wroteEvidence.Some? && disk.evidence == w.wroteEvidence
                                 && w.wroteSignature.Some? && disk.signature == w.wroteSignature)
              && (w.released && PreflightOk(w) ==>
                    && disk.evidence == (if CliOk(w) then w.wroteEvidence else None)
                    && disk.signature == (if CliOk(w) then w.wroteSignature else None))
              && (result.Err? && w.failure.Good? ==> result.error == Failed(FirstFailure(k, w, b).value))
              && (result.Err? && !w.failure.Good? ==> result.error == RecordNotWritten)
              && (result.Err? && !w.failure.RaisedBefore? ==>
                    disk.closed == Some(FailureRecord(b, FirstFailure(k, w, b).value)))
              && (disk.closed != old(disk.closed) && disk.closed == Some(VerifiedRecord(b)) ==>
                    exists evidence :: Proven(k, w, b, evidence))
              && (disk.closed == old(disk.closed) || disk.closed == Some(VerifiedRecord(b))
                  || (FirstFailure(k, w, b).Some?
                      && disk.closed == Some(FailureRecord(b, FirstFailure(k, w, b).value))))
  {
    if w.restore.None? { return Err(NotRestored); }
    var bound := BindingOf(k, w.restore.value);
    if bound.None? { return Err(NotRestored); }
    var b := bound.value;
    RecordsDiffer(b);
    if !w.released {
      result := Fail(disk, b, RELEASE_FAILED, w.failure);
      return;
    }
    var clean := false;
    if w.secretsOk { clean := disk.Clear(w.evidenceUnlink, w.signatureUnlink); }
    if !clean {
      result := Fail(disk, b, PREFLIGHT_FAILED, w.failure);
      return;
    }
    EnvironmentExists(k, b, w.base);
    var environment := BuildEnvironment(w.base, RuntimeValues(b)).value;
    if !CliOk(w) {
      result := Fail(disk, b, CLI_FAILED, w.failure);
      return;
    }
    disk.Work(w.wroteEvidence, w.wroteSignature);
    var evidence := ValidateEvidence(k, w.restoreAgain, disk.evidence, disk.signature, w.verifies);
    if !w.workerOk || evidence.None? || !Proven(k, w, b, evidence.value) {
      result := Fail(disk, b, WORKER_FAILED, w.failure);
      return;
    }
    var ok := disk.WriteClosed(VerifiedRecord(b), w.success);
    if !ok {
      result := Fail(disk, b, WORKER_FAILED, w.failure);
      return;
    }
    return Ok(evidence.value);
  }

  lemma RecordsDiffer(b: Binding)
    ensures forall code :: FailureRecord(b, code) != VerifiedRecord(b)
  {
    forall code ensures FailureRecord(b, code) != VerifiedRecord(b) {
      assert ErrorCode in FailureRecord(b, code).fields && ErrorCode !in VerifiedRecord(b).fields;
    }
  }

  lemma BoundToOne(k: Platform, evidence: Json, a: Binding, b: Binding)
    requires BoundTo(k, evidence, a) && BoundTo(k, evidence, b)
    ensures a == b
  {
  }

  /** A text in this field, spelling this value. */
  ghost predicate Names(k: Platform, j: Json, field: Field, value: string) {
    j.Obj? && field in j.fields && (j.fields[field].Str? || j.fields[field].Hash?) && k.Text(j.fields[field]) == value
  }

  /** Complete evidence with traffic closed, of exactly these fields, about exactly this restore; all
      four checks true; and three positive counts, as many deletions completed as prepared. */
  ghost predicate Evidence(k: Platform, evidence: Json, b: Binding, prepared: int) {
    && evidence.Obj?
    && evidence.fields.Keys == {SchemaVersion, Status, TrafficOpen, Checks, Counts,
                                BackupRunId, GenerationId, RestoreId, BackupManifestHash, LedgerManifestHash}
    && IsNumber(evidence.fields[SchemaVersion], 1)
    && Says(evidence, Status, Str("complete")) && Says(evidence, TrafficOpen, Bool(false))
    && Names(k, evidence, BackupRunId, b.run) && Names(k, evidence, GenerationId, b.generation)
    && Names(k, evidence, RestoreId, b.restoreId)
    && Names(k, evidence, BackupManifestHash, b.backupManifest)
    && Names(k, evidence, LedgerManifestHash, b.ledgerManifest)
    && evidence.fields[Checks] == Obj(map[ObjectsAbsent := Bool(true), DatabaseRedacted := Bool(true),
                                          LedgerConsistent := Bool(true), RecoveryCompleted := Bool(true)])
    && exists deleted :: deleted > 0 && prepared > 0
         && evidence.fields[Counts] == Obj(map[PreparedCount := Int(prepared), CompletedCount := Int(prepared),
                                               DeletedCount := Int(deleted)])
  }

  lemma ChecksAre(checks: Json)
    ensures ChecksOk(checks) <==>
            checks == Obj(map[ObjectsAbsent := Bool(true), DatabaseRedacted := Bool(true),
                              LedgerConsistent := Bool(true), RecoveryCompleted := Bool(true)])
  {
    if ChecksOk(checks) {
      assert checks.fields == map[ObjectsAbsent := Bool(true), DatabaseRedacted := Bool(true),
                                  LedgerConsistent := Bool(true), RecoveryCompleted := Bool(true)];
    }
  }

  lemma CountsAre(counts: Json, prepared: int)
    ensures CountsOk(counts) && Get(counts, PreparedCount) == Int(prepared) <==>
            exists deleted :: deleted > 0 && prepared > 0
              && counts == Obj(map[PreparedCount := Int(prepared), CompletedCount := Int(prepared),
                                   DeletedCount := Int(deleted)])
  {
    if CountsOk(counts) && Get(counts, PreparedCount) == Int(prepared) {
      var deleted := Get(counts, DeletedCount).number;
      assert counts.fields == map[PreparedCount := Int(prepared), CompletedCount := Int(prepared),
                                  DeletedCount := Int(deleted)];
    }
  }

  lemma EvidenceAcceptedIff(k: Platform, evidence: Json, b: Binding, prepared: int)
    ensures EvidenceOk(k, evidence, b) && Get(Get(evidence, Counts), PreparedCount) == Int(prepared)
            <==> Evidence(k, evidence, b, prepared)
  {
    EqualsIntIff(Get(evidence, SchemaVersion), 1);
    ChecksAre(Get(evidence, Checks));
    CountsAre(Get(evidence, Counts), prepared);
  }

  /** What a verified record stands for, exactly: the CLI has prepared one positive count for a restore
      with a cutoff; the worker has succeeded and written both files, the signature verifies, and the
      evidence is about the restore whose evidence the protocol read first and again in between, says
      that all four checks are true, and counts as many deletions as the CLI prepared. */
  lemma VerifiedMeansReconciled(k: Platform, w: World, b: Binding, evidence: Json)
    ensures Proven(k, w, b, evidence) <==>
      && w.restore.Some? && w.restore.value.Obj? && BackupCutoff in w.restore.value.fields
      && w.prepared.Some? && |w.prepared.value| == 1 && w.prepared.value[0] > 0
      && w.workerOk && w.wroteEvidence.Some? && w.wroteSignature.Some?
      && w.verifies(w.wroteEvidence.value, w.wroteSignature.value)
      && k.Parse(w.wroteEvidence.value) == Some(evidence)
      && w.restoreAgain.Some? && BindingOf(k, w.restoreAgain.value) == Some(b)
      && Evidence(k, evidence, b, w.prepared.value[0])
  {
    if w.prepared.Some? && |w.prepared.value| == 1 { EvidenceAcceptedIff(k, evidence, b, w.prepared.value[0]); }
    if Proven(k, w, b, evidence) { BoundToOne(k, evidence, b, BindingOf(k, w.restoreAgain.value).value); }
  }

  /** At which stage a run stops, by what went wrong first: the released commands, the preflight of
      the evidence paths, the CLI, or the worker and its evidence. */
  lemma FailureIs(k: Platform, w: World, b: Binding)
    ensures
      var preflight := w.secretsOk && w.evidenceUnlink.Good? && w.signatureUnlink.Good?;
      var cli := && w.restore.Some? && w.restore.value.Obj? && BackupCutoff in w.restore.value.fields
                 && w.prepared.Some? && |w.prepared.value| == 1 && w.prepared.value[0] > 0;
      FirstFailure(k, w, b) ==
        if !w.released then Some("b2b3_release_preflight_failed")
        else if !preflight then Some("b2b3_evidence_preflight_failed")
        else if !cli then Some("b2b3_cli_failed")
        else if !(exists evidence :: Proven(k, w, b, evidence)) || !w.success.Good?
        then Some("b2b3_worker_or_evidence_failed")
        else None
  {
  }

  /** Both closed records name the restore by its five fields and say that traffic is closed; the one
      says why, the other that opening it is for somebody else to decide. */
  lemma ClosedRecordsAre(b: Binding, code: string)
    ensures FailureRecord(b, code) == Obj(map[
      SchemaVersion := Int(1), RunState := Str("b2b3_failed_traffic_closed"), BackupRunId := Str(b.run),
      GenerationId := Str(b.generation), RestoreId := Str(b.restoreId), BackupManifestHash := Str(b.backupManifest),
      LedgerManifestHash := Str(b.ledgerManifest), ErrorCode := Str(code), TrafficOpen := Bool(false)])
    ensures VerifiedRecord(b) == Obj(map[
      SchemaVersion := Int(1), RunState := Str("b2b3_verified_traffic_closed"), BackupRunId := Str(b.run),
      GenerationId := Str(b.generation), RestoreId := Str(b.restoreId), BackupManifestHash := Str(b.backupManifest),
      LedgerManifestHash := Str(b.ledgerManifest), TrafficOpen := Bool(false),
      TrafficDecision := Str("external_environment_required")])
  {
  }

  /** Neither record can be mistaken for a completed restore. */
  lemma ClosedRecordsAreNotBound(k: Platform, b: Binding, code: string)
    ensures BindingOf(k, FailureRecord(b, code)).None? && BindingOf(k, VerifiedRecord(b)).None?
  {
    assert FAILED_STATE[0] != RESTORED[0] && VERIFIED_STATE[0] != RESTORED[0];
  }
}
