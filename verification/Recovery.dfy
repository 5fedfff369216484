/** The closed-traffic restore: what happens in which order, wherever it stops. */
module Recovery {
  import opened Foundations
  import opened GroupRules
  import opened LedgerRules
  import opened ReferenceProof
  import opened BackupManifest
  import opened BackupGroup
  import opened RestoreBinding
  import opened Scalars

  /** The external clients a restore calls, in the order it calls them. */
  datatype Client =
    | FetchGroup | SelectLedger | FetchLedger | RestoreLedger | AttestLedger | RestoreDatabase | RestoreObjects

  datatype Check = GroupCheck | LedgerCheck | ProofCheck

  /** What a restore does that can be seen from outside. A client that fails may have done part
      of its work, so its beginning and its end are separate effects. */
  datatype Effect =
    | OpenMarkerRemoved
    | Wrote(record: Json)
    | WroteMarker(record: Json)
    | Began(client: Client)
    | Finished(client: Client)
    | Passed(check: Check)

  /** How the writes and client calls of one restore end. A write that raises may have landed. */
  datatype Answer = Good | RaisedBefore | RaisedAfter

  datatype Weather = Weather(
    client: Client -> bool, unlink: Answer, first: Answer, firstMarker: Answer, last: Answer, lastMarker: Answer)

  /** Everything a restore is given. `guard` stands for the checks before the first effect,
      `settings` for those after it whose only outcome is to refuse. */
  datatype Request = Request(
    guard: bool, run: string, generation: string, settings: bool,
    group: Files, selection: Json, ledger: Files, proof: Bytes, proofSignature: Bytes)

  /** The three verifications, and what is read out of accepted documents. */
  datatype Judge = Judge(
    uuid: string -> Option<string>,
    group: Files -> Option<Json>,
    selected: Json -> Option<string>,
    ledger: (string, Files, string) -> Option<Json>,
    proof: (Bytes, Bytes, Json) -> bool,
    cutoff: Json -> string)

  /** The host's disk and the history of what was done to it and from it. */
  class Host {
    var evidence: Option<Json>
    var closedMarker: Option<Json>
    var openMarker: bool
    var log: seq<Effect>

    constructor (evidence: Option<Json>, closedMarker: Option<Json>, openMarker: bool)
      ensures this.evidence == evidence && this.closedMarker == closedMarker && this.openMarker == openMarker
      ensures log == []
    {
      this.evidence, this.closedMarker, this.openMarker, this.log := evidence, closedMarker, openMarker, [];
    }

    method RemoveOpenMarker(answer: Answer) returns (ok: bool)
      modifies this`openMarker, this`log
      ensures ok == answer.Good?
      ensures answer.RaisedBefore? ==> openMarker == old(openMarker) && log == old(log)
      ensures !answer.RaisedBefore? ==> !openMarker && log == old(log) + [OpenMarkerRemoved]
    {
      if !answer.RaisedBefore? { openMarker := false; log := log + [OpenMarkerRemoved]; }
      ok := answer.Good?;
    }

    method WriteEvidence(record: Json, answer: Answer) returns (ok: bool)
      modifies this`evidence, this`log
      ensures ok == answer.Good?
      ensures answer.RaisedBefore? ==> evidence == old(evidence) && log == old(log)
      ensures !answer.RaisedBefore? ==> evidence == Some(record) && log == old(log) + [Wrote(record)]
    {
      if !answer.RaisedBefore? { evidence := Some(record); log := log + [Wrote(record)]; }
      ok := answer.Good?;
    }

    method WriteMarker(record: Json, answer: Answer) returns (ok: bool)
      modifies this`closedMarker, this`log
      ensures ok == answer.Good?
      ensures answer.RaisedBefore? ==> closedMarker == old(closedMarker) && log == old(log)
      ensures !answer.RaisedBefore? ==> closedMarker == Some(record) && log == old(log) + [WroteMarker(record)]
    {
      if !answer.RaisedBefore? { closedMarker := Some(record); log := log + [WroteMarker(record)]; }
      ok := answer.Good?;
    }

    method Call(client: Client, succeeds: bool) returns (ok: bool)
      modifies this`log
      ensures ok == succeeds
      ensures log == old(log) + if ok then [Began(client), Finished(client)] else [Began(client)]
    {
      log := log + if succeeds then [Began(client), Finished(client)] else [Began(client)];
      ok := succeeds;
    }

    method Pass(check: Check)
      modifies this`log
      ensures log == old(log) + [Passed(check)]
    {
      log := log + [Passed(check)];
    }
  }

  /** The one order in which a restore does things. */
  function FullTrace(started: Json, restored: Json): seq<Effect> {
    [OpenMarkerRemoved, Wrote(started), WroteMarker(started),
     Began(FetchGroup), Finished(FetchGroup), Passed(GroupCheck),
     Began(SelectLedger), Finished(SelectLedger), Began(FetchLedger), Finished(FetchLedger), Passed(LedgerCheck),
     Began(RestoreLedger), Finished(RestoreLedger), Began(AttestLedger), Finished(AttestLedger), Passed(ProofCheck),
     Began(RestoreDatabase), Finished(RestoreDatabase), Began(RestoreObjects), Finished(RestoreObjects),
     Wrote(restored), WroteMarker(restored)]
  }

  const AFTER_BEGIN: nat := 3
  const GROUP_PASSED: nat := 6
  const LEDGER_PASSED: nat := 11
  const PROOF_PASSED: nat := 16
  const OBJECTS_RESTORED: nat := 20
  const EVERYTHING: nat := 22

  /** The trace of a restore: the trace so far is the first n effects of the full order. */
  predicate TraceIs(log: seq<Effect>, before: seq<Effect>, started: Json, restored: Json, n: nat) {
    n <= EVERYTHING && log == before + FullTrace(started, restored)[..n]
  }

  /** The record a completed restore leaves. */
  function FinalRecord(j: Judge, r: Request): Json {
    match j.group(r.group)
    case None => Null
    case Some(manifest) =>
      if !(GroupRules.Manifest in r.group && LedgerManifest in r.ledger && j.uuid(r.generation).Some?) then Null else
      RestoredRecord(r.run, r.generation, j.uuid(r.generation).value, j.cutoff(manifest),
                     Sha256(r.group[GroupRules.Manifest]), Sha256(r.ledger[LedgerManifest]), true)
  }

  predicate GroupPassed(j: Judge, r: Request) {
    j.group(r.group).Some? && GroupRules.Manifest in r.group
  }

  predicate LedgerPassed(j: Judge, r: Request)
    requires GroupPassed(j, r)
  {
    && j.selected(r.selection).Some? && LedgerManifest in r.ledger
    && j.ledger(j.selected(r.selection).value, r.ledger, j.cutoff(j.group(r.group).value)).Some?
  }

  predicate ProofPassed(j: Judge, r: Request)
    requires GroupPassed(j, r) && LedgerPassed(j, r)
  {
    j.proof(r.proof, r.proofSignature,
            j.ledger(j.selected(r.selection).value, r.ledger, j.cutoff(j.group(r.group).value)).value)
  }

  /** What must have been verified for a restore to be n effects along. */
  predicate Earned(j: Judge, r: Request, n: nat) {
    && (n > 0 ==> r.guard && ValidRunId(r.run) && ValidRunId(r.generation) && j.uuid(r.generation).Some?)
    && (n >= GROUP_PASSED ==> GroupPassed(j, r))
    && (n >= LEDGER_PASSED ==> GroupPassed(j, r) && LedgerPassed(j, r))
    && (n >= PROOF_PASSED ==> GroupPassed(j, r) && LedgerPassed(j, r) && ProofPassed(j, r))
  }

  /** Every client succeeds and every write is answered. */
  ghost predicate Unhindered(w: Weather) {
    && w.unlink.Good? && w.first.Good? && w.firstMarker.Good? && w.last.Good? && w.lastMarker.Good?
    && w.client(FetchGroup) && w.client(SelectLedger) && w.client(FetchLedger) && w.client(RestoreLedger)
    && w.client(AttestLedger) && w.client(RestoreDatabase) && w.client(RestoreObjects)
  }

  /** The request is sound and everything that is verified along the way is in order. */
  ghost predicate Justified(j: Judge, r: Request) {
    && r.guard && r.settings && ValidRunId(r.run) && ValidRunId(r.generation) && j.uuid(r.generation).Some?
    && GroupPassed(j, r) && LedgerPassed(j, r) && ProofPassed(j, r)
  }

  lemma TraceGrows(log: seq<Effect>, before: seq<Effect>, started: Json, restored: Json, n: nat, more: seq<Effect>)
    requires TraceIs(log, before, started, restored, n) && n + |more| <= EVERYTHING
    requires forall i :: 0 <= i < |more| ==> more[i] == FullTrace(started, restored)[n + i]
    ensures TraceIs(log + more, before, started, restored, n + |more|)
  {
    var full := FullTrace(started, restored);
    assert full[..n] + more == full[..n + |more|];
    assert before + full[..n] + more == before + full[..n + |more|];
  }

  /** begin_closed_recovery: traffic is closed and the new restore recorded as merely started. */
  method BeginClosedRecovery(host: Host, r: Request, w: Weather, ghost restored: Json) returns (ok: bool, ghost n: nat)
    modifies host
    ensures n <= AFTER_BEGIN && TraceIs(host.log, old(host.log), StartedRecord(r.run, r.generation), restored, n)
    ensures ok ==> n == AFTER_BEGIN
    ensures ok <==> w.unlink.Good? && w.first.Good? && w.firstMarker.Good?
    ensures n > 0 ==> !host.openMarker
    ensures ok ==> host.closedMarker == Some(Obj(map[
              SchemaVersion := Int(1), RunState := Str("restore_started_traffic_closed"), BackupRunId := Str(r.run),
              GenerationId := Str(r.generation), TrafficOpen := Bool(false)]))
    ensures host.evidence == if n >= 2 then Some(StartedRecord(r.run, r.generation)) else old(host.evidence)
  {
    var started := StartedRecord(r.run, r.generation);
    ghost var before, full := host.log, FullTrace(started, restored);
    n := 0;
    ok := host.RemoveOpenMarker(w.unlink);
    if host.log != before { TraceGrows(before, before, started, restored, 0, [OpenMarkerRemoved]); n := 1; }
    if !ok { return; }
    ghost var log1 := host.log;
    ok := host.WriteEvidence(started, w.first);
    if !w.first.RaisedBefore? { TraceGrows(log1, before, started, restored, 1, [Wrote(started)]); n := 2; }
    if !ok { return; }
    ghost var log2 := host.log;
    ok := host.WriteMarker(started, w.firstMarker);
    if !w.firstMarker.RaisedBefore? { TraceGrows(log2, before, started, restored, 2, [WroteMarker(started)]); n := 3; }
  }

  /** One client call as a part of the order. */
  method CallNext(
      host: Host, client: Client, succeeds: bool,
      ghost before: seq<Effect>, ghost started: Json, ghost restored: Json, ghost n: nat)
    returns (ok: bool, ghost m: nat)
    requires TraceIs(host.log, before, started, restored, n) && n + 2 <= EVERYTHING
    requires FullTrace(started, restored)[n] == Began(client) && FullTrace(started, restored)[n + 1] == Finished(client)
    modifies host`log
    ensures TraceIs(host.log, before, started, restored, m)
    ensures ok == succeeds && m == if ok then n + 2 else n + 1
  {
    ghost var log := host.log;
    ok := host.Call(client, succeeds);
    ghost var more := if ok then [Began(client), Finished(client)] else [Began(client)];
    TraceGrows(log, before, started, restored, n, more);
    m := n + |more|;
  }

  method PassNext(
        host: Host, check: Check, ghost before: seq<Effect>, ghost started: Json, ghost restored: Json, ghost n: nat)
    requires TraceIs(host.log, before, started, restored, n) && n + 1 <= EVERYTHING
    requires FullTrace(started, restored)[n] == Passed(check)
    modifies host`log
    ensures TraceIs(host.log, before, started, restored, n + 1)
  {
    TraceGrows(host.log, before, started, restored, n, [Passed(check)]);
    host.Pass(check);
  }

  /** The group is fetched and judged. */
  method VerifyGroup(
        host: Host, j: Judge, r: Request, w: Weather, ghost before: seq<Effect>, ghost started: Json,
        ghost restored: Json)
    returns (ok: bool, ghost n: nat)
    requires TraceIs(host.log, before, started, restored, AFTER_BEGIN)
    modifies host`log
    ensures AFTER_BEGIN <= n <= GROUP_PASSED && TraceIs(host.log, before, started, restored, n)
    ensures n >= GROUP_PASSED ==> GroupPassed(j, r)
    ensures ok ==> n == GROUP_PASSED
    ensures ok <==> w.client(FetchGroup) && GroupPassed(j, r)
  {
    ok, n := CallNext(host, FetchGroup, w.client(FetchGroup), before, started, restored, AFTER_BEGIN);
    if !ok { return; }
    if !GroupPassed(j, r) { return false, n; }
    PassNext(host, GroupCheck, before, started, restored, n);
    n := n + 1;
  }

  /** A ledger archive for the group is selected, fetched and judged. */
  method VerifyLedger(
        host: Host, j: Judge, r: Request, w: Weather, ghost before: seq<Effect>, ghost started: Json,
        ghost restored: Json)
    returns (ok: bool, ghost n: nat)
    requires GroupPassed(j, r)
    requires TraceIs(host.log, before, started, restored, GROUP_PASSED)
    modifies host`log
    ensures GROUP_PASSED <= n <= LEDGER_PASSED && TraceIs(host.log, before, started, restored, n)
    ensures n >= LEDGER_PASSED ==> LedgerPassed(j, r)
    ensures ok ==> n == LEDGER_PASSED
    ensures ok <==> w.client(SelectLedger) && w.client(FetchLedger) && LedgerPassed(j, r)
  {
    ok, n := CallNext(host, SelectLedger, w.client(SelectLedger), before, started, restored, GROUP_PASSED);
    if !ok { return; }
    if j.selected(r.selection).None? { return false, n; }
    ok, n := CallNext(host, FetchLedger, w.client(FetchLedger), before, started, restored, n);
    if !ok { return; }
    if !LedgerPassed(j, r) { return false, n; }
    PassNext(host, LedgerCheck, before, started, restored, n);
    n := n + 1;
  }

  /** The ledger is restored and attested first, the database and the objects only after. */
  method RestoreInOrder(
        host: Host, j: Judge, r: Request, w: Weather, ghost before: seq<Effect>, ghost started: Json,
        ghost restored: Json)
    returns (ok: bool, ghost n: nat)
    requires GroupPassed(j, r) && LedgerPassed(j, r)
    requires TraceIs(host.log, before, started, restored, LEDGER_PASSED)
    modifies host`log
    ensures LEDGER_PASSED <= n <= OBJECTS_RESTORED && TraceIs(host.log, before, started, restored, n)
    ensures n >= PROOF_PASSED ==> ProofPassed(j, r)
    ensures ok ==> n == OBJECTS_RESTORED
    ensures ok <==> && w.client(RestoreLedger) && w.client(AttestLedger) && ProofPassed(j, r)
                    && w.client(RestoreDatabase) && w.client(RestoreObjects)
  {
    ok, n := CallNext(host, RestoreLedger, w.client(RestoreLedger), before, started, restored, LEDGER_PASSED);
    if !ok { return; }
    ok, n := CallNext(host, AttestLedger, w.client(AttestLedger), before, started, restored, n);
    if !ok { return; }
    if !ProofPassed(j, r) { return false, n; }
    PassNext(host, ProofCheck, before, started, restored, n);
    ok, n := CallNext(host, RestoreDatabase, w.client(RestoreDatabase), before, started, restored, PROOF_PASSED);
    if !ok { return; }
    ok, n := CallNext(host, RestoreObjects, w.client(RestoreObjects), before, started, restored, n);
  }

  /** command_restore. Wherever it stops, what it did is the beginning of the one order, and
      every verification along the way had succeeded. The evidence on disk says exactly how far
      it came: the old evidence until the new restore is recorded as started, then that record,
      and the restored record only once everything else is done. */
  method CommandRestore(host: Host, j: Judge, r: Request, w: Weather) returns (ok: bool, ghost n: nat)
    modifies host
    ensures TraceIs(host.log, old(host.log), StartedRecord(r.run, r.generation), FinalRecord(j, r), n)
    ensures Earned(j, r, n)
    ensures ok ==> n == EVERYTHING
    ensures host.evidence ==
            if n < 2 then old(host.evidence)
            else if n <= OBJECTS_RESTORED then Some(StartedRecord(r.run, r.generation))
            else Some(FinalRecord(j, r))
    ensures n > 0 ==> !host.openMarker
    ensures ok ==> host.closedMarker == host.evidence
    ensures ok <==> Unhindered(w) && Justified(j, r)
  {
    ghost var before, started, restored := host.log, StartedRecord(r.run, r.generation), FinalRecord(j, r);
    n := 0;
    if !r.guard || !ValidRunId(r.run) || !ValidRunId(r.generation) || j.uuid(r.generation).None? {
      assert before + FullTrace(started, restored)[..0] == before;
      return false, 0;
    }
    ok, n := BeginClosedRecovery(host, r, w, restored);
    if !ok { return; }
    if !r.settings { return false, n; }
    ok, n := VerifyGroup(host, j, r, w, before, started, restored);
    if !ok { return; }
    ok, n := VerifyLedger(host, j, r, w, before, started, restored);
    if !ok { return; }
    ok, n := RestoreInOrder(host, j, r, w, before, started, restored);
    if !ok { return; }
    var manifest := j.group(r.group).value;
    var final := RestoredRecord(
      r.run, r.generation, j.uuid(r.generation).value, j.cutoff(manifest),
      Sha256(r.group[GroupRules.Manifest]), Sha256(r.ledger[LedgerManifest]), true);
    ok, n := FinishRestore(host, final, w, before, started);
  }

  /** The restored record is written, first as evidence, then as marker. */
  method FinishRestore(
        host: Host, final: Json, w: Weather, ghost before: seq<Effect>, ghost started: Json)
    returns (ok: bool, ghost n: nat)
    requires TraceIs(host.log, before, started, final, OBJECTS_RESTORED)
    modifies host
    ensures OBJECTS_RESTORED <= n && TraceIs(host.log, before, started, final, n)
    ensures ok ==> n == EVERYTHING
    ensures host.evidence == if n <= OBJECTS_RESTORED then old(host.evidence) else Some(final)
    ensures host.openMarker == old(host.openMarker)
    ensures ok ==> host.closedMarker == Some(final)
    ensures ok <==> w.last.Good? && w.lastMarker.Good?
  {
    ghost var log := host.log;
    n := OBJECTS_RESTORED;
    ok := host.WriteEvidence(final, w.last);
    if !w.last.RaisedBefore? { TraceGrows(log, before, started, final, n, [Wrote(final)]); n := n + 1; }
    if !ok { return; }
    ghost var log2 := host.log;
    ok := host.WriteMarker(final, w.lastMarker);
    if !w.lastMarker.RaisedBefore? { TraceGrows(log2, before, started, final, n, [WroteMarker(final)]); n := n + 1; }
  }

  // ----- what comes before what -----

  /** Where each effect stands in the order. */
  lemma Places(started: Json, restored: Json)
    ensures
      var full := FullTrace(started, restored);
      && |full| == 22 && full[0] == OpenMarkerRemoved && full[1] == Wrote(started) && full[2] == WroteMarker(started)
      && full[4] == Finished(FetchGroup) && full[5] == Passed(GroupCheck)
      && full[7] == Finished(SelectLedger) && full[9] == Finished(FetchLedger) && full[10] == Passed(LedgerCheck)
      && full[12] == Finished(RestoreLedger) && full[14] == Finished(AttestLedger) && full[15] == Passed(ProofCheck)
      && full[17] == Finished(RestoreDatabase) && full[19] == Finished(RestoreObjects)
  {
  }

  /** What has happened by the time a client is called or a check passed: traffic is closed and the
      start recorded before anything is fetched; the group is judged before a ledger is selected for
      it, the ledger archive before it is restored; the ledger is restored and attested, and the
      proof accepted, before the database is touched, and the database before the objects. */
  lemma ComesAfter(started: Json, restored: Json, i: nat)
    requires i < EVERYTHING
    ensures
      var full := FullTrace(started, restored);
      var past := full[..i];
      match full[i]
      case OpenMarkerRemoved => i == 0
      case Wrote(record) => record == started || Finished(RestoreObjects) in past
      case WroteMarker(record) => Wrote(record) in past
      case Finished(client) => i > 0 && full[i - 1] == Began(client)
      case Passed(GroupCheck) => Finished(FetchGroup) in past
      case Passed(LedgerCheck) => Finished(FetchLedger) in past
      case Passed(ProofCheck) => Finished(AttestLedger) in past
      case Began(FetchGroup) => OpenMarkerRemoved in past && Wrote(started) in past && WroteMarker(started) in past
      case Began(SelectLedger) => Passed(GroupCheck) in past
      case Began(FetchLedger) => Finished(SelectLedger) in past
      case Began(RestoreLedger) => Passed(LedgerCheck) in past
      case Began(AttestLedger) => Finished(RestoreLedger) in past
      case Began(RestoreDatabase) => Passed(ProofCheck) in past
      case Began(RestoreObjects) => Finished(RestoreDatabase) in past
  {
    var full := FullTrace(started, restored);
    var past := full[..i];
    Places(started, restored);
    assert forall j :: 0 <= j < i ==> past[j] == full[j];
    assert i > 20 ==> past[20] == Wrote(restored);
  }

  // ----- what the restored record stands for -----

  /** The keys, the key history and the dump lister of one restore. */
  datatype Trust = Trust(manifestKey: Bytes, ledgerKey: Bytes, history: Json, lister: Lister)

  /** The ledger run a selection names; None is an error. */
  function SelectedRun(k: Platform, selection: Json): Option<string> {
    if HasExactly(selection, {SchemaVersion, ArchiveRunId}) && EqualsInt(Get(selection, SchemaVersion), 1)
       && ValidRunId(k.Text(Get(selection, ArchiveRunId)))
    then Some(k.Text(Get(selection, ArchiveRunId))) else None
  }

  function JudgeOf(k: Platform, pinned: Pinned, t: Trust, r: Request): Judge {
    Judge(
      (text: string) => k.Uuid(text),
      (files: Files) => ValidateGroup(k, ManifestCheck(k, pinned), r.run, files, t.manifestKey, t.lister),
      (selection: Json) => SelectedRun(k, selection),
      (name: string, files: Files, minimum: string) =>
        ValidateLedgerGroup(k, name, files, t.ledgerKey, t.history, minimum),
      (payload: Bytes, signature: Bytes, manifest: Json) =>
        RestoreProofOk(k, payload, signature, t.ledgerKey, manifest, r.run, r.generation),
      (manifest: Json) => k.Text(Get(manifest, BackupCutoff)))
  }

  /** After begin_closed_recovery, the evidence is accepted by later steps exactly when every
      step of the restore has been taken; it then binds them to this run, this generation and
      the manifests that were verified. */
  lemma EvidenceAcceptedIffRestored(k: Platform, pinned: Pinned, t: Trust, r: Request, n: nat, evidence: Json)
    requires Lawful(k) && LawfulUuid(k) && 2 <= n <= EVERYTHING && Earned(JudgeOf(k, pinned, t, r), r, n)
    requires evidence == if n <= OBJECTS_RESTORED then StartedRecord(r.run, r.generation)
                         else FinalRecord(JudgeOf(k, pinned, t, r), r)
    ensures BindingOf(k, evidence).Some? <==> n > OBJECTS_RESTORED
    ensures n > OBJECTS_RESTORED ==>
              && GroupRules.Manifest in r.group && LedgerManifest in r.ledger && k.Uuid(r.generation).Some?
              && BindingOf(k, evidence) == Some(Binding(
                   r.run, r.generation, k.Uuid(r.generation).value,
                   k.Text(Hash(Sha256(r.group[GroupRules.Manifest]))), k.Text(Hash(Sha256(r.ledger[LedgerManifest])))))
  {
    var j := JudgeOf(k, pinned, t, r);
    if n <= OBJECTS_RESTORED {
      StartedIsNotBound(k, r.run, r.generation);
    } else {
      assert GroupPassed(j, r) && LedgerPassed(j, r);
      assert j.uuid(r.generation) == k.Uuid(r.generation);
      FinalIsBound(k, j, r);
    }
  }

  lemma FinalIsBound(k: Platform, j: Judge, r: Request)
    requires Lawful(k) && LawfulUuid(k) && ValidRunId(r.run) && ValidRunId(r.generation)
    requires GroupPassed(j, r) && LedgerManifest in r.ledger && k.Uuid(r.generation).Some?
    requires j.uuid(r.generation) == k.Uuid(r.generation)
    ensures BindingOf(k, FinalRecord(j, r)) == Some(Binding(
              r.run, r.generation, k.Uuid(r.generation).value,
              k.Text(Hash(Sha256(r.group[GroupRules.Manifest]))), k.Text(Hash(Sha256(r.ledger[LedgerManifest])))))
  {
    RestoredIsBound(k, r.run, r.generation, k.Uuid(r.generation).value, j.cutoff(j.group(r.group).value),
                    Sha256(r.group[GroupRules.Manifest]), Sha256(r.ledger[LedgerManifest]), true);
  }

  /** The ledger run that a selection of exactly two fields names. */
  ghost predicate Selects(k: Platform, selection: Json, name: string) {
    && selection.Obj? && selection.fields.Keys == {SchemaVersion, ArchiveRunId}
    && IsNumber(selection.fields[SchemaVersion], 1)
    && name == k.Text(selection.fields[ArchiveRunId]) && ValidRunId(name)
  }

  lemma SelectionIff(k: Platform, selection: Json, name: string)
    ensures SelectedRun(k, selection) == Some(name) <==> Selects(k, selection, name)
  {
    EqualsIntIff(Get(selection, SchemaVersion), 1);
  }

  /** What had been verified by the time the database is touched: the fetched group is a valid
      group of this run; the selected ledger archive is valid and no older than the backup; and
      the signed proof says that this archive was restored for this run and generation. */
  lemma DatabaseRestoreIsEarned(
      k: Platform, pinned: Pinned, t: Trust, r: Request, n: nat, started: Json, restored: Json)
    returns (manifest: Json, name: string, ledger: Json)
    requires n <= EVERYTHING && Earned(JudgeOf(k, pinned, t, r), r, n)
    requires Began(RestoreDatabase) in FullTrace(started, restored)[..n]
    ensures ValidateGroup(k, ManifestCheck(k, pinned), r.run, r.group, t.manifestKey, t.lister) == Some(manifest)
    ensures Selects(k, r.selection, name)
    ensures ValidateLedgerGroup(k, name, r.ledger, t.ledgerKey, t.history, k.Text(Get(manifest, BackupCutoff)))
            == Some(ledger)
    ensures RestoreProofOk(k, r.proof, r.proofSignature, t.ledgerKey, ledger, r.run, r.generation)
    ensures k.Utc(k.Text(Get(ledger, CutoffUtc))).Some? && k.Utc(k.Text(Get(manifest, BackupCutoff))).Some?
    ensures k.Utc(k.Text(Get(ledger, CutoffUtc))).value >= k.Utc(k.Text(Get(manifest, BackupCutoff))).value
  {
    TouchedAfterProof(started, restored, n);
    manifest, name, ledger := ProvenParts(k, pinned, t, r);
    SelectionIff(k, r.selection, name);
    AcceptedLedgerFields(k, name, r.ledger, t.ledgerKey, t.history, k.Text(Get(manifest, BackupCutoff)), ledger);
  }

  lemma ProvenParts(k: Platform, pinned: Pinned, t: Trust, r: Request)
    returns (manifest: Json, name: string, ledger: Json)
    requires
      var j := JudgeOf(k, pinned, t, r);
      GroupPassed(j, r) && LedgerPassed(j, r) && ProofPassed(j, r)
    ensures ValidateGroup(k, ManifestCheck(k, pinned), r.run, r.group, t.manifestKey, t.lister) == Some(manifest)
    ensures SelectedRun(k, r.selection) == Some(name)
    ensures ValidateLedgerGroup(k, name, r.ledger, t.ledgerKey, t.history, k.Text(Get(manifest, BackupCutoff)))
            == Some(ledger)
    ensures RestoreProofOk(k, r.proof, r.proofSignature, t.ledgerKey, ledger, r.run, r.generation)
  {
    var j := JudgeOf(k, pinned, t, r);
    manifest := j.group(r.group).value;
    name := j.selected(r.selection).value;
    ledger := j.ledger(name, r.ledger, j.cutoff(manifest)).value;
  }

  lemma TouchedAfterProof(started: Json, restored: Json, n: nat)
    requires n <= EVERYTHING && Began(RestoreDatabase) in FullTrace(started, restored)[..n]
    ensures n > PROOF_PASSED
  {
    var full := FullTrace(started, restored);
    var i :| 0 <= i < n && full[i] == Began(RestoreDatabase);
    ComesAfter(started, restored, i);
    var j :| 0 <= j < i && full[j] == Passed(ProofCheck);
  }

  /** What the record of a completed restore says: this run, generation and restore id, the cutoff of
      the accepted manifest, the hashes of both manifests, traffic closed, and the three gates. */
  lemma FinalRecordIs(k: Platform, pinned: Pinned, t: Trust, r: Request, manifest: Json)
    requires ValidateGroup(k, ManifestCheck(k, pinned), r.run, r.group, t.manifestKey, t.lister) == Some(manifest)
    requires GroupRules.Manifest in r.group && LedgerManifest in r.ledger && k.Uuid(r.generation).Some?
    ensures FinalRecord(JudgeOf(k, pinned, t, r), r) == Obj(map[
      SchemaVersion := Int(1), RunState := Str("restored_traffic_closed"), BackupRunId := Str(r.run),
      GenerationId := Str(r.generation), RestoreId := Str(k.Uuid(r.generation).value),
      BackupCutoff := Str(k.Text(Get(manifest, BackupCutoff))),
      BackupManifestHash := Hash(Sha256(r.group[GroupRules.Manifest])),
      LedgerManifestHash := Hash(Sha256(r.ledger[LedgerManifest])), TrafficOpen := Bool(false),
      Gates := Obj(map[Database := Bool(true), ObjectsGate := Bool(true), LedgerGate := Bool(true)])])
  {
  }
}
