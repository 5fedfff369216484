/** The check a scheduled run makes of the whole remote catalog before it records success:
    every valid restore point must have a ledger archive that can be fetched and verified,
    and the run itself must be the newest. */
module CatalogCheck {
  import BackupGroup
  import opened Foundations
  import opened GroupRules
  import opened LedgerRules
  import ReferenceProof
  import opened Retention

  // ----- the catalog as the planner reads it -----

  function OrderOf(k: Platform, item: Json): Order {
    if Get(item, CompleteOrder, Arr([])) != Get(item, CompleteOrder) then Absent else
    var order := Get(item, CompleteOrder);
    if IntValue(order).Some? then Whole(IntValue(order).value)
    else if IntCast(k, order).Some? then Castable(IntCast(k, order).value)
    else Unusable
  }

  /** The integer a value equals, if any. */
  function WholeNumber(j: Json): Option<int> {
    match j
    case Int(n) => Some(n)
    case Bool(t) => Some(if t then 1 else 0)
    case Float(f) => var r := FloatValue(f); if r.Floor as real == r then Some(r.Floor) else None
    case _ => None
  }

  function EntryOf(k: Platform, item: Json): Entry {
    Entry(
      if Get(item, BackupRunId, Arr([])) == Get(item, BackupRunId) then Some(k.Text(Get(item, BackupRunId))) else None,
      Get(item, CompleteFlag) == Bool(true),
      Get(item, ValidFlag) == Bool(true),
      OrderOf(k, item),
      WholeNumber(Get(item, WindowDays)),
      k.Utc(k.Text(Get(item, BackupCutoff))))
  }

  function Entries(k: Platform, items: seq<Json>): seq<Entry> {
    if items == [] then [] else [EntryOf(k, items[0])] + Entries(k, items[1..])
  }

  /** The items that are complete and valid, in catalog order. */
  function ValidItems(items: seq<Json>): seq<Json> {
    Filter((item: Json) => Get(item, CompleteFlag) == Bool(true) && Get(item, ValidFlag) == Bool(true), items)
  }

  /** max(items, key=order) */
  function NewestItem(k: Platform, items: seq<Json>): Json
    requires items != []
  {
    if |items| == 1 then items[0]
    else
      var rest := NewestItem(k, items[1..]);
      if SortKey(EntryOf(k, rest)) > SortKey(EntryOf(k, items[0])) then rest else items[0]
  }

  // ----- one restore point against its ledger -----

  function RunOf(k: Platform, item: Json): string {
    k.Text(Get(item, BackupRunId, Str("")))
  }

  function CutoffOf(k: Platform, item: Json): string {
    k.Text(Get(item, BackupCutoff, Str("")))
  }

  predicate IsText(j: Json) {
    j.Str? || j.Hash?
  }

  /** The recorded key versions: a non-empty list of distinct names from the history. */
  predicate VersionsOk(recorded: Json, history: Json) {
    && recorded.Arr? && recorded.items != []
    && (forall i, j :: 0 <= i < j < |recorded.items| ==> recorded.items[i] != recorded.items[j])
    && (forall i :: 0 <= i < |recorded.items| ==>
          IsText(recorded.items[i]) && recorded.items[i] in VersionNames(history))
  }

  predicate EvidenceOk(k: Platform, item: Json) {
    var evidence := Get(item, LedgerPart);
    && ValidRunId(RunOf(k, item))
    && HasExactly(evidence, {ArchiveRunId, CutoffUtc, ManifestHash, KeyVersions})
    && ValidRunId(k.Text(Get(evidence, ArchiveRunId)))
    && Get(evidence, CutoffUtc) == Str(CutoffOf(k, item))
    && IsSha256(k, Get(evidence, ManifestHash))
  }

  /** The recorded evidence is about this validated archive. */
  predicate Recorded(k: Platform, item: Json, files: Files, ledger: Json, history: Json) {
    var evidence := Get(item, LedgerPart);
    && Get(ledger, ArchiveRunId) == Str(k.Text(Get(evidence, ArchiveRunId)))
    && Get(ledger, CutoffUtc) == Str(CutoffOf(k, item))
    && VersionsOk(Get(evidence, KeyVersions), history)
    && Get(ledger, KeyVersion) in Get(evidence, KeyVersions).items
    && LedgerManifest in files
    && Get(evidence, ManifestHash) == Hash(Sha256(files[LedgerManifest]))
  }

  predicate LedgerMatches(k: Platform, item: Json, files: Files, key: Bytes, history: Json) {
    var name := k.Text(Get(Get(item, LedgerPart), ArchiveRunId));
    match ValidateLedgerGroup(k, name, files, key, history, CutoffOf(k, item))
    case None => false
    case Some(ledger) => Recorded(k, item, files, ledger, history)
  }

  /** The decisions the check relies on, kept apart from the order they are made in: is this
      manifest what the run's own fetched group validates to, is the catalog plannable, is its
      newest valid point this run, which run is a point, is its recorded evidence sound, does a
      fetched archive match it. */
  datatype Judge = Judge(
    own: Json -> bool,
    plannable: seq<Json> -> bool,
    latest: seq<Json> -> bool,
    run: Json -> string,
    evidence: Json -> bool,
    ledger: (Json, Files) -> bool)

  predicate PointOk(judge: Judge, item: Json, fetched: Option<Files>) {
    judge.evidence(item) && fetched.Some? && judge.ledger(item, fetched.value)
  }

  predicate DistinctRunsOf(judge: Judge, items: seq<Json>) {
    forall i, j :: 0 <= i < j < |items| ==> judge.run(items[i]) != judge.run(items[j])
  }

  /** The verification loop. `fetch(i)` is what the i-th download brings, None when it fails.
      Each point gets a directory of its own; making one twice is an error. */
  method CheckLedgers(judge: Judge, items: seq<Json>, fetch: nat -> Option<Files>) returns (ok: bool)
    ensures ok <==>
            && (forall i :: 0 <= i < |items| ==> PointOk(judge, items[i], fetch(i)))
            && DistinctRunsOf(judge, items)
  {
    var directories: set<string> := {};
    for i := 0 to |items|
      invariant forall s :: s in directories <==> exists j :: 0 <= j < i && judge.run(items[j]) == s
      invariant forall j :: 0 <= j < i ==> PointOk(judge, items[j], fetch(j))
      invariant forall j, l :: 0 <= j < l < i ==> judge.run(items[j]) != judge.run(items[l])
    {
      var item := items[i];
      if !judge.evidence(item) { return false; }
      if judge.run(item) in directories { return false; }
      directories := directories + {judge.run(item)};
      var fetched := fetch(i);
      if fetched.None? { return false; }
      if !judge.ledger(item, fetched.value) { return false; }
    }
    return true;
  }

  // ----- the whole check -----

  /** What is written to last-success.json. */
  datatype Freshness = Freshness(run: string, cutoff: string, points: nat)

  /** What _write_freshness insists on. */
  predicate Recordable(k: Platform, record: Freshness) {
    ValidRunId(record.run) && k.Utc(record.cutoff).Some? && record.points >= 2
  }

  /** The run's own group as fetched back, with what it is verified by. */
  datatype OwnGroup = OwnGroup(
    pinned: ReferenceProof.Pinned, files: Files, key: Bytes, lister: BackupGroup.Lister)

  /** Everything the check is given: the downloaded catalog, the retention policy, the start
      time, the run, the manifest of its own group and that group, the ledger verification key,
      the key history and the downloads. */
  datatype Inputs = Inputs(
    catalog: Json, days: int, started: int, run: string, manifest: Json, own: OwnGroup,
    key: Bytes, history: Json, fetch: nat -> Option<Files>)

  /** The manifest is the one the run's own group validates to. */
  predicate OwnGroupOk(k: Platform, q: Inputs, manifest: Json) {
    BackupGroup.ValidateGroup(
      k, BackupGroup.ManifestCheck(k, q.own.pinned), q.run, q.own.files, q.own.key, q.own.lister) == Some(manifest)
  }

  predicate LatestIsRun(k: Platform, q: Inputs, points: seq<Json>) {
    && points != []
    && Get(NewestItem(k, points), BackupRunId) == Str(q.run)
    && Equals(Get(NewestItem(k, points), BackupCutoff), Get(q.manifest, BackupCutoff))
  }

  function JudgeOf(k: Platform, q: Inputs): Judge {
    Judge(
      (manifest: Json) => OwnGroupOk(k, q, manifest),
      (items: seq<Json>) => PlanPrune(Entries(k, items), q.days, q.started).Ok?,
      (points: seq<Json>) => LatestIsRun(k, q, points),
      (item: Json) => RunOf(k, item),
      (item: Json) => EvidenceOk(k, item),
      (item: Json, files: Files) => LedgerMatches(k, item, files, q.key, q.history))
  }

  function ManifestCutoff(k: Platform, q: Inputs): string {
    k.Text(Get(q.manifest, BackupCutoff, Str("")))
  }

  predicate AllObjects(items: seq<Json>) {
    forall i :: 0 <= i < |items| ==> items[i].Obj?
  }

  /** Exactly the catalogs for which a freshness record is written. */
  predicate CatalogOk(k: Platform, judge: Judge, q: Inputs) {
    && judge.own(q.manifest)
    && q.catalog.Arr? && AllObjects(q.catalog.items)
    && judge.plannable(q.catalog.items)
    && var points := ValidItems(q.catalog.items);
    && Recordable(k, Freshness(q.run, ManifestCutoff(k, q), |points|))
    && (forall i :: 0 <= i < |points| ==> PointOk(judge, points[i], q.fetch(i)))
    && DistinctRunsOf(judge, points)
    && judge.latest(points)
  }

  method CheckCatalog(k: Platform, judge: Judge, q: Inputs) returns (record: Option<Freshness>)
    ensures record.Some? <==> CatalogOk(k, judge, q)
    ensures record.Some? ==> record.value == Freshness(q.run, ManifestCutoff(k, q), |ValidItems(q.catalog.items)|)
    ensures record.Some? ==> Recordable(k, record.value)
  {
    if !judge.own(q.manifest) { return None; }
    if !q.catalog.Arr? { return None; }
    if !AllObjects(q.catalog.items) { return None; }
    if !judge.plannable(q.catalog.items) { return None; }
    var points := ValidItems(q.catalog.items);
    if |points| < 2 { return None; }
    var ledgers := CheckLedgers(judge, points, q.fetch);
    if !ledgers { return None; }
    if !judge.latest(points) { return None; }
    var found := Freshness(q.run, ManifestCutoff(k, q), |points|);
    if !Recordable(k, found) { return None; }
    return Some(found);
  }
}
