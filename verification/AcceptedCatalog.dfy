/** A catalog that the scheduled verification accepts: the theorems about accepted catalogs, and
    about runs that end in success or fail after their record, are about something. */
module AcceptedCatalog {
  import opened Foundations
  import opened GroupRules
  import opened ManifestScan
  import opened LedgerRules
  import opened BackupManifest
  import BackupGroup
  import Consistency
  import ReferenceProof
  import opened Retention
  import opened RetentionTheorems
  import PruneCommand
  import opened CatalogCheck
  import opened Scheduler
  import opened SchedulerTheorems
  import opened SchedulerFailures

  /** A lawful platform whose screen lets every text pass. */
  ghost function Lenient(): Platform {
    Consistency.Witness().(Lower := s => "", Leaks := s => false)
  }

  lemma LenientIsLawful()
    ensures Lawful(Lenient())
    ensures forall s :: s != "" ==> Lenient().Utc(s).Some?
    ensures forall s :: Lenient().DigestText(s)
  {
    Consistency.LawsAreConsistent();
    var w, k := Consistency.Witness(), Lenient();
    assert k.Parse == w.Parse && k.Print == w.Print && k.Hex == w.Hex && k.TagHex == w.TagHex && k.Text == w.Text;
  }

  lemma {:induction false} AllClean(k: Platform, j: Json)
    requires k.Lower("") == "" && (forall s :: k.Lower(s) == "") && forall s :: !k.Leaks(s)
    ensures Clean(k, j)
    decreases j
  {
    match j {
      case Obj(fields) => forall key | key in fields ensures Clean(k, fields[key]) { AllClean(k, fields[key]); }
      case Arr(items) => forall i | 0 <= i < |items| ensures Clean(k, items[i]) { AllClean(k, items[i]); }
      case _ =>
    }
  }

  // ----- the parts -----

  const RETIRED := Obj(map[Version := Str("1"), Status := Str("retired")])
  const ACTIVE := Obj(map[Version := Str("2"), Status := Str("active")])
  const HISTORY := Obj(map[SchemaVersion := Int(1), ActiveKeyVersion := Str("2"), Versions := Arr([RETIRED, ACTIVE])])

  /** Two versions, of which the second is the active one. */
  lemma TwoVersions(retired: Json, active: Json)
    requires retired.Obj? && active.Obj?
    requires Get(active, Status) == Str("active") && Get(retired, Status) != Str("active")
    ensures ObjectItems([retired, active]) == [retired, active] && ActiveItems([retired, active]) == [active]
    ensures VersionsOf([retired, active]) == [Get(retired, Version), Get(active, Version)]
  {
    assert [retired, active][1..] == [active] && [active][1..] == [];
    assert [active] + [] == [active];
    assert ObjectItems([active]) == [active] && ActiveItems([active]) == [active];
    assert VersionsOf([active]) == [Get(active, Version)];
  }

  lemma HistoryFields()
    ensures Get(HISTORY, Versions) == Arr([RETIRED, ACTIVE]) && Get(HISTORY, ActiveKeyVersion) == Str("2")
    ensures Get(HISTORY, SchemaVersion) == Int(1)
    ensures Get(RETIRED, Version) == Str("1") && Get(ACTIVE, Version) == Str("2")
    ensures Get(ACTIVE, Status) == Str("active") && Get(RETIRED, Status) != Str("active")
  {
    assert "retired"[0] != "active"[0];
  }

  lemma HistoryIsOk(k: Platform)
    requires Clean(k, HISTORY)
    ensures HistoryOk(k, HISTORY) && VersionNames(HISTORY) == [Str("1"), Str("2")]
  {
    HistoryFields();
    TwoVersions(RETIRED, ACTIVE);
    HistoryWhen(k, HISTORY, RETIRED, ACTIVE);
  }

  lemma HistoryWhen(k: Platform, history: Json, retired: Json, active: Json)
    requires Clean(k, history) && Get(history, SchemaVersion) == Int(1)
    requires Get(history, Versions) == Arr([retired, active]) && Get(history, ActiveKeyVersion) == Get(active, Version)
    requires ObjectItems([retired, active]) == [retired, active] && ActiveItems([retired, active]) == [active]
    requires VersionsOf([retired, active]) == [Get(retired, Version), Get(active, Version)]
    ensures HistoryOk(k, history) && VersionNames(history) == [Get(retired, Version), Get(active, Version)]
  {
    assert VersionNames(history) == [Get(retired, Version), Get(active, Version)];
    assert Equals(Get(history, ActiveKeyVersion), VersionNames(history)[1]);
  }

  /** A ledger archive group as its producer writes it. */
  function LedgerFiles(k: Platform, run: string, cutoff: string, key: Bytes): Files {
    var payload := k.Print(LedgerManifestFor(run, cutoff, [0], 0, Str("2"), "p"));
    map[LedgerArchive := [0], LedgerManifest := payload, LedgerManifestSig := SignatureFile(k, payload, key),
        Complete := MarkerFile(k, payload)]
  }

  function Evidence(k: Platform, run: string, cutoff: string): Json {
    Obj(map[ArchiveRunId := Str(run), CutoffUtc := Str(cutoff),
            ManifestHash := Hash(Sha256(k.Print(LedgerManifestFor(run, cutoff, [0], 0, Str("2"), "p")))),
            KeyVersions := Arr([Str("1"), Str("2")])])
  }

  /** A catalog entry about a restore point and its ledger archive. */
  function Point(k: Platform, run: string, ledger: string, cutoff: string, order: int): Json {
    Obj(map[BackupRunId := Str(run), BackupCutoff := Str(cutoff), CompleteFlag := Bool(true), ValidFlag := Bool(true),
            CompleteOrder := Int(order), WindowDays := Int(1), LedgerPart := Evidence(k, ledger, cutoff)])
  }

  lemma LedgerIsAccepted(k: Platform, run: string, cutoff: string, key: Bytes)
    requires Lawful(k) && HistoryOk(k, HISTORY) && ValidRunId(run) && k.Utc(cutoff).Some? && |key| >= MIN_KEY_LENGTH
    ensures
      var manifest := LedgerManifestFor(run, cutoff, [0], 0, Str("2"), "p");
      && ValidateLedgerGroup(k, run, LedgerFiles(k, run, cutoff, key), key, HISTORY, cutoff) == Some(manifest)
      && LedgerFiles(k, run, cutoff, key)[LedgerManifest] == k.Print(manifest)
  {
    var manifest := LedgerManifestFor(run, cutoff, [0], 0, Str("2"), "p");
    var files := LedgerFiles(k, run, cutoff, key);
    assert Get(HISTORY, ActiveKeyVersion) == Str("2");
    assert files.Keys == Members(Ledger);
    PartsAreAccepted(k, HISTORY, key, run, cutoff, [0], 0, "p", manifest, files, cutoff);
  }

  lemma VersionsAreRecorded(recorded: Json)
    requires recorded == Arr([Str("1"), Str("2")]) && VersionNames(HISTORY) == [Str("1"), Str("2")]
    ensures VersionsOk(recorded, HISTORY) && Str("2") in recorded.items
  {
    assert "1"[0] != "2"[0];
    assert recorded.items[1] == Str("2");
    forall i | 0 <= i < 2 ensures recorded.items[i] in VersionNames(HISTORY) {
      assert recorded.items[i] == VersionNames(HISTORY)[i];
    }
  }

  lemma PointFields(k: Platform, run: string, ledger: string, cutoff: string, order: int)
    requires Lawful(k)
    ensures
      var item := Point(k, run, ledger, cutoff, order);
      && Get(item, LedgerPart) == Evidence(k, ledger, cutoff) && RunOf(k, item) == run && CutoffOf(k, item) == cutoff
      && Get(item, BackupRunId) == Str(run) && Get(item, BackupCutoff) == Str(cutoff)
  {
  }

  lemma EvidenceFields(k: Platform, ledger: string, cutoff: string)
    ensures
      var evidence := Evidence(k, ledger, cutoff);
      && HasExactly(evidence, {ArchiveRunId, CutoffUtc, ManifestHash, KeyVersions})
      && Get(evidence, ArchiveRunId) == Str(ledger) && Get(evidence, CutoffUtc) == Str(cutoff)
      && Get(evidence, KeyVersions) == Arr([Str("1"), Str("2")])
      && Get(evidence, ManifestHash)
         == Hash(Sha256(k.Print(LedgerManifestFor(ledger, cutoff, [0], 0, Str("2"), "p"))))
  {
  }

  lemma PointIsOk(k: Platform, run: string, ledger: string, cutoff: string, order: int, key: Bytes)
    requires Lawful(k) && HistoryOk(k, HISTORY) && VersionNames(HISTORY) == [Str("1"), Str("2")]
    requires ValidRunId(run) && ValidRunId(ledger) && k.Utc(cutoff).Some? && |key| >= MIN_KEY_LENGTH
    ensures
      var item := Point(k, run, ledger, cutoff, order);
      EvidenceOk(k, item) && LedgerMatches(k, item, LedgerFiles(k, ledger, cutoff, key), key, HISTORY)
  {
    PointFields(k, run, ledger, cutoff, order);
    EvidenceFields(k, ledger, cutoff);
    LedgerIsAccepted(k, ledger, cutoff, key);
    LedgerManifestFields(ledger, cutoff, [0], 0, Str("2"), "p");
    VersionsAreRecorded(Get(Evidence(k, ledger, cutoff), KeyVersions));
    PointWhen(k, Point(k, run, ledger, cutoff, order), ledger, LedgerFiles(k, ledger, cutoff, key), key,
              LedgerManifestFor(ledger, cutoff, [0], 0, Str("2"), "p"));
  }

  /** An entry that tells the truth about an accepted ledger archive passes. */
  lemma PointWhen(k: Platform, item: Json, ledger: string, files: Files, key: Bytes, manifest: Json)
    requires Lawful(k) && ValidRunId(RunOf(k, item)) && ValidRunId(ledger)
    requires ValidateLedgerGroup(k, ledger, files, key, HISTORY, CutoffOf(k, item)) == Some(manifest)
    requires LedgerManifest in files && files[LedgerManifest] == k.Print(manifest)
    requires Get(manifest, ArchiveRunId) == Str(ledger) && Get(manifest, CutoffUtc) == Str(CutoffOf(k, item))
    requires
      var evidence := Get(item, LedgerPart);
      && HasExactly(evidence, {ArchiveRunId, CutoffUtc, ManifestHash, KeyVersions})
      && Get(evidence, ArchiveRunId) == Str(ledger) && Get(evidence, CutoffUtc) == Str(CutoffOf(k, item))
      && Get(evidence, ManifestHash) == Hash(Sha256(k.Print(manifest)))
      && VersionsOk(Get(evidence, KeyVersions), HISTORY)
      && Get(manifest, KeyVersion) in Get(evidence, KeyVersions).items
    ensures EvidenceOk(k, item) && LedgerMatches(k, item, files, key, HISTORY)
  {
    assert k.Text(Get(Get(item, LedgerPart), ArchiveRunId)) == ledger;
    assert CatalogCheck.Recorded(k, item, files, manifest, HISTORY);
  }

  // ----- the run's own group -----

  const PINNED := ReferenceProof.Pinned("v", [0])

  function InventoryFile(k: Platform): Bytes {
    k.Print(Obj(map[SchemaVersion := Int(1), Objects := Arr([])]))
  }

  function OwnContent(k: Platform, run: string, cutoff: string, ledger: string): Content {
    Content(run, cutoff, "i", "d", [0], 1, [0], 0, InventoryFile(k),
            ReferenceProof.Proof(PINNED, Sha256(InventoryFile(k)), 0, 0), Evidence(k, ledger, cutoff), 1, "p")
  }

  function OwnInputs(k: Platform, run: string, cutoff: string, key: Bytes): BackupGroup.BackupInputs {
    BackupGroup.BackupInputs(true, run, cutoff, "i", "d", 1, "p", key, "", map[], key, HISTORY,
                             [0], [0], InventoryFile(k), [])
  }

  function One(): BackupGroup.Lister {
    (dump: Bytes) => 1
  }

  lemma OwnManifestIsOk(k: Platform, run: string, cutoff: string, ledger: string)
    requires Lawful(k) && Clean(k, ManifestFor(OwnContent(k, run, cutoff, ledger)))
    requires k.DigestText(DropDigestPrefix("d"))
    requires ValidRunId(run) && ValidRunId(ledger) && k.Utc(cutoff).Some?
    ensures ManifestOk(k, PINNED, ManifestFor(OwnContent(k, run, cutoff, ledger)))
  {
    var c := OwnContent(k, run, cutoff, ledger);
    ReferenceProof.ProofFields(PINNED, Sha256(InventoryFile(k)), 0, 0, Sha256(InventoryFile(k)));
    assert Get(c.references, Expected) == Int(0);
    EvidenceIsPart(k, ledger, cutoff);
    BuiltManifestOkIff(k, PINNED, c);
  }

  lemma EvidenceIsPart(k: Platform, ledger: string, cutoff: string)
    requires Lawful(k) && ValidRunId(ledger) && k.Utc(cutoff).Some?
    ensures LedgerPartOk(k, Evidence(k, ledger, cutoff))
  {
    var evidence := Evidence(k, ledger, cutoff);
    assert Get(evidence, KeyVersions) == Arr([Str("1"), Str("2")]);
    assert Get(evidence, ArchiveRunId) == Str(ledger) && Get(evidence, CutoffUtc) == Str(cutoff);
  }

  lemma OwnGroupIsOk(k: Platform, run: string, cutoff: string, ledger: string, key: Bytes)
    requires Lawful(k) && Clean(k, ManifestFor(OwnContent(k, run, cutoff, ledger)))
    requires k.DigestText(DropDigestPrefix("d"))
    requires ValidRunId(run) && ValidRunId(ledger) && k.Utc(cutoff).Some? && |key| >= MIN_KEY_LENGTH
    ensures
      var manifest := ManifestFor(OwnContent(k, run, cutoff, ledger));
      BackupGroup.ValidateGroup(
        k, BackupGroup.ManifestCheck(k, PINNED), run, BackupGroup.GroupFor(k, manifest, OwnInputs(k, run, cutoff, key)),
        key, One()) == Some(manifest)
  {
    var c := OwnContent(k, run, cutoff, ledger);
    var manifest := ManifestFor(c);
    var b := OwnInputs(k, run, cutoff, key);
    OwnManifestIsOk(k, run, cutoff, ledger);
    BackupGroup.BuiltManifestDescribes(c, manifest);
    EmptyInventory(k);
    BackupGroup.DescribedIsAccepted(
      k, BackupGroup.ManifestCheck(k, PINNED), One(), b, manifest, 0, BackupGroup.GroupFor(k, manifest, b));
  }

  lemma EmptyInventory(k: Platform)
    requires Lawful(k)
    ensures BackupGroup.CheckInventory(k, InventoryFile(k)) == Some(0)
  {
    var inventory := Obj(map[SchemaVersion := Int(1), Objects := Arr([])]);
    assert k.Parse(InventoryFile(k)) == Some(inventory);
    assert Get(inventory, Objects) == Arr([]) && Get(inventory, SchemaVersion) == Int(1);
  }

  // ----- the catalog -----

  function Items(k: Platform, first: string, second: string, ledgers: (string, string), cutoff: string): seq<Json> {
    [Point(k, first, ledgers.0, cutoff, 1), Point(k, second, ledgers.1, cutoff, 2)]
  }

  function ListedEntry(k: Platform, run: string, cutoff: string, order: int): Entry {
    Entry(Some(run), true, true, Whole(order), Some(1), k.Utc(cutoff))
  }

  lemma PointEntry(k: Platform, run: string, ledger: string, cutoff: string, order: int)
    requires Lawful(k)
    ensures EntryOf(k, Point(k, run, ledger, cutoff, order)) == ListedEntry(k, run, cutoff, order)
  {
    var item := Point(k, run, ledger, cutoff, order);
    assert item.Obj? && item.fields[CompleteOrder] == Int(order) && item.fields[WindowDays] == Int(1);
    assert item.fields[BackupRunId] == Str(run) && item.fields[BackupCutoff] == Str(cutoff);
    assert item.fields[CompleteFlag] == Bool(true) && item.fields[ValidFlag] == Bool(true);
  }

  lemma TwoEntriesPlan(a: Entry, b: Entry, now: int)
    requires a.complete && a.valid && b.complete && b.valid
    requires a.order == Whole(1) && b.order == Whole(2) && a.window == Some(1) && b.window == Some(1)
    requires a.runId.Some? && b.runId.Some? && ValidRunId(a.runId.value) && ValidRunId(b.runId.value)
    requires now - SECONDS_PER_DAY >= MIN_TIME
    ensures PlanPrune([a, b], 1, now).Ok?
  {
    var s := [a, b];
    PruneCommand.PointsOfValid(s);
    forall e | e in s ensures PruneCommand.Decidable(e, {a.runId.value, b.runId.value}) {
      assert e == a || e == b;
    }
    PruneCommand.PlanWhen(s, 1, now);
  }

  lemma ItemsPlan(k: Platform, first: string, second: string, ledgers: (string, string), cutoff: string, now: int)
    requires Lawful(k) && ValidRunId(first) && ValidRunId(second) && now - SECONDS_PER_DAY >= MIN_TIME
    ensures PlanPrune(Entries(k, Items(k, first, second, ledgers, cutoff)), 1, now).Ok?
  {
    var items := Items(k, first, second, ledgers, cutoff);
    var a, b := ListedEntry(k, first, cutoff, 1), ListedEntry(k, second, cutoff, 2);
    PointEntry(k, first, ledgers.0, cutoff, 1);
    PointEntry(k, second, ledgers.1, cutoff, 2);
    assert items[1..] == [items[1]] && items[1..][1..] == [];
    assert Entries(k, [items[1]]) == [b];
    assert Entries(k, items) == [a, b];
    TwoEntriesPlan(a, b, now);
  }

  function OwnGroupOf(k: Platform, run: string, cutoff: string, ledger: string, key: Bytes): OwnGroup {
    var manifest := ManifestFor(OwnContent(k, run, cutoff, ledger));
    OwnGroup(PINNED, BackupGroup.GroupFor(k, manifest, OwnInputs(k, run, cutoff, key)), key, One())
  }

  /** What a run finds that lists itself and one earlier run. */
  function Found(
      k: Platform, first: string, second: string, ledgers: (string, string), cutoff: string, now: int,
      key: Bytes): Inputs
  {
    Inputs(
      Arr(Items(k, first, second, ledgers, cutoff)), 1, now, second,
      ManifestFor(OwnContent(k, second, cutoff, ledgers.1)), OwnGroupOf(k, second, cutoff, ledgers.1, key),
      key, HISTORY, (i: nat) => Some(LedgerFiles(k, if i == 0 then ledgers.0 else ledgers.1, cutoff, key)))
  }

  lemma ItemsAreValid(k: Platform, first: string, second: string, ledgers: (string, string), cutoff: string)
    ensures ValidItems(Items(k, first, second, ledgers, cutoff)) == Items(k, first, second, ledgers, cutoff)
    ensures AllObjects(Items(k, first, second, ledgers, cutoff))
  {
    var items := Items(k, first, second, ledgers, cutoff);
    forall i | 0 <= i < |items|
      ensures items[i].Obj? && Get(items[i], CompleteFlag) == Bool(true) && Get(items[i], ValidFlag) == Bool(true)
    {
      assert items[i] == Point(k, first, ledgers.0, cutoff, 1) || items[i] == Point(k, second, ledgers.1, cutoff, 2);
    }
    FilterAll((item: Json) => Get(item, CompleteFlag) == Bool(true) && Get(item, ValidFlag) == Bool(true), items);
  }

  lemma LatestIsSecond(k: Platform, first: string, second: string, ledgers: (string, string), cutoff: string)
    requires Lawful(k)
    ensures
      var items := Items(k, first, second, ledgers, cutoff);
      NewestItem(k, items) == items[1]
  {
    var items := Items(k, first, second, ledgers, cutoff);
    PointEntry(k, first, ledgers.0, cutoff, 1);
    PointEntry(k, second, ledgers.1, cutoff, 2);
    assert items[1..] == [items[1]];
    assert NewestItem(k, [items[1]]) == items[1];
  }

  // ----- the verdict -----

  lemma VerdictIs(k: Platform, q: Inputs)
    ensures VerifierOf(k).verdict(q) ==
            if CatalogOk(k, JudgeOf(k, q), q)
            then Some(Freshness(q.run, ManifestCutoff(k, q), PointsOf(q))) else None
  {
  }

  lemma JudgeIs(k: Platform, q: Inputs, item: Json, files: Files)
    ensures
      var judge := JudgeOf(k, q);
      && judge.evidence(item) == EvidenceOk(k, item) && judge.run(item) == RunOf(k, item)
      && judge.ledger(item, files) == LedgerMatches(k, item, files, q.key, q.history)
  {
  }

  lemma JudgesCatalog(k: Platform, q: Inputs, items: seq<Json>)
    ensures
      var judge := JudgeOf(k, q);
      && judge.own(q.manifest) == OwnGroupOk(k, q, q.manifest) && judge.latest(items) == LatestIsRun(k, q, items)
      && judge.plannable(items) == PlanPrune(Entries(k, items), q.days, q.started).Ok?
  {
  }

  /** The decisions about a catalog with two valid points. */
  lemma AcceptedWhenAll(k: Platform, judge: Judge, q: Inputs, points: seq<Json>)
    requires q.catalog.Arr? && AllObjects(q.catalog.items) && ValidItems(q.catalog.items) == points && |points| == 2
    requires judge.own(q.manifest) && judge.plannable(q.catalog.items) && judge.latest(points)
    requires PointOk(judge, points[0], q.fetch(0)) && PointOk(judge, points[1], q.fetch(1))
    requires judge.run(points[0]) != judge.run(points[1])
    requires Recordable(k, Freshness(q.run, ManifestCutoff(k, q), 2))
    ensures CatalogOk(k, judge, q) && PointsOf(q) == 2
  {
    BothPass(judge, points, q.fetch);
  }

  lemma BothPass(judge: Judge, points: seq<Json>, fetch: nat -> Option<Files>)
    requires |points| == 2 && PointOk(judge, points[0], fetch(0)) && PointOk(judge, points[1], fetch(1))
    requires judge.run(points[0]) != judge.run(points[1])
    ensures forall i :: 0 <= i < |points| ==> PointOk(judge, points[i], fetch(i))
    ensures DistinctRunsOf(judge, points)
  {
    forall i | 0 <= i < |points| ensures PointOk(judge, points[i], fetch(i)) { assert i == 0 || i == 1; }
  }

  lemma PointPasses(k: Platform, q: Inputs, run: string, ledger: string, cutoff: string, order: int, i: nat)
    requires Lawful(k) && HistoryOk(k, HISTORY) && VersionNames(HISTORY) == [Str("1"), Str("2")]
    requires ValidRunId(run) && ValidRunId(ledger) && k.Utc(cutoff).Some? && |q.key| >= MIN_KEY_LENGTH
    requires q.history == HISTORY && q.fetch(i) == Some(LedgerFiles(k, ledger, cutoff, q.key))
    ensures PointOk(JudgeOf(k, q), Point(k, run, ledger, cutoff, order), q.fetch(i))
    ensures JudgeOf(k, q).run(Point(k, run, ledger, cutoff, order)) == run
  {
    PointIsOk(k, run, ledger, cutoff, order, q.key);
    PointFields(k, run, ledger, cutoff, order);
    JudgeIs(k, q, Point(k, run, ledger, cutoff, order), LedgerFiles(k, ledger, cutoff, q.key));
  }

  /** What the example needs of its parameters. */
  ghost predicate Suitable(
      k: Platform, first: string, second: string, ledgers: (string, string), cutoff: string, key: Bytes)
  {
    && Lawful(k) && k.DigestText(DropDigestPrefix("d"))
    && Clean(k, HISTORY) && Clean(k, ManifestFor(OwnContent(k, second, cutoff, ledgers.1)))
    && ValidRunId(first) && ValidRunId(second) && first != second && ValidRunId(ledgers.0) && ValidRunId(ledgers.1)
    && k.Utc(cutoff).Some? && |key| >= MIN_KEY_LENGTH
  }

  lemma OwnPasses(
      k: Platform, q: Inputs, first: string, second: string, ledgers: (string, string), cutoff: string, key: Bytes)
    requires Suitable(k, first, second, ledgers, cutoff, key)
    requires q.manifest == ManifestFor(OwnContent(k, second, cutoff, ledgers.1)) && q.run == second
    requires q.own == OwnGroupOf(k, second, cutoff, ledgers.1, key)
    ensures OwnGroupOk(k, q, q.manifest) && ManifestCutoff(k, q) == cutoff
    ensures LatestIsRun(k, q, Items(k, first, second, ledgers, cutoff))
  {
    OwnGroupIsOk(k, second, cutoff, ledgers.1, key);
    ManifestFields(OwnContent(k, second, cutoff, ledgers.1));
    LatestIsSecond(k, first, second, ledgers, cutoff);
    PointFields(k, second, ledgers.1, cutoff, 2);
    assert Get(q.manifest, BackupCutoff, Str("")) == Get(q.manifest, BackupCutoff);
  }

  /** A catalog that truthfully lists two runs, found by the second of them, is accepted. */
  lemma FoundIsAccepted(
      k: Platform, q: Inputs, first: string, second: string, ledgers: (string, string), cutoff: string, now: int,
      key: Bytes)
    requires Suitable(k, first, second, ledgers, cutoff, key) && now - SECONDS_PER_DAY >= MIN_TIME
    requires q == Found(k, first, second, ledgers, cutoff, now, key)
    ensures VerifierOf(k).verdict(q) == Some(Freshness(second, cutoff, 2))
  {
    var items := Items(k, first, second, ledgers, cutoff);
    HistoryIsOk(k);
    ItemsAreValid(k, first, second, ledgers, cutoff);
    ItemsPlan(k, first, second, ledgers, cutoff, now);
    OwnPasses(k, q, first, second, ledgers, cutoff, key);
    JudgesCatalog(k, q, items);
    PointPasses(k, q, first, ledgers.0, cutoff, 1, 0);
    PointPasses(k, q, second, ledgers.1, cutoff, 2, 1);
    AcceptedWhenAll(k, JudgeOf(k, q), q, items);
    VerdictIs(k, q);
  }

  lemma LenientIsSuitable(k: Platform, first: string, second: string, cutoff: string, key: Bytes)
    requires k == Lenient() && |key| >= MIN_KEY_LENGTH && cutoff != ""
    requires ValidRunId(first) && ValidRunId(second) && first != second
    ensures Suitable(k, first, second, (first, second), cutoff, key)
  {
    LenientIsLawful();
    AllClean(k, HISTORY);
    AllClean(k, ManifestFor(OwnContent(k, second, cutoff, second)));
  }

  lemma SomeRunIds() returns (first: string, second: string)
    ensures ValidRunId(first) && ValidRunId(second) && first != second
  {
    first, second := seq(5, i => 'a'), seq(5, i => 'b');
    assert first[0] != second[0];
  }

  /** There is a lawful platform, and on it a catalog that the verification accepts. */
  lemma SomeCatalogIsAccepted() returns (k: Platform, run: Run, q: Inputs, record: Freshness)
    ensures Lawful(k) && VerifierOf(k).verdict(q) == Some(record) && record.run == run.business
  {
    var key: Bytes := seq(32, i => 0);
    var first, second := SomeRunIds();
    LenientIsSuitable(Lenient(), first, second, "t", key);
    k, run, q, record := AcceptedOn(Lenient(), first, second, "t", key);
  }

  lemma AcceptedOn(k: Platform, first: string, second: string, cutoff: string, key: Bytes)
    returns (same: Platform, run: Run, q: Inputs, record: Freshness)
    requires Suitable(k, first, second, (first, second), cutoff, key)
    ensures same == k && Lawful(k) && VerifierOf(k).verdict(q) == Some(record) && record.run == run.business
  {
    var now := SECONDS_PER_DAY + MIN_TIME;
    same, run, record := k, Run(second, second, cutoff), Freshness(second, cutoff, 2);
    q := Found(k, first, second, (first, second), cutoff, now, key);
    FoundIsAccepted(k, q, first, second, (first, second), cutoff, now, key);
  }

  /** So there is a history, from the very beginning, of a run of the real verification that ends as
      failed, with its journal in state failed, and whose record is stored. */
  lemma SomeFailedRunHasAdvanced() returns (k: Platform, steps: seq<Step>)
    ensures Lawful(k)
    ensures
      var s := Reach(VerifierOf(k), steps);
      && |s.procs| > 0 && s.procs[0].phase == Ended(false)
      && s.journal.Some? && s.journal.value.state == Failed
      && s.last.Some? && s.last.value.run == s.journal.value.run.business
  {
    var run, q, record;
    k, run, q, record := SomeCatalogIsAccepted();
    steps := FailsFromTheStart(k, run, q, record);
  }

  lemma FailsFromTheStart(k: Platform, run: Run, q: Inputs, record: Freshness) returns (steps: seq<Step>)
    requires VerifierOf(k).verdict(q) == Some(record) && record.run == run.business
    ensures
      var s := Reach(VerifierOf(k), steps);
      && |s.procs| > 0 && s.procs[0].phase == Ended(false)
      && s.journal.Some? && s.journal.value.state == Failed
      && s.last == Some(record) && record.run == s.journal.value.run.business
  {
    assert Reach(VerifierOf(k), []) == INITIAL;
    steps := [] + FailingHistory(VerifierOf(k), 0, run, q, None);
    FailedRunMayAdvanceFreshness(k, [], run, q, record, None);
  }
}
