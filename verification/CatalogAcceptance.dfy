/** What the verification of the remote catalog accepts, field by field, and what the freshness check
    reads back. */
module CatalogAcceptance {
  import opened Foundations
  import opened GroupRules
  import BackupGroup
  import opened BackupManifest
  import opened BackupAcceptance
  import opened LedgerRules
  import opened LedgerAcceptance
  import opened Retention
  import opened CatalogCheck
  import opened CatalogTheorems
  import opened Scalars

  // ----- a catalog entry -----

  lemma WholeNumberIff(j: Json, n: int)
    ensures WholeNumber(j) == Some(n) <==> IsNumber(j, n)
  {
    EqualsIntIff(j, n);
    if j.Float? {
      var r := FloatValue(j.fraction);
      if r.Floor as real == r { EqualsIntIff(j, r.Floor); }
    }
  }

  ghost function FieldOf(item: Json, field: Field): Option<Json> {
    if item.Obj? && field in item.fields then Some(item.fields[field]) else None
  }

  /** How the planner sees a catalog item: the text of its run id, complete and valid only where they
      are the literal true, its order as the integer it is or can be read as, the window in whole
      days, and the time of its cutoff. */
  lemma EntryIs(k: Platform, item: Json)
    ensures
      var e := EntryOf(k, item);
      var order := FieldOf(item, CompleteOrder);
      && e.runId == (match FieldOf(item, BackupRunId) case Some(run) => Some(k.Text(run)) case None => None)
      && (e.complete <==> FieldOf(item, CompleteFlag) == Some(Bool(true)))
      && (e.valid <==> FieldOf(item, ValidFlag) == Some(Bool(true)))
      && (forall n :: e.window == Some(n) <==>
            FieldOf(item, WindowDays).Some? && IsNumber(FieldOf(item, WindowDays).value, n))
      && e.cutoff == k.Utc(k.Text(match FieldOf(item, BackupCutoff) case Some(time) => time case None => Null))
      && e.order == match order
                    case None => Absent
                    case Some(Int(n)) => Whole(n)
                    case Some(Bool(t)) => Whole(if t then 1 else 0)
                    case Some(j) => if IntCast(k, j).Some? then Castable(IntCast(k, j).value) else Unusable
  {
    forall n ensures WholeNumber(Get(item, WindowDays)) == Some(n) <==> IsNumber(Get(item, WindowDays), n) {
      WholeNumberIff(Get(item, WindowDays), n);
    }
  }

  // ----- a restore point and its ledger -----

  /** A field as text, "" where it is missing. */
  ghost function TextIn(k: Platform, item: Json, field: Field): string {
    match FieldOf(item, field)
    case Some(j) => k.Text(j)
    case None => k.Text(Str(""))
  }

  /** A text that is the version of an item of the history. */
  ghost predicate KnownVersion(version: Json, history: Json) {
    && (version.Str? || version.Hash?) && Get(history, Versions).Arr?
    && exists i :: 0 <= i < |Get(history, Versions).items| && VersionIs(Get(history, Versions).items[i], version)
  }

  /** Distinct texts, at least one, all of them versions of the history. */
  ghost predicate KnownVersions(recorded: seq<Json>, history: Json) {
    && recorded != []
    && (forall i, j :: 0 <= i < j < |recorded| ==> recorded[i] != recorded[j])
    && forall i :: 0 <= i < |recorded| ==> KnownVersion(recorded[i], history)
  }

  /** The item records run and cutoff of this ledger group, the hash of its manifest, and key versions
      among which is the one that signed it. */
  ghost predicate Records(k: Platform, item: Json, files: Files, ledger: Json, history: Json) {
    && ValidRunId(TextIn(k, item, BackupRunId)) && FieldOf(item, LedgerPart).Some?
    && var evidence := FieldOf(item, LedgerPart).value;
    && Keys(evidence, {ArchiveRunId, CutoffUtc, ManifestHash, KeyVersions})
    && Says(evidence, CutoffUtc, Str(TextIn(k, item, BackupCutoff)))
    && Says(ledger, CutoffUtc, Str(TextIn(k, item, BackupCutoff)))
    && LedgerManifest in files && Says(evidence, ManifestHash, Hash(Sha256(files[LedgerManifest])))
    && evidence.fields[KeyVersions].Arr? && KnownVersions(evidence.fields[KeyVersions].items, history)
    && Get(ledger, KeyVersion) in evidence.fields[KeyVersions].items
  }

  /** The fetched group is the whole ledger archive that the item names, no older than the item, and
      it is the one recorded. */
  ghost predicate BackedPoint(k: Platform, item: Json, files: Files, key: Bytes, history: Json, ledger: Json) {
    var name := k.Text(Get(Get(item, LedgerPart), ArchiveRunId));
    && ValidRunId(name) && SoundHistory(k, history)
    && ArchiveBytes(k, files, key, ledger)
    && ArchiveFields(k, name, history, TextIn(k, item, BackupCutoff), ledger)
    && Records(k, item, files, ledger, history)
  }

  lemma VersionKnownIff(version: Json, history: Json)
    ensures KnownVersion(version, history) <==> (version.Str? || version.Hash?) && version in VersionNames(history)
  {
    if Get(history, Versions).Arr? { VersionsOfObjects(Get(history, Versions).items, version); }
  }

  lemma VersionsKnownIff(recorded: Json, history: Json)
    ensures VersionsOk(recorded, history) <==> recorded.Arr? && KnownVersions(recorded.items, history)
  {
    if recorded.Arr? {
      forall i | 0 <= i < |recorded.items|
        ensures KnownVersion(recorded.items[i], history) <==>
                IsText(recorded.items[i]) && recorded.items[i] in VersionNames(history)
      {
        VersionKnownIff(recorded.items[i], history);
      }
    }
  }

  lemma RecordsIff(k: Platform, item: Json, files: Files, ledger: Json, history: Json, name: string)
    requires name == k.Text(Get(Get(item, LedgerPart), ArchiveRunId)) && Says(ledger, ArchiveRunId, Str(name))
    requires ValidRunId(name)
    ensures CatalogCheck.EvidenceOk(k, item) && Recorded(k, item, files, ledger, history)
            <==> Records(k, item, files, ledger, history)
  {
    VersionsKnownIff(Get(Get(item, LedgerPart), KeyVersions), history);
  }

  lemma BackedPointIff(k: Platform, item: Json, files: Files, key: Bytes, history: Json, ledger: Json)
    requires Lawful(k)
    ensures
      var name := k.Text(Get(Get(item, LedgerPart), ArchiveRunId));
      BackedPoint(k, item, files, key, history, ledger) <==>
        && ValidateLedgerGroup(k, name, files, key, history, CutoffOf(k, item)) == Some(ledger)
        && CatalogCheck.EvidenceOk(k, item) && Recorded(k, item, files, ledger, history)
  {
    var name := k.Text(Get(Get(item, LedgerPart), ArchiveRunId));
    ArchiveAcceptedIff(k, name, files, key, history, CutoffOf(k, item), ledger);
    if Says(ledger, ArchiveRunId, Str(name)) && ValidRunId(name) {
      RecordsIff(k, item, files, ledger, history, name);
    }
  }

  /** A restore point passes exactly when the fetched group backs it. */
  lemma PointAcceptedIff(k: Platform, item: Json, files: Files, key: Bytes, history: Json)
    requires Lawful(k)
    ensures CatalogCheck.EvidenceOk(k, item) && LedgerMatches(k, item, files, key, history)
            <==> exists ledger :: BackedPoint(k, item, files, key, history, ledger)
  {
    var name := k.Text(Get(Get(item, LedgerPart), ArchiveRunId));
    var found := ValidateLedgerGroup(k, name, files, key, history, CutoffOf(k, item));
    if found.Some? { BackedPointIff(k, item, files, key, history, found.value); }
    if ledger :| BackedPoint(k, item, files, key, history, ledger) {
      BackedPointIff(k, item, files, key, history, ledger);
    }
  }

  // ----- the whole catalog -----

  /** The points that are checked: the items whose flags are both the literal true. */
  lemma {:induction false} ValidItemsAre(items: seq<Json>)
    ensures forall item :: item in ValidItems(items) <==>
              && item in items
              && FieldOf(item, CompleteFlag) == Some(Bool(true)) && FieldOf(item, ValidFlag) == Some(Bool(true))
    decreases |items|
  {
    if items != [] {
      ValidItemsAre(items[1..]);
      assert items == [items[0]] + items[1..];
    }
  }

  /** The run's own group as fetched back is whole, and this is its acceptable manifest. */
  ghost predicate OwnWhole(k: Platform, q: Inputs) {
    && ValidRunId(q.run) && ManifestOk(k, q.own.pinned, q.manifest) && Says(q.manifest, BackupRunId, Str(q.run))
    && BackupBytes(k, q.own.files, q.own.key, q.own.lister, q.manifest)
  }

  ghost predicate Backed(k: Platform, q: Inputs, item: Json, fetched: Option<Files>) {
    fetched.Some? && exists ledger :: BackedPoint(k, item, fetched.value, q.key, q.history, ledger)
  }

  /** Each point has been fetched and is backed, and no two share a run id. */
  ghost predicate PointsBacked(k: Platform, q: Inputs, points: seq<Json>) {
    && (forall i, j :: 0 <= i < j < |points| ==> TextIn(k, points[i], BackupRunId) != TextIn(k, points[j], BackupRunId))
    && forall i :: 0 <= i < |points| ==> Backed(k, q, points[i], q.fetch(i))
  }

  lemma OnePointIff(k: Platform, q: Inputs, item: Json, fetched: Option<Files>)
    requires Lawful(k)
    ensures JudgeOf(k, q).run(item) == TextIn(k, item, BackupRunId)
    ensures PointOk(JudgeOf(k, q), item, fetched) <==> Backed(k, q, item, fetched)
  {
    if fetched.Some? { PointAcceptedIff(k, item, fetched.value, q.key, q.history); }
  }

  lemma PointsBackedIff(k: Platform, q: Inputs, points: seq<Json>)
    requires Lawful(k)
    ensures
      var judge := JudgeOf(k, q);
      (forall i :: 0 <= i < |points| ==> PointOk(judge, points[i], q.fetch(i))) && DistinctRunsOf(judge, points)
      <==> PointsBacked(k, q, points)
  {
    var judge := JudgeOf(k, q);
    forall i | 0 <= i < |points|
      ensures judge.run(points[i]) == TextIn(k, points[i], BackupRunId)
      ensures PointOk(judge, points[i], q.fetch(i)) <==> Backed(k, q, points[i], q.fetch(i))
    {
      OnePointIff(k, q, points[i], q.fetch(i));
    }
    PointByPoint(k, q, points, judge);
  }

  lemma PointByPoint(k: Platform, q: Inputs, points: seq<Json>, judge: Judge)
    requires forall i :: 0 <= i < |points| ==> judge.run(points[i]) == TextIn(k, points[i], BackupRunId)
    requires forall i :: 0 <= i < |points| ==>
               (PointOk(judge, points[i], q.fetch(i)) <==> Backed(k, q, points[i], q.fetch(i)))
    ensures (forall i :: 0 <= i < |points| ==> PointOk(judge, points[i], q.fetch(i))) && DistinctRunsOf(judge, points)
            <==> PointsBacked(k, q, points)
  {
  }

  ghost predicate NewestIsOwn(k: Platform, q: Inputs, points: seq<Json>) {
    && points != []
    && Says(NewestItem(k, points), BackupRunId, Str(q.run))
    && Equals(Get(NewestItem(k, points), BackupCutoff), Get(q.manifest, BackupCutoff))
  }

  ghost predicate CanBePlanned(k: Platform, q: Inputs, items: seq<Json>) {
    PlanPrune(Entries(k, items), q.days, q.started).Ok?
  }

  lemma JudgeIs(k: Platform, q: Inputs, items: seq<Json>, points: seq<Json>)
    requires Lawful(k)
    ensures
      var judge := JudgeOf(k, q);
      && (judge.own(q.manifest) <==> OwnWhole(k, q))
      && (judge.plannable(items) <==> CanBePlanned(k, q, items))
      && (judge.latest(points) <==> NewestIsOwn(k, q, points))
  {
    OwnIff(k, q);
  }

  /** The decisions put together, for any judge. */
  lemma PutTogether(k: Platform, judge: Judge, q: Inputs)
    ensures CatalogOk(k, judge, q) <==>
      && judge.own(q.manifest)
      && q.catalog.Arr? && (forall i :: 0 <= i < |q.catalog.items| ==> q.catalog.items[i].Obj?)
      && judge.plannable(q.catalog.items)
      && var points := ValidItems(q.catalog.items);
      && ValidRunId(q.run) && k.Utc(ManifestCutoff(k, q)).Some? && |points| >= 2
      && (forall i :: 0 <= i < |points| ==> PointOk(judge, points[i], q.fetch(i))) && DistinctRunsOf(judge, points)
      && judge.latest(points)
  {
  }

  lemma CutoffIsTime(k: Platform, q: Inputs)
    requires Lawful(k) && OwnWhole(k, q)
    ensures k.Utc(ManifestCutoff(k, q)).Some?
  {
    OwnIff(k, q);
    OwnCutoff(k, q);
    assert Get(q.manifest, BackupCutoff, Str("")) == Get(q.manifest, BackupCutoff);
  }

  /** Freshness is recorded exactly when the run's own group is whole, the catalog is a list of objects
      that can be planned, at least two of them are points, each is backed, and the newest point has
      the run id and the cutoff of this run's manifest. */
  lemma CatalogAcceptedIff(k: Platform, q: Inputs)
    requires Lawful(k)
    ensures CatalogOk(k, JudgeOf(k, q), q) <==>
      && OwnWhole(k, q)
      && q.catalog.Arr? && (forall i :: 0 <= i < |q.catalog.items| ==> q.catalog.items[i].Obj?)
      && CanBePlanned(k, q, q.catalog.items)
      && var points := ValidItems(q.catalog.items);
      && |points| >= 2 && PointsBacked(k, q, points) && NewestIsOwn(k, q, points)
  {
    PutTogether(k, JudgeOf(k, q), q);
    if OwnWhole(k, q) { CutoffIsTime(k, q); }
    if q.catalog.Arr? {
      JudgeIs(k, q, q.catalog.items, ValidItems(q.catalog.items));
      PointsBackedIff(k, q, ValidItems(q.catalog.items));
    } else {
      JudgeIs(k, q, [], []);
    }
  }

  lemma OwnIff(k: Platform, q: Inputs)
    requires Lawful(k)
    ensures OwnGroupOk(k, q, q.manifest) <==> OwnWhole(k, q)
  {
    BackupAcceptedIff(
      k, BackupGroup.ManifestCheck(k, q.own.pinned), q.run, q.own.files, q.own.key, q.own.lister, q.manifest);
  }

  // ----- reading the record back -----

  /** The freshness check reports an age exactly for documents of schema 2 with these four fields, at
      least two points, a run id and a time that is neither too far ahead nor over the threshold. */
  lemma FreshnessAcceptedIff(k: Platform, stored: Bytes, now: int, page: int, skew: int, age: nat)
    ensures CheckFreshness(k, stored, now, page, skew) == Some(age) <==>
      && k.Parse(stored).Some?
      && var state := k.Parse(stored).value;
      && Keys(state, {SchemaVersion, BackupRunId, BackupCutoff, PointCount}) && IsNumber(state.fields[SchemaVersion], 2)
      && state.fields[PointCount].Int? && state.fields[PointCount].number >= 2
      && state.fields[BackupRunId].Str? && ValidRunId(state.fields[BackupRunId].text)
      && state.fields[BackupCutoff].Str? && k.Utc(state.fields[BackupCutoff].text).Some?
      && var ahead := k.Utc(state.fields[BackupCutoff].text).value - now;
      && ahead <= skew && -ahead <= page && age == if ahead < 0 then -ahead else 0
  {
    if k.Parse(stored).Some? { EqualsIntIff(Get(k.Parse(stored).value, SchemaVersion), 2); }
  }
}
