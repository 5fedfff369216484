/** What a freshness record stands for. */
module CatalogTheorems {
  import BackupGroup
  import BackupManifest
  import opened Foundations
  import opened GroupRules
  import opened LedgerRules
  import opened Retention
  import opened RetentionTheorems
  import opened CatalogCheck

  function IsValidPoint(e: Entry): bool { e.complete && e.valid }

  lemma {:induction false} EntriesOfValid(k: Platform, items: seq<Json>)
    ensures Entries(k, ValidItems(items)) == Filter(IsValidPoint, Entries(k, items))
    decreases |items|
  {
    if items != [] {
      EntriesOfValid(k, items[1..]);
      var rest := ValidItems(items[1..]);
      assert ([items[0]] + rest)[0] == items[0] && ([items[0]] + rest)[1..] == rest;
      var es := Entries(k, items[1..]);
      assert ([EntryOf(k, items[0])] + es)[1..] == es;
    }
  }

  lemma {:induction false} EntriesAt(k: Platform, items: seq<Json>)
    ensures |Entries(k, items)| == |items|
    ensures forall i :: 0 <= i < |items| ==> Entries(k, items)[i] == EntryOf(k, items[i])
    decreases |items|
  {
    if items != [] { EntriesAt(k, items[1..]); }
  }

  lemma {:induction false} NewestEntry(k: Platform, items: seq<Json>)
    requires items != []
    ensures Entries(k, items) != [] && Newest(Entries(k, items)) == EntryOf(k, NewestItem(k, items))
    ensures NewestItem(k, items) in items
    decreases |items|
  {
    EntriesAt(k, items);
    var es := Entries(k, items);
    assert es[1..] == Entries(k, items[1..]);
    if |items| > 1 { NewestEntry(k, items[1..]); }
  }

  lemma {:induction false} NewestIsGreatest(s: seq<Entry>)
    requires s != []
    ensures Newest(s) in s && forall e :: e in s ==> SortKey(e) <= SortKey(Newest(s))
    decreases |s|
  {
    if |s| > 1 {
      NewestIsGreatest(s[1..]);
      assert s == [s[0]] + s[1..];
    }
  }

  lemma {:induction false} FilterBoth(s: seq<Entry>)
    ensures Filter(IsValid, Filter(IsComplete, s)) == Filter(IsValidPoint, s)
    decreases |s|
  {
    if s != [] {
      FilterBoth(s[1..]);
      var rest := Filter(IsComplete, s[1..]);
      assert ([s[0]] + rest)[0] == s[0] && ([s[0]] + rest)[1..] == rest;
    }
  }

  lemma GreatestIsLast(points: seq<Entry>, newest: Entry)
    requires Increasing(points) && newest in points
    requires forall e :: e in points ==> SortKey(e) <= SortKey(newest)
    ensures newest == points[|points| - 1]
  {
    var last := points[|points| - 1];
    var i :| 0 <= i < |points| && points[i] == newest;
    assert last in points;
    assert forall j :: 0 <= j < |points| - 1 ==> SortKey(points[j]) < SortKey(last);
  }

  /** Sorting keeps the valid points. */
  lemma SameValidPoints(catalog: seq<Entry>, e: Entry)
    ensures |ValidPoints(catalog)| == |Filter(IsValidPoint, catalog)|
    ensures e in ValidPoints(catalog) <==> e in Filter(IsValidPoint, catalog)
  {
    FilterBoth(Sort(catalog));
    FilterSort(IsValidPoint, catalog);
    SortSorted(Filter(IsValidPoint, catalog));
  }

  /** Sorting does not change which valid point is the newest. */
  lemma NewestValidIsLast(catalog: seq<Entry>)
    requires OrdersOk(catalog) && Filter(IsValidPoint, catalog) != []
    ensures
      var points := ValidPoints(catalog);
      && |points| == |Filter(IsValidPoint, catalog)|
      && points != [] && Newest(Filter(IsValidPoint, catalog)) == points[|points| - 1]
  {
    var points, newest := ValidPoints(catalog), Newest(Filter(IsValidPoint, catalog));
    NewestIsGreatest(Filter(IsValidPoint, catalog));
    SameValidPoints(catalog, newest);
    forall e | e in points ensures SortKey(e) <= SortKey(newest) { SameValidPoints(catalog, e); }
    ValidPointsIncreasing(catalog);
    GreatestIsLast(points, newest);
  }

  /** The ledger archive behind one restore point: signed, of the same cutoff, with the
      recorded manifest hash and run id, and an archive that is the one its manifest names. */
  ghost predicate BackedBy(k: Platform, key: Bytes, item: Json, files: Files, ledger: Json) {
    var evidence := Get(item, LedgerPart);
    && Members(Ledger) <= files.Keys
    && files[LedgerManifest] == k.Print(ledger)
    && Signed(k, files[LedgerManifest], key, files[LedgerManifestSig])
    && Get(evidence, ManifestHash) == Hash(Sha256(files[LedgerManifest]))
    && Get(ledger, CutoffUtc) == Str(CutoffOf(k, item))
    && Get(ledger, ArchiveRunId) == Str(k.Text(Get(evidence, ArchiveRunId)))
    && Get(ledger, ArchiveHash) == Hash(Sha256(files[LedgerArchive]))
  }

  ghost predicate LedgerBehind(k: Platform, key: Bytes, item: Json, files: Files) {
    exists ledger :: BackedBy(k, key, item, files, ledger)
  }

  lemma PointHasLedger(k: Platform, key: Bytes, history: Json, item: Json, files: Files)
    requires LedgerMatches(k, item, files, key, history)
    ensures LedgerBehind(k, key, item, files)
  {
    var name := k.Text(Get(Get(item, LedgerPart), ArchiveRunId));
    var ledger := ValidateLedgerGroup(k, name, files, key, history, CutoffOf(k, item)).value;
    AcceptedLedgerFields(k, name, files, key, history, CutoffOf(k, item), ledger);
    assert BackedBy(k, key, item, files, ledger);
  }

  /** The newest COMPLETE entry of a catalog, valid or not, is valid and carries this run and
      this cutoff. */
  ghost predicate NewestIs(catalog: seq<Entry>, run: string, cutoff: Option<int>) {
    exists newest ::
      && newest in catalog && newest.complete && newest.valid
      && newest.runId == Some(run) && newest.cutoff == cutoff
      && forall e :: e in catalog && e.complete && e != newest ==> SortKey(e) < SortKey(newest)
  }

  lemma PlannableOrders(catalog: seq<Entry>, days: int, now: int)
    requires PlanPrune(catalog, days, now).Ok?
    ensures OrdersOk(catalog) && LatestIsValid(catalog)
  {
    RefusalIff(catalog, days);
  }

  lemma NewestFromPoints(catalog: seq<Entry>, run: string, cutoff: Option<int>)
    requires OrdersOk(catalog) && LatestIsValid(catalog) && Filter(IsValidPoint, catalog) != []
    requires Newest(Filter(IsValidPoint, catalog)).runId == Some(run)
    requires Newest(Filter(IsValidPoint, catalog)).cutoff == cutoff
    ensures NewestIs(catalog, run, cutoff)
  {
    NewestValidIsLast(catalog);
    NewestOfAll(catalog);
    ValidPointsMembers(catalog);
    var points := ValidPoints(catalog);
    assert points[|points| - 1] in catalog;
  }

  /** The cutoff of an accepted manifest is a time text. */
  lemma OwnCutoff(k: Platform, q: Inputs)
    requires OwnGroupOk(k, q, q.manifest)
    ensures Get(q.manifest, BackupCutoff).Str? && k.Utc(Get(q.manifest, BackupCutoff).text).Some?
  {
    var ok := BackupGroup.ManifestCheck(k, q.own.pinned);
    BackupGroup.AcceptedParts(k, ok, q.run, q.own.files, q.own.key, q.own.lister, q.manifest);
    assert BackupManifest.HeaderOk(k, q.manifest);
  }

  lemma LatestRun(k: Platform, q: Inputs, items: seq<Json>)
    requires Lawful(k) && LatestIsRun(k, q, items) && OwnGroupOk(k, q, q.manifest)
    ensures Entries(k, items) != [] && Newest(Entries(k, items)).runId == Some(q.run)
    ensures Newest(Entries(k, items)).cutoff == k.Utc(ManifestCutoff(k, q))
  {
    NewestEntry(k, items);
    OwnCutoff(k, q);
    SameCutoff(k, q, NewestItem(k, items));
  }

  lemma SameCutoff(k: Platform, q: Inputs, item: Json)
    requires Lawful(k) && Get(q.manifest, BackupCutoff).Str?
    requires Equals(Get(item, BackupCutoff), Get(q.manifest, BackupCutoff))
    ensures EntryOf(k, item).cutoff == k.Utc(ManifestCutoff(k, q))
  {
    assert Get(item, BackupCutoff) == Get(q.manifest, BackupCutoff);
    assert Get(q.manifest, BackupCutoff, Str("")) == Get(q.manifest, BackupCutoff);
  }

  /** A freshness record is about the newest COMPLETE restore point of the whole catalog,
      valid or not: that one is valid and carries the recorded run and the recorded cutoff. The
      recorded number counts the valid points; there are at least two, no two carry one run id,
      and behind each there is a verified ledger archive of the very same cutoff and recorded
      manifest hash. */
  lemma RecordedRunIsNewest(k: Platform, q: Inputs)
    requires Lawful(k) && CatalogOk(k, JudgeOf(k, q), q)
    ensures
      var items := ValidItems(q.catalog.items);
      && NewestIs(Entries(k, q.catalog.items), q.run, k.Utc(ManifestCutoff(k, q)))
      && |items| >= 2
      && (forall i, j :: 0 <= i < j < |items| ==> RunOf(k, items[i]) != RunOf(k, items[j]))
      && (forall i :: 0 <= i < |items| ==> q.fetch(i).Some? && LedgerBehind(k, q.key, items[i], q.fetch(i).value))
  {
    var judge := JudgeOf(k, q);
    var items := ValidItems(q.catalog.items);
    var catalog := Entries(k, q.catalog.items);
    var cutoff := k.Utc(ManifestCutoff(k, q));
    assert NewestIs(catalog, q.run, cutoff) by {
      assert judge.own(q.manifest) && judge.plannable(q.catalog.items) && judge.latest(items);
      PlannableOrders(catalog, q.days, q.started);
      EntriesOfValid(k, q.catalog.items);
      LatestRun(k, q, items);
      NewestFromPoints(catalog, q.run, cutoff);
    }
    forall i | 0 <= i < |items| ensures q.fetch(i).Some? && LedgerBehind(k, q.key, items[i], q.fetch(i).value) {
      assert PointOk(judge, items[i], q.fetch(i));
      PointHasLedger(k, q.key, q.history, items[i], q.fetch(i).value);
    }
    forall i, j | 0 <= i < j < |items| ensures RunOf(k, items[i]) != RunOf(k, items[j]) {
      assert judge.run(items[i]) != judge.run(items[j]);
    }
  }

  lemma NewestOfAll(catalog: seq<Entry>)
    requires OrdersOk(catalog) && CompletePoints(catalog) != []
    ensures
      var complete := CompletePoints(catalog);
      forall e :: e in catalog && e.complete && e != complete[|complete| - 1] ==>
        SortKey(e) < SortKey(complete[|complete| - 1])
  {
    CompleteIncreasing(catalog);
    var complete := CompletePoints(catalog);
    forall e | e in catalog && e.complete && e != complete[|complete| - 1]
      ensures SortKey(e) < SortKey(complete[|complete| - 1])
    {
      var i :| 0 <= i < |complete| && complete[i] == e;
    }
  }

  // ----- reading the record back -----

  function RecordJson(record: Freshness): Json {
    Obj(map[SchemaVersion := Int(2), BackupRunId := Str(record.run),
            BackupCutoff := Str(record.cutoff), PointCount := Int(record.points)])
  }

  /** check_freshness on the stored document: the age, or None when it is refused. */
  function CheckFreshness(k: Platform, stored: Bytes, now: int, page: int, skew: int): Option<nat> {
    match k.Parse(stored)
    case None => None
    case Some(state) =>
      if !HasExactly(state, {SchemaVersion, BackupRunId, BackupCutoff, PointCount}) then None else
      if !EqualsInt(Get(state, SchemaVersion), 2) then None else
      var points := IntValue(Get(state, PointCount));
      if points.None? || points.value < 2 then None else
      if !Get(state, BackupRunId).Str? || !ValidRunId(Get(state, BackupRunId).text) then None else
      if !Get(state, BackupCutoff).Str? || k.Utc(Get(state, BackupCutoff).text).None? then None else
      var age := now - k.Utc(Get(state, BackupCutoff).text).value;
      if age < -skew || age > page then None else
      Some(if age > 0 then age else 0)
  }

  /** The monitor reads back what a successful run recorded: it reports the age of the newest
      COMPLETE restore point, and raises exactly when that age is over the page threshold or
      further in the future than the allowed skew. */
  lemma FreshnessReadsBack(k: Platform, record: Freshness, now: int, page: int, skew: int)
    requires Lawful(k) && Recordable(k, record)
    ensures
      var age := now - k.Utc(record.cutoff).value;
      CheckFreshness(k, k.Print(RecordJson(record)), now, page, skew) ==
        if -skew <= age <= page then Some(if age > 0 then age else 0) else None
  {
    assert k.Parse(k.Print(RecordJson(record))) == Some(RecordJson(record));
  }
}
