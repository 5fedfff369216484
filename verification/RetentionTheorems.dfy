/** Pruning may stop anywhere and start again: what is left to delete never changes, and the
    two newest valid groups are never part of it. */
module RetentionTheorems {
  import opened Foundations
  import opened Retention

  function KeepUnless(gone: seq<string>): Entry -> bool {
    (e: Entry) => Id(e) !in gone
  }

  function NotIn(gone: seq<string>): string -> bool {
    (id: string) => id !in gone
  }

  /** The catalog once the groups with these ids are deleted. */
  function Without(catalog: seq<Entry>, gone: seq<string>): seq<Entry> {
    Filter(KeepUnless(gone), catalog)
  }

  predicate DistinctIds(ids: seq<string>) {
    forall i, j :: 0 <= i < j < |ids| ==> ids[i] != ids[j]
  }

  ghost predicate Increasing(s: seq<Entry>) {
    forall i, j :: 0 <= i < j < |s| ==> SortKey(s[i]) < SortKey(s[j])
  }

  // ----- what the checks say about the sorted catalog -----

  lemma {:induction false} OrdersOkFilter(keep: Entry -> bool, s: seq<Entry>)
    requires OrdersOk(s)
    ensures OrdersOk(Filter(keep, s))
    decreases |s|
  {
    FilterMembers(keep, s);
    if s != [] {
      assert OrdersOk(s[1..]) by {
        assert forall i :: 0 <= i < |s[1..]| ==> s[1..][i] == s[i + 1] && s[i + 1] in s;
      }
      OrdersOkFilter(keep, s[1..]);
      FilterMembers(keep, s[1..]);
      var rest := Filter(keep, s[1..]);
      forall j | 0 <= j < |rest| && s[0].complete && rest[j].complete ensures rest[j].order != s[0].order {
        assert rest[j] in rest;
        var i :| 0 <= i < |s[1..]| && s[1..][i] == rest[j];
        assert s[i + 1] == rest[j];
      }
    }
  }

  lemma {:induction false} InsertIncreasing(e: Entry, s: seq<Entry>)
    requires Increasing(s) && forall x :: x in s ==> SortKey(x) != SortKey(e)
    ensures Increasing(Insert(e, s))
    ensures forall x :: x in Insert(e, s) <==> x == e || x in s
    decreases |s|
  {
    if s != [] {
      assert s[0] in s && s == [s[0]] + s[1..];
      if SortKey(e) > SortKey(s[0]) {
        InsertIncreasing(e, s[1..]);
        HeadBelow(s[0], Insert(e, s[1..]));
      } else {
        assert forall i :: 0 <= i < |s| ==> SortKey(s[0]) <= SortKey(s[i]);
      }
    }
  }

  lemma HeadBelow(e: Entry, s: seq<Entry>)
    requires Increasing(s) && forall x :: x in s ==> SortKey(e) < SortKey(x)
    ensures Increasing([e] + s)
  {
  }

  /** Complete entries with distinct orders sort into a strictly increasing list. */
  lemma {:induction false} SortIncreasing(s: seq<Entry>)
    requires OrdersOk(s) && forall e :: e in s ==> e.complete
    ensures Increasing(Sort(s))
    decreases |s|
  {
    if s != [] {
      assert forall i :: 0 <= i < |s[1..]| ==> s[1..][i] == s[i + 1] && s[i + 1] in s;
      assert OrdersOk(s[1..]) && s[0] in s;
      SortIncreasing(s[1..]);
      SortSorted(s[1..]);
      forall x | x in Sort(s[1..]) ensures SortKey(x) != SortKey(s[0]) {
        var i :| 0 <= i < |s[1..]| && s[1..][i] == x;
        assert s[i + 1] == x && s[0].order != s[i + 1].order;
      }
      InsertIncreasing(s[0], Sort(s[1..]));
    }
  }

  lemma CompleteIncreasing(catalog: seq<Entry>)
    requires OrdersOk(catalog)
    ensures Increasing(CompletePoints(catalog))
    ensures forall e :: e in CompletePoints(catalog) <==> e in catalog && e.complete
  {
    FilterSort(IsComplete, catalog);
    FilterMembers(IsComplete, catalog);
    OrdersOkFilter(IsComplete, catalog);
    SortIncreasing(Filter(IsComplete, catalog));
    SortSorted(Filter(IsComplete, catalog));
  }

  lemma {:induction false} IncreasingFilter(keep: Entry -> bool, s: seq<Entry>)
    requires Increasing(s)
    ensures Increasing(Filter(keep, s))
    decreases |s|
  {
    if s != [] {
      IncreasingFilter(keep, s[1..]);
      FilterMembers(keep, s[1..]);
      var rest := Filter(keep, s[1..]);
      forall j | 0 <= j < |rest| ensures SortKey(s[0]) < SortKey(rest[j]) {
        assert rest[j] in rest;
        var i :| 0 <= i < |s[1..]| && s[1..][i] == rest[j];
        assert s[i + 1] == rest[j];
      }
    }
  }

  lemma {:induction false} NewestIsLast(s: seq<Entry>)
    requires s != [] && Increasing(s)
    ensures Newest(s) == s[|s| - 1]
    decreases |s|
  {
    if |s| > 1 { NewestIsLast(s[1..]); }
  }

  lemma FilterLast(keep: Entry -> bool, s: seq<Entry>)
    requires s != [] && keep(s[|s| - 1])
    ensures Filter(keep, s) == Filter(keep, s[..|s| - 1]) + [s[|s| - 1]]
  {
    var front, last := s[..|s| - 1], s[|s| - 1];
    assert s == front + [last];
    FilterConcat(keep, front, [last]);
    assert Filter(keep, [last][1..]) == [] && Filter(keep, [last]) == [last];
  }

  lemma FilterLastTwo(keep: Entry -> bool, s: seq<Entry>)
    requires |s| >= 2 && keep(s[|s| - 2]) && keep(s[|s| - 1])
    ensures
      var t := Filter(keep, s);
      |t| >= 2 && t[|t| - 2] == s[|s| - 2] && t[|t| - 1] == s[|s| - 1]
  {
    FilterLast(keep, s);
    FilterLast(keep, s[..|s| - 1]);
  }

  lemma ValidPointsMembers(catalog: seq<Entry>)
    ensures forall e :: e in ValidPoints(catalog) <==> e in catalog && e.complete && e.valid
  {
    SortSorted(catalog);
    FilterMembers(IsComplete, Sort(catalog));
    FilterMembers(IsValid, CompletePoints(catalog));
  }

  lemma ValidPointsIncreasing(catalog: seq<Entry>)
    requires OrdersOk(catalog)
    ensures Increasing(ValidPoints(catalog))
  {
    CompleteIncreasing(catalog);
    IncreasingFilter(IsValid, CompletePoints(catalog));
  }

  /** The newest COMPLETE entry and the newest valid one are the same. */
  ghost predicate LatestIsValid(catalog: seq<Entry>) {
    var complete, points := CompletePoints(catalog), ValidPoints(catalog);
    complete != [] && points != [] && points[|points| - 1] == complete[|complete| - 1]
  }

  /** What the checks before the loop establish. */
  ghost predicate Acceptable(catalog: seq<Entry>, days: int) {
    && days > 0 && OrdersOk(catalog) && Sortable(catalog) && LatestIsValid(catalog)
    && SameWindow(CompletePoints(catalog), days)
    && |ValidPoints(catalog)| >= 2
    && ProtectedIds(ValidPoints(catalog)).Some?
  }

  lemma NewestIsLastComplete(catalog: seq<Entry>)
    requires OrdersOk(catalog) && CompletePoints(catalog) != []
    ensures var complete := CompletePoints(catalog); Newest(complete) == complete[|complete| - 1]
  {
    CompleteIncreasing(catalog);
    NewestIsLast(CompletePoints(catalog));
  }

  lemma LatestIsValidIff(catalog: seq<Entry>)
    requires CompletePoints(catalog) != []
    ensures var complete := CompletePoints(catalog); LatestIsValid(catalog) <==> complete[|complete| - 1].valid
  {
    var complete := CompletePoints(catalog);
    FilterMembers(IsValid, complete);
    if complete[|complete| - 1].valid {
      FilterLast(IsValid, complete);
    } else {
      var points := ValidPoints(catalog);
      assert points != [] ==> points[|points| - 1] in points;
    }
  }

  /** The checks pass exactly on acceptable catalogs. */
  lemma RefusalIff(catalog: seq<Entry>, days: int)
    ensures FirstRefusal(catalog, days).None? <==> Acceptable(catalog, days)
  {
    if OrdersOk(catalog) && CompletePoints(catalog) != [] {
      NewestIsLastComplete(catalog);
      LatestIsValidIff(catalog);
    }
  }

  // ----- deleting part of a plan -----

  /** On an acceptable catalog the plan is what the loop finds. */
  lemma PlanIsDeletions(catalog: seq<Entry>, days: int, now: int)
    requires Acceptable(catalog, days) && now - days * SECONDS_PER_DAY >= MIN_TIME
    ensures
      var points := ValidPoints(catalog);
      && |points| >= 2 && ProtectedIds(points).Some?
      && PlanPrune(catalog, days, now) == Deletions(points, ProtectedIds(points).value, now - days * SECONDS_PER_DAY)
  {
    RefusalIff(catalog, days);
  }

  lemma {:induction false} DeletionsSpare(points: seq<Entry>, spared: set<string>, cutoff: int)
    requires Deletions(points, spared, cutoff).Ok?
    ensures forall id :: id in Deletions(points, spared, cutoff).value ==>
              id !in spared && ValidRunId(id) && exists e :: e in points && Id(e) == id
    decreases |points|
  {
    if points != [] {
      DeletionsSpare(points[1..], spared, cutoff);
      assert points == [points[0]] + points[1..];
    }
  }

  lemma {:induction false} DeletionsFilter(points: seq<Entry>, spared: set<string>, cutoff: int, gone: seq<string>)
    requires Deletions(points, spared, cutoff).Ok?
    ensures Deletions(Filter(KeepUnless(gone), points), spared, cutoff)
            == Ok(Filter(NotIn(gone), Deletions(points, spared, cutoff).value))
    decreases |points|
  {
    if points != [] {
      DeletionsFilter(points[1..], spared, cutoff, gone);
      var e := points[0];
      var kept := Filter(KeepUnless(gone), points[1..]);
      var rest := Deletions(points[1..], spared, cutoff).value;
      assert ([e] + kept)[0] == e && ([e] + kept)[1..] == kept;
      var more := if Decide(e, spared, cutoff).value then [Id(e)] else [];
      assert Deletions(points, spared, cutoff).value == more + rest;
      FilterConcat(NotIn(gone), more, rest);
      if KeepUnless(gone)(e) {
        assert Filter(NotIn(gone), more) == more;
      } else {
        assert Filter(NotIn(gone), more) == [];
        assert [] + Filter(NotIn(gone), rest) == Filter(NotIn(gone), rest);
      }
    }
  }

  lemma ValidPointsFilter(keep: Entry -> bool, catalog: seq<Entry>)
    ensures ValidPoints(Filter(keep, catalog)) == Filter(keep, ValidPoints(catalog))
    ensures CompletePoints(Filter(keep, catalog)) == Filter(keep, CompletePoints(catalog))
  {
    FilterSort(keep, catalog);
    FilterFilter(IsComplete, keep, Sort(catalog));
    FilterFilter(IsValid, keep, CompletePoints(catalog));
  }

  /** Removing entries other than the two newest valid ones leaves those two newest. */
  lemma TwoNewestSurvive(catalog: seq<Entry>, keep: Entry -> bool)
    requires LatestIsValid(catalog) && |ValidPoints(catalog)| >= 2
    requires var points := ValidPoints(catalog); keep(points[|points| - 2]) && keep(points[|points| - 1])
    ensures
      var before, points := ValidPoints(catalog), ValidPoints(Filter(keep, catalog));
      && points == Filter(keep, before) && |points| >= 2
      && points[|points| - 2] == before[|before| - 2] && points[|points| - 1] == before[|before| - 1]
    ensures LatestIsValid(Filter(keep, catalog))
  {
    ValidPointsFilter(keep, catalog);
    FilterLastTwo(keep, ValidPoints(catalog));
    FilterLast(keep, CompletePoints(catalog));
  }

  lemma WindowsSurvive(catalog: seq<Entry>, days: int, keep: Entry -> bool)
    requires SameWindow(CompletePoints(catalog), days)
    ensures SameWindow(CompletePoints(Filter(keep, catalog)), days)
  {
    ValidPointsFilter(keep, catalog);
    FilterMembers(keep, CompletePoints(catalog));
  }

  lemma CatalogChecksSurvive(catalog: seq<Entry>, keep: Entry -> bool)
    requires OrdersOk(catalog) && Sortable(catalog)
    ensures OrdersOk(Filter(keep, catalog)) && Sortable(Filter(keep, catalog))
  {
    OrdersOkFilter(keep, catalog);
    FilterMembers(keep, catalog);
  }

  lemma AcceptableSurvives(catalog: seq<Entry>, days: int, keep: Entry -> bool)
    requires Acceptable(catalog, days)
    requires var points := ValidPoints(catalog); keep(points[|points| - 2]) && keep(points[|points| - 1])
    ensures Acceptable(Filter(keep, catalog), days)
    ensures ValidPoints(Filter(keep, catalog)) == Filter(keep, ValidPoints(catalog))
    ensures ProtectedIds(ValidPoints(Filter(keep, catalog))) == ProtectedIds(ValidPoints(catalog))
  {
    TwoNewestSurvive(catalog, keep);
    WindowsSurvive(catalog, days, keep);
    CatalogChecksSurvive(catalog, keep);
  }

  /** Deleting any part of a plan and planning again never fails, and plans exactly the rest. */
  lemma ReplanAfterDeleting(catalog: seq<Entry>, days: int, now: int, gone: seq<string>)
    requires PlanPrune(catalog, days, now).Ok?
    requires forall id :: id in gone ==> id in PlanPrune(catalog, days, now).value
    ensures PlanPrune(Without(catalog, gone), days, now) == Ok(Filter(NotIn(gone), PlanPrune(catalog, days, now).value))
  {
    var points := ValidPoints(catalog);
    var cutoff := now - days * SECONDS_PER_DAY;
    RefusalIff(catalog, days);
    var spared := ProtectedIds(points).value;
    DeletionsSpare(points, spared, cutoff);
    DeletionsFilter(points, spared, cutoff, gone);
    AcceptableSurvives(catalog, days, KeepUnless(gone));
    RefusalIff(Without(catalog, gone), days);
  }

  lemma {:induction false} WithoutTwice(catalog: seq<Entry>, a: seq<string>, b: seq<string>)
    ensures Without(Without(catalog, a), b) == Without(catalog, a + b)
    decreases |catalog|
  {
    if catalog != [] {
      WithoutTwice(catalog[1..], a, b);
      var kept := Without(catalog[1..], a);
      assert ([catalog[0]] + kept)[0] == catalog[0] && ([catalog[0]] + kept)[1..] == kept;
    }
  }

  lemma RestIsElsewhere(ids: seq<string>, k: nat)
    requires k <= |ids| && DistinctIds(ids)
    ensures forall x :: x in ids[k..] ==> x !in ids[..k]
  {
  }

  lemma FilterPrefix(ids: seq<string>, k: nat)
    requires k <= |ids| && DistinctIds(ids)
    ensures Filter(NotIn(ids[..k]), ids) == ids[k..]
  {
    var gone, rest := ids[..k], ids[k..];
    RestIsElsewhere(ids, k);
    assert ids == gone + rest;
    FilterConcat(NotIn(gone), gone, rest);
    FilterNone(NotIn(gone), gone);
    FilterAll(NotIn(gone), rest);
  }

  /** Pruning is re-entrant exactly when no run id is planned twice: after any number of the
      planned deletions, planning again at the same time returns the rest of the plan. The
      planner does not reject duplicate run ids itself. */
  lemma PruneIsReentrant(catalog: seq<Entry>, days: int, now: int)
    requires PlanPrune(catalog, days, now).Ok?
    ensures
      var plan := PlanPrune(catalog, days, now).value;
      (forall k :: 0 <= k <= |plan| ==> PlanPrune(Without(catalog, plan[..k]), days, now) == Ok(plan[k..]))
      <==> DistinctIds(plan)
  {
    var plan := PlanPrune(catalog, days, now).value;
    forall k | 0 <= k <= |plan|
      ensures PlanPrune(Without(catalog, plan[..k]), days, now) == Ok(Filter(NotIn(plan[..k]), plan))
      ensures DistinctIds(plan) ==> Filter(NotIn(plan[..k]), plan) == plan[k..]
    {
      ReplanAfterDeleting(catalog, days, now, plan[..k]);
      if DistinctIds(plan) { FilterPrefix(plan, k); }
    }
    if !DistinctIds(plan) {
      var i, j :| 0 <= i < j < |plan| && plan[i] == plan[j];
      var gone := plan[..i + 1];
      FilterMembers(NotIn(gone), plan);
      assert gone[i] == plan[j] && plan[i + 1..][j - i - 1] == plan[j];
      assert plan[j] !in Filter(NotIn(gone), plan) && plan[j] in plan[i + 1..];
    }
  }

  /** A completed prune plans nothing more. */
  lemma CompletedPruneIsEmpty(catalog: seq<Entry>, days: int, now: int)
    requires PlanPrune(catalog, days, now).Ok?
    ensures PlanPrune(Without(catalog, PlanPrune(catalog, days, now).value), days, now) == Ok([])
  {
    var plan := PlanPrune(catalog, days, now).value;
    ReplanAfterDeleting(catalog, days, now, plan);
    FilterNone(NotIn(plan), plan);
  }
}
