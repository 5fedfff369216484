/** What a plan contains, when there is one, and the loop that carries it out against the
    remote catalog, which may stop at any deletion. */
module PruneCommand {
  import opened Foundations
  import opened Retention
  import opened RetentionTheorems

  // ----- the plan, declaratively -----

  /** An unprotected entry older than the cutoff. */
  function Doomed(spared: set<string>, cutoff: int): Entry -> bool {
    (e: Entry) => Id(e) !in spared && e.cutoff.Some? && e.cutoff.value < cutoff
  }

  function Ids(points: seq<Entry>): seq<string> {
    if points == [] then [] else [Id(points[0])] + Ids(points[1..])
  }

  /** The planner can decide about an entry: its run id is valid, and it is protected or dated. */
  predicate Decidable(e: Entry, spared: set<string>) {
    ValidRunId(Id(e)) && (Id(e) in spared || e.cutoff.Some?)
  }

  lemma {:induction false} DeletionsAreDoomed(points: seq<Entry>, spared: set<string>, cutoff: int)
    ensures Deletions(points, spared, cutoff).Ok? <==> forall e :: e in points ==> Decidable(e, spared)
    ensures Deletions(points, spared, cutoff).Ok? ==>
              Deletions(points, spared, cutoff).value == Ids(Filter(Doomed(spared, cutoff), points))
    decreases |points|
  {
    if points != [] {
      var e := points[0];
      DeletionsAreDoomed(points[1..], spared, cutoff);
      assert points == [e] + points[1..] && e in points;
      var kept := Filter(Doomed(spared, cutoff), points[1..]);
      assert ([e] + kept)[0] == e && ([e] + kept)[1..] == kept;
      assert [] + Ids(kept) == Ids(kept);
    }
  }

  /** It plans exactly for acceptable catalogs in which it can decide about every valid entry, and
      the plan lists, oldest first, exactly the valid entries that are expired and unprotected. */
  lemma PlanWhen(catalog: seq<Entry>, days: int, now: int)
    ensures
      var points := ValidPoints(catalog);
      var cutoff := now - days * SECONDS_PER_DAY;
      && (PlanPrune(catalog, days, now).Ok? <==>
            && Acceptable(catalog, days) && cutoff >= MIN_TIME
            && forall e :: e in points ==> Decidable(e, ProtectedIds(points).value))
      && (PlanPrune(catalog, days, now).Ok? ==>
            PlanPrune(catalog, days, now).value == Ids(Filter(Doomed(ProtectedIds(points).value, cutoff), points)))
  {
    var points := ValidPoints(catalog);
    RefusalIff(catalog, days);
    if Acceptable(catalog, days) {
      DeletionsAreDoomed(points, ProtectedIds(points).value, now - days * SECONDS_PER_DAY);
    }
  }

  /** The order of a COMPLETE entry. */
  ghost predicate Ordered(e: Entry, n: int) {
    e.order == Whole(n) && n >= 1
  }

  ghost predicate Before(a: Entry, b: Entry) {
    exists m, n :: Ordered(a, m) && Ordered(b, n) && m < n
  }

  /** What every COMPLETE entry must carry: a positive order of its own and this very policy. */
  ghost predicate EntriesOk(catalog: seq<Entry>, days: int) {
    && (forall e :: e in catalog ==> e.order != Unusable)
    && (forall e :: e in catalog && e.complete ==> (exists n :: Ordered(e, n)) && e.window == Some(days))
    && (forall i, j :: 0 <= i < j < |catalog| && catalog[i].complete && catalog[j].complete ==>
          Before(catalog[i], catalog[j]) || Before(catalog[j], catalog[i]))
  }

  /** b is the newest COMPLETE entry and valid, a the newest valid one before it. */
  ghost predicate NewestTwo(catalog: seq<Entry>, a: Entry, b: Entry) {
    && a in catalog && a.complete && a.valid && b in catalog && b.complete && b.valid
    && Before(a, b)
    && (forall e :: e in catalog && e.complete ==> e == b || Before(e, b))
    && (forall e :: e in catalog && e.complete && e.valid ==> e == b || e == a || Before(e, a))
  }

  /** A valid restore point that may go: neither of the two newest and out of the window. */
  ghost predicate Due(e: Entry, days: int, now: int, a: Entry, b: Entry) {
    && e.complete && e.valid && e.runId.Some? && e.runId != a.runId && e.runId != b.runId
    && e.cutoff.Some? && e.cutoff.value < now - days * 86400
  }

  /** Everything the planner demands, on the entries: a policy, acceptable entries, two valid newest
      ones with ids, a representable limit, and for every valid entry a valid run id and a
      readable cutoff, unless it carries the id of one of the two newest. */
  ghost predicate Plannable(catalog: seq<Entry>, days: int, now: int, a: Entry, b: Entry) {
    && days > 0 && EntriesOk(catalog, days) && NewestTwo(catalog, a, b)
    && now - days * 86400 >= -62135596800
    && forall e :: e in catalog && e.complete && e.valid ==>
         e.runId.Some? && ValidRunId(e.runId.value) && (e.runId == a.runId || e.runId == b.runId || e.cutoff.Some?)
  }

  lemma EntriesOkIff(catalog: seq<Entry>, days: int)
    ensures EntriesOk(catalog, days) <==>
            OrdersOk(catalog) && Sortable(catalog) && SameWindow(CompletePoints(catalog), days)
  {
    SortSorted(catalog);
    FilterMembers(IsComplete, Sort(catalog));
    if OrdersOk(catalog) {
      forall e | e in catalog && e.complete ensures exists n :: Ordered(e, n) { assert Ordered(e, e.order.n); }
      forall i, j | 0 <= i < j < |catalog| && catalog[i].complete && catalog[j].complete
        ensures Before(catalog[i], catalog[j]) || Before(catalog[j], catalog[i])
      {
        var x, y := catalog[i], catalog[j];
        assert x in catalog && y in catalog;
        assert Ordered(x, x.order.n) && Ordered(y, y.order.n) && x.order != y.order;
      }
    }
  }

  lemma BeforeIff(a: Entry, b: Entry)
    requires a.order.Whole? && a.order.n >= 1 && b.order.Whole? && b.order.n >= 1
    ensures Before(a, b) <==> SortKey(a) < SortKey(b)
  {
    assert Ordered(a, a.order.n) && Ordered(b, b.order.n);
  }

  /** In an acceptable catalog the last two valid points are the two newest. */
  lemma LastAreNewest(catalog: seq<Entry>)
    requires OrdersOk(catalog) && LatestIsValid(catalog) && |ValidPoints(catalog)| >= 2
    ensures
      var points := ValidPoints(catalog);
      NewestTwo(catalog, points[|points| - 2], points[|points| - 1])
  {
    var points, complete := ValidPoints(catalog), CompletePoints(catalog);
    var a, b := points[|points| - 2], points[|points| - 1];
    ValidPointsMembers(catalog);
    ValidPointsIncreasing(catalog);
    CompleteIncreasing(catalog);
    assert a in points && b in points && SortKey(a) < SortKey(b);
    BeforeIff(a, b);
    forall e | e in catalog && e.complete ensures e == b || Before(e, b) {
      var i :| 0 <= i < |complete| && complete[i] == e;
      if i < |complete| - 1 { BeforeIff(e, b); }
    }
    forall e | e in catalog && e.complete && e.valid ensures e == b || e == a || Before(e, a) {
      var i :| 0 <= i < |points| && points[i] == e;
      if i < |points| - 2 { BeforeIff(e, a); }
    }
  }

  lemma NewestTwoUnique(catalog: seq<Entry>, a: Entry, b: Entry, c: Entry, d: Entry)
    requires NewestTwo(catalog, a, b) && NewestTwo(catalog, c, d)
    ensures a == c && b == d
  {
  }

  lemma NewestAreLast(catalog: seq<Entry>, a: Entry, b: Entry)
    requires OrdersOk(catalog) && NewestTwo(catalog, a, b)
    ensures LatestIsValid(catalog) && |ValidPoints(catalog)| >= 2
    ensures var points := ValidPoints(catalog); points[|points| - 2] == a && points[|points| - 1] == b
  {
    var points, complete := ValidPoints(catalog), CompletePoints(catalog);
    ValidPointsMembers(catalog);
    ValidPointsIncreasing(catalog);
    CompleteIncreasing(catalog);
    var i :| 0 <= i < |points| && points[i] == a;
    var j :| 0 <= j < |points| && points[j] == b;
    assert i != j;
    LastIsNewest(complete, b);
    LatestIsValidIff(catalog);
    LastAreNewest(catalog);
    NewestTwoUnique(catalog, a, b, points[|points| - 2], points[|points| - 1]);
  }

  lemma LastIsNewest(complete: seq<Entry>, b: Entry)
    requires Increasing(complete) && b in complete && forall e :: e in complete ==> e == b || Before(e, b)
    ensures complete[|complete| - 1] == b
  {
    var last := complete[|complete| - 1];
    var i :| 0 <= i < |complete| && complete[i] == b;
    assert last in complete;
  }

  /** The planner's verdict in full, on the entries of the catalog: there is a plan exactly when the
      catalog is plannable for two newest entries; and then the plan lists, oldest first, exactly
      the entries that are due. */
  lemma PlanIff(catalog: seq<Entry>, days: int, now: int)
    ensures PlanPrune(catalog, days, now).Ok? <==> exists a, b :: Plannable(catalog, days, now, a, b)
    ensures forall a, b :: Plannable(catalog, days, now, a, b) ==>
              exists due :: Lists(catalog, days, now, a, b, due) && IdsOf(PlanPrune(catalog, days, now).value, due)
  {
    var points := ValidPoints(catalog);
    PlanWhen(catalog, days, now);
    EntriesOkIff(catalog, days);
    ValidPointsMembers(catalog);
    if PlanPrune(catalog, days, now).Ok? {
      LastAreNewest(catalog);
      assert Plannable(catalog, days, now, points[|points| - 2], points[|points| - 1]);
    }
    forall a, b | Plannable(catalog, days, now, a, b)
      ensures PlanPrune(catalog, days, now).Ok?
      ensures exists due :: Lists(catalog, days, now, a, b, due) && IdsOf(PlanPrune(catalog, days, now).value, due)
    {
      PlanOfPlannable(catalog, days, now, a, b);
    }
  }

  /** Exactly the entries that are due, each once and oldest first. */
  ghost predicate Lists(catalog: seq<Entry>, days: int, now: int, a: Entry, b: Entry, due: seq<Entry>) {
    && (forall e :: e in due <==> e in catalog && Due(e, days, now, a, b))
    && (forall i, j :: 0 <= i < j < |due| ==> Before(due[i], due[j]))
  }

  ghost predicate IdsOf(plan: seq<string>, due: seq<Entry>) {
    |plan| == |due| && forall i :: 0 <= i < |plan| ==> due[i].runId == Some(plan[i])
  }

  lemma PlanOfPlannable(catalog: seq<Entry>, days: int, now: int, a: Entry, b: Entry)
    requires Plannable(catalog, days, now, a, b)
    ensures PlanPrune(catalog, days, now).Ok?
    ensures exists due :: Lists(catalog, days, now, a, b, due) && IdsOf(PlanPrune(catalog, days, now).value, due)
  {
    var points := ValidPoints(catalog);
    PlanWhen(catalog, days, now);
    EntriesOkIff(catalog, days);
    ValidPointsMembers(catalog);
    NewestAreLast(catalog, a, b);
    var doomed := Doomed(ProtectedIds(points).value, now - days * SECONDS_PER_DAY);
    var due := Filter(doomed, points);
    FilterMembers(doomed, points);
    IdsAt(due);
    ValidPointsIncreasing(catalog);
    IncreasingFilter(doomed, points);
    forall i, j | 0 <= i < j < |due| ensures Before(due[i], due[j]) {
      assert due[i] in due && due[j] in due;
      BeforeIff(due[i], due[j]);
    }
    assert Lists(catalog, days, now, a, b, due);
    assert IdsOf(PlanPrune(catalog, days, now).value, due);
  }

  // ----- when pruning is re-entrant -----

  /** A valid restore point of the catalog that is neither protected nor young enough to stay. */
  ghost predicate Expendable(catalog: seq<Entry>, days: int, now: int, e: Entry) {
    && e in catalog && e.complete && e.valid
    && |ValidPoints(catalog)| >= 2 && ProtectedIds(ValidPoints(catalog)).Some?
    && Id(e) !in ProtectedIds(ValidPoints(catalog)).value
    && e.cutoff.Some? && e.cutoff.value < now - days * SECONDS_PER_DAY
  }

  lemma {:induction false} IdsAt(points: seq<Entry>)
    ensures |Ids(points)| == |points| && forall i :: 0 <= i < |points| ==> Ids(points)[i] == Id(points[i])
    decreases |points|
  {
    if points != [] { IdsAt(points[1..]); }
  }

  /** Among entries of distinct orders, ids at different places differ exactly when different
      entries have different ids. */
  lemma DistinctIdsIff(points: seq<Entry>)
    requires Increasing(points)
    ensures DistinctIds(Ids(points)) <==> forall a, b :: a in points && b in points && a != b ==> Id(a) != Id(b)
  {
    IdsAt(points);
    if DistinctIds(Ids(points)) {
      forall a, b | a in points && b in points && a != b ensures Id(a) != Id(b) {
        var i :| 0 <= i < |points| && points[i] == a;
        var j :| 0 <= j < |points| && points[j] == b;
        assert Ids(points)[i] != Ids(points)[j];
      }
    }
  }

  /** Pruning is re-entrant exactly when no two expendable restore points of the catalog carry one
      run id: then, and only then, planning again after any number of the planned deletions
      returns the rest of the plan. */
  lemma ReentrantIff(catalog: seq<Entry>, days: int, now: int)
    requires PlanPrune(catalog, days, now).Ok?
    ensures
      var plan := PlanPrune(catalog, days, now).value;
      (forall k :: 0 <= k <= |plan| ==> PlanPrune(Without(catalog, plan[..k]), days, now) == Ok(plan[k..]))
      <==> forall a, b :: Expendable(catalog, days, now, a) && Expendable(catalog, days, now, b) && a != b ==>
             Id(a) != Id(b)
  {
    var points := ValidPoints(catalog);
    RefusalIff(catalog, days);
    PlanWhen(catalog, days, now);
    PruneIsReentrant(catalog, days, now);
    var doomed := Doomed(ProtectedIds(points).value, now - days * SECONDS_PER_DAY);
    var planned := Filter(doomed, points);
    ValidPointsIncreasing(catalog);
    IncreasingFilter(doomed, points);
    DistinctIdsIff(planned);
    FilterMembers(doomed, points);
    ValidPointsMembers(catalog);
    forall e ensures e in planned <==> Expendable(catalog, days, now, e) {
      assert e in planned <==> e in points && doomed(e);
    }
  }

  // ----- duplicate run ids -----

  function Group(run: string, order: int, time: int): Entry {
    Entry(Some(run), true, true, Whole(order), Some(1), Some(time))
  }

  /** Two groups with one run id, then two newer ones, all old. */
  function Twice(run: string, newer: string, newest: string): seq<Entry> {
    [Group(run, 1, 0), Group(run, 2, 0), Group(newer, 3, 0), Group(newest, 4, 0)]
  }

  lemma {:induction false} SortOfIncreasing(s: seq<Entry>)
    requires Increasing(s)
    ensures Sort(s) == s
    decreases |s|
  {
    if s != [] {
      SortOfIncreasing(s[1..]);
      assert s == [s[0]] + s[1..];
    }
  }

  lemma PointsOfValid(s: seq<Entry>)
    requires Increasing(s) && forall e :: e in s ==> e.complete && e.valid
    ensures CompletePoints(s) == s && ValidPoints(s) == s
  {
    SortOfIncreasing(s);
    FilterAll(IsComplete, s);
    FilterAll(IsValid, s);
  }

  lemma FourPoints(a: Entry, b: Entry, c: Entry, d: Entry)
    requires Increasing([a, b, c, d]) && forall e :: e in [a, b, c, d] ==> e.complete && e.valid
    requires a.order.Whole? && a.order.n >= 1 && forall e :: e in [b, c, d] ==> e.order.Whole? && e.order.n >= 1
    requires SameWindow([a, b, c, d], 1) && c.runId.Some? && d.runId.Some?
    ensures Acceptable([a, b, c, d], 1) && ValidPoints([a, b, c, d]) == [a, b, c, d]
    ensures ProtectedIds([a, b, c, d]) == Some({c.runId.value, d.runId.value})
  {
    var s := [a, b, c, d];
    PointsOfValid(s);
    assert s[0] == a && forall i :: 1 <= i < 4 ==> s[i] in [b, c, d];
    forall i, j | 0 <= i < j < |s| ensures s[i].order != s[j].order {
      assert SortKey(s[i]) < SortKey(s[j]);
    }
  }

  lemma TwicePlanned(spared: set<string>, cutoff: int, a: Entry, b: Entry, c: Entry, d: Entry)
    requires Doomed(spared, cutoff)(a) && Doomed(spared, cutoff)(b)
    requires Id(c) in spared && Id(d) in spared
    ensures Ids(Filter(Doomed(spared, cutoff), [a, b, c, d])) == [Id(a), Id(b)]
  {
    var doomed := Doomed(spared, cutoff);
    assert [a, b, c, d] == [a, b] + [c, d];
    FilterConcat(doomed, [a, b], [c, d]);
    FilterAll(doomed, [a, b]);
    FilterNone(doomed, [c, d]);
    var none: seq<Entry> := [];
    assert [a, b] + none == [a, b] && [a, b][1..] == [b] && [b][1..] == none;
    assert Ids([b]) == [Id(b)];
  }

  lemma NothingAfterTwins(catalog: seq<Entry>, days: int, now: int, run: string)
    requires PlanPrune(catalog, days, now) == Ok([run, run])
    ensures PlanPrune(Without(catalog, [run]), days, now) == Ok([])
  {
    ReplanAfterDeleting(catalog, days, now, [run]);
    FilterNone(NotIn([run]), [run, run]);
  }

  lemma TwinsArePlanned(catalog: seq<Entry>, run: string, newer: string, newest: string, now: int)
    requires ValidRunId(run) && ValidRunId(newer) && ValidRunId(newest)
    requires run != newer && run != newest && now > SECONDS_PER_DAY
    requires catalog == Twice(run, newer, newest)
    ensures PlanPrune(catalog, 1, now) == Ok([run, run])
  {
    var a, b, c, d := Group(run, 1, 0), Group(run, 2, 0), Group(newer, 3, 0), Group(newest, 4, 0);
    FourPoints(a, b, c, d);
    TwicePlanned({newer, newest}, now - SECONDS_PER_DAY, a, b, c, d);
    PlanOfPoints(catalog, 1, now, {newer, newest});
  }

  /** The planner accepts a catalog that lists a run id twice, and then pruning is not
      re-entrant: after the first planned deletion both entries are gone and nothing is left
      to plan, although the first plan still held one more deletion. */
  lemma DuplicateRunIdsArePlannedTwice(run: string, newer: string, newest: string, now: int)
    requires ValidRunId(run) && ValidRunId(newer) && ValidRunId(newest)
    requires run != newer && run != newest && now > SECONDS_PER_DAY
    ensures PlanPrune(Twice(run, newer, newest), 1, now) == Ok([run, run])
    ensures PlanPrune(Without(Twice(run, newer, newest), [run]), 1, now) == Ok([])
  {
    var catalog := Twice(run, newer, newest);
    TwinsArePlanned(catalog, run, newer, newest, now);
    NothingAfterTwins(catalog, 1, now, run);
  }

  lemma PlanOfPoints(catalog: seq<Entry>, days: int, now: int, spared: set<string>)
    requires Acceptable(catalog, days) && now - days * SECONDS_PER_DAY >= MIN_TIME
    requires ValidPoints(catalog) == catalog && ProtectedIds(catalog) == Some(spared)
    requires forall e :: e in catalog ==> Decidable(e, spared)
    ensures PlanPrune(catalog, days, now) == Ok(Ids(Filter(Doomed(spared, now - days * SECONDS_PER_DAY), catalog)))
  {
    PlanWhen(catalog, days, now);
  }

  // ----- carrying a plan out -----

  /** The destination client. `answers` say how the next deletions end; a deletion that is
      reported as failed may have happened. */
  datatype Answer = Deleted | FailedBefore | FailedAfter

  class Destination {
    var catalog: seq<Entry>
    var answers: seq<Answer>

    constructor (catalog: seq<Entry>, answers: seq<Answer>)
      ensures this.catalog == catalog && this.answers == answers
    {
      this.catalog, this.answers := catalog, answers;
    }

    method DeleteGroup(run: string) returns (ok: bool)
      modifies this
      ensures ok ==> catalog == Without(old(catalog), [run])
      ensures !ok ==> catalog == old(catalog) || catalog == Without(old(catalog), [run])
      ensures old(answers) == [] ==> ok && answers == []
    {
      var answer := if answers == [] then Deleted else answers[0];
      answers := if answers == [] then [] else answers[1..];
      if !answer.FailedBefore? { catalog := Without(catalog, [run]); }
      ok := answer.Deleted?;
    }
  }

  lemma WithoutPrefix(catalog: seq<Entry>, plan: seq<string>, n: nat)
    requires n < |plan|
    ensures Without(Without(catalog, plan[..n]), [plan[n]]) == Without(catalog, plan[..n + 1])
  {
    WithoutTwice(catalog, plan[..n], [plan[n]]);
    assert plan[..n] + [plan[n]] == plan[..n + 1];
  }

  /** Plan and delete. Whatever fails, exactly a prefix of the plan is gone; success means all
      of it, and a refused plan deletes nothing. Starting again at the same time plans exactly
      what is left whenever no run id was planned twice. */
  method CommandPrune(remote: Destination, days: int, now: int) returns (ok: bool, ghost gone: nat)
    modifies remote
    ensures PlanPrune(old(remote.catalog), days, now).Err? ==> !ok && remote.catalog == old(remote.catalog)
    ensures PlanPrune(old(remote.catalog), days, now).Ok? ==>
              var plan := PlanPrune(old(remote.catalog), days, now).value;
              && gone <= |plan|
              && remote.catalog == Without(old(remote.catalog), plan[..gone])
              && (ok ==> gone == |plan|)
              && (old(remote.answers) == [] ==> ok)
              && (DistinctIds(plan) ==> PlanPrune(remote.catalog, days, now) == Ok(plan[gone..]))
  {
    gone := 0;
    var verdict := Plan(remote.catalog, days, now);
    if verdict.Err? { return false, 0; }
    var plan := verdict.value;
    ghost var before := remote.catalog;
    PruneIsReentrant(before, days, now);
    FilterAll(KeepUnless(plan[..0]), before);
    for i := 0 to |plan|
      invariant gone == i
      invariant remote.catalog == Without(before, plan[..i])
      invariant old(remote.answers) == [] ==> remote.answers == []
    {
      var deleted := remote.DeleteGroup(plan[i]);
      WithoutPrefix(before, plan, i);
      if !deleted {
        gone := if remote.catalog == Without(before, plan[..i]) then i else i + 1;
        return false, gone;
      }
      gone := i + 1;
    }
    return true, gone;
  }
}
