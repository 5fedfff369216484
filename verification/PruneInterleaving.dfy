/** Publishing while pruning: new groups appear and planned groups disappear in any order. */
module PruneInterleaving {
  import opened Foundations
  import opened Retention
  import opened RetentionTheorems

  /** The run ids of these entries are pairwise distinct. */
  predicate DistinctRuns(points: seq<Entry>) {
    forall i, j :: 0 <= i < j < |points| ==> Id(points[i]) != Id(points[j])
  }

  // ----- a plan without the spared ids -----

  lemma {:induction false} DeletionsConcat(a: seq<Entry>, b: seq<Entry>, spared: set<string>, cutoff: int)
    requires Deletions(b, spared, cutoff).Ok?
    ensures Deletions(a + b, spared, cutoff) ==
            match Deletions(a, spared, cutoff)
            case Ok(ids) => Ok(ids + Deletions(b, spared, cutoff).value)
            case Err(e) => Err(e)
    decreases |a|
  {
    if a == [] {
      assert a + b == b;
      assert [] + Deletions(b, spared, cutoff).value == Deletions(b, spared, cutoff).value;
    } else {
      assert (a + b)[0] == a[0] && (a + b)[1..] == a[1..] + b;
      DeletionsConcat(a[1..], b, spared, cutoff);
      var rest := Deletions(a[1..], spared, cutoff);
      if Decide(a[0], spared, cutoff).Ok? && rest.Ok? {
        var more := if Decide(a[0], spared, cutoff).value then [Id(a[0])] else [];
        var last := Deletions(b, spared, cutoff).value;
        assert more + (rest.value + last) == more + rest.value + last;
      }
    }
  }

  lemma {:induction false} NothingSpared(points: seq<Entry>, spared: set<string>, cutoff: int)
    requires forall e :: e in points ==> Id(e) !in spared
    ensures Deletions(points, spared, cutoff) == Deletions(points, {}, cutoff)
    decreases |points|
  {
    if points != [] {
      assert points[0] in points;
      NothingSpared(points[1..], spared, cutoff);
    }
  }

  lemma {:induction false} AllSpared(points: seq<Entry>, spared: set<string>, cutoff: int)
    requires forall e :: e in points ==> Id(e) in spared && ValidRunId(Id(e))
    ensures Deletions(points, spared, cutoff) == Ok([])
    decreases |points|
  {
    if points != [] {
      assert points[0] in points;
      AllSpared(points[1..], spared, cutoff);
      var none: seq<string> := [];
      assert none + none == none;
    }
  }

  /** With distinct run ids the plan is what is expired among all but the two newest. */
  lemma PlanIsOldExpired(points: seq<Entry>, cutoff: int)
    requires |points| >= 2 && DistinctRuns(points) && ProtectedIds(points).Some?
    requires ValidRunId(Id(points[|points| - 2])) && ValidRunId(Id(points[|points| - 1]))
    ensures Deletions(points, ProtectedIds(points).value, cutoff) == Deletions(points[..|points| - 2], {}, cutoff)
  {
    var n := |points| - 2;
    var spared := ProtectedIds(points).value;
    var front, newest := points[..n], [points[n], points[n + 1]];
    assert points == front + newest;
    AllSpared(newest, spared, cutoff);
    DeletionsConcat(front, newest, spared, cutoff);
    forall e | e in front ensures Id(e) !in spared {
      var i :| 0 <= i < n && front[i] == e;
      assert Id(points[i]) != Id(points[n]) && Id(points[i]) != Id(points[n + 1]);
    }
    NothingSpared(front, spared, cutoff);
    var plan := Deletions(front, {}, cutoff);
    if plan.Ok? { assert plan.value + [] == plan.value; }
  }

  /** On an acceptable catalog with distinct run ids, planning only looks at the older entries. */
  lemma PlanFromOlder(catalog: seq<Entry>, days: int, now: int)
    requires Acceptable(catalog, days) && DistinctRuns(ValidPoints(catalog))
    requires now - days * SECONDS_PER_DAY >= MIN_TIME
    requires
      var points := ValidPoints(catalog);
      ValidRunId(Id(points[|points| - 2])) && ValidRunId(Id(points[|points| - 1]))
    ensures PlanPrune(catalog, days, now) == Deletions(Older(catalog), {}, now - days * SECONDS_PER_DAY)
  {
    PlanIsDeletions(catalog, days, now);
    PlanIsOldExpired(ValidPoints(catalog), now - days * SECONDS_PER_DAY);
  }

  /** All valid entries but the two newest. */
  function Older(catalog: seq<Entry>): seq<Entry> {
    var points := ValidPoints(catalog);
    if |points| < 2 then [] else points[..|points| - 2]
  }

  lemma PlannedNewestValid(catalog: seq<Entry>, days: int, now: int)
    requires PlanPrune(catalog, days, now).Ok?
    ensures Acceptable(catalog, days) && now - days * SECONDS_PER_DAY >= MIN_TIME
    ensures
      var points := ValidPoints(catalog);
      ValidRunId(Id(points[|points| - 2])) && ValidRunId(Id(points[|points| - 1]))
  {
    var points := ValidPoints(catalog);
    RefusalIff(catalog, days);
    PlannedIdsValid(points, ProtectedIds(points).value, now - days * SECONDS_PER_DAY);
    assert points[|points| - 2] in points && points[|points| - 1] in points;
  }

  lemma {:induction false} DeletionsDistinct(points: seq<Entry>, cutoff: int)
    requires DistinctRuns(points) && Deletions(points, {}, cutoff).Ok?
    ensures DistinctIds(Deletions(points, {}, cutoff).value)
    decreases |points|
  {
    if points != [] {
      assert DistinctRuns(points[1..]) by {
        assert forall i :: 0 <= i < |points[1..]| ==> points[1..][i] == points[i + 1];
      }
      DeletionsDistinct(points[1..], cutoff);
      DeletionsSpare(points[1..], {}, cutoff);
      var rest := Deletions(points[1..], {}, cutoff).value;
      forall j | 0 <= j < |rest| ensures rest[j] != Id(points[0]) {
        assert rest[j] in rest;
        var e :| e in points[1..] && Id(e) == rest[j];
        var i :| 0 <= i < |points[1..]| && points[1..][i] == e;
        assert points[i + 1] == e;
      }
    }
  }

  lemma {:induction false} PlannedIdsValid(points: seq<Entry>, spared: set<string>, cutoff: int)
    requires Deletions(points, spared, cutoff).Ok?
    ensures forall e :: e in points ==> ValidRunId(Id(e))
    decreases |points|
  {
    if points != [] {
      PlannedIdsValid(points[1..], spared, cutoff);
      assert points == [points[0]] + points[1..];
    }
  }

  // ----- publishing one more group -----

  lemma {:induction false} InsertAppend(x: Entry, s: seq<Entry>, e: Entry)
    requires SortKey(x) < SortKey(e)
    ensures Insert(x, s + [e]) == Insert(x, s) + [e]
    decreases |s|
  {
    if s == [] {
      assert [] + [e] == [e];
      assert [e][1..] == [];
    } else {
      assert (s + [e])[0] == s[0] && (s + [e])[1..] == s[1..] + [e];
      InsertAppend(x, s[1..], e);
      assert [x] + (s + [e]) == [x] + s + [e];
      assert [s[0]] + (Insert(x, s[1..]) + [e]) == [s[0]] + Insert(x, s[1..]) + [e];
    }
  }

  lemma {:induction false} SortAppend(s: seq<Entry>, e: Entry)
    requires forall x :: x in s ==> SortKey(x) < SortKey(e)
    ensures Sort(s + [e]) == Sort(s) + [e]
    decreases |s|
  {
    if s == [] {
      assert [] + [e] == [e] && [e][1..] == [];
      assert Sort([]) == [];
    } else {
      assert (s + [e])[0] == s[0] && (s + [e])[1..] == s[1..] + [e];
      assert s[0] in s;
      SortAppend(s[1..], e);
      InsertAppend(s[0], Sort(s[1..]), e);
    }
  }

  /** A group that has just been published: valid, newest of all, with a run id of its own. */
  predicate Fresh(catalog: seq<Entry>, days: int, e: Entry) {
    && e.complete && e.valid && e.window == Some(days) && e.cutoff.Some?
    && e.runId.Some? && ValidRunId(e.runId.value)
    && e.order.Whole? && e.order.n >= 1
    && forall x :: x in catalog ==> SortKey(x) < e.order.n && Id(x) != Id(e)
  }

  lemma PointsAppend(catalog: seq<Entry>, days: int, e: Entry)
    requires Fresh(catalog, days, e)
    ensures CompletePoints(catalog + [e]) == CompletePoints(catalog) + [e]
    ensures ValidPoints(catalog + [e]) == ValidPoints(catalog) + [e]
  {
    SortAppend(catalog, e);
    FilterConcat(IsComplete, Sort(catalog), [e]);
    FilterAll(IsComplete, [e]);
    FilterConcat(IsValid, CompletePoints(catalog), [e]);
    FilterAll(IsValid, [e]);
  }

  lemma AcceptableAppend(catalog: seq<Entry>, days: int, e: Entry)
    requires Acceptable(catalog, days) && Fresh(catalog, days, e)
    ensures Acceptable(catalog + [e], days)
  {
    PointsAppend(catalog, days, e);
    var more := catalog + [e];
    forall i, j | 0 <= i < j < |more| && more[i].complete && more[j].complete ensures more[i].order != more[j].order {
      if j == |catalog| { assert more[i] in catalog; }
    }
  }

  lemma DistinctAppend(catalog: seq<Entry>, days: int, e: Entry)
    requires Fresh(catalog, days, e) && DistinctRuns(ValidPoints(catalog))
    ensures DistinctRuns(ValidPoints(catalog + [e]))
  {
    PointsAppend(catalog, days, e);
    ValidPointsMembers(catalog);
    var points := ValidPoints(catalog);
    forall i | 0 <= i < |points| ensures Id(points[i]) != Id(e) { assert points[i] in points; }
  }

  /** A catalog with one more fresh group is acceptable again. */
  lemma AfterPublish(catalog: seq<Entry>, days: int, e: Entry, more: seq<Entry>)
    requires Acceptable(catalog, days) && DistinctRuns(ValidPoints(catalog)) && Fresh(catalog, days, e)
    requires more == catalog + [e]
    ensures Acceptable(more, days) && DistinctRuns(ValidPoints(more))
    ensures ValidPoints(more) == ValidPoints(catalog) + [e]
  {
    AcceptableAppend(catalog, days, e);
    DistinctAppend(catalog, days, e);
    PointsAppend(catalog, days, e);
  }

  /** The plan for valid points that end in these two. */
  lemma PlanFromFront(catalog: seq<Entry>, days: int, now: int, front: seq<Entry>, a: Entry, b: Entry)
    requires Acceptable(catalog, days) && DistinctRuns(ValidPoints(catalog))
    requires now - days * SECONDS_PER_DAY >= MIN_TIME
    requires ValidPoints(catalog) == front + [a, b] && ValidRunId(Id(a)) && ValidRunId(Id(b))
    ensures PlanPrune(catalog, days, now) == Deletions(front, {}, now - days * SECONDS_PER_DAY)
  {
    PlanFromOlder(catalog, days, now);
    assert Older(catalog) == front;
  }

  /** The two newest valid points of a plannable catalog, and the older ones. */
  lemma PlannedPoints(catalog: seq<Entry>, days: int, now: int) returns (front: seq<Entry>, a: Entry, b: Entry)
    requires PlanPrune(catalog, days, now).Ok? && DistinctRuns(ValidPoints(catalog))
    ensures Acceptable(catalog, days) && now - days * SECONDS_PER_DAY >= MIN_TIME
    ensures ValidPoints(catalog) == front + [a, b] && ValidRunId(Id(a)) && ValidRunId(Id(b))
    ensures PlanPrune(catalog, days, now) == Deletions(front, {}, now - days * SECONDS_PER_DAY)
  {
    PlannedNewestValid(catalog, days, now);
    var points := ValidPoints(catalog);
    front, a, b := points[..|points| - 2], points[|points| - 2], points[|points| - 1];
    PlanFromFront(catalog, days, now, front, a, b);
  }

  /** A plan with one more entry considered after all the others. */
  function Extend(plan: Result<seq<string>, Refusal>, e: Entry, cutoff: int): Result<seq<string>, Refusal> {
    match plan
    case Err(refusal) => Err(refusal)
    case Ok(ids) =>
      if e.cutoff.None? then Err(BadCutoff)
      else Ok(ids + if e.cutoff.value < cutoff then [Id(e)] else [])
  }

  /** Publishing a group only extends the plan, at its end, by the group that stops being one
      of the two newest, if that one has expired. It makes planning fail only when that group
      has no readable cutoff. */
  lemma PublishExtendsPlan(catalog: seq<Entry>, days: int, now: int, e: Entry, more: seq<Entry>)
    returns (displaced: Entry)
    requires PlanPrune(catalog, days, now).Ok? && DistinctRuns(ValidPoints(catalog)) && Fresh(catalog, days, e)
    requires more == catalog + [e]
    ensures ValidPoints(more) == ValidPoints(catalog) + [e] && DistinctRuns(ValidPoints(more))
    ensures var points := ValidPoints(catalog); |points| >= 2 && displaced == points[|points| - 2]
    ensures PlanPrune(more, days, now) == Extend(PlanPrune(catalog, days, now), displaced, now - days * SECONDS_PER_DAY)
  {
    var front, a, b := PlannedPoints(catalog, days, now);
    displaced := a;
    AfterPublish(catalog, days, e, more);
    assert front + [a, b] + [e] == front + [a] + [b, e];
    PlanFromFront(more, days, now, front + [a], b, e);
    DeletionsSnoc(front, a, now - days * SECONDS_PER_DAY);
  }

  lemma DeletionsSnoc(front: seq<Entry>, e: Entry, cutoff: int)
    requires Deletions(front, {}, cutoff).Ok? && ValidRunId(Id(e))
    ensures Deletions(front + [e], {}, cutoff) == Extend(Deletions(front, {}, cutoff), e, cutoff)
  {
    assert [e][1..] == [];
    if e.cutoff.Some? {
      DeletionsConcat(front, [e], {}, cutoff);
      var last := if e.cutoff.value < cutoff then [Id(e)] else [];
      assert Deletions([e], {}, cutoff) == Ok(last) by { assert last + [] == last; }
    } else {
      DeletionsStop(front, e, cutoff);
    }
  }

  lemma {:induction false} DeletionsStop(front: seq<Entry>, e: Entry, cutoff: int)
    requires Deletions(front, {}, cutoff).Ok? && ValidRunId(Id(e)) && e.cutoff.None?
    ensures Deletions(front + [e], {}, cutoff) == Err(BadCutoff)
    decreases |front|
  {
    if front == [] {
      assert front + [e] == [e];
    } else {
      assert (front + [e])[0] == front[0] && (front + [e])[1..] == front[1..] + [e];
      DeletionsStop(front[1..], e, cutoff);
    }
  }

  // ----- any interleaving -----

  /** `history` holds every group there ever was; `gone` and `pending` split the plan being carried out. */
  datatype State = State(catalog: seq<Entry>, history: seq<Entry>, gone: seq<string>, pending: seq<string>)

  datatype Event = Publish(e: Entry) | DeleteNext

  /** An event that is not possible changes nothing. */
  function Next(days: int, s: State, event: Event): State {
    match event
    case Publish(e) =>
      if Fresh(s.history, days, e) then s.(catalog := s.catalog + [e], history := s.history + [e]) else s
    case DeleteNext =>
      if s.pending == [] then s
      else s.(catalog := Without(s.catalog, [s.pending[0]]), gone := s.gone + [s.pending[0]], pending := s.pending[1..])
  }

  function Run(days: int, s: State, events: seq<Event>): State
    decreases |events|
  {
    if events == [] then s else Run(days, Next(days, s, events[0]), events[1..])
  }

  ghost predicate NewestDated(points: seq<Entry>) {
    |points| >= 2 && points[|points| - 2].cutoff.Some? && points[|points| - 1].cutoff.Some?
  }

  ghost predicate Inv(days: int, now: int, plan: seq<string>, s: State) {
    && s.catalog == Without(s.history, s.gone)
    && plan == s.gone + s.pending
    && PlanPrune(s.history, days, now).Ok?
    && plan <= PlanPrune(s.history, days, now).value
    && DistinctRuns(ValidPoints(s.history))
    && NewestDated(ValidPoints(s.history))
  }

  /** A plan names valid groups of the catalog, and neither of the two newest. */
  lemma PlanSparesNewest(catalog: seq<Entry>, days: int, now: int)
    requires PlanPrune(catalog, days, now).Ok?
    ensures |ValidPoints(catalog)| >= 2 && LatestIsValid(catalog)
    ensures
      var points := ValidPoints(catalog);
      forall id :: id in PlanPrune(catalog, days, now).value ==>
        && id != Id(points[|points| - 2]) && id != Id(points[|points| - 1])
        && exists e :: e in catalog && Id(e) == id
  {
    var points := ValidPoints(catalog);
    RefusalIff(catalog, days);
    DeletionsSpare(points, ProtectedIds(points).value, now - days * SECONDS_PER_DAY);
    ValidPointsMembers(catalog);
  }

  lemma GoneIsPlanned(days: int, now: int, plan: seq<string>, s: State)
    requires Inv(days, now, plan, s)
    ensures forall id :: id in s.gone ==> id in PlanPrune(s.history, days, now).value
  {
    assert forall id :: id in s.gone ==> id in plan;
  }

  lemma FreshIsNotGone(days: int, now: int, plan: seq<string>, s: State, e: Entry)
    requires Inv(days, now, plan, s) && Fresh(s.history, days, e)
    ensures Id(e) !in s.gone
  {
    GoneIsPlanned(days, now, plan, s);
    PlanSparesNewest(s.history, days, now);
  }

  lemma PublishKeepsInv(days: int, now: int, plan: seq<string>, s: State, e: Entry)
    requires Inv(days, now, plan, s) && Fresh(s.history, days, e)
    ensures Inv(days, now, plan, Next(days, s, Publish(e)))
  {
    var more := s.history + [e];
    var displaced := PublishExtendsPlan(s.history, days, now, e, more);
    assert Without(more, s.gone) == Without(s.history, s.gone) + [e] by {
      FilterConcat(KeepUnless(s.gone), s.history, [e]);
      FreshIsNotGone(days, now, plan, s, e);
      FilterAll(KeepUnless(s.gone), [e]);
    }
  }

  lemma DeleteKeepsInv(days: int, now: int, plan: seq<string>, s: State)
    requires Inv(days, now, plan, s)
    ensures Inv(days, now, plan, Next(days, s, DeleteNext))
  {
    if s.pending != [] {
      WithoutTwice(s.history, s.gone, [s.pending[0]]);
      assert s.gone + [s.pending[0]] + s.pending[1..] == s.gone + s.pending;
    }
  }

  lemma {:induction false} RunKeepsInv(days: int, now: int, plan: seq<string>, s: State, events: seq<Event>)
    requires Inv(days, now, plan, s)
    ensures Inv(days, now, plan, Run(days, s, events))
    decreases |events|
  {
    if events != [] {
      match events[0] {
        case Publish(e) => if Fresh(s.history, days, e) { PublishKeepsInv(days, now, plan, s, e); }
        case DeleteNext => DeleteKeepsInv(days, now, plan, s);
      }
      RunKeepsInv(days, now, plan, Next(days, s, events[0]), events[1..]);
    }
  }

  /** The two newest valid groups and the newest COMPLETE one of all that were ever published
      are still in the catalog. */
  ghost predicate NewestSurvive(s: State) {
    var ever, points := ValidPoints(s.history), ValidPoints(s.catalog);
    && |ever| >= 2 && |points| >= 2
    && points[|points| - 2] == ever[|ever| - 2] && points[|points| - 1] == ever[|ever| - 1]
    && CompletePoints(s.history) != [] && CompletePoints(s.catalog) != []
    && CompletePoints(s.catalog)[|CompletePoints(s.catalog)| - 1]
       == CompletePoints(s.history)[|CompletePoints(s.history)| - 1]
  }

  /** No planned id belongs to one of the two newest of these points; all are ids of the history. */
  ghost predicate Spared(plan: seq<string>, points: seq<Entry>, history: seq<Entry>) {
    |points| >= 2 && forall id :: id in plan ==>
      && id != Id(points[|points| - 2]) && id != Id(points[|points| - 1])
      && exists e :: e in history && Id(e) == id
  }

  /** What keeps the newest groups safe, whether planning again would succeed or not. */
  ghost predicate Spares(plan: seq<string>, s: State) {
    && s.catalog == Without(s.history, s.gone) && plan == s.gone + s.pending
    && LatestIsValid(s.history) && Spared(plan, ValidPoints(s.history), s.history)
  }

  lemma SparedAppend(plan: seq<string>, points: seq<Entry>, history: seq<Entry>, e: Entry)
    requires Spared(plan, points, history) && forall x :: x in history ==> Id(x) != Id(e)
    ensures Spared(plan, points + [e], history + [e])
  {
    forall id | id in plan ensures id != Id(e) && exists x :: x in history + [e] && Id(x) == id {
      var x :| x in history && Id(x) == id;
      assert x in history + [e];
    }
  }

  /** A group with an id that is not planned stays when planned ones go. */
  lemma NewStays(history: seq<Entry>, gone: seq<string>, e: Entry)
    requires Id(e) !in gone
    ensures Without(history + [e], gone) == Without(history, gone) + [e]
  {
    FilterConcat(KeepUnless(gone), history, [e]);
    FilterAll(KeepUnless(gone), [e]);
  }

  lemma PublishSpares(days: int, plan: seq<string>, s: State, e: Entry)
    requires Spares(plan, s) && Fresh(s.history, days, e)
    ensures Spares(plan, Next(days, s, Publish(e)))
  {
    var points := ValidPoints(s.history);
    PointsAppend(s.history, days, e);
    SparedAppend(plan, points, s.history, e);
    assert Id(e) == Id((points + [e])[|points|]);
    assert forall id :: id in s.gone ==> id in plan;
    NewStays(s.history, s.gone, e);
  }

  lemma DeleteSpares(days: int, plan: seq<string>, s: State)
    requires Spares(plan, s)
    ensures Spares(plan, Next(days, s, DeleteNext))
  {
    if s.pending != [] {
      WithoutTwice(s.history, s.gone, [s.pending[0]]);
      assert s.gone + [s.pending[0]] + s.pending[1..] == s.gone + s.pending;
    }
  }

  lemma {:induction false} RunSpares(days: int, plan: seq<string>, s: State, events: seq<Event>)
    requires Spares(plan, s)
    ensures Spares(plan, Run(days, s, events))
    decreases |events|
  {
    if events != [] {
      match events[0] {
        case Publish(e) => if Fresh(s.history, days, e) { PublishSpares(days, plan, s, e); }
        case DeleteNext => DeleteSpares(days, plan, s);
      }
      RunSpares(days, plan, Next(days, s, events[0]), events[1..]);
    }
  }

  lemma SparedSurvive(plan: seq<string>, s: State)
    requires Spares(plan, s)
    ensures NewestSurvive(s)
  {
    var ever := ValidPoints(s.history);
    assert forall id :: id in s.gone ==> id in plan;
    assert KeepUnless(s.gone)(ever[|ever| - 2]) && KeepUnless(s.gone)(ever[|ever| - 1]);
    TwoNewestSurvive(s.history, KeepUnless(s.gone));
  }

  /** Carry out a plan while new groups are published, in any order and to any point, on any catalog
      that can be planned: the newest groups survive, and exactly a part of the plan is gone. */
  lemma InterleavedPruneKeepsNewest(catalog: seq<Entry>, days: int, now: int, events: seq<Event>)
    requires PlanPrune(catalog, days, now).Ok?
    ensures
      var plan := PlanPrune(catalog, days, now).value;
      var s := Run(days, State(catalog, catalog, [], plan), events);
      NewestSurvive(s) && plan == s.gone + s.pending && s.catalog == Without(s.history, s.gone)
  {
    var plan := PlanPrune(catalog, days, now).value;
    var start := State(catalog, catalog, [], plan);
    PlanSparesNewest(catalog, days, now);
    FilterAll(KeepUnless([]), catalog);
    assert plan == [] + plan;
    RunSpares(days, plan, start, events);
    SparedSurvive(plan, Run(days, start, events));
  }

  /** Planning again after two publications succeeds, both times, exactly when the two groups that
      were the newest have a readable cutoff: until then the planner has not looked at it. */
  lemma TwoPublicationsPlanIff(
      catalog: seq<Entry>, days: int, now: int, e: Entry, f: Entry, one: seq<Entry>, two: seq<Entry>)
    requires PlanPrune(catalog, days, now).Ok? && DistinctRuns(ValidPoints(catalog))
    requires one == catalog + [e] && two == one + [f] && Fresh(catalog, days, e) && Fresh(one, days, f)
    ensures PlanPrune(one, days, now).Ok? && PlanPrune(two, days, now).Ok? <==> NewestDated(ValidPoints(catalog))
  {
    var first := PublishExtendsPlan(catalog, days, now, e, one);
    if PlanPrune(one, days, now).Ok? {
      var second := PublishExtendsPlan(one, days, now, f, two);
    }
  }

  /** Planning again meanwhile: with distinct run ids and readable cutoffs of the two newest groups it
      never fails, and a new plan is what was left of the old one followed by groups that expired
      since. */
  lemma InterleavedPruneIsSafe(
        catalog: seq<Entry>, days: int, now: int, events: seq<Event>)
    returns (since: seq<string>)
    requires PlanPrune(catalog, days, now).Ok?
    requires DistinctRuns(ValidPoints(catalog)) && NewestDated(ValidPoints(catalog))
    ensures
      var plan := PlanPrune(catalog, days, now).value;
      var s := Run(days, State(catalog, catalog, [], plan), events);
      && NewestSurvive(s)
      && plan == s.gone + s.pending
      && PlanPrune(s.history, days, now) == Ok(plan + since)
      && PlanPrune(s.catalog, days, now) == Ok(s.pending + since)
  {
    var plan := PlanPrune(catalog, days, now).value;
    var start := State(catalog, catalog, [], plan);
    FilterAll(KeepUnless([]), catalog);
    assert plan == [] + plan;
    RunKeepsInv(days, now, plan, start, events);
    InterleavedPruneKeepsNewest(catalog, days, now, events);
    since := PlansAgain(days, now, plan, Run(days, start, events));
  }

  lemma PlansAgain(days: int, now: int, plan: seq<string>, s: State) returns (since: seq<string>)
    requires Inv(days, now, plan, s)
    ensures PlanPrune(s.history, days, now) == Ok(plan + since)
    ensures PlanPrune(s.catalog, days, now) == Ok(s.pending + since)
  {
    var all := PlanPrune(s.history, days, now).value;
    since := all[|plan|..];
    assert all == plan + since && all[..|s.gone|] == s.gone && all[|s.gone|..] == s.pending + since;
    HistoryPlanDistinct(s.history, days, now);
    GoneIsPlanned(days, now, plan, s);
    ReplanAfterDeleting(s.history, days, now, s.gone);
    FilterPrefix(all, |s.gone|);
  }

  lemma HistoryPlanDistinct(history: seq<Entry>, days: int, now: int)
    requires PlanPrune(history, days, now).Ok? && DistinctRuns(ValidPoints(history))
    ensures DistinctIds(PlanPrune(history, days, now).value)
  {
    PlannedNewestValid(history, days, now);
    PlanFromOlder(history, days, now);
    DeletionsDistinct(Older(history), now - days * SECONDS_PER_DAY);
  }
}
