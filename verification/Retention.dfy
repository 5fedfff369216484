/** The fail-closed retention planner and the loop that carries its plan out. */
module Retention {
  import opened Foundations

  /** The `complete_order` of a catalog entry as the planner sees it. */
  datatype Order =
    | Absent              // no such field: sorts as 0, is no integer
    | Whole(n: int)       // an integer
    | Castable(n: int)    // something int() accepts but that is no integer
    | Unusable            // anything else: int() raises

  /** One catalog entry. `cutoff` is the parsed cutoff time, None when it is missing or malformed. */
  datatype Entry = Entry(
    runId: Option<string>,
    complete: bool,
    valid: bool,
    order: Order,
    window: Option<int>,
    cutoff: Option<int>)

  datatype Refusal =
    | BadPolicy | EmptyCatalog | BadOrders | Unsortable | NoComplete | LatestInvalid
    | WindowMismatch | TooFewValid | BadRunId | BadCutoff | DateOverflow

  const SECONDS_PER_DAY := 86400

  /** The earliest representable UTC time, in seconds since 1970. */
  const MIN_TIME: int := -62135596800

  // ----- stable sorting and filtering -----

  function SortKey(e: Entry): int {
    match e.order
    case Whole(n) => n
    case Castable(n) => n
    case _ => 0
  }

  function Insert(e: Entry, s: seq<Entry>): seq<Entry> {
    if s == [] || SortKey(e) <= SortKey(s[0]) then [e] + s else [s[0]] + Insert(e, s[1..])
  }

  /** sorted(catalog, key=SortKey): entries with equal keys keep their order. */
  function Sort(s: seq<Entry>): seq<Entry> {
    if s == [] then [] else Insert(s[0], Sort(s[1..]))
  }

  function Filter<T>(keep: T -> bool, s: seq<T>): seq<T> {
    if s == [] then [] else if keep(s[0]) then [s[0]] + Filter(keep, s[1..]) else Filter(keep, s[1..])
  }

  lemma {:induction false} FilterMembers<T(!new)>(keep: T -> bool, s: seq<T>)
    ensures forall x :: x in Filter(keep, s) <==> x in s && keep(x)
    decreases |s|
  {
    if s != [] {
      FilterMembers(keep, s[1..]);
      assert s == [s[0]] + s[1..];
    }
  }

  ghost predicate Sorted(s: seq<Entry>) {
    forall i, j :: 0 <= i < j < |s| ==> SortKey(s[i]) <= SortKey(s[j])
  }

  lemma {:induction false} InsertSorted(e: Entry, s: seq<Entry>)
    requires Sorted(s)
    ensures Sorted(Insert(e, s))
    ensures forall x :: x in Insert(e, s) <==> x == e || x in s
    ensures |Insert(e, s)| == |s| + 1
    decreases |s|
  {
    if s != [] && SortKey(e) > SortKey(s[0]) {
      InsertSorted(e, s[1..]);
      var t := Insert(e, s[1..]);
      assert s == [s[0]] + s[1..];
      forall j | 0 <= j < |t| ensures SortKey(s[0]) <= SortKey(t[j]) {
        assert t[j] in t;
        if t[j] != e { assert t[j] in s[1..]; }
      }
    }
  }

  lemma {:induction false} SortSorted(s: seq<Entry>)
    ensures Sorted(Sort(s))
    ensures forall x :: x in Sort(s) <==> x in s
    ensures |Sort(s)| == |s|
    decreases |s|
  {
    if s != [] {
      SortSorted(s[1..]);
      InsertSorted(s[0], Sort(s[1..]));
      assert s == [s[0]] + s[1..];
    }
  }

  lemma {:induction false} FilterInsert(keep: Entry -> bool, e: Entry, s: seq<Entry>)
    requires Sorted(s)
    ensures Filter(keep, Insert(e, s)) == if keep(e) then Insert(e, Filter(keep, s)) else Filter(keep, s)
    decreases |s|
  {
    if s == [] || SortKey(e) <= SortKey(s[0]) {
      assert ([e] + s)[1..] == s;
      var kept := Filter(keep, s);
      FilterMembers(keep, s);
      if kept != [] {
        assert kept[0] in s;
        var i :| 0 <= i < |s| && s[i] == kept[0];
        assert i == 0 || SortKey(s[0]) <= SortKey(s[i]);
      }
    } else {
      var t := Insert(e, s[1..]);
      assert ([s[0]] + t)[1..] == t;
      FilterInsert(keep, e, s[1..]);
      if keep(s[0]) {
        var kept := Filter(keep, s[1..]);
        assert Filter(keep, s) == [s[0]] + kept;
        assert ([s[0]] + kept)[1..] == kept;
      } else if keep(e) {
        assert Filter(keep, s) == Filter(keep, s[1..]);
      }
    }
  }

  /** Filtering a sorted catalog and sorting a filtered one give the same list. */
  lemma {:induction false} FilterSort(keep: Entry -> bool, s: seq<Entry>)
    ensures Filter(keep, Sort(s)) == Sort(Filter(keep, s))
    decreases |s|
  {
    if s != [] {
      FilterSort(keep, s[1..]);
      SortSorted(s[1..]);
      FilterInsert(keep, s[0], Sort(s[1..]));
      var kept := Filter(keep, s[1..]);
      assert ([s[0]] + kept)[0] == s[0] && ([s[0]] + kept)[1..] == kept;
    }
  }

  lemma {:induction false} FilterFilter<T>(a: T -> bool, b: T -> bool, s: seq<T>)
    ensures Filter(a, Filter(b, s)) == Filter(b, Filter(a, s))
    decreases |s|
  {
    if s != [] {
      FilterFilter(a, b, s[1..]);
      var x, y := Filter(b, s[1..]), Filter(a, s[1..]);
      assert ([s[0]] + x)[1..] == x && ([s[0]] + y)[1..] == y;
    }
  }

  lemma {:induction false} FilterConcat<T>(keep: T -> bool, a: seq<T>, b: seq<T>)
    ensures Filter(keep, a + b) == Filter(keep, a) + Filter(keep, b)
    decreases |a|
  {
    if a == [] {
      assert a + b == b;
    } else {
      assert (a + b)[1..] == a[1..] + b;
      FilterConcat(keep, a[1..], b);
    }
  }

  lemma {:induction false} FilterAll<T>(keep: T -> bool, s: seq<T>)
    requires forall x :: x in s ==> keep(x)
    ensures Filter(keep, s) == s
    decreases |s|
  {
    if s != [] {
      assert s[0] in s;
      FilterAll(keep, s[1..]);
    }
  }

  lemma {:induction false} FilterNone<T>(keep: T -> bool, s: seq<T>)
    requires forall x :: x in s ==> !keep(x)
    ensures Filter(keep, s) == []
    decreases |s|
  {
    if s != [] {
      assert s[0] in s;
      FilterNone(keep, s[1..]);
    }
  }

  // ----- the planner -----

  function IsComplete(e: Entry): bool { e.complete }

  function IsValid(e: Entry): bool { e.valid }

  /** The COMPLETE entries, oldest first. */
  function CompletePoints(catalog: seq<Entry>): seq<Entry> {
    Filter(IsComplete, Sort(catalog))
  }

  /** The valid COMPLETE entries, oldest first. */
  function ValidPoints(catalog: seq<Entry>): seq<Entry> {
    Filter(IsValid, CompletePoints(catalog))
  }

  predicate OrdersOk(catalog: seq<Entry>) {
    && (forall e :: e in catalog && e.complete ==> e.order.Whole? && e.order.n >= 1)
    && (forall i, j :: 0 <= i < j < |catalog| && catalog[i].complete && catalog[j].complete ==>
          catalog[i].order != catalog[j].order)
  }

  predicate Sortable(catalog: seq<Entry>) {
    forall e :: e in catalog ==> !e.order.Unusable?
  }

  /** Every entry was made under this retention policy. */
  predicate SameWindow(s: seq<Entry>, days: int) {
    forall e :: e in s ==> e.window == Some(days)
  }

  /** max(complete, key=order): the first of the entries with the greatest order. */
  function Newest(s: seq<Entry>): Entry
    requires s != []
  {
    if |s| == 1 then s[0]
    else var rest := Newest(s[1..]); if SortKey(rest) > SortKey(s[0]) then rest else s[0]
  }

  function Id(e: Entry): string {
    if e.runId.Some? then e.runId.value else ""
  }

  /** The ids of the two newest valid entries; None when one has none. */
  function ProtectedIds(points: seq<Entry>): Option<set<string>>
    requires |points| >= 2
  {
    var a, b := points[|points| - 2], points[|points| - 1];
    if a.runId.Some? && b.runId.Some? then Some({a.runId.value, b.runId.value}) else None
  }

  /** What the loop does with one valid entry: Some(true) means delete. */
  function Decide(e: Entry, spared: set<string>, cutoff: int): Result<bool, Refusal> {
    if !ValidRunId(Id(e)) then Err(BadRunId)
    else if Id(e) in spared then Ok(false)
    else if e.cutoff.None? then Err(BadCutoff)
    else Ok(e.cutoff.value < cutoff)
  }

  function Prepend(ids: seq<string>, rest: Result<seq<string>, Refusal>): Result<seq<string>, Refusal> {
    match rest
    case Ok(more) => Ok(ids + more)
    case Err(e) => Err(e)
  }

  function Deletions(points: seq<Entry>, spared: set<string>, cutoff: int): Result<seq<string>, Refusal> {
    if points == [] then Ok([])
    else match Decide(points[0], spared, cutoff)
      case Err(e) => Err(e)
      case Ok(delete) => Prepend(if delete then [Id(points[0])] else [], Deletions(points[1..], spared, cutoff))
  }

  /** Everything that is checked before the loop, in the order it is checked. */
  function FirstRefusal(catalog: seq<Entry>, days: int): Option<Refusal> {
    if days <= 0 then Some(BadPolicy) else
    if catalog == [] then Some(EmptyCatalog) else
    if !OrdersOk(catalog) then Some(BadOrders) else
    if !Sortable(catalog) then Some(Unsortable) else
    var complete := CompletePoints(catalog);
    if complete == [] then Some(NoComplete) else
    if !Newest(complete).valid then Some(LatestInvalid) else
    if !SameWindow(complete, days) then Some(WindowMismatch) else
    if |ValidPoints(catalog)| < 2 then Some(TooFewValid) else
    if ProtectedIds(ValidPoints(catalog)).None? then Some(BadRunId) else
    None
  }

  function PlanPrune(catalog: seq<Entry>, days: int, now: int): Result<seq<string>, Refusal> {
    var refusal := FirstRefusal(catalog, days);
    var cutoff := now - days * SECONDS_PER_DAY;
    if refusal.Some? then Err(refusal.value)
    else if cutoff < MIN_TIME then Err(DateOverflow)
    else Deletions(ValidPoints(catalog), ProtectedIds(ValidPoints(catalog)).value, cutoff)
  }

  /** The loop of the planner: walk the valid entries, collect deletions, stop at the first error. */
  method CollectDeletions(
        points: seq<Entry>, spared: set<string>, cutoff: int)
    returns (plan: Result<seq<string>, Refusal>)
    ensures plan == Deletions(points, spared, cutoff)
  {
    var deletions: seq<string> := [];
    ghost var all := Deletions(points, spared, cutoff);
    assert points[0..] == points;
    assert all == Prepend(deletions, all) by { if all.Ok? { assert [] + all.value == all.value; } }
    for i := 0 to |points|
      invariant all == Prepend(deletions, Deletions(points[i..], spared, cutoff))
    {
      var verdict := Decide(points[i], spared, cutoff);
      ghost var rest := Deletions(points[i + 1..], spared, cutoff);
      assert points[i..][1..] == points[i + 1..];
      if verdict.Err? { return Err(verdict.error); }
      var more := if verdict.value then [Id(points[i])] else [];
      assert rest.Ok? ==> deletions + (more + rest.value) == deletions + more + rest.value;
      deletions := deletions + more;
    }
    assert points[|points|..] == [] && deletions + [] == deletions;
    return Ok(deletions);
  }

  /** The planner as it runs: sort, check, then walk the valid entries. */
  method Plan(catalog: seq<Entry>, days: int, now: int) returns (plan: Result<seq<string>, Refusal>)
    ensures plan == PlanPrune(catalog, days, now)
  {
    if days <= 0 { return Err(BadPolicy); }
    if catalog == [] { return Err(EmptyCatalog); }
    if !OrdersOk(catalog) { return Err(BadOrders); }
    if !Sortable(catalog) { return Err(Unsortable); }
    var ordered := Sort(catalog);
    var complete := Filter(IsComplete, ordered);
    if complete == [] { return Err(NoComplete); }
    if !Newest(complete).valid { return Err(LatestInvalid); }
    if !SameWindow(complete, days) { return Err(WindowMismatch); }
    var points := Filter(IsValid, complete);
    if |points| < 2 { return Err(TooFewValid); }
    if ProtectedIds(points).None? { return Err(BadRunId); }
    var cutoff := now - days * SECONDS_PER_DAY;
    if cutoff < MIN_TIME { return Err(DateOverflow); }
    plan := CollectDeletions(points, ProtectedIds(points).value, cutoff);
  }
}
