/** Printing a path and parsing it again. */
module RouterTheorems {
  import opened Foundations
  import opened Percent
  import opened Pieces
  import opened Query
  import opened RouterPaths
  import opened Router

  // ----- reading parameters back -----

  /** The filters a list path stands for: query trimmed, defaults where nothing was chosen. */
  function Normal(f: FilterInputs): Filters {
    Filters(
      Trim(Or(f.q, "")), Or(f.jobId, ALL_JOBS), Or(f.stage, ALL_STAGES),
      Or(f.ownerId, ALL_OWNERS), Or(f.minScore, ANY_SCORE))
  }

  lemma TwoNames(a: string, u: Option<string>, b: string, v: Option<string>)
    requires a != b
    ensures
      var params := With(With([], a, u), b, v);
      && Lookup(params, a) == OrNone(u) && Lookup(params, b) == OrNone(v)
      && forall c :: c != a && c != b ==> Lookup(params, c) == None
  {
    var first := With([], a, u);
    forall c
      ensures Lookup(With(first, b, v), c) == if c == b && Given(v) then v else if c == a && Given(u) then u else None
    {
      LookupWith(first, b, v, c);
      LookupWith([], a, u, c);
    }
  }

  /** The names of the list parameters, told apart by length and first letter. */
  lemma ListNames(n: string)
    ensures n == "q" ==> |n| == 1
    ensures n == "job" ==> |n| == 3
    ensures n == "stage" ==> |n| == 5 && n[0] == 's'
    ensures n == "owner" ==> |n| == 5 && n[0] == 'o'
    ensures n == "minScore" ==> |n| == 8
    ensures n == "return" ==> |n| == 6
  {
  }

  /** What each name reads after the five conditional sets. */
  lemma ListLookup(
      a: string, u: Option<string>, b: string, v: Option<string>, c: string, w: Option<string>,
      d: string, x: Option<string>, e: string, y: Option<string>, asked: string)
    ensures
      var params := With(With(With(With(With([], a, u), b, v), c, w), d, x), e, y);
      Lookup(params, asked) ==
        if asked == e && Given(y) then y else if asked == d && Given(x) then x else if asked == c && Given(w) then w
        else if asked == b && Given(v) then v else if asked == a && Given(u) then u else None
  {
    var p1 := With([], a, u);
    var p2 := With(p1, b, v);
    var p3 := With(p2, c, w);
    var p4 := With(p3, d, x);
    LookupWith(p4, e, y, asked);
    LookupWith(p3, d, x, asked);
    LookupWith(p2, c, w, asked);
    LookupWith(p1, b, v, asked);
    LookupWith([], a, u, asked);
  }

  lemma ListReads(f: FilterInputs, asked: string)
    ensures Lookup(ListParams(f), asked) ==
            if asked == "q" then OrNone(Trimmed(f.q))
            else if asked == "job" then OrNone(Chosen(f.jobId, ALL_JOBS))
            else if asked == "stage" then OrNone(Chosen(f.stage, ALL_STAGES))
            else if asked == "owner" then OrNone(Chosen(f.ownerId, ALL_OWNERS))
            else if asked == "minScore" then OrNone(Chosen(f.minScore, ANY_SCORE))
            else None
  {
    ListLookup("q", Trimmed(f.q), "job", Chosen(f.jobId, ALL_JOBS), "stage", Chosen(f.stage, ALL_STAGES),
               "owner", Chosen(f.ownerId, ALL_OWNERS), "minScore", Chosen(f.minScore, ANY_SCORE), asked);
    ListNames(asked);
  }

  lemma ChosenOr(value: Option<string>, default: string)
    ensures Or(OrNone(Chosen(value, default)), default) == Or(value, default)
  {
  }

  lemma TrimmedOr(value: Option<string>)
    ensures Trim(Or(OrNone(Trimmed(value)), "")) == Trim(Or(value, ""))
  {
    if value.Some? { assert Trim(Trim(value.value)) == Trim(value.value); }
  }

  lemma FiltersReadBack(f: FilterInputs)
    ensures ReadFilters(ListParams(f)) == Normal(f)
    ensures Lookup(ListParams(f), "return") == None
  {
    ListReads(f, "q"); ListReads(f, "job"); ListReads(f, "stage");
    ListReads(f, "owner"); ListReads(f, "minScore"); ListReads(f, "return");
    ListNames("q"); ListNames("job"); ListNames("stage");
    ListNames("owner"); ListNames("minScore"); ListNames("return");
    TrimmedOr(f.q);
    ChosenOr(f.jobId, ALL_JOBS); ChosenOr(f.stage, ALL_STAGES);
    ChosenOr(f.ownerId, ALL_OWNERS); ChosenOr(f.minScore, ANY_SCORE);
  }

  // ----- literal segments -----

  /** A literal segment: no delimiter, and no beginning of an escape or a dot. */
  predicate Word(s: string) {
    s != "" && s[0] != '.' && s[0] != '%' && forall i :: 0 <= i < |s| ==> s[i] != '/' && s[i] != '?' && s[i] != '#'
  }

  lemma WordIsPlain(s: string)
    requires Word(s)
    ensures PlainSegment(s) && !Dot(s) && !DotDot(s)
  {
    WordIsNoDot(s);
  }

  lemma WordsArePlain(segments: seq<string>)
    requires forall i :: 0 <= i < |segments| ==> Word(segments[i])
    ensures PlainSegments(segments) && NoDots(segments)
  {
    forall i | 0 <= i < |segments| ensures PlainSegment(segments[i]) && !Dot(segments[i]) && !DotDot(segments[i]) {
      WordIsPlain(segments[i]);
    }
  }

  lemma ListWords()
    ensures Word("candidates") && Word("offers")
  {
  }

  lemma TaskWords()
    ensures Word("screening") && Word("tasks")
  {
  }

  lemma LiteralSegments()
    ensures PlainSegment("candidates") && PlainSegment("offers") && PlainSegment("screening") && PlainSegment("tasks")
    ensures NoDots(["candidates"]) && NoDots(["offers"]) && NoDots(["screening", "tasks"])
  {
    ListWords();
    TaskWords();
    WordIsPlain("candidates"); WordIsPlain("offers"); WordIsPlain("screening"); WordIsPlain("tasks");
  }

  lemma Areas()
    ensures AreaOf("candidates") == CandidateArea && AreaOf("offers") == OfferArea
    ensures AreaOf("screening") == ScreeningArea
  {
    assert "candidates"[0] == 'c' && "interviews"[0] == 'i' && "screening"[1] == 'c' && "workbench"[0] == 'w';
    assert "offers"[0] == 'o' && "talent"[0] == 't';
  }

  // ----- printed paths, parsed -----

  lemma ParseSegments(area: string, rest: seq<string>, params: Params, location: Location)
    requires SegmentsOf(location) == [""] + ([area] + rest) && ParseQuery(location.search) == params
    ensures Parse(location) == Attach(SafeReturn(Lookup(params, "return")), AreaRoute(AreaOf(area), rest, params))
  {
    var segments := [""] + ([area] + rest);
    assert segments[1] == area && segments[2..] == rest;
  }

  /** A printed path is parsed by its area and the rest of its segments. */
  lemma PrintedParses(area: string, rest: seq<string>, params: Params)
    requires PlainSegments([area] + rest) && NoDots([area] + rest) && ([area] + rest)[|rest|] != ""
    ensures Parse(Locate(PathText([area] + rest, params)))
            == Attach(SafeReturn(Lookup(params, "return")), AreaRoute(AreaOf(area), rest, params))
  {
    PathReadsBack([area] + rest, params);
    ParseSegments(area, rest, params, Locate(PathText([area] + rest, params)));
  }

  /** With a last segment that is empty or a dot, it is parsed as if that one were not there. */
  lemma PrintedParsesShorter(area: string, rest: seq<string>, last: string, params: Params)
    requires PlainSegments([area] + rest) && NoDots([area] + rest) && ([area] + rest)[|rest|] != ""
    requires last == "" || (Dot(last) && PlainSegment(last))
    ensures Parse(Locate(PathText([area] + rest + [last], params)))
            == Attach(SafeReturn(Lookup(params, "return")), AreaRoute(AreaOf(area), rest, params))
  {
    EmptyLastIsLost([area] + rest, last, params);
    ParseSegments(area, rest, params, Locate(PathText([area] + rest + [last], params)));
  }

  /** A printed path leads to the route its segments stand for. */
  lemma PrintedRoute(area: string, rest: seq<string>, params: Params, route: Route)
    requires PlainSegments([area] + rest) && NoDots([area] + rest) && ([area] + rest)[|rest|] != ""
    requires AreaRoute(AreaOf(area), rest, params) == Some(route)
    ensures Parse(Locate(PathText([area] + rest, params))) == Some(Parsed(SafeReturn(Lookup(params, "return")), route))
  {
    PrintedParses(area, rest, params);
  }

  lemma ShorterRoute(area: string, rest: seq<string>, last: string, params: Params, route: Route)
    requires PlainSegments([area] + rest) && NoDots([area] + rest) && ([area] + rest)[|rest|] != ""
    requires last == "" || (Dot(last) && PlainSegment(last))
    requires AreaRoute(AreaOf(area), rest, params) == Some(route)
    ensures Parse(Locate(PathText([area] + rest + [last], params)))
            == Some(Parsed(SafeReturn(Lookup(params, "return")), route))
  {
    PrintedParsesShorter(area, rest, last, params);
  }

  lemma RootIsUnknown(location: Location, params: Params)
    requires SegmentsOf(location) == ["", ""] && ParseQuery(location.search) == params
    ensures Parse(location) == Some(Parsed(SafeReturn(Lookup(params, "return")), Unknown))
  {
  }

  /** Two dots below an area lead out of the application's pages. */
  lemma ParentOfArea(area: string, last: string, params: Params)
    requires PlainSegment(area) && NoDots([area]) && DotDot(last) && PlainSegment(last)
    ensures Parse(Locate(PathText([area, last], params))) == Some(Parsed(SafeReturn(Lookup(params, "return")), Unknown))
  {
    ParentIsLeft([], [area], last, [area, last], params);
    assert [""] + [""] == ["", ""];
    RootIsUnknown(Locate(PathText([area, last], params)), params);
  }

  // ----- candidates: the list -----

  /** The list path parses to exactly the normalised filters. */
  lemma ListRoundTrip(f: FilterInputs)
    ensures Parse(Locate(CandidateListPath(f))) == Some(Parsed(None, CandidateList(Normal(f))))
  {
    var params := ListParams(f);
    LiteralSegments();
    assert ["candidates"] + [] == ["candidates"];
    ListRoute(params);
    FiltersReadBack(f);
    PrintedRoute("candidates", [], params, CandidateList(Normal(f)));
  }

  lemma ListRoute(params: Params)
    ensures AreaRoute(AreaOf("candidates"), [], params) == Some(CandidateList(ReadFilters(params)))
  {
    Areas();
  }

  function AsInputs(f: Filters): FilterInputs {
    FilterInputs(Some(f.q), Some(f.jobId), Some(f.stage), Some(f.ownerId), Some(f.minScore))
  }

  /** For every location that parses to a candidate list, printing its filters and parsing again
      gives the same filters: one round of printing and parsing is a fixed point. */
  lemma ListFixedPoint(location: Location, filters: Filters, returnTo: Option<string>)
    requires Parse(location) == Some(Parsed(returnTo, CandidateList(filters)))
    ensures Parse(Locate(CandidateListPath(AsInputs(filters)))) == Some(Parsed(None, CandidateList(filters)))
  {
    ListRoundTrip(AsInputs(filters));
    ListFilters(location, filters, returnTo);
    ReadIsNormal(ParseQuery(location.search));
  }

  lemma SettingsIsNoList(rest: seq<string>)
    ensures !SettingsRoute(rest).CandidateList?
  {
  }

  lemma OnlyCandidatesList(area: Area, rest: seq<string>, params: Params, filters: Filters)
    requires AreaRoute(area, rest, params) == Some(CandidateList(filters))
    ensures filters == ReadFilters(params)
  {
    if area.SettingsArea? { SettingsIsNoList(rest); }
  }

  lemma ListSegments(segments: seq<string>, params: Params, filters: Filters)
    requires RouteOf(segments, params) == Some(CandidateList(filters))
    ensures filters == ReadFilters(params)
  {
    OnlyCandidatesList(AreaOf(segments[1]), segments[2..], params, filters);
  }

  lemma ListFilters(location: Location, filters: Filters, returnTo: Option<string>)
    requires Parse(location) == Some(Parsed(returnTo, CandidateList(filters)))
    ensures filters == ReadFilters(ParseQuery(location.search))
  {
    ListSegments(SegmentsOf(location), ParseQuery(location.search), filters);
  }

  lemma ReadIsNormal(params: Params)
    ensures Normal(AsInputs(ReadFilters(params))) == ReadFilters(params)
  {
    var f := ReadFilters(params);
    assert Trim(Trim(Or(Lookup(params, "q"), ""))) == Trim(Or(Lookup(params, "q"), ""));
  }

  /** An id that a URL keeps as a path segment of its own. */
  predicate SegmentId(id: string) {
    id != "" && id != "." && id != ".."
  }

  // ----- one candidate -----

  lemma DetailReads(c: CandidateInputs, tab: Option<Tab>, returnTo: Option<string>)
    ensures
      var params := DetailParams(c, tab, returnTo);
      && Lookup(params, "tab") == ListedSlug(tab)
      && Lookup(params, "approval") == OrNone(c.approval)
      && Lookup(params, "return") == OrNone(SafeReturn(returnTo))
  {
    ListLookup("tab", ListedSlug(tab), "application", c.application, "job", c.job, "approval", c.approval,
               "return", SafeReturn(returnTo), "tab");
    ListLookup("tab", ListedSlug(tab), "application", c.application, "job", c.job, "approval", c.approval,
               "return", SafeReturn(returnTo), "approval");
    ListLookup("tab", ListedSlug(tab), "application", c.application, "job", c.job, "approval", c.approval,
               "return", SafeReturn(returnTo), "return");
    assert "tab"[0] == 't' && "job"[0] == 'j';
    SlugGiven(tab);
  }

  lemma SlugGiven(tab: Option<Tab>)
    ensures OrNone(ListedSlug(tab)) == ListedSlug(tab)
  {
  }

  function TabOrFirst(tab: Option<Tab>): Tab {
    if tab.Some? then tab.value else Profile
  }

  lemma SlugReads(tab: Option<Tab>)
    ensures TabOf(ListedSlug(tab)) == TabOrFirst(tab)
  {
    if tab.Some? {
      var slug := TabSlug(tab.value);
      assert slug[0] == slug[0];
    }
  }

  lemma SafeReturnTwice(returnTo: Option<string>)
    ensures SafeReturn(OrNone(SafeReturn(returnTo))) == SafeReturn(returnTo)
  {
  }

  lemma DetailRoute(id: string, params: Params)
    requires id != ""
    ensures AreaRoute(AreaOf("candidates"), [EncodeComponent(id)], params)
            == Some(CandidateDetail(id, TabOf(Lookup(params, "tab")), OrNone(Lookup(params, "approval"))))
  {
    Areas();
    EncodedIsPlain(id);
    ComponentRoundTrip(id);
  }

  /** The detail path parses back to the id, the tab (the first one for an unknown label), the
      approval and the safe return path. */
  lemma DetailReadsBack(c: CandidateInputs, tab: Option<Tab>, returnTo: Option<string>)
    requires SegmentId(IdText(c))
    ensures Parse(Locate(CandidateDetailPath(c, tab, returnTo)))
            == Some(Parsed(SafeReturn(returnTo), CandidateDetail(IdText(c), TabOrFirst(tab), OrNone(c.approval))))
  {
    var params := DetailParams(c, tab, returnTo);
    var segment := EncodeComponent(IdText(c));
    LiteralSegments();
    EncodedIsPlain(IdText(c));
    assert ["candidates"] + [segment] == ["candidates", segment];
    DetailRoute(IdText(c), params);
    DetailReads(c, tab, returnTo);
    SlugReads(tab);
    SafeReturnTwice(returnTo);
    PrintedRoute("candidates", [segment], params, CandidateDetail(IdText(c), TabOrFirst(tab), OrNone(c.approval)));
  }

  /** An empty id text, or a dot, leads to the list instead. */
  lemma EmptyIdIsTheList(c: CandidateInputs, tab: Option<Tab>, returnTo: Option<string>)
    requires IdText(c) == "" || IdText(c) == "."
    ensures Parse(Locate(CandidateDetailPath(c, tab, returnTo)))
            == Some(Parsed(SafeReturn(returnTo), CandidateList(ReadFilters(DetailParams(c, tab, returnTo)))))
  {
    var params := DetailParams(c, tab, returnTo);
    LiteralSegments();
    EncodedIsPlain(IdText(c));
    assert ["candidates"] + [] == ["candidates"];
    assert ["candidates"] + [] + [EncodeComponent(IdText(c))] == ["candidates", EncodeComponent(IdText(c))];
    ListRoute(params);
    DetailReads(c, tab, returnTo);
    SafeReturnTwice(returnTo);
    ShorterRoute("candidates", [], EncodeComponent(IdText(c)), params, CandidateList(ReadFilters(params)));
  }

  /** Two dots lead to no page. */
  lemma ParentIdIsUnknown(c: CandidateInputs, tab: Option<Tab>, returnTo: Option<string>)
    requires IdText(c) == ".."
    ensures Parse(Locate(CandidateDetailPath(c, tab, returnTo))) == Some(Parsed(SafeReturn(returnTo), Unknown))
  {
    LiteralSegments();
    EncodedIsPlain("..");
    DetailReads(c, tab, returnTo);
    SafeReturnTwice(returnTo);
    ParentOfArea("candidates", EncodeComponent(".."), DetailParams(c, tab, returnTo));
  }

  /** Exactly the candidates whose id text is a segment of its own are found again. */
  lemma DetailRoundTripIff(c: CandidateInputs, tab: Option<Tab>, returnTo: Option<string>)
    ensures Parse(Locate(CandidateDetailPath(c, tab, returnTo)))
            == Some(Parsed(SafeReturn(returnTo), CandidateDetail(IdText(c), TabOrFirst(tab), OrNone(c.approval))))
            <==> SegmentId(IdText(c))
  {
    if SegmentId(IdText(c)) {
      DetailReadsBack(c, tab, returnTo);
    } else if IdText(c) == ".." {
      ParentIdIsUnknown(c, tab, returnTo);
    } else {
      EmptyIdIsTheList(c, tab, returnTo);
    }
  }

  // ----- one offer -----

  lemma OfferReads(approval: Option<string>, returnTo: Option<string>)
    ensures
      var params := OfferParams(approval, returnTo);
      Lookup(params, "approval") == OrNone(approval) && Lookup(params, "return") == OrNone(SafeReturn(returnTo))
  {
    TwoNames("approval", approval, "return", SafeReturn(returnTo));
  }

  lemma OfferRoute(id: string, params: Params)
    requires id != ""
    ensures AreaRoute(AreaOf("offers"), [EncodeComponent(id)], params)
            == Some(OfferDetail(id, OrNone(Lookup(params, "approval"))))
    ensures AreaRoute(AreaOf("offers"), [], params) == Some(Unknown)
  {
    Areas();
    EncodedIsPlain(id);
    ComponentRoundTrip(id);
  }

  lemma OfferReadsBack(offerId: string, approval: Option<string>, returnTo: Option<string>)
    requires SegmentId(offerId)
    ensures Parse(Locate(OfferDetailPath(offerId, approval, returnTo)))
            == Some(Parsed(SafeReturn(returnTo), OfferDetail(offerId, OrNone(approval))))
  {
    var params := OfferParams(approval, returnTo);
    var segment := EncodeComponent(offerId);
    LiteralSegments();
    EncodedIsPlain(offerId);
    assert ["offers"] + [segment] == ["offers", segment];
    OfferRoute(offerId, params);
    OfferReads(approval, returnTo);
    SafeReturnTwice(returnTo);
    PrintedRoute("offers", [segment], params, OfferDetail(offerId, OrNone(approval)));
  }

  lemma OtherOfferIsUnknown(offerId: string, approval: Option<string>, returnTo: Option<string>)
    requires !SegmentId(offerId)
    ensures Parse(Locate(OfferDetailPath(offerId, approval, returnTo))) == Some(Parsed(SafeReturn(returnTo), Unknown))
  {
    var params := OfferParams(approval, returnTo);
    var segment := EncodeComponent(offerId);
    LiteralSegments();
    EncodedIsPlain(offerId);
    OfferReads(approval, returnTo);
    SafeReturnTwice(returnTo);
    if offerId == ".." {
      ParentOfArea("offers", segment, params);
    } else {
      assert ["offers"] + [] == ["offers"];
      assert ["offers"] + [] + [segment] == ["offers", segment];
      OfferRoute("x", params);
      ShorterRoute("offers", [], segment, params, Unknown);
    }
  }

  /** The offer path parses back to the offer, its approval and the safe return path, for
      exactly the offers whose id is a segment of its own. */
  lemma OfferRoundTripIff(offerId: string, approval: Option<string>, returnTo: Option<string>)
    ensures Parse(Locate(OfferDetailPath(offerId, approval, returnTo)))
            == Some(Parsed(SafeReturn(returnTo), OfferDetail(offerId, OrNone(approval))))
            <==> SegmentId(offerId)
  {
    if SegmentId(offerId) {
      OfferReadsBack(offerId, approval, returnTo);
    } else {
      OtherOfferIsUnknown(offerId, approval, returnTo);
    }
  }

  // ----- one screening task -----

  lemma TaskReads(query: Option<string>, status: TaskStatus)
    ensures
      var params := TaskParams(query, status);
      && Lookup(params, "q") == OrNone(Trimmed(query)) && StatusOf(Lookup(params, "status")) == status
      && Lookup(params, "return") == None
  {
    TwoNames("q", Trimmed(query), "status", StatusSlug(status));
    assert "return"[0] != "status"[0] && |"q"| == 1;
    StatusReads(status);
  }

  lemma StatusReads(status: TaskStatus)
    ensures StatusOf(OrNone(StatusSlug(status))) == status
  {
    var slug := StatusSlug(status);
    assert slug.Some? ==> slug.value[0] == slug.value[0] && slug.value[1] == slug.value[1];
  }

  lemma TaskRoute(id: string, params: Params)
    requires id != ""
    ensures AreaRoute(AreaOf("screening"), ["tasks", EncodeComponent(id)], params)
            == Some(ScreeningTask(id, Trim(Or(Lookup(params, "q"), "")), StatusOf(Lookup(params, "status"))))
  {
    Areas();
    EncodedIsPlain(id);
    ComponentRoundTrip(id);
  }

  lemma TaskListRoute(params: Params)
    ensures AreaRoute(AreaOf("screening"), ["tasks"], params) == Some(ScreeningList)
  {
    Areas();
  }

  lemma TaskReadsBack(id: string, query: Option<string>, status: TaskStatus)
    requires SegmentId(id)
    ensures Parse(Locate(ScreeningTaskPath(id, query, status)))
            == Some(Parsed(None, ScreeningTask(id, Trim(Or(query, "")), status)))
  {
    var params := TaskParams(query, status);
    var segment := EncodeComponent(id);
    LiteralSegments();
    EncodedIsPlain(id);
    assert ["screening"] + ["tasks", segment] == ["screening", "tasks", segment];
    TaskRoute(id, params);
    TaskReads(query, status);
    TrimmedOr(query);
    PrintedRoute("screening", ["tasks", segment], params, ScreeningTask(id, Trim(Or(query, "")), status));
  }

  lemma ShortTaskPath(segment: string, params: Params)
    requires segment == "" || (Dot(segment) && PlainSegment(segment))
    ensures Parse(Locate(PathText(["screening", "tasks", segment], params)))
            == Some(Parsed(SafeReturn(Lookup(params, "return")), ScreeningList))
  {
    LiteralSegments();
    TaskListRoute(params);
    assert ["screening"] + ["tasks"] == ["screening", "tasks"];
    assert ["screening"] + ["tasks"] + [segment] == ["screening", "tasks", segment];
    ShorterRoute("screening", ["tasks"], segment, params, ScreeningList);
  }

  lemma EmptyTaskIsTheList(id: string, query: Option<string>, status: TaskStatus)
    requires id == "" || id == "."
    ensures Parse(Locate(ScreeningTaskPath(id, query, status))) == Some(Parsed(None, ScreeningList))
  {
    EncodedIsPlain(id);
    TaskReads(query, status);
    ShortTaskPath(EncodeComponent(id), TaskParams(query, status));
  }

  lemma NoTaskArea(location: Location, params: Params)
    requires SegmentsOf(location) == ["", "screening"] && ParseQuery(location.search) == params
    ensures Parse(location) == Some(Parsed(SafeReturn(Lookup(params, "return")), Unknown))
  {
    Areas();
    assert ["", "screening"] == [""] + (["screening"] + []);
    ParseSegments("screening", [], params, location);
  }

  lemma ParentTaskIsUnknown(query: Option<string>, status: TaskStatus)
    ensures Parse(Locate(ScreeningTaskPath("..", query, status))) == Some(Parsed(None, Unknown))
  {
    var params := TaskParams(query, status);
    var segment := EncodeComponent("..");
    LiteralSegments();
    EncodedIsPlain("..");
    TaskReads(query, status);
    ParentOfTwo("screening", "tasks", segment, params);
    NoTaskArea(Locate(PathText(["screening", "tasks", segment], params)), params);
  }

  lemma ParentOfTwo(area: string, up: string, last: string, params: Params)
    requires PlainSegment(area) && PlainSegment(up) && NoDots([area, up]) && area != ""
    requires DotDot(last) && PlainSegment(last)
    ensures SegmentsOf(Locate(PathText([area, up, last], params))) == ["", area]
    ensures ParseQuery(Locate(PathText([area, up, last], params)).search) == params
  {
    ParentIsLeft([area], [area, up], last, [area, up, last], params);
    assert [""] + [area] == ["", area];
  }

  /** The task path parses back to the task, the trimmed query and the status, for exactly the
      tasks whose id is a segment of its own; an empty id or a dot leads to the task list. */
  lemma TaskRoundTripIff(id: string, query: Option<string>, status: TaskStatus)
    ensures Parse(Locate(ScreeningTaskPath(id, query, status)))
            == Some(Parsed(None, ScreeningTask(id, Trim(Or(query, "")), status)))
            <==> SegmentId(id)
    ensures id == "" || id == "." ==>
      Parse(Locate(ScreeningTaskPath(id, query, status))) == Some(Parsed(None, ScreeningList))
  {
    if SegmentId(id) {
      TaskReadsBack(id, query, status);
    } else if id == ".." {
      ParentTaskIsUnknown(query, status);
    } else {
      EmptyTaskIsTheList(id, query, status);
    }
  }

  // ----- settings and navigation -----

  lemma SectionIsPlain(section: Section)
    ensures
      var segments := SectionSegments(section);
      && segments != [] && segments[0] == "settings" && segments[|segments| - 1] != ""
      && forall i :: 0 <= i < |segments| ==> Word(segments[i])
  {
    assert Word("settings");
    match section {
      case Members => assert Word("organization") && Word("members");
      case Departments => assert Word("organization") && Word("departments");
      case Workflows => assert Word("templates") && Word("workflows");
      case RejectionReasons => assert Word("templates") && Word("rejection-reasons");
      case Scorecards => assert Word("templates") && Word("interview-scorecards");
      case Ai => assert Word("ai");
      case Feishu => assert Word("feishu");
      case OfferSettings => assert Word("offers");
      case Governance => assert Word("governance");
    }
  }

  /** Two lists of segments differ if their lengths or one of their segments differ. */
  lemma SectionReads(section: Section)
    ensures SettingsRoute(SectionSegments(section)[1..]) == Settings(section)
  {
    var rest := SectionSegments(section)[1..];
    match section {
      case Members => assert rest == ["organization", "members"];
      case Departments => assert rest == ["organization", "departments"] && |rest[1]| == 11;
      case Workflows => assert rest == ["templates", "workflows"] && |rest[0]| == 9;
      case RejectionReasons => assert rest == ["templates", "rejection-reasons"] && |rest[0]| == 9 && |rest[1]| == 17;
      case Scorecards => assert rest == ["templates", "interview-scorecards"] && |rest[0]| == 9 && |rest[1]| == 20;
      case Ai => assert rest == ["ai"];
      case Feishu => assert rest == ["feishu"] && |rest[0]| == 6;
      case OfferSettings => assert rest == ["offers"] && rest[0][0] == 'o';
      case Governance => assert rest == ["governance"] && |rest[0]| == 10;
    }
  }

  lemma SettingsIsItsArea()
    ensures AreaOf("settings") == SettingsArea
  {
    assert "settings"[0] == 's' && |"settings"| == 8;
  }

  /** A settings path parses back to the section its labels mean, and to the return path only
      if that is safe, although the printer does not check it. */
  lemma SettingsRoundTrip(section: SectionLabel, tab: TabLabel, returnTo: Option<string>)
    ensures Parse(Locate(SettingsPath(section, tab, returnTo)))
            == Some(Parsed(SafeReturn(OrNone(returnTo)), Settings(SectionFor(section, tab))))
  {
    var target := SectionFor(section, tab);
    var segments := SectionSegments(target);
    var params := With([], "return", returnTo);
    LookupWith([], "return", returnTo, "return");
    SectionIsPlain(target);
    WordsArePlain(segments);
    SectionPath(target, segments, params);
  }

  lemma SectionPath(section: Section, segments: seq<string>, params: Params)
    requires segments == SectionSegments(section) && PlainSegments(segments) && NoDots(segments)
    requires segments != [] && segments[0] == "settings" && segments[|segments| - 1] != ""
    ensures Parse(Locate(PathText(segments, params)))
            == Some(Parsed(SafeReturn(Lookup(params, "return")), Settings(section)))
  {
    var rest := segments[1..];
    SectionRoute(section, rest, params);
    assert segments == ["settings"] + rest;
    PrintedRoute("settings", rest, params, Settings(section));
  }

  lemma SectionRoute(section: Section, rest: seq<string>, params: Params)
    requires rest == SectionSegments(section)[1..]
    ensures AreaRoute(AreaOf("settings"), rest, params) == Some(Settings(section))
  {
    SettingsIsItsArea();
    SectionReads(section);
  }

  lemma NavIsPlain(nav: Nav)
    ensures
      var segments := NavSegments(nav);
      && segments != [] && segments[|segments| - 1] != ""
      && forall i :: 0 <= i < |segments| ==> Word(segments[i])
  {
    match nav {
      case Workbench_ => assert Word("workbench");
      case Jobs_ => assert Word("jobs");
      case Screening_ => assert Word("screening") && Word("tasks");
      case Candidates_ => assert Word("candidates");
      case Interviews_ => assert Word("interviews");
      case Talent_ => assert Word("talent");
      case Reports_ => assert Word("reports");
      case Settings_ => SectionIsPlain(Members);
    }
  }

  lemma NavRoute(nav: Nav)
    ensures
      var segments := NavSegments(nav);
      var route := AreaRoute(AreaOf(segments[0]), segments[1..], []);
      route.Some? && NavOf(route.value) == Some(nav)
  {
    match nav {
      case Workbench_ => assert "workbench"[0] == 'w';
      case Jobs_ => assert "jobs"[0] == 'j';
      case Screening_ => Areas(); assert ["screening", "tasks"][1..] == ["tasks"];
      case Candidates_ => Areas();
      case Interviews_ => assert "interviews"[0] == 'i' && "candidates"[0] == 'c';
      case Talent_ => assert "talent"[0] == 't' && "offers"[0] == 'o';
      case Reports_ => assert |"reports"| == 7;
      case Settings_ => SettingsIsItsArea(); SectionReads(Members);
    }
  }

  /** Every navigation entry leads to a page of that entry. */
  lemma NavRoundTrip(nav: Nav)
    ensures
      var parsed := Parse(Locate(NavPath(nav)));
      parsed.Some? && parsed.value.returnTo == None && NavOf(parsed.value.route) == Some(nav)
  {
    var segments := NavSegments(nav);
    NavIsPlain(nav);
    WordsArePlain(segments);
    assert segments == [segments[0]] + segments[1..];
    PrintedParses(segments[0], segments[1..], []);
    NavRoute(nav);
  }
}
