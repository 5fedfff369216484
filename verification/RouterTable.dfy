/** The router's table, path by path, and the parameters its printers write, name by name. */
module RouterTable {
  import opened Foundations
  import opened Percent
  import opened Pieces
  import opened Query
  import opened RouterPaths
  import opened Router

  // ----- the first segment -----

  lemma AreaNames()
    ensures AreaOf("offer") == PublicArea && AreaOf("workbench") == WorkbenchArea && AreaOf("offers") == OfferArea
    ensures AreaOf("jobs") == JobArea && AreaOf("screening") == ScreeningArea && AreaOf("candidates") == CandidateArea
    ensures AreaOf("interviews") == InterviewArea && AreaOf("talent") == TalentArea
    ensures AreaOf("reports") == ReportArea && AreaOf("settings") == SettingsArea
  {
    assert |"offer"| == 5 && |"workbench"| == 9 && |"offers"| == 6 && |"jobs"| == 4 && |"screening"| == 9
           && |"candidates"| == 10 && |"interviews"| == 10 && |"talent"| == 6 && |"reports"| == 7 && |"settings"| == 8;
    assert "workbench"[0] != "screening"[0] && "candidates"[0] != "interviews"[0] && "offers"[0] != "talent"[0];
  }

  /** Nothing else leads anywhere. */
  lemma OtherAreas(segment: string)
    ensures AreaOf(segment) != NoArea ==>
              segment in {"offer", "workbench", "offers", "jobs", "screening", "candidates", "interviews", "talent",
                          "reports", "settings"}
  {
  }

  /** A path is an empty segment, an area, and what the area makes of the rest. */
  lemma RouteByArea(segments: seq<string>, params: Params)
    ensures RouteOf(segments, params) ==
            if |segments| >= 2 && segments[0] == "" then AreaRoute(AreaOf(segments[1]), segments[2..], params)
            else Some(Unknown)
  {
  }

  // ----- the rest -----

  /** A segment that is not empty and decodes to this id. */
  ghost predicate Spells(segment: string, id: string) {
    segment != "" && DecodeComponent(segment) == Some(id)
  }

  /** Pages without an id: exactly these rests of exactly these areas. */
  lemma PlainPages(rest: seq<string>, params: Params)
    ensures AreaRoute(WorkbenchArea, rest, params) == Some(if rest == [] then Workbench else Unknown)
    ensures AreaRoute(ReportArea, rest, params) == Some(if rest == [] then Reports else Unknown)
    ensures AreaRoute(JobArea, rest, params) == Some(JobList) <==> rest == []
    ensures AreaRoute(JobArea, rest, params) == Some(JobNew) <==> rest == ["new"]
    ensures AreaRoute(ScreeningArea, rest, params) == Some(ScreeningList) <==> rest == ["tasks"]
    ensures AreaRoute(InterviewArea, rest, params) == Some(InterviewList) <==> rest == []
    ensures AreaRoute(TalentArea, rest, params) == Some(TalentList) <==> rest == []
    ensures AreaRoute(CandidateArea, rest, params) == Some(Unknown) ==> rest != []
  {
  }

  lemma NewInterview(rest: seq<string>, params: Params, candidate: Option<string>)
    ensures AreaRoute(InterviewArea, rest, params) == Some(InterviewNew(candidate)) <==>
            rest == ["new"] && candidate == OrNone(Lookup(params, "candidate"))
  {
  }

  lemma JobPages(rest: seq<string>, params: Params, id: string, edit: bool)
    ensures AreaRoute(JobArea, rest, params) == Some(JobDetail(id, edit)) <==>
            exists segment :: Spells(segment, id) && if edit then rest == [segment, "edit"]
                                                     else rest == [segment] && segment != "new"
  {
    if AreaRoute(JobArea, rest, params) == Some(JobDetail(id, edit)) { assert Spells(rest[0], id); }
  }

  lemma TaskPages(rest: seq<string>, params: Params, id: string, query: string, status: TaskStatus)
    ensures AreaRoute(ScreeningArea, rest, params) == Some(ScreeningTask(id, query, status)) <==>
            && (exists segment :: Spells(segment, id) && rest == ["tasks", segment])
            && query == RouterPaths.Trim(Or(Lookup(params, "q"), ""))
            && status == match Lookup(params, "status")
                         case None => AllStatuses
                         case Some(slug) =>
                           if slug == "processing" then Processing else if slug == "success" then Success
                           else if slug == "partial" then Partial else if slug == "failed" then FailedStatus
                           else AllStatuses
  {
    if |rest| == 2 && Spells(rest[1], id) { assert rest == [rest[0], rest[1]]; }
  }

  lemma CandidatePages(rest: seq<string>, params: Params, id: string, tab: Tab, approval: Option<string>)
    ensures AreaRoute(CandidateArea, rest, params) == Some(CandidateDetail(id, tab, approval)) <==>
            && (exists segment :: Spells(segment, id) && rest == [segment])
            && approval == OrNone(Lookup(params, "approval"))
            && tab == match Lookup(params, "tab")
                      case None => Profile
                      case Some(slug) =>
                        if slug == "applications" then Applications else if slug == "evidence" then Evidence
                        else if slug == "interviews" then Interviews else if slug == "offer" then OfferTab
                        else if slug == "timeline" then Timeline else Profile
  {
    if |rest| == 1 && Spells(rest[0], id) { assert rest == [rest[0]]; }
  }

  /** The list of candidates, with a default for every filter that is missing or empty. */
  lemma CandidateListPage(rest: seq<string>, params: Params, filters: Filters)
    ensures AreaRoute(CandidateArea, rest, params) == Some(CandidateList(filters)) <==>
            && rest == []
            && filters == Filters(
                 RouterPaths.Trim(Or(Lookup(params, "q"), "")),
                 Or(Lookup(params, "job"), "\U{5168}\U{90E8}\U{804C}\U{4F4D}"),
                 Or(Lookup(params, "stage"), "\U{5168}\U{90E8}\U{9636}\U{6BB5}"),
                 Or(Lookup(params, "owner"), "\U{5168}\U{90E8}\U{8D1F}\U{8D23}\U{4EBA}"),
                 Or(Lookup(params, "minScore"), "\U{4E0D}\U{9650}\U{5206}\U{6570}"))
  {
  }

  lemma OfferPages(rest: seq<string>, params: Params, id: string, approval: Option<string>)
    ensures AreaRoute(OfferArea, rest, params) == Some(OfferDetail(id, approval)) <==>
            && (exists segment :: Spells(segment, id) && rest == [segment])
            && approval == OrNone(Lookup(params, "approval"))
  {
    if |rest| == 1 && Spells(rest[0], id) { assert rest == [rest[0]]; }
  }

  /** A public offer; what does not decode is an invalid one instead of an error. */
  lemma PublicPages(rest: seq<string>, params: Params, token: string, invalid: bool)
    ensures AreaRoute(PublicArea, rest, params) == Some(PublicOffer(token, invalid)) <==>
            && |rest| == 1 && rest[0] != ""
            && DecodeComponent(rest[0]) == (if invalid then None else Some(token)) && (invalid ==> token == "")
    ensures AreaRoute(PublicArea, rest, params).Some?
  {
  }

  lemma InterviewPages(rest: seq<string>, params: Params, id: string, action: string)
    ensures AreaRoute(InterviewArea, rest, params) == Some(InterviewAction(id, action)) <==>
            && (exists segment :: Spells(segment, id) && rest == [segment, action])
            && (action == "reschedule" || action == "feedback")
  {
    if |rest| == 2 && Spells(rest[0], id) { assert rest == [rest[0], rest[1]]; }
  }

  lemma TalentPages(rest: seq<string>, params: Params, id: string)
    ensures AreaRoute(TalentArea, rest, params) == Some(TalentDetail(id)) <==>
            exists segment :: Spells(segment, id) && rest == [segment]
  {
    if |rest| == 1 && Spells(rest[0], id) { assert rest == [rest[0]]; }
  }

  /** The settings pages have these paths and no others. */
  lemma SettingsPages(section: Section)
    ensures SectionSegments(section)[1..] == match section
      case Members => ["organization", "members"]
      case Departments => ["organization", "departments"]
      case Workflows => ["templates", "workflows"]
      case RejectionReasons => ["templates", "rejection-reasons"]
      case Scorecards => ["templates", "interview-scorecards"]
      case Ai => ["ai"]
      case Feishu => ["feishu"]
      case OfferSettings => ["offers"]
      case Governance => ["governance"]
    ensures SectionSegments(section)[0] == "settings"
  {
  }

  lemma OtherSettings(rest: seq<string>, section: Section)
    ensures SettingsRoute(rest) == Settings(section) ==> rest == SectionSegments(section)[1..]
  {
    SettingsPages(section);
  }

  // ----- what the printers write -----

  ghost function Pair(name: string, value: Option<string>): Params {
    if value.Some? && value.value != "" then [(name, value.value)] else []
  }

  ghost predicate Has(params: Params, name: string) {
    exists i :: 0 <= i < |params| && params[i].0 == name
  }

  lemma {:induction false} SetNew(params: Params, name: string, value: string)
    requires !Has(params, name)
    ensures SetParam(params, name, value) == params + [(name, value)]
    decreases |params|
  {
    if params != [] {
      assert params[0].0 != name;
      assert forall i :: 0 <= i < |params[1..]| ==> params[1..][i] == params[i + 1];
      SetNew(params[1..], name, value);
      assert params == [params[0]] + params[1..];
    }
  }

  lemma WithNew(params: Params, name: string, value: Option<string>)
    requires !Has(params, name)
    ensures With(params, name, value) == params + Pair(name, value)
    ensures forall other :: other != name ==> (Has(With(params, name, value), other) <==> Has(params, other))
  {
    if Given(value) {
      SetNew(params, name, value.value);
      var more := params + [(name, value.value)];
      forall other | other != name ensures Has(more, other) <==> Has(params, other) {
        if i :| 0 <= i < |params| && params[i].0 == other { assert more[i] == params[i]; }
        if i :| 0 <= i < |more| && more[i].0 == other { assert i < |params| && params[i] == more[i]; }
      }
    }
  }

  ghost function Unless(value: Option<string>, default: string): Option<string> {
    if value == Some(default) then None else value
  }

  /** The candidate list: the trimmed query, and each filter that is not its default. */
  lemma ListParamsAre(f: FilterInputs)
    ensures ListParams(f) ==
            Pair("q", if f.q.Some? then Some(RouterPaths.Trim(f.q.value)) else None)
            + Pair("job", Unless(f.jobId, "\U{5168}\U{90E8}\U{804C}\U{4F4D}"))
            + Pair("stage", Unless(f.stage, "\U{5168}\U{90E8}\U{9636}\U{6BB5}"))
            + Pair("owner", Unless(f.ownerId, "\U{5168}\U{90E8}\U{8D1F}\U{8D23}\U{4EBA}"))
            + Pair("minScore", Unless(f.minScore, "\U{4E0D}\U{9650}\U{5206}\U{6570}"))
  {
    NamesDiffer();
    FiveNew("q", Trimmed(f.q), "job", Chosen(f.jobId, ALL_JOBS), "stage", Chosen(f.stage, ALL_STAGES),
            "owner", Chosen(f.ownerId, ALL_OWNERS), "minScore", Chosen(f.minScore, ANY_SCORE));
    ChosenIs("job", f.jobId, ALL_JOBS);
    ChosenIs("stage", f.stage, ALL_STAGES);
    ChosenIs("owner", f.ownerId, ALL_OWNERS);
    ChosenIs("minScore", f.minScore, ANY_SCORE);
  }

  lemma ChosenIs(name: string, value: Option<string>, default: string)
    ensures Pair(name, Chosen(value, default)) == Pair(name, Unless(value, default))
  {
  }

  lemma FiveNew(
      a: string, u: Option<string>, b: string, v: Option<string>, c: string, w: Option<string>,
      d: string, x: Option<string>, e: string, y: Option<string>)
    requires a != b && a != c && a != d && a != e && b != c && b != d && b != e && c != d && c != e && d != e
    ensures With(With(With(With(With([], a, u), b, v), c, w), d, x), e, y)
            == Pair(a, u) + Pair(b, v) + Pair(c, w) + Pair(d, x) + Pair(e, y)
  {
    WithNew([], a, u);
    var one := With([], a, u);
    WithNew(one, b, v);
    var two := With(one, b, v);
    WithNew(two, c, w);
    var three := With(two, c, w);
    WithNew(three, d, x);
    WithNew(With(three, d, x), e, y);
  }

  lemma NamesDiffer()
    ensures "q" != "job" && "q" != "stage" && "q" != "owner" && "q" != "minScore" && "q" != "status"
    ensures "job" != "stage" && "job" != "owner" && "job" != "minScore" && "stage" != "owner" && "stage" != "minScore"
    ensures "owner" != "minScore"
    ensures "tab" != "application" && "tab" != "job" && "tab" != "approval" && "tab" != "return"
    ensures "application" != "job" && "application" != "approval" && "application" != "return"
    ensures "job" != "approval" && "job" != "return" && "approval" != "return"
  {
    assert |"q"| == 1 && |"job"| == 3 && |"stage"| == 5 && |"owner"| == 5 && |"minScore"| == 8 && |"status"| == 6;
    assert |"tab"| == 3 && |"application"| == 11 && |"approval"| == 8 && |"return"| == 6;
    assert "stage"[0] != "owner"[0] && "tab"[0] != "job"[0];
  }

  /** The candidate detail: a tab other than the first, the ids, and a safe return path. */
  lemma DetailParamsAre(c: CandidateInputs, tab: Option<Tab>, returnTo: Option<string>)
    ensures DetailParams(c, tab, returnTo) ==
            Pair("tab", match tab
                        case None => None
                        case Some(Profile) => None
                        case Some(Applications) => Some("applications")
                        case Some(Evidence) => Some("evidence")
                        case Some(Interviews) => Some("interviews")
                        case Some(OfferTab) => Some("offer")
                        case Some(Timeline) => Some("timeline"))
            + Pair("application", c.application) + Pair("job", c.job) + Pair("approval", c.approval)
            + Pair("return", SafeReturn(returnTo))
  {
    NamesDiffer();
    FiveNew("tab", ListedSlug(tab), "application", c.application, "job", c.job, "approval", c.approval,
            "return", SafeReturn(returnTo));
  }

  /** The id of a candidate's path: the candidate's own, else the other one, else a word for neither. */
  lemma DetailIdIs(c: CandidateInputs)
    ensures c.candidateId.Some? && c.candidateId.value != "" ==> IdText(c) == c.candidateId.value
    ensures c.candidateId in {None, Some("")} ==>
              IdText(c) == match c.id case Some(id) => id case None => "undefined"
  {
  }

  lemma OfferParamsAre(approval: Option<string>, returnTo: Option<string>)
    ensures OfferParams(approval, returnTo) == Pair("approval", approval) + Pair("return", SafeReturn(returnTo))
  {
    NamesDiffer();
    WithNew([], "approval", approval);
    WithNew(With([], "approval", approval), "return", SafeReturn(returnTo));
  }

  lemma TaskParamsAre(query: Option<string>, status: TaskStatus)
    ensures TaskParams(query, status) ==
            Pair("q", if query.Some? then Some(RouterPaths.Trim(query.value)) else None)
            + Pair("status", match status
                             case AllStatuses => None
                             case Processing => Some("processing")
                             case Success => Some("success")
                             case Partial => Some("partial")
                             case FailedStatus => Some("failed"))
  {
    NamesDiffer();
    WithNew([], "q", Trimmed(query));
    WithNew(With([], "q", Trimmed(query)), "status", StatusSlug(status));
  }

  /** Which page the labels of the settings lead to, and what its path says. */
  lemma SettingsPathIs(section: SectionLabel, tab: TabLabel, returnTo: Option<string>)
    ensures SettingsPath(section, tab, returnTo) == PathText(
      ["settings"] + (match (section, tab)
        case (Organization, DepartmentsTab) => ["organization", "departments"]
        case (Templates, WorkflowsTab) => ["templates", "workflows"]
        case (Templates, ReasonsTab) => ["templates", "rejection-reasons"]
        case (Templates, ScorecardsTab) => ["templates", "interview-scorecards"]
        case (AiLabel, _) => ["ai"]
        case (FeishuLabel, _) => ["feishu"]
        case (OfferLabel, _) => ["offers"]
        case (GovernanceLabel, _) => ["governance"]
        case _ => ["organization", "members"]),
      Pair("return", returnTo))
  {
    var page := SectionFor(section, tab);
    SettingsPages(page);
    assert SectionSegments(page) == ["settings"] + SectionSegments(page)[1..];
    WithNew([], "return", returnTo);
  }

  /** A path is its segments after slashes, and a question mark before its parameters, if any. */
  lemma PathTextIs(segments: seq<string>, params: Params)
    requires segments != []
    ensures PathText(segments, params) ==
            "/" + Join('/', segments) + if Serialize(params) == "" then "" else "?" + Serialize(params)
  {
    JoinAfterEmpty(segments);
  }

  lemma JoinAfterEmpty(segments: seq<string>)
    requires segments != []
    ensures Join('/', [""] + segments) == "/" + Join('/', segments)
  {
    var whole := [""] + segments;
    assert whole[1..] == segments && whole[0] == "";
    assert "" + ['/'] == "/";
  }

  /** The navigation leads to these paths. */
  lemma NavPathIs(nav: Nav)
    ensures NavPath(nav) == PathText(match nav
      case Workbench_ => ["workbench"]
      case Jobs_ => ["jobs"]
      case Screening_ => ["screening", "tasks"]
      case Candidates_ => ["candidates"]
      case Interviews_ => ["interviews"]
      case Talent_ => ["talent"]
      case Reports_ => ["reports"]
      case Settings_ => ["settings", "organization", "members"], [])
  {
  }

  // ----- texts -----

  /** A return path is kept exactly when it begins with one slash and not with two. */
  lemma SafeReturnIs(value: Option<string>, path: string)
    ensures SafeReturn(value) == Some(path) <==>
            value == Some(path) && path != "" && path[0] == '/' && (|path| > 1 ==> path[1] != '/')
  {
  }

  /** The white space and line terminators of JavaScript. */
  ghost predicate Space(c: char) {
    '\t' <= c <= '\r' || '\U{2000}' <= c <= '\U{200A}'
    || c in {' ', '\U{00A0}', '\U{1680}', '\U{2028}', '\U{2029}', '\U{202F}', '\U{205F}', '\U{3000}', '\U{FEFF}'}
  }

  ghost predicate Spaces(s: string) {
    forall i :: 0 <= i < |s| ==> Space(s[i])
  }

  lemma SpaceIs(c: char)
    ensures IsSpace(c) <==> Space(c)
  {
  }

  lemma MoreInFront(s: string, front: string, inner: string, back: string)
    requires s != "" && Space(s[0]) && Spaces(front) && s[1..] == front + inner + back
    ensures Spaces([s[0]] + front) && s == [s[0]] + front + inner + back
  {
    assert s == [s[0]] + s[1..];
  }

  lemma MoreBehind(s: string, front: string, inner: string, back: string)
    requires s != "" && Space(s[|s| - 1]) && Spaces(back) && s[..|s| - 1] == front + inner + back
    ensures Spaces(back + [s[|s| - 1]]) && s == front + inner + (back + [s[|s| - 1]])
  {
    assert s == s[..|s| - 1] + [s[|s| - 1]];
  }

  /** Trimming takes white space off both ends, and leaves none there. */
  lemma TrimIs(s: string) returns (front: string, back: string)
    ensures Spaces(front) && Spaces(back) && s == front + RouterPaths.Trim(s) + back
    ensures var t := RouterPaths.Trim(s); t != "" ==> !Space(t[0]) && !Space(t[|t| - 1])
  {
    front, back := TrimmedOff(s);
    NoneLeft(s);
  }

  lemma {:induction false} TrimmedOff(s: string) returns (front: string, back: string)
    ensures Spaces(front) && Spaces(back) && s == front + RouterPaths.Trim(s) + back
    decreases |s|
  {
    if s != "" && IsSpace(s[0]) {
      SpaceIs(s[0]);
      var f, b := TrimmedOff(s[1..]);
      MoreInFront(s, f, RouterPaths.Trim(s[1..]), b);
      front, back := [s[0]] + f, b;
    } else if s != "" && IsSpace(s[|s| - 1]) {
      SpaceIs(s[|s| - 1]);
      var f, b := TrimmedOff(s[..|s| - 1]);
      MoreBehind(s, f, RouterPaths.Trim(s[..|s| - 1]), b);
      front, back := f, b + [s[|s| - 1]];
    } else {
      front, back := "", "";
      assert s == "" + s + "";
    }
  }

  lemma {:induction false} NoneLeft(s: string)
    ensures var t := RouterPaths.Trim(s); t != "" ==> !Space(t[0]) && !Space(t[|t| - 1])
    decreases |s|
  {
    if s != "" {
      SpaceIs(s[0]);
      SpaceIs(s[|s| - 1]);
      if IsSpace(s[0]) {
        NoneLeft(s[1..]);
      } else if IsSpace(s[|s| - 1]) {
        NoneLeft(s[..|s| - 1]);
      }
    }
  }

  /** A piece of a query is cut at its first equals sign; without one it is a name alone. */
  lemma PieceIs(name: string, value: string)
    requires '=' !in name
    ensures ReadPair(name + "=" + value) == (FormDecode(name), FormDecode(value))
    ensures ReadPair(name) == (FormDecode(name), "")
  {
    EqualsAfter(name, value);
    var s := name + "=" + value;
    assert s[..|name|] == name && s[|name| + 1..] == value;
    NoEqualsSign(name);
    assert name[..|name|] == name;
  }

  lemma {:induction false} NoEqualsSign(s: string)
    requires '=' !in s
    ensures FirstEquals(s) == |s|
    decreases |s|
  {
    if s != "" { NoEqualsSign(s[1..]); }
  }
}
