/** The application's router: the parser of locations and the printers of paths. */
module Router {
  import opened Foundations
  import opened Percent
  import opened Pieces
  import opened Query
  import opened RouterPaths

  // ----- routes -----

  const ALL_JOBS := "\U{5168}\U{90E8}\U{804C}\U{4F4D}"
  const ALL_STAGES := "\U{5168}\U{90E8}\U{9636}\U{6BB5}"
  const ALL_OWNERS := "\U{5168}\U{90E8}\U{8D1F}\U{8D23}\U{4EBA}"
  const ANY_SCORE := "\U{4E0D}\U{9650}\U{5206}\U{6570}"

  datatype Filters = Filters(q: string, jobId: string, stage: string, ownerId: string, minScore: string)

  datatype Tab = Profile | Applications | Evidence | Interviews | OfferTab | Timeline

  datatype TaskStatus = AllStatuses | Processing | Success | Partial | FailedStatus

  datatype Section =
    | Members | Departments | Workflows | RejectionReasons | Scorecards | Ai | Feishu | OfferSettings | Governance

  datatype Nav = Workbench_ | Jobs_ | Screening_ | Candidates_ | Interviews_ | Talent_ | Reports_ | Settings_

  datatype Route =
    | PublicOffer(token: string, invalid: bool)
    | Workbench
    | OfferDetail(id: string, approval: Option<string>)
    | JobList | JobNew | JobDetail(id: string, edit: bool)
    | ScreeningList | ScreeningTask(id: string, query: string, status: TaskStatus)
    | CandidateList(filters: Filters) | CandidateDetail(id: string, tab: Tab, approval: Option<string>)
    | InterviewList | InterviewNew(candidate: Option<string>) | InterviewAction(id: string, action: string)
    | TalentList | TalentDetail(id: string) | Reports | Settings(section: Section)
    | Unknown

  datatype Parsed = Parsed(returnTo: Option<string>, route: Route)

  /** The navigation entry a route belongs to. */
  function NavOf(route: Route): Option<Nav> {
    match route
    case PublicOffer(_, _) => None
    case Unknown => None
    case Workbench => Some(Workbench_)
    case OfferDetail(_, _) => Some(Workbench_)
    case JobList => Some(Jobs_)
    case JobNew => Some(Jobs_)
    case JobDetail(_, _) => Some(Jobs_)
    case ScreeningList => Some(Screening_)
    case ScreeningTask(_, _, _) => Some(Screening_)
    case CandidateList(_) => Some(Candidates_)
    case CandidateDetail(_, _, _) => Some(Candidates_)
    case InterviewList => Some(Interviews_)
    case InterviewNew(_) => Some(Interviews_)
    case InterviewAction(_, _) => Some(Interviews_)
    case TalentList => Some(Talent_)
    case TalentDetail(_) => Some(Talent_)
    case Reports => Some(Reports_)
    case Settings(_) => Some(Settings_)
  }

  // ----- the slugs in URLs -----

  function TabSlug(tab: Tab): string {
    match tab
    case Profile => "profile"
    case Applications => "applications"
    case Evidence => "evidence"
    case Interviews => "interviews"
    case OfferTab => "offer"
    case Timeline => "timeline"
  }

  function TabOf(slug: Option<string>): Tab {
    if slug == Some("applications") then Applications else if slug == Some("evidence") then Evidence
    else if slug == Some("interviews") then Interviews else if slug == Some("offer") then OfferTab
    else if slug == Some("timeline") then Timeline else Profile
  }

  function StatusSlug(status: TaskStatus): Option<string> {
    match status
    case AllStatuses => None
    case Processing => Some("processing")
    case Success => Some("success")
    case Partial => Some("partial")
    case FailedStatus => Some("failed")
  }

  function StatusOf(slug: Option<string>): TaskStatus {
    if slug == Some("processing") then Processing else if slug == Some("success") then Success
    else if slug == Some("partial") then Partial else if slug == Some("failed") then FailedStatus else AllStatuses
  }

  function SectionSegments(section: Section): seq<string> {
    match section
    case Members => ["settings", "organization", "members"]
    case Departments => ["settings", "organization", "departments"]
    case Workflows => ["settings", "templates", "workflows"]
    case RejectionReasons => ["settings", "templates", "rejection-reasons"]
    case Scorecards => ["settings", "templates", "interview-scorecards"]
    case Ai => ["settings", "ai"]
    case Feishu => ["settings", "feishu"]
    case OfferSettings => ["settings", "offers"]
    case Governance => ["settings", "governance"]
  }

  function SettingsRoute(rest: seq<string>): Route {
    if rest == ["organization", "members"] then Settings(Members)
    else if rest == ["organization", "departments"] then Settings(Departments)
    else if rest == ["templates", "workflows"] then Settings(Workflows)
    else if rest == ["templates", "rejection-reasons"] then Settings(RejectionReasons)
    else if rest == ["templates", "interview-scorecards"] then Settings(Scorecards)
    else if rest == ["ai"] then Settings(Ai)
    else if rest == ["feishu"] then Settings(Feishu)
    else if rest == ["offers"] then Settings(OfferSettings)
    else if rest == ["governance"] then Settings(Governance)
    else Unknown
  }

  // ----- parsing -----

  function ReadFilters(params: Params): Filters {
    Filters(
      Trim(Or(Lookup(params, "q"), "")),
      Or(Lookup(params, "job"), ALL_JOBS),
      Or(Lookup(params, "stage"), ALL_STAGES),
      Or(Lookup(params, "owner"), ALL_OWNERS),
      Or(Lookup(params, "minScore"), ANY_SCORE))
  }

  datatype Area = PublicArea | WorkbenchArea | OfferArea | JobArea | ScreeningArea | CandidateArea | InterviewArea
                | TalentArea | ReportArea | SettingsArea | NoArea

  function AreaOf(segment: string): Area {
    if segment == "offer" then PublicArea else if segment == "workbench" then WorkbenchArea
    else if segment == "offers" then OfferArea else if segment == "jobs" then JobArea
    else if segment == "screening" then ScreeningArea else if segment == "candidates" then CandidateArea
    else if segment == "interviews" then InterviewArea else if segment == "talent" then TalentArea
    else if segment == "reports" then ReportArea else if segment == "settings" then SettingsArea
    else NoArea
  }

  /** The route below one area: `rest` are the segments after the area's own. None is the
      URIError of a malformed escape. */
  function AreaRoute(area: Area, rest: seq<string>, params: Params): Option<Route> {
    match area
    case NoArea => Some(Unknown)
    case WorkbenchArea => Some(if rest == [] then Workbench else Unknown)
    case ReportArea => Some(if rest == [] then Reports else Unknown)
    case SettingsArea => Some(SettingsRoute(rest))
    case PublicArea =>
      if |rest| != 1 || rest[0] == "" then Some(Unknown) else
      var token := DecodeComponent(rest[0]);
      Some(if token.Some? then PublicOffer(token.value, false) else PublicOffer("", true))
    case OfferArea =>
      if |rest| != 1 || rest[0] == "" then Some(Unknown) else
      WithId(rest[0], (id: string) => OfferDetail(id, OrNone(Lookup(params, "approval"))))
    case JobArea =>
      if rest == [] then Some(JobList)
      else if rest == ["new"] then Some(JobNew)
      else if rest[0] == "" || |rest| > 2 || (|rest| == 2 && rest[1] != "edit") then Some(Unknown)
      else WithId(rest[0], (id: string) => JobDetail(id, |rest| == 2))
    case ScreeningArea =>
      if rest == ["tasks"] then Some(ScreeningList)
      else if |rest| != 2 || rest[0] != "tasks" || rest[1] == "" then Some(Unknown)
      else WithId(rest[1], (id: string) =>
        ScreeningTask(id, Trim(Or(Lookup(params, "q"), "")), StatusOf(Lookup(params, "status"))))
    case CandidateArea =>
      if rest == [] then Some(CandidateList(ReadFilters(params)))
      else if |rest| != 1 || rest[0] == "" then Some(Unknown)
      else WithId(rest[0], (id: string) =>
        CandidateDetail(id, TabOf(Lookup(params, "tab")), OrNone(Lookup(params, "approval"))))
    case InterviewArea =>
      if rest == [] then Some(InterviewList)
      else if rest == ["new"] then Some(InterviewNew(OrNone(Lookup(params, "candidate"))))
      else if |rest| == 2 && rest[0] != "" && (rest[1] == "reschedule" || rest[1] == "feedback")
      then WithId(rest[0], (id: string) => InterviewAction(id, rest[1]))
      else Some(Unknown)
    case TalentArea =>
      if rest == [] then Some(TalentList)
      else if |rest| != 1 || rest[0] == "" then Some(Unknown)
      else WithId(rest[0], (id: string) => TalentDetail(id))
  }

  function WithId(segment: string, build: string -> Route): Option<Route> {
    match DecodeComponent(segment)
    case None => None
    case Some(id) => Some(build(id))
  }

  function RouteOf(segments: seq<string>, params: Params): Option<Route> {
    if |segments| < 2 || segments[0] != "" then Some(Unknown)
    else AreaRoute(AreaOf(segments[1]), segments[2..], params)
  }

  function Attach(returnTo: Option<string>, route: Option<Route>): Option<Parsed> {
    match route
    case None => None
    case Some(r) => Some(Parsed(returnTo, r))
  }

  /** parseAppRoute; None is the URIError. */
  function Parse(location: Location): Option<Parsed> {
    var params := ParseQuery(location.search);
    Attach(SafeReturn(Lookup(params, "return")), RouteOf(SegmentsOf(location), params))
  }

  // ----- printing -----

  datatype FilterInputs = FilterInputs(
    q: Option<string>, jobId: Option<string>, stage: Option<string>, ownerId: Option<string>, minScore: Option<string>)

  /** A filter that says something: present and not the default. */
  function Chosen(value: Option<string>, default: string): Option<string> {
    if Given(value) && value.value != default then value else None
  }

  function Trimmed(value: Option<string>): Option<string> {
    if value.Some? then Some(Trim(value.value)) else None
  }

  function ListParams(f: FilterInputs): Params {
    var q := With([], "q", Trimmed(f.q));
    var job := With(q, "job", Chosen(f.jobId, ALL_JOBS));
    var stage := With(job, "stage", Chosen(f.stage, ALL_STAGES));
    var owner := With(stage, "owner", Chosen(f.ownerId, ALL_OWNERS));
    With(owner, "minScore", Chosen(f.minScore, ANY_SCORE))
  }

  function CandidateListPath(f: FilterInputs): string {
    PathText(["candidates"], ListParams(f))
  }

  /** A candidate as the pages hold it; `tab` is None for a label without a slug. */
  datatype CandidateInputs = CandidateInputs(
    candidateId: Option<string>, id: Option<string>, application: Option<string>, job: Option<string>,
    approval: Option<string>)

  /** `candidateId || id`, printed; JavaScript prints a missing one as "undefined". */
  function IdText(c: CandidateInputs): string {
    if Given(c.candidateId) then c.candidateId.value
    else if c.id.Some? then c.id.value else "undefined"
  }

  /** The slug of a tab that is not the first one. */
  function ListedSlug(tab: Option<Tab>): Option<string> {
    if tab.None? || tab.value.Profile? then None else Some(TabSlug(tab.value))
  }

  function DetailParams(c: CandidateInputs, tab: Option<Tab>, returnTo: Option<string>): Params {
    var slug := With([], "tab", ListedSlug(tab));
    var application := With(slug, "application", c.application);
    var approval := With(With(application, "job", c.job), "approval", c.approval);
    With(approval, "return", SafeReturn(returnTo))
  }

  function CandidateDetailPath(c: CandidateInputs, tab: Option<Tab>, returnTo: Option<string>): string {
    PathText(["candidates", EncodeComponent(IdText(c))], DetailParams(c, tab, returnTo))
  }

  function OfferParams(approval: Option<string>, returnTo: Option<string>): Params {
    With(With([], "approval", approval), "return", SafeReturn(returnTo))
  }

  function OfferDetailPath(offerId: string, approval: Option<string>, returnTo: Option<string>): string {
    PathText(["offers", EncodeComponent(offerId)], OfferParams(approval, returnTo))
  }

  function TaskParams(query: Option<string>, status: TaskStatus): Params {
    With(With([], "q", Trimmed(query)), "status", StatusSlug(status))
  }

  function ScreeningTaskPath(id: string, query: Option<string>, status: TaskStatus): string {
    PathText(["screening", "tasks", EncodeComponent(id)], TaskParams(query, status))
  }

  datatype SectionLabel = Organization | Templates | AiLabel | FeishuLabel | OfferLabel | GovernanceLabel | OtherLabel
  datatype TabLabel = MembersTab | DepartmentsTab | WorkflowsTab | ReasonsTab | ScorecardsTab | OtherTab

  /** The page a section and tab label lead to; without a match, the members page. */
  function SectionFor(section: SectionLabel, tab: TabLabel): Section {
    match section
    case Organization => if tab.DepartmentsTab? then Departments else Members
    case Templates =>
      if tab.WorkflowsTab? then Workflows else if tab.ReasonsTab? then RejectionReasons
      else if tab.ScorecardsTab? then Scorecards else Members
    case AiLabel => Ai
    case FeishuLabel => Feishu
    case OfferLabel => OfferSettings
    case GovernanceLabel => Governance
    case OtherLabel => Members
  }

  /** The settings printer does not check where to return. */
  function SettingsPath(section: SectionLabel, tab: TabLabel, returnTo: Option<string>): string {
    PathText(SectionSegments(SectionFor(section, tab)), With([], "return", returnTo))
  }

  function NavSegments(nav: Nav): seq<string> {
    match nav
    case Workbench_ => ["workbench"]
    case Jobs_ => ["jobs"]
    case Screening_ => ["screening", "tasks"]
    case Candidates_ => ["candidates"]
    case Interviews_ => ["interviews"]
    case Talent_ => ["talent"]
    case Reports_ => ["reports"]
    case Settings_ => ["settings", "organization", "members"]
  }

  /** routeForNav */
  function NavPath(nav: Nav): string {
    PathText(NavSegments(nav), [])
  }
}
