/** The printers as they run: a parameter list filled step by step, and a path that the router
    reads back. */
module RouterPrinters {
  import opened Foundations
  import opened Percent
  import opened Pieces
  import opened Query
  import opened RouterPaths
  import opened Router
  import opened RouterTheorems

  /** URLSearchParams as an object. */
  class SearchParams {
    var list: Params

    constructor ()
      ensures list == []
    {
      list := [];
    }

    method Set(name: string, value: string)
      modifies this
      ensures list == SetParam(old(list), name, value)
    {
      list := SetParam(list, name, value);
    }

    /** `if (value) params.set(name, value)` */
    method SetIfGiven(name: string, value: Option<string>)
      modifies this
      ensures list == With(old(list), name, value)
    {
      if Given(value) { Set(name, value.value); }
    }

    /** The path with this query, if there is one. */
    method AppendTo(segments: seq<string>) returns (path: string)
      ensures path == PathText(segments, list)
    {
      var search := Serialize(list);
      path := Join('/', [""] + segments) + if search == "" then "" else "?" + search;
    }
  }

  method PrintCandidateList(f: FilterInputs) returns (path: string)
    ensures path == CandidateListPath(f)
    ensures Parse(Locate(path)) == Some(Parsed(None, CandidateList(Normal(f))))
  {
    var params := new SearchParams();
    params.SetIfGiven("q", Trimmed(f.q));
    params.SetIfGiven("job", Chosen(f.jobId, ALL_JOBS));
    params.SetIfGiven("stage", Chosen(f.stage, ALL_STAGES));
    params.SetIfGiven("owner", Chosen(f.ownerId, ALL_OWNERS));
    params.SetIfGiven("minScore", Chosen(f.minScore, ANY_SCORE));
    path := params.AppendTo(["candidates"]);
    ListRoundTrip(f);
  }

  method PrintCandidateDetail(c: CandidateInputs, tab: Option<Tab>, returnTo: Option<string>) returns (path: string)
    ensures path == CandidateDetailPath(c, tab, returnTo)
    ensures Parse(Locate(path))
            == Some(Parsed(SafeReturn(returnTo), CandidateDetail(IdText(c), TabOrFirst(tab), OrNone(c.approval))))
            <==> SegmentId(IdText(c))
  {
    var params := new SearchParams();
    params.SetIfGiven("tab", ListedSlug(tab));
    params.SetIfGiven("application", c.application);
    params.SetIfGiven("job", c.job);
    params.SetIfGiven("approval", c.approval);
    params.SetIfGiven("return", SafeReturn(returnTo));
    path := params.AppendTo(["candidates", EncodeComponent(IdText(c))]);
    DetailRoundTripIff(c, tab, returnTo);
  }

  method PrintOfferDetail(offerId: string, approval: Option<string>, returnTo: Option<string>) returns (path: string)
    ensures path == OfferDetailPath(offerId, approval, returnTo)
    ensures Parse(Locate(path)) == Some(Parsed(SafeReturn(returnTo), OfferDetail(offerId, OrNone(approval))))
            <==> SegmentId(offerId)
  {
    var params := new SearchParams();
    params.SetIfGiven("approval", approval);
    params.SetIfGiven("return", SafeReturn(returnTo));
    path := params.AppendTo(["offers", EncodeComponent(offerId)]);
    OfferRoundTripIff(offerId, approval, returnTo);
  }

  method PrintScreeningTask(id: string, query: Option<string>, status: TaskStatus) returns (path: string)
    ensures path == ScreeningTaskPath(id, query, status)
    ensures Parse(Locate(path)) == Some(Parsed(None, ScreeningTask(id, Trim(Or(query, "")), status)))
            <==> SegmentId(id)
  {
    var params := new SearchParams();
    params.SetIfGiven("q", Trimmed(query));
    params.SetIfGiven("status", StatusSlug(status));
    path := params.AppendTo(["screening", "tasks", EncodeComponent(id)]);
    TaskRoundTripIff(id, query, status);
  }
}
