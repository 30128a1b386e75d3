/** The GitHub Jobs adapter of app/scraper/sources/github.py: one request to a JSON API,
    whose first `limit` items become jobs until one carries a date that does not parse. */
module GitHub {
  import opened Wrappers
  import opened Seqs
  import opened Text
  import opened Listing

  /** The query parameters (github.py:23-29): `full_time` as the text `str(full_time).lower()`,
      `location` only when one was given. */
  datatype Request = Request(description: string, fullTime: string, location: Option<string>)

  /** One item of the JSON payload: each key is present with a text value, or absent. */
  datatype Item = Item(
    title: Option<string>,
    company: Option<string>,
    location: Option<string>,
    description: Option<string>,
    url: Option<string>,
    createdAt: Option<Stamp>)

  /** The request: the decoded items, or `None` when the request, `raise_for_status` or the
      JSON decoding raised. */
  type Fetch = Request -> Option<seq<Item>>

  function SearchRequest(query: string, location: string, fullTime: bool): (r: Request)
    ensures r.description == query
    ensures r.fullTime == (if fullTime then "true" else "false")
    ensures r.location.Some? <==> location != ""
    ensures r.location.Some? ==> r.location.value == location
  {
    Request(query, if fullTime then "true" else "false", if location != "" then Some(location) else None)
  }

  /** `'remote' in description.lower()`. */
  predicate MentionsRemote(description: string) {
    Contains(Lower(description), "remote")
  }

  /** The job of one item (github.py:41-53): `None` when its `created_at` is present, non-empty
      and rejected by `datetime.fromisoformat`, which raises out of the whole search. */
  function ItemJob(item: Item, location: string): (r: Option<Job>)
    ensures r.None? <==> item.createdAt.Some? && item.createdAt.value.text != "" && !item.createdAt.value.isoFormat
    ensures r.Some? ==> r.value.title == item.title.GetOr("") && r.value.company == item.company.GetOr("")
    ensures r.Some? ==> r.value.location == item.location.GetOr(location)
    ensures r.Some? ==> r.value.description == item.description.GetOr("") && r.value.url == item.url.GetOr("")
    ensures r.Some? ==> (r.value.postedDate == ScrapedNow <==> item.createdAt.None? || item.createdAt.value.text == "")
                        && (r.value.postedDate != ScrapedNow ==> r.value.postedDate == Parsed(item.createdAt.value.text))
    ensures r.Some? ==> (r.value.jobType == "remote" <==> MentionsRemote(item.description.GetOr("")))
                        && (r.value.jobType == "remote" || r.value.jobType == "on-site")
    ensures r.Some? ==> r.value.source == "github" && r.value.experienceLevel == "not specified"
  {
    var posted :=
      if item.createdAt.None? || item.createdAt.value.text == "" then Some(ScrapedNow)
      else if item.createdAt.value.isoFormat then Some(Parsed(item.createdAt.value.text))
      else None;
    match posted
    case None => None
    case Some(date) =>
      Some(Job(
        item.title.GetOr(""),
        item.company.GetOr(""),
        item.location.GetOr(location),
        item.description.GetOr(""),
        item.url.GetOr(""),
        "github",
        date,
        if MentionsRemote(item.description.GetOr("")) then "remote" else "on-site",
        "not specified"))
  }

  /** The jobs of `items` in order, up to the first item whose date raises. */
  function Converted(items: seq<Item>, location: string): seq<Job> {
    if items == [] then []
    else match ItemJob(items[0], location)
      case None => []
      case Some(job) => [job] + Converted(items[1..], location)
  }

  lemma ConvertedStep(items: seq<Item>, location: string)
    requires items != []
    ensures ItemJob(items[0], location).None? ==> Converted(items, location) == []
    ensures ItemJob(items[0], location).Some? ==>
      Converted(items, location) == [ItemJob(items[0], location).value] + Converted(items[1..], location)
  {
  }

  /** The jobs of one search: the first `limit` items of the payload (`data[:limit]`), or
      nothing when the request fails. */
  function SearchResult(location: string, limit: int, response: Option<seq<Item>>): seq<Job> {
    match response
    case None => []
    case Some(data) => Converted(SliceTo(data, limit), location)
  }

  /** The item loop (github.py:40-54): items are converted in order, and the first date
      that raises ends the loop with the jobs before it. */
  method ConvertItems(items: seq<Item>, location: string) returns (jobs: seq<Job>)
    ensures jobs == Converted(items, location)
  {
    jobs := [];
    var i := 0;
    while i < |items|
      invariant 0 <= i <= |items|
      invariant Converted(items, location) == jobs + Converted(items[i..], location)
    {
      ConvertedStep(items[i..], location);
      assert items[i..][1..] == items[i + 1..];
      var job := ItemJob(items[i], location);
      if job.None? {
        assert jobs + [] == jobs;
        return;
      }
      assert jobs + ([job.value] + Converted(items[i + 1..], location))
             == (jobs + [job.value]) + Converted(items[i + 1..], location);
      jobs := jobs + [job.value];
      i := i + 1;
    }
    assert jobs + [] == jobs;
  }

  /** `search_jobs` (github.py:12-59). `request` is the one request made. */
  method SearchJobs(query: string, location: string, fullTime: bool, limit: int, fetch: Fetch)
    returns (jobs: seq<Job>, request: Request)
    ensures request == SearchRequest(query, location, fullTime)
    ensures jobs == SearchResult(location, limit, fetch(request))
  {
    jobs := [];
    request := SearchRequest(query, location, fullTime);
    var response := fetch(request);
    if response.Some? {
      jobs := ConvertItems(SliceTo(response.value, limit), location);
    }
  }

  /** The converted jobs are, item for item, the jobs of a prefix of the items; they cover all
      the items exactly when no date raises, and otherwise stop just before the first that does. */
  lemma {:induction false} ConvertedIsPrefix(items: seq<Item>, location: string)
    ensures |Converted(items, location)| <= |items|
    ensures forall k :: 0 <= k < |Converted(items, location)| ==>
      ItemJob(items[k], location) == Some(Converted(items, location)[k])
    ensures |Converted(items, location)| < |items| ==>
      ItemJob(items[|Converted(items, location)|], location).None?
  {
    if items != [] && ItemJob(items[0], location).Some? {
      ConvertedIsPrefix(items[1..], location);
    }
  }

  /** Whatever the items, the search never returns more than the items it slices, never more
      than `limit` for a non-negative limit, and only GitHub jobs dated with a `datetime`. */
  lemma SearchResultBounded(location: string, limit: int, response: Option<seq<Item>>)
    ensures response.Some? ==> |SearchResult(location, limit, response)| <= |SliceTo(response.value, limit)|
    ensures 0 <= limit ==> |SearchResult(location, limit, response)| <= limit
    ensures forall j :: j in SearchResult(location, limit, response) ==> j.source == "github" && j.postedDate.IsDatetime()
  {
    if response.Some? {
      var items := SliceTo(response.value, limit);
      var jobs := Converted(items, location);
      ConvertedIsPrefix(items, location);
      forall j | j in jobs ensures j.source == "github" && j.postedDate.IsDatetime() {
        var k :| 0 <= k < |jobs| && jobs[k] == j;
        assert ItemJob(items[k], location) == Some(j);
      }
    }
  }

  /** A negative limit is a Python slice from the end: `data[:limit]` leaves out the last
      `-limit` items rather than returning nothing. */
  lemma NegativeLimitDropsTail(location: string, data: seq<Item>, limit: int)
    requires limit < 0 && 0 < |data| + limit
    requires forall i :: 0 <= i < |data| ==> data[i].createdAt.None?
    ensures |SearchResult(location, limit, Some(data))| == |data| + limit
  {
    var items := SliceTo(data, limit);
    ConvertedIsPrefix(items, location);
  }
}
