/** The Indeed adapter of app/scraper/sources/indeed.py: a fixed number of result pages,
    each parsed into job cards; a page that fails is skipped. */
module Indeed {
  import opened Wrappers
  import opened Seqs
  import opened Listing

  /** The query parameters of one page request (indeed.py:31-39); `jt` is absent unless
      a job type was given. */
  datatype Request = Request(q: string, l: string, start: int, limit: int, jt: Option<string>)

  /** One `job_seen_beacon` card: the stripped text of each element it holds, and the
      anchor inside the title. */
  datatype Card = Card(
    title: Option<string>,
    titleLink: Link,
    company: Option<string>,
    location: Option<string>,
    snippet: Option<string>)

  /** A page request: the cards of the page, or `None` when the request or the parse raised. */
  type Fetch = Request -> Option<seq<Card>>

  /** `x` is truthy: present and non-empty. */
  predicate Truthy(x: Option<string>) {
    x.Some? && x.value != ""
  }

  /** `range(limit // 10 + 1)` (indeed.py:27-29): Python's floor division by a positive
      divisor is Dafny's, and a negative count is an empty range. */
  function PageCount(limit: int): nat {
    if limit / 10 + 1 < 0 then 0 else limit / 10 + 1
  }

  /** Enough pages of ten for `limit` jobs, and at most one page beyond that; at least one
      page even for a limit of 0, none for a negative limit. */
  lemma PageCountCovers(limit: int)
    ensures 0 <= limit ==> PageCount(limit) >= 1 && 10 * PageCount(limit) > limit
                           && 10 * (PageCount(limit) - 1) <= limit
    ensures limit < 0 ==> PageCount(limit) == 0
  {
  }

  function PageRequest(query: string, location: string, jobType: Option<string>, page: int): (r: Request)
    ensures r.start == page * 10 && r.limit == 10
    ensures r.jt.Some? <==> Truthy(jobType)
  {
    Request(query, location, page * 10, 10, if Truthy(jobType) then jobType else None)
  }

  /** The requests of one search, in page order. */
  function Requests(query: string, location: string, jobType: Option<string>, limit: int): (rs: seq<Request>)
    ensures |rs| == PageCount(limit)
    ensures forall i :: 0 <= i < |rs| ==> rs[i] == PageRequest(query, location, jobType, i)
  {
    seq(PageCount(limit), i requires 0 <= i => PageRequest(query, location, jobType, i))
  }

  /** The job of one card (indeed.py:56-73): `None` when the title or the company is
      missing, or when the title's anchor has no `href` (the `KeyError` skips the card). */
  function CardJob(card: Card, location: string, jobType: Option<string>, experienceLevel: Option<string>): (r: Option<Job>)
    ensures r.Some? <==> card.title.Some? && card.company.Some? && card.titleLink != LinkWithoutHref
    ensures r.Some? ==> r.value.title == card.title.value && r.value.company == card.company.value
    ensures r.Some? ==> r.value.location == card.location.GetOr(location)
    ensures r.Some? ==> r.value.description == card.snippet.GetOr("")
                        && (card.titleLink == NoLink ==> r.value.url == "")
                        && (card.titleLink.Href? ==> r.value.url == card.titleLink.url)
    ensures r.Some? ==> r.value.jobType == OrDefault(jobType, "not specified")
                        && r.value.experienceLevel == OrDefault(experienceLevel, "not specified")
    ensures r.Some? ==> r.value.source == "indeed" && r.value.postedDate == ScrapedNow
  {
    if card.title.None? || card.company.None? then None
    else match AnchorUrl(card.titleLink)
      case None => None
      case Some(url) =>
        Some(Job(
          card.title.value,
          card.company.value,
          card.location.GetOr(location),
          card.snippet.GetOr(""),
          url,
          "indeed",
          ScrapedNow,
          OrDefault(jobType, "not specified"),
          OrDefault(experienceLevel, "not specified")))
  }

  /** The per-card reader of one search. */
  function CardReader(location: string, jobType: Option<string>, experienceLevel: Option<string>): Card -> Option<Job> {
    card => CardJob(card, location, jobType, experienceLevel)
  }

  function PageJobs(page: Option<seq<Card>>, location: string, jobType: Option<string>, experienceLevel: Option<string>): seq<Job> {
    match page
    case None => []
    case Some(cards) => Kept(cards, CardReader(location, jobType, experienceLevel))
  }

  /** The jobs of the given page requests, page after page. */
  function Collected(rs: seq<Request>, fetch: Fetch, location: string, jobType: Option<string>, experienceLevel: Option<string>): seq<Job> {
    if rs == [] then []
    else Collected(rs[..|rs| - 1], fetch, location, jobType, experienceLevel)
         + PageJobs(fetch(rs[|rs| - 1]), location, jobType, experienceLevel)
  }

  /** `search_jobs` (indeed.py:17-83). `requests` is the sequence of page requests made. */
  method SearchJobs(query: string, location: string, jobType: Option<string>, experienceLevel: Option<string>,
                    limit: int, fetch: Fetch)
    returns (jobs: seq<Job>, requests: seq<Request>)
    ensures requests == Requests(query, location, jobType, limit)
    ensures jobs == SliceTo(Collected(requests, fetch, location, jobType, experienceLevel), limit)
  {
    var all: seq<Job> := [];
    requests := [];
    var pages := PageCount(limit);
    var page := 0;
    while page < pages
      invariant 0 <= page <= pages
      invariant requests == Requests(query, location, jobType, limit)[..page]
      invariant all == Collected(requests, fetch, location, jobType, experienceLevel)
    {
      var request := PageRequest(query, location, jobType, page);
      requests := requests + [request];
      assert requests[..|requests| - 1] == Requests(query, location, jobType, limit)[..page];
      var response := fetch(request);
      if response.None? {
        page := page + 1;
        continue;
      }
      var found := KeepCards(response.value, CardReader(location, jobType, experienceLevel));
      all := all + found;
      page := page + 1;
    }
    jobs := SliceTo(all, limit);
  }

  lemma {:induction false} CollectedAppend(a: seq<Request>, b: seq<Request>, fetch: Fetch, location: string,
                                           jobType: Option<string>, experienceLevel: Option<string>)
    ensures Collected(a + b, fetch, location, jobType, experienceLevel)
            == Collected(a, fetch, location, jobType, experienceLevel) + Collected(b, fetch, location, jobType, experienceLevel)
    decreases |b|
  {
    if b != [] {
      var b' := b[..|b| - 1];
      var last := PageJobs(fetch(b[|b| - 1]), location, jobType, experienceLevel);
      assert (a + b)[..|a + b| - 1] == a + b' && (a + b)[|a + b| - 1] == b[|b| - 1];
      assert Collected(a + b, fetch, location, jobType, experienceLevel)
             == Collected(a + b', fetch, location, jobType, experienceLevel) + last;
      CollectedAppend(a, b', fetch, location, jobType, experienceLevel);
      Regroup(Collected(a, fetch, location, jobType, experienceLevel), Collected(b', fetch, location, jobType, experienceLevel),
              last, Collected(b, fetch, location, jobType, experienceLevel));
    } else {
      assert a + b == a;
    }
  }

  lemma CollectedSingle(r: Request, fetch: Fetch, location: string, jobType: Option<string>, experienceLevel: Option<string>)
    ensures Collected([r], fetch, location, jobType, experienceLevel) == PageJobs(fetch(r), location, jobType, experienceLevel)
  {
    var rs := [r];
    assert rs[..|rs| - 1] == [];
  }

  /** A page whose request fails adds nothing, and the pages after it are still read. */
  lemma FailedPageIsSkipped(before: seq<Request>, failed: Request, after: seq<Request>, fetch: Fetch,
                            location: string, jobType: Option<string>, experienceLevel: Option<string>)
    requires fetch(failed).None?
    ensures Collected(before + [failed] + after, fetch, location, jobType, experienceLevel)
            == Collected(before, fetch, location, jobType, experienceLevel)
               + Collected(after, fetch, location, jobType, experienceLevel)
  {
    CollectedSingle(failed, fetch, location, jobType, experienceLevel);
    CollectedAppend(before + [failed], after, fetch, location, jobType, experienceLevel);
    CollectedAppend(before, [failed], fetch, location, jobType, experienceLevel);
  }

  /** Every collected job is an Indeed job built from a card of a page that was fetched. */
  lemma {:induction false} CollectedFromIndeed(rs: seq<Request>, fetch: Fetch, location: string, jobType: Option<string>, experienceLevel: Option<string>)
    ensures forall j :: j in Collected(rs, fetch, location, jobType, experienceLevel) ==>
      exists k, c :: 0 <= k < |rs| && fetch(rs[k]).Some? && c in fetch(rs[k]).value
                     && CardJob(c, location, jobType, experienceLevel) == Some(j)
    ensures forall j :: j in Collected(rs, fetch, location, jobType, experienceLevel) ==>
      j.source == "indeed" && j.postedDate == ScrapedNow
  {
    if rs != [] {
      var init := rs[..|rs| - 1];
      var last := |rs| - 1;
      CollectedFromIndeed(init, fetch, location, jobType, experienceLevel);
      var page := fetch(rs[last]);
      if page.Some? {
        KeptFromCards(page.value, CardReader(location, jobType, experienceLevel));
      }
      forall j | j in Collected(rs, fetch, location, jobType, experienceLevel)
        ensures exists k, c :: 0 <= k < |rs| && fetch(rs[k]).Some? && c in fetch(rs[k]).value
                               && CardJob(c, location, jobType, experienceLevel) == Some(j)
      {
        if j in Collected(init, fetch, location, jobType, experienceLevel) {
          var k, c :| 0 <= k < |init| && fetch(init[k]).Some? && c in fetch(init[k]).value
                      && CardJob(c, location, jobType, experienceLevel) == Some(j);
          assert init[k] == rs[k];
        } else {
          var c :| c in page.value && CardReader(location, jobType, experienceLevel)(c) == Some(j);
          assert fetch(rs[last]).Some? && c in fetch(rs[last]).value;
        }
      }
    }
  }

  /** The search returns at most `limit` jobs (none for a negative limit), each an Indeed job dated at scraping. */
  lemma SearchJobsBounded(query: string, location: string, jobType: Option<string>, experienceLevel: Option<string>,
                          limit: int, fetch: Fetch)
    ensures var jobs := SliceTo(Collected(Requests(query, location, jobType, limit), fetch, location, jobType, experienceLevel), limit);
      |jobs| <= (if limit < 0 then 0 else limit)
      && forall j :: j in jobs ==> j.source == "indeed" && j.postedDate == ScrapedNow
  {
    var rs := Requests(query, location, jobType, limit);
    var all := Collected(rs, fetch, location, jobType, experienceLevel);
    CollectedFromIndeed(rs, fetch, location, jobType, experienceLevel);
    if limit < 0 {
      assert rs == [];
    }
    var jobs := SliceTo(all, limit);
    forall j | j in jobs ensures j.source == "indeed" && j.postedDate == ScrapedNow {
      var k :| 0 <= k < |jobs| && jobs[k] == j;
      assert all[k] == j;
    }
  }
}
