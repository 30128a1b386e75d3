/** The LinkedIn adapter of app/scraper/sources/linkedin.py: a guest search whose cards become
    jobs, a second search of the public job pages used as a fallback, the combination of the
    two, and the reader of a LinkedIn RSS job feed. */
module LinkedIn {
  import opened Wrappers
  import opened Seqs
  import opened Listing

  /** Postings asked for per guest search at most (linkedin.py:49). */
  const MaxCount := 25
  const DescriptionLength := 500
  const ViewUrl := "https://www.linkedin.com/jobs/view/"

  // ----- search_jobs_rss (linkedin.py:28-102) -----

  /** The parameters of the guest search that vary with the call; `geoId`, `start`,
      `position`, `pageNum` and `sortBy` are constants. */
  datatype GuestRequest = GuestRequest(keywords: string, location: string, count: int)

  /** A `base-card`: the stripped text of its title, company and location elements when
      present, its full-link anchor, and the card's stripped text. */
  datatype GuestCard = GuestCard(
    title: Option<string>,
    company: Option<string>,
    location: Option<string>,
    link: Link,
    text: string)

  /** An HTTP response: its status code and the cards of its body. */
  datatype Response<C> = Response(status: int, cards: seq<C>)

  /** A request: its response, or `None` when the request raised. */
  type GuestFetch = GuestRequest -> Option<Response<GuestCard>>

  function GuestSearchRequest(query: string, location: string, limit: int): (r: GuestRequest)
    ensures r.keywords == query && r.location == location
    ensures r.count <= MaxCount && r.count <= limit
    ensures r.count == MaxCount || r.count == limit
  {
    GuestRequest(query, location, if limit < MaxCount then limit else MaxCount)
  }

  /** `link_elem.get('href', '') if link_elem else ''`: never raises. */
  function Href(link: Link): string {
    match link
    case Href(url) => url
    case _ => ""
  }

  /** The job of one guest card (linkedin.py:72-89): `None` unless both the title and the
      company are present. */
  function GuestJob(card: GuestCard, location: string): (r: Option<Job>)
    ensures r.Some? <==> card.title.Some? && card.company.Some?
    ensures r.Some? ==> r.value.title == card.title.value && r.value.company == card.company.value
    ensures r.Some? ==> r.value.location == card.location.GetOr(location)
    ensures r.Some? ==> r.value.description <= card.text
                        && |r.value.description| == if |card.text| < DescriptionLength
                                                    then |card.text| else DescriptionLength
    ensures r.Some? ==> r.value.url == Href(card.link)
    ensures r.Some? ==> r.value.source == "linkedin" && r.value.postedDate == ScrapedNow
                        && r.value.jobType == "not specified" && r.value.experienceLevel == "not specified"
  {
    if card.title.None? || card.company.None? then None
    else
      Some(Job(
        card.title.value,
        card.company.value,
        card.location.GetOr(location),
        SliceTo(card.text, DescriptionLength),
        Href(card.link),
        "linkedin",
        ScrapedNow,
        "not specified",
        "not specified"))
  }

  function GuestReader(location: string): GuestCard -> Option<Job> {
    card => GuestJob(card, location)
  }

  /** The jobs of a guest search: nothing unless the status is 200, and then the jobs of the
      first `limit` cards. */
  function GuestJobs(location: string, limit: int, response: Option<Response<GuestCard>>): seq<Job> {
    if response.None? || response.value.status != 200 then []
    else Kept(SliceTo(response.value.cards, limit), GuestReader(location))
  }

  /** `search_jobs_rss`. `request` is the one request made. */
  method SearchJobsRss(query: string, location: string, limit: int, fetch: GuestFetch)
    returns (jobs: seq<Job>, request: GuestRequest)
    ensures request == GuestSearchRequest(query, location, limit)
    ensures jobs == GuestJobs(location, limit, fetch(request))
  {
    jobs := [];
    request := GuestSearchRequest(query, location, limit);
    var response := fetch(request);
    if response.Some? && response.value.status == 200 {
      jobs := KeepCards(SliceTo(response.value.cards, limit), GuestReader(location));
    }
  }

  /** A response other than 200 gives no jobs; otherwise at most one job per card read, each
      a LinkedIn job from a card with a title and a company. */
  lemma GuestJobsFromCards(location: string, limit: int, response: Option<Response<GuestCard>>)
    ensures (response.None? || response.value.status != 200) ==> GuestJobs(location, limit, response) == []
    ensures response.Some? ==> |GuestJobs(location, limit, response)| <= |SliceTo(response.value.cards, limit)|
    ensures forall j :: j in GuestJobs(location, limit, response) ==>
      exists c :: c in response.value.cards && c.title.Some? && c.company.Some? && GuestJob(c, location) == Some(j)
  {
    if response.Some? && response.value.status == 200 {
      var cards := SliceTo(response.value.cards, limit);
      KeptFromCards(cards, GuestReader(location));
      forall j | j in GuestJobs(location, limit, response)
        ensures exists c :: c in response.value.cards && c.title.Some? && c.company.Some? && GuestJob(c, location) == Some(j)
      {
        var c :| c in cards && GuestReader(location)(c) == Some(j);
        assert c in response.value.cards;
      }
    }
  }

  // ----- search_jobs_alternative (linkedin.py:104-167) -----

  datatype PageRequest = PageRequest(keywords: string, location: string)

  /** A `div` carrying `data-job-id`: the attribute's value, the stripped text of its first
      `h3` and `h4` when present, and its stripped text. */
  datatype Container = Container(jobId: string, title: Option<string>, company: Option<string>, text: string)

  type PageFetch = PageRequest -> Option<Response<Container>>

  /** The job of one container (linkedin.py:142-158): `None` unless both the title and the
      company are present; the location is always the one searched for. */
  function ContainerJob(container: Container, location: string): (r: Option<Job>)
    ensures r.Some? <==> container.title.Some? && container.company.Some?
    ensures r.Some? ==> r.value.title == container.title.value && r.value.company == container.company.value
    ensures r.Some? ==> r.value.location == location
    ensures r.Some? ==> r.value.description <= container.text
                        && |r.value.description| == if |container.text| < DescriptionLength
                                                    then |container.text| else DescriptionLength
    ensures r.Some? ==> (container.jobId == "" ==> r.value.url == "")
                        && (container.jobId != "" ==> r.value.url == ViewUrl + container.jobId)
    ensures r.Some? ==> r.value.source == "linkedin" && r.value.postedDate == ScrapedNow
  {
    if container.title.None? || container.company.None? then None
    else
      Some(Job(
        container.title.value,
        container.company.value,
        location,
        SliceTo(container.text, DescriptionLength),
        if container.jobId != "" then ViewUrl + container.jobId else "",
        "linkedin",
        ScrapedNow,
        "not specified",
        "not specified"))
  }

  function ContainerReader(location: string): Container -> Option<Job> {
    container => ContainerJob(container, location)
  }

  function PageJobs(location: string, limit: int, response: Option<Response<Container>>): seq<Job> {
    if response.None? || response.value.status != 200 then []
    else Kept(SliceTo(response.value.cards, limit), ContainerReader(location))
  }

  /** `search_jobs_alternative`. `request` is the one request made. */
  method SearchJobsAlternative(query: string, location: string, limit: int, fetch: PageFetch)
    returns (jobs: seq<Job>, request: PageRequest)
    ensures request == PageRequest(query, location)
    ensures jobs == PageJobs(location, limit, fetch(request))
  {
    jobs := [];
    request := PageRequest(query, location);
    var response := fetch(request);
    if response.Some? && response.value.status == 200 {
      jobs := KeepCards(SliceTo(response.value.cards, limit), ContainerReader(location));
    }
  }

  /** At most one job per container read, every one located where the search asked. */
  lemma PageJobsFromContainers(location: string, limit: int, response: Option<Response<Container>>)
    ensures (response.None? || response.value.status != 200) ==> PageJobs(location, limit, response) == []
    ensures response.Some? ==> |PageJobs(location, limit, response)| <= |SliceTo(response.value.cards, limit)|
    ensures forall j :: j in PageJobs(location, limit, response) ==> j.location == location && j.source == "linkedin"
  {
    if response.Some? && response.value.status == 200 {
      var cards := SliceTo(response.value.cards, limit);
      KeptFromCards(cards, ContainerReader(location));
    }
  }

  // ----- search_jobs (linkedin.py:169-191) -----

  /** `len(jobs) < limit // 2`: the guest search fell short and the fallback runs. */
  predicate NeedsFallback(found: nat, limit: int) {
    found < limit / 2
  }

  /** The combined result from the two searches' answers. */
  function Combined(query: string, location: string, limit: int,
                    guest: Option<Response<GuestCard>>, page: Option<Response<Container>>): seq<Job> {
    Merged(location, limit, GuestJobs(location, limit, guest), page)
  }

  /** The guest jobs `first`, topped up from the fallback when they fall short, then `[:limit]`. */
  function Merged(location: string, limit: int, first: seq<Job>, page: Option<Response<Container>>): seq<Job> {
    if NeedsFallback(|first|, limit) then SliceTo(first + PageJobs(location, limit - |first|, page), limit)
    else SliceTo(first, limit)
  }

  /** `search_jobs`: the guest search, the fallback asked for the jobs still missing when the
      guest search found fewer than half of `limit`, then `[:limit]`. `fallback` is the
      fallback request when one was made. */
  method SearchJobs(query: string, location: string, limit: int, guestFetch: GuestFetch, pageFetch: PageFetch)
    returns (jobs: seq<Job>, guest: GuestRequest, fallback: Option<PageRequest>)
    ensures guest == GuestSearchRequest(query, location, limit)
    ensures fallback.Some? <==> NeedsFallback(|GuestJobs(location, limit, guestFetch(guest))|, limit)
    ensures fallback.Some? ==> fallback.value == PageRequest(query, location)
    ensures jobs == Combined(query, location, limit, guestFetch(guest),
                             if fallback.Some? then pageFetch(fallback.value) else None)
  {
    var first;
    first, guest := SearchJobsRss(query, location, limit, guestFetch);
    if |first| < limit / 2 {
      var more, request := SearchJobsAlternative(query, location, limit - |first|, pageFetch);
      fallback := Some(request);
      CombinedOf(query, location, limit, guestFetch(guest), pageFetch(request), first, more);
      jobs := SliceTo(first + more, limit);
    } else {
      fallback := None;
      CombinedOf(query, location, limit, guestFetch(guest), None, first, []);
      jobs := SliceTo(first, limit);
    }
  }

  /** `Combined` from the jobs of the two searches. */
  lemma CombinedOf(query: string, location: string, limit: int,
                   guest: Option<Response<GuestCard>>, page: Option<Response<Container>>,
                   first: seq<Job>, more: seq<Job>)
    requires first == GuestJobs(location, limit, guest)
    requires NeedsFallback(|first|, limit) ==> more == PageJobs(location, limit - |first|, page)
    ensures NeedsFallback(|first|, limit) ==> Combined(query, location, limit, guest, page) == SliceTo(first + more, limit)
    ensures !NeedsFallback(|first|, limit) ==> Combined(query, location, limit, guest, page) == SliceTo(first, limit)
  {
    var merged := Merged(location, limit, first, page);
    assert Combined(query, location, limit, guest, page) == merged;
    if NeedsFallback(|first|, limit) {
      assert merged == SliceTo(first + more, limit);
    } else {
      assert merged == SliceTo(first, limit);
    }
  }

  /** For a non-negative limit the result never exceeds `limit`, the guest jobs come first
      and are all kept, and the final `[:limit]` drops nothing: the fallback is only asked
      for what is missing. */
  lemma CombinedKeepsGuestJobs(query: string, location: string, limit: int,
                               guest: Option<Response<GuestCard>>, page: Option<Response<Container>>)
    requires 0 <= limit
    ensures var first := GuestJobs(location, limit, guest);
      var result := Combined(query, location, limit, guest, page);
      |result| <= limit
      && first <= result
      && (NeedsFallback(|first|, limit) ==> result == first + PageJobs(location, limit - |first|, page))
      && (!NeedsFallback(|first|, limit) ==> result == first)
  {
    var first := GuestJobs(location, limit, guest);
    GuestJobsAtMost(location, limit, guest);
    if NeedsFallback(|first|, limit) {
      var more := PageJobs(location, limit - |first|, page);
      PageJobsAtMost(location, limit - |first|, page);
      CombinedOf(query, location, limit, guest, page, first, more);
      SliceToAll(first + more, limit);
      assert (first + more)[..|first|] == first;
    } else {
      CombinedOf(query, location, limit, guest, page, first, []);
      SliceToAll(first, limit);
    }
  }

  lemma GuestJobsAtMost(location: string, limit: int, response: Option<Response<GuestCard>>)
    requires 0 <= limit
    ensures |GuestJobs(location, limit, response)| <= limit
  {
    if response.Some? && response.value.status == 200 {
      KeptFromCards(SliceTo(response.value.cards, limit), GuestReader(location));
    }
  }

  lemma PageJobsAtMost(location: string, limit: int, response: Option<Response<Container>>)
    requires 0 <= limit
    ensures |PageJobs(location, limit, response)| <= limit
  {
    if response.Some? && response.value.status == 200 {
      KeptFromCards(SliceTo(response.value.cards, limit), ContainerReader(location));
    }
  }

  /** Without a shortfall no fallback runs: when the guest search found at least half of
      `limit`, whatever the fallback would have answered does not matter. */
  lemma NoShortfallNoFallback(query: string, location: string, limit: int,
                              guest: Option<Response<GuestCard>>, page: Option<Response<Container>>)
    requires !NeedsFallback(|GuestJobs(location, limit, guest)|, limit)
    ensures Combined(query, location, limit, guest, page) == Combined(query, location, limit, guest, None)
  {
  }

  // ----- LinkedInRSSFeed.parse_rss_feed (linkedin.py:230-267) -----

  /** An `<item>` of the feed: the text of each child element, `None` when the element is
      absent. */
  datatype FeedItem = FeedItem(title: Option<string>, description: Option<string>, link: Option<string>,
                               pubDate: Option<string>)

  /** The feed response: its status code and, for a body that parses as XML, its items. */
  datatype Feed = Feed(status: int, items: Option<seq<FeedItem>>)

  type FeedFetch = string -> Option<Feed>

  /** The job of one item: every absent element reads as ''. */
  function FeedJob(item: FeedItem): (j: Job)
    ensures j.title == item.title.GetOr("") && j.description == item.description.GetOr("")
    ensures j.url == item.link.GetOr("") && j.postedDate == Verbatim(item.pubDate.GetOr(""))
    ensures j.source == "linkedin_rss" && j.company == "LinkedIn" && j.location == "Various"
    ensures j.jobType == "not specified" && j.experienceLevel == "not specified"
  {
    Job(item.title.GetOr(""), "LinkedIn", "Various", item.description.GetOr(""), item.link.GetOr(""),
        "linkedin_rss", Verbatim(item.pubDate.GetOr("")), "not specified", "not specified")
  }

  /** The jobs of a feed: one per item, in order, when the status is 200 and the body parses. */
  function FeedJobs(feed: Option<Feed>): seq<Job> {
    if feed.None? || feed.value.status != 200 || feed.value.items.None? then []
    else seq(|feed.value.items.value|, i requires 0 <= i < |feed.value.items.value| => FeedJob(feed.value.items.value[i]))
  }

  /** `parse_rss_feed`: requests `url` and reads every `<item>` of the answer. */
  method ParseRssFeed(url: string, fetch: FeedFetch) returns (jobs: seq<Job>)
    ensures jobs == FeedJobs(fetch(url))
  {
    jobs := [];
    var feed := fetch(url);
    if feed.None? || feed.value.status != 200 || feed.value.items.None? {
      return;
    }
    var items := feed.value.items.value;
    var i := 0;
    while i < |items|
      invariant 0 <= i <= |items|
      invariant |jobs| == i
      invariant forall k :: 0 <= k < i ==> jobs[k] == FeedJob(items[k])
    {
      jobs := jobs + [FeedJob(items[i])];
      i := i + 1;
    }
  }
}
