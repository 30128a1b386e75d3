/** The Stack Overflow adapter of app/scraper/sources/stackoverflow.py: result pages of at
    most fifteen cards each; the first page whose request fails ends the whole search. */
module StackOverflow {
  import opened Wrappers
  import opened Seqs
  import opened Text
  import opened Listing

  /** The query parameters of one page request (stackoverflow.py:30-36); `l` only when a
      location was given. */
  datatype Request = Request(q: string, pg: int, l: Option<string>)

  /** One `s-post-summary` card: the stripped text of its `h2`, `h3` and location span when
      present, the anchor inside the `h2`, and the card's whole text with and without
      `strip=True`. */
  datatype Card = Card(
    title: Option<string>,
    titleLink: Link,
    company: Option<string>,
    location: Option<string>,
    strippedText: string,
    text: string)

  /** A page request: the cards of the page, or `None` when the request or
      `raise_for_status` raised. */
  type Fetch = Request -> Option<seq<Card>>

  /** Cards read per page, and characters of description kept per card. */
  const CardsPerPage := 15
  const DescriptionLength := 500

  /** `range(limit // 15 + 1)` (stackoverflow.py:26-29). */
  function PageCount(limit: int): nat {
    if limit / CardsPerPage + 1 < 0 then 0 else limit / CardsPerPage + 1
  }

  /** Enough pages of fifteen cards for `limit` jobs; none for a negative limit. */
  lemma PageCountCovers(limit: int)
    ensures 0 <= limit ==> PageCount(limit) >= 1 && CardsPerPage * PageCount(limit) > limit
                           && CardsPerPage * (PageCount(limit) - 1) <= limit
    ensures limit < 0 ==> PageCount(limit) == 0
  {
  }

  /** The request for the zero-based `page`: pages are numbered from one on the wire. */
  function PageRequest(query: string, location: string, page: int): (r: Request)
    ensures r.q == query && r.pg == page + 1
    ensures r.l.Some? <==> location != ""
    ensures r.l.Some? ==> r.l.value == location
  {
    Request(query, page + 1, if location != "" then Some(location) else None)
  }

  /** `'remote' in text.lower()`. */
  predicate MentionsRemote(text: string) {
    Contains(Lower(text), "remote")
  }

  /** The job of one card (stackoverflow.py:52-69): a card needs only its title; a title
      anchor without an `href` raises inside the card's `try` and skips the card. */
  function CardJob(card: Card, location: string, experienceLevel: Option<string>): (r: Option<Job>)
    ensures r.Some? <==> card.title.Some? && card.titleLink != LinkWithoutHref
    ensures r.Some? ==> r.value.title == card.title.value
    ensures r.Some? ==> r.value.company == card.company.GetOr("Unknown")
    ensures r.Some? ==> r.value.location == card.location.GetOr(location)
    ensures r.Some? ==> r.value.description <= card.strippedText
                        && |r.value.description| == if |card.strippedText| < DescriptionLength
                                                    then |card.strippedText| else DescriptionLength
    ensures r.Some? ==> (r.value.jobType == "remote" <==> MentionsRemote(card.text))
                        && (r.value.jobType == "remote" || r.value.jobType == "on-site")
    ensures r.Some? ==> r.value.source == "stackoverflow" && r.value.postedDate == ScrapedNow
  {
    if card.title.None? then None
    else match AnchorUrl(card.titleLink)
      case None => None
      case Some(url) =>
        Some(Job(
          card.title.value,
          card.company.GetOr("Unknown"),
          card.location.GetOr(location),
          SliceTo(card.strippedText, DescriptionLength),
          url,
          "stackoverflow",
          ScrapedNow,
          if MentionsRemote(card.text) then "remote" else "on-site",
          OrDefault(experienceLevel, "not specified")))
  }

  /** The per-card reader of one search. */
  function CardReader(location: string, experienceLevel: Option<string>): Card -> Option<Job> {
    card => CardJob(card, location, experienceLevel)
  }

  /** The jobs of one page: only its first fifteen cards are read (stackoverflow.py:51). */
  function PageJobs(cards: seq<Card>, location: string, experienceLevel: Option<string>): seq<Job> {
    Kept(SliceTo(cards, CardsPerPage), CardReader(location, experienceLevel))
  }

  /** The jobs of pages `page` up to `pages`, stopping at the first page that fails. */
  function Crawl(query: string, location: string, experienceLevel: Option<string>, fetch: Fetch,
                 page: nat, pages: nat): seq<Job>
    decreases pages - page
  {
    if pages <= page then []
    else match fetch(PageRequest(query, location, page))
      case None => []
      case Some(cards) => PageJobs(cards, location, experienceLevel)
                          + Crawl(query, location, experienceLevel, fetch, page + 1, pages)
  }

  /** The requests made for pages `page` up to `pages`: the failing one is the last. */
  function Issued(query: string, location: string, fetch: Fetch, page: nat, pages: nat): seq<Request>
    decreases pages - page
  {
    if pages <= page then []
    else
      var r := PageRequest(query, location, page);
      [r] + (if fetch(r).None? then [] else Issued(query, location, fetch, page + 1, pages))
  }

  /** One page of the crawl: a page that answers adds its jobs and the crawl moves on;
      a page that fails is the last request and adds nothing. */
  lemma CrawlStep(query: string, location: string, experienceLevel: Option<string>, fetch: Fetch,
                  page: nat, pages: nat, response: Option<seq<Card>>)
    requires page < pages && response == fetch(PageRequest(query, location, page))
    ensures response.None? ==> Crawl(query, location, experienceLevel, fetch, page, pages) == []
                               && Issued(query, location, fetch, page, pages) == [PageRequest(query, location, page)]
    ensures response.Some? ==>
      Crawl(query, location, experienceLevel, fetch, page, pages)
        == PageJobs(response.value, location, experienceLevel) + Crawl(query, location, experienceLevel, fetch, page + 1, pages)
      && Issued(query, location, fetch, page, pages)
        == [PageRequest(query, location, page)] + Issued(query, location, fetch, page + 1, pages)
  {
  }

  /** The loop's account after a page that answered with `cards`. */
  lemma CrawlAdvance(query: string, location: string, experienceLevel: Option<string>, fetch: Fetch,
                     page: nat, pages: nat, cards: seq<Card>, all: seq<Job>, requests: seq<Request>)
    requires page < pages && fetch(PageRequest(query, location, page)) == Some(cards)
    requires Crawl(query, location, experienceLevel, fetch, 0, pages)
             == all + Crawl(query, location, experienceLevel, fetch, page, pages)
    requires Issued(query, location, fetch, 0, pages) == requests + Issued(query, location, fetch, page, pages)
    ensures Crawl(query, location, experienceLevel, fetch, 0, pages)
            == (all + PageJobs(cards, location, experienceLevel)) + Crawl(query, location, experienceLevel, fetch, page + 1, pages)
    ensures Issued(query, location, fetch, 0, pages)
            == (requests + [PageRequest(query, location, page)]) + Issued(query, location, fetch, page + 1, pages)
  {
    CrawlStep(query, location, experienceLevel, fetch, page, pages, Some(cards));
    Regroup(all, PageJobs(cards, location, experienceLevel), Crawl(query, location, experienceLevel, fetch, page + 1, pages),
            Crawl(query, location, experienceLevel, fetch, page, pages));
    Regroup(requests, [PageRequest(query, location, page)], Issued(query, location, fetch, page + 1, pages),
            Issued(query, location, fetch, page, pages));
  }

  /** The loop's account after a page that failed: the crawl is over. */
  lemma CrawlStop(query: string, location: string, experienceLevel: Option<string>, fetch: Fetch,
                  page: nat, pages: nat, all: seq<Job>, requests: seq<Request>)
    requires page < pages && fetch(PageRequest(query, location, page)).None?
    requires Crawl(query, location, experienceLevel, fetch, 0, pages)
             == all + Crawl(query, location, experienceLevel, fetch, page, pages)
    requires Issued(query, location, fetch, 0, pages) == requests + Issued(query, location, fetch, page, pages)
    ensures Crawl(query, location, experienceLevel, fetch, 0, pages) == all
    ensures Issued(query, location, fetch, 0, pages) == requests + [PageRequest(query, location, page)]
  {
    CrawlStep(query, location, experienceLevel, fetch, page, pages, None);
    assert all + [] == all;
  }

  /** `search_jobs` (stackoverflow.py:17-78). `requests` is the sequence of page requests made. */
  method SearchJobs(query: string, location: string, experienceLevel: Option<string>, limit: int, fetch: Fetch)
    returns (jobs: seq<Job>, requests: seq<Request>)
    ensures requests == Issued(query, location, fetch, 0, PageCount(limit))
    ensures jobs == SliceTo(Crawl(query, location, experienceLevel, fetch, 0, PageCount(limit)), limit)
  {
    var pages := PageCount(limit);
    var all: seq<Job> := [];
    requests := [];
    var page: nat := 0;
    while page < pages
      invariant page <= pages
      invariant Crawl(query, location, experienceLevel, fetch, 0, pages)
                == all + Crawl(query, location, experienceLevel, fetch, page, pages)
      invariant Issued(query, location, fetch, 0, pages) == requests + Issued(query, location, fetch, page, pages)
      decreases pages - page
    {
      var request := PageRequest(query, location, page);
      var response := fetch(request);
      if response.None? {
        CrawlStop(query, location, experienceLevel, fetch, page, pages, all, requests);
        requests := requests + [request];
        jobs := SliceTo(all, limit);
        return;
      }
      CrawlAdvance(query, location, experienceLevel, fetch, page, pages, response.value, all, requests);
      requests := requests + [request];
      var found := KeepCards(SliceTo(response.value, CardsPerPage), CardReader(location, experienceLevel));
      all := all + found;
      page := page + 1;
    }
    assert requests + [] == requests && all + [] == all;
    jobs := SliceTo(all, limit);
  }

  /** A page contributes at most fifteen jobs, all Stack Overflow jobs dated at scraping. */
  lemma PageJobsBounded(cards: seq<Card>, location: string, experienceLevel: Option<string>)
    ensures |PageJobs(cards, location, experienceLevel)| <= CardsPerPage
    ensures forall j :: j in PageJobs(cards, location, experienceLevel) ==>
      j.source == "stackoverflow" && j.postedDate == ScrapedNow
  {
    KeptFromCards(SliceTo(cards, CardsPerPage), CardReader(location, experienceLevel));
  }

  /** The requests go out page by page from `page`, and each failure is the last request. */
  lemma {:induction false} IssuedInOrder(query: string, location: string, fetch: Fetch, page: nat, pages: nat)
    ensures |Issued(query, location, fetch, page, pages)| <= if pages <= page then 0 else pages - page
    ensures forall i :: 0 <= i < |Issued(query, location, fetch, page, pages)| ==>
      Issued(query, location, fetch, page, pages)[i] == PageRequest(query, location, page + i)
    ensures forall i :: 0 <= i < |Issued(query, location, fetch, page, pages)| - 1 ==>
      fetch(Issued(query, location, fetch, page, pages)[i]).Some?
    decreases pages - page
  {
    if page < pages {
      var r := PageRequest(query, location, page);
      if fetch(r).Some? {
        IssuedInOrder(query, location, fetch, page + 1, pages);
        var rest := Issued(query, location, fetch, page + 1, pages);
        assert Issued(query, location, fetch, page, pages) == [r] + rest;
      }
    }
  }

  /** A failing page ends the search with the jobs of the pages before it: later pages are
      never read (the `try` encloses the whole page loop, stackoverflow.py:28-76). */
  lemma {:induction false} FailedPageEndsCrawl(query: string, location: string, experienceLevel: Option<string>,
                                               fetch: Fetch, page: nat, failed: nat, pages: nat)
    requires page <= failed < pages
    requires fetch(PageRequest(query, location, failed)).None?
    ensures Crawl(query, location, experienceLevel, fetch, page, pages)
            == Crawl(query, location, experienceLevel, fetch, page, failed)
    decreases failed - page
  {
    if page < failed {
      FailedPageEndsCrawl(query, location, experienceLevel, fetch, page + 1, failed, pages);
    }
  }

  /** Every page crawled adds at most fifteen Stack Overflow jobs. */
  lemma {:induction false} CrawlBounded(query: string, location: string, experienceLevel: Option<string>,
                                        fetch: Fetch, page: nat, pages: nat)
    ensures |Crawl(query, location, experienceLevel, fetch, page, pages)|
            <= CardsPerPage * (if pages <= page then 0 else pages - page)
    ensures forall j :: j in Crawl(query, location, experienceLevel, fetch, page, pages) ==>
      j.source == "stackoverflow" && j.postedDate == ScrapedNow
    decreases pages - page
  {
    if page < pages {
      var response := fetch(PageRequest(query, location, page));
      if response.Some? {
        PageJobsBounded(response.value, location, experienceLevel);
        CrawlBounded(query, location, experienceLevel, fetch, page + 1, pages);
      }
    }
  }

  /** The search returns at most `limit` jobs, each a Stack Overflow job. */
  lemma SearchJobsBounded(query: string, location: string, experienceLevel: Option<string>, limit: int, fetch: Fetch)
    ensures var jobs := SliceTo(Crawl(query, location, experienceLevel, fetch, 0, PageCount(limit)), limit);
      |jobs| <= (if limit < 0 then 0 else limit)
      && forall j :: j in jobs ==> j.source == "stackoverflow" && j.postedDate == ScrapedNow
  {
    var all := Crawl(query, location, experienceLevel, fetch, 0, PageCount(limit));
    CrawlBounded(query, location, experienceLevel, fetch, 0, PageCount(limit));
    var jobs := SliceTo(all, limit);
    forall j | j in jobs ensures j.source == "stackoverflow" && j.postedDate == ScrapedNow {
      var k :| 0 <= k < |jobs| && jobs[k] == j;
      assert all[k] == j;
    }
  }
}
