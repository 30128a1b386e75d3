/** The RemoteOK adapter of app/scraper/sources/remoteok.py: one request returns the whole
    public feed, which is filtered on the client by query terms and location. */
module RemoteOk {
  import opened Wrappers
  import opened Text
  import opened Listing

  /** One element of the feed's JSON array; `None` is a missing key. */
  datatype FeedItem = FeedItem(
    position: Option<string>,
    company: Option<string>,
    tags: Option<seq<string>>,
    location: Option<string>,
    description: Option<string>,
    url: Option<string>,
    date: Option<Stamp>)

  /** What one request to the feed yields: `None` when it raises, has an error status or
      is not JSON. */
  type Feed = Option<seq<FeedItem>>

  // ------------------------------------------------------------ query

  /** `q_lower` after acronym expansion (remoteok.py:52-58): a query that is "ml" or holds
      "ml " gets every "ml" replaced, inside words too; then the same for "ai". */
  function ExpandQuery(query: string): string {
    var q := Lower(query);
    var q1 := if Contains(q, "ml ") || q == "ml" then ReplaceAll(q, "ml", "machine learning") else q;
    if Contains(q1, "ai ") || q1 == "ai" then ReplaceAll(q1, "ai", "artificial intelligence") else q1
  }

  lemma MachineLearningHasNoMl()
    ensures !Contains("machine learning", "ml")
  {
    AbsentPair("machine learning", "ml");
  }

  /** Once triggered, the "ml" expansion leaves no "ml" behind. */
  lemma MlExpansionIsComplete(query: string)
    requires Contains(Lower(query), "ml ") || Lower(query) == "ml"
    ensures !Contains(ReplaceAll(Lower(query), "ml", "machine learning"), "ml")
  {
    MachineLearningHasNoMl();
    ReplaceAllRemoves(Lower(query), "ml", "machine learning");
  }

  /** "ml engineer" is searched as "machine learning engineer". */
  lemma ExpandMlEngineer(query: string)
    requires query == "ml engineer"
    ensures ExpandQuery(query) == "machine learning engineer"
  {
    LowerMlEngineer(query);
    ReplaceMlEngineer(query, "machine learning", "machine learning engineer");
    NoAiInMachineLearningEngineer();
  }

  lemma LowerMlEngineer(query: string)
    requires query == "ml engineer"
    ensures Lower(query) == query && Contains(query, "ml ")
  {
    assert query[..3] == "ml ";
    ContainsAt(query, "ml ", 0);
  }

  lemma ReplaceMlEngineer(s: string, r: string, t: string)
    requires s == "ml engineer" && r == "machine learning" && t == "machine learning engineer"
    ensures ReplaceAll(s, "ml", r) == t
  {
    assert s[..2] == "ml";
    assert s[2..] == " engineer";
    AbsentHead(" engineer", "ml");
    ReplaceHeadOnly(s, "ml", r);
    assert r + " engineer" == t;
  }

  lemma NoAiInMachineLearningEngineer()
    ensures !Contains("machine learning engineer", "ai ") && "machine learning engineer" != "ai"
  {
    AbsentPair("machine learning engineer", "ai ");
  }

  /** The expansion fires only on "ml " somewhere in the query or on the query "ml" itself:
      in "senior ml" the "ml" is neither, so the query is searched as it stands. */
  lemma TrailingMlIsNotExpanded()
    ensures ExpandQuery("senior ml") == "senior ml"
  {
    var q := "senior ml";
    assert Lower(q) == q;
    forall i | 0 <= i <= |q| - 3 ensures !OccursAt(q, "ml ", i) && !OccursAt(q, "ai ", i) {
      assert q[i..i + 3][0] == q[i];
    }
  }

  /** `set(q_lower.split())`. */
  function Terms(q: string): set<string> {
    set w | w in Words(q)
  }

  /** The query terms that occur in the searched text; `match_count` is its size. */
  function FoundTerms(terms: set<string>, text: string): (found: set<string>)
    ensures found <= terms
  {
    set t | t in terms && Contains(text, t)
  }

  /** remoteok.py:62-77: all terms (or the whole query) for at most two terms,
      a third of them for more. */
  predicate QueryMatches(q: string, text: string) {
    var terms := Terms(q);
    var found := |FoundTerms(terms, text)|;
    if |terms| <= 2 then found == |terms| || Contains(text, q)
    else found as real / |terms| as real >= 0.33
  }

  lemma SubsetSameSize<T>(a: set<T>, b: set<T>)
    requires a <= b && |a| == |b|
    ensures a == b
  {
    if a != {} {
      var x :| x in a;
      SubsetSameSize(a - {x}, b - {x});
    }
  }

  /** A short query matches iff every term occurs in the text or the whole query does. */
  lemma ShortQueryRule(q: string, text: string)
    requires |Terms(q)| <= 2
    ensures QueryMatches(q, text)
            <==> (forall t :: t in Terms(q) ==> Contains(text, t)) || Contains(text, q)
  {
    var terms := Terms(q);
    var found := FoundTerms(terms, text);
    if |found| == |terms| {
      SubsetSameSize(found, terms);
    }
    if forall t :: t in terms ==> Contains(text, t) {
      assert found == terms;
    }
  }

  /** A longer query matches iff at least 33 of every 100 terms occur. */
  lemma LongQueryRule(q: string, text: string)
    requires |Terms(q)| > 2
    ensures QueryMatches(q, text) <==> 100 * |FoundTerms(Terms(q), text)| >= 33 * |Terms(q)|
  {
    RatioRule(|FoundTerms(Terms(q), text)|, |Terms(q)|);
  }

  /** `found / size >= 0.33` on exact reals is `100 * found >= 33 * size` on integers. */
  lemma RatioRule(count: nat, size: nat)
    requires size > 0
    ensures count as real / size as real >= 0.33 <==> 100 * count >= 33 * size
  {
    var n := size as real;
    var f := count as real;
    var r := f / n;
    QuotientTimesDivisor(f, n);
    ScaledComparison(r, n);
    assert (100 * count) as real == 100.0 * f && (33 * size) as real == 33.0 * n;
  }

  lemma QuotientTimesDivisor(f: real, n: real)
    requires n > 0.0
    ensures (f / n) * n == f
  {
  }

  /** Multiplying by a positive `n` keeps the side of 0.33 a ratio falls on. */
  lemma ScaledComparison(r: real, n: real)
    requires n > 0.0
    ensures r >= 0.33 <==> 100.0 * (r * n) >= 33.0 * n
  {
    if r >= 0.33 {
      ProductNonNegative(r - 0.33, n);
      assert (r - 0.33) * n == r * n - 0.33 * n;
    } else {
      ProductNonNegative(0.33 - r, n);
      assert (0.33 - r) * n == 0.33 * n - r * n;
    }
  }

  lemma ProductNonNegative(x: real, y: real)
    requires 0.0 <= x && 0.0 < y
    ensures 0.0 <= x * y && (0.0 < x ==> 0.0 < x * y)
  {
  }

  /** A whitespace-only query has no terms, and so matches every item. */
  lemma BlankQueryMatchesAll(q: string, text: string)
    requires forall i :: 0 <= i < |q| ==> IsSpace(q[i])
    ensures Terms(q) == {} && QueryMatches(q, text)
  {
    assert TrimStart(q) == [];
    assert Words(q) == [];
  }

  /** An item whose text holds the whole (expanded) query always matches it, whatever
      the number of terms. */
  lemma WholeQueryMatches(q: string, text: string)
    requires Contains(text, q)
    ensures QueryMatches(q, text)
  {
    WordsOfContained(text, q);
    AllTermsFound(q, text);
  }

  /** A query all of whose terms occur matches, whatever the number of terms. */
  lemma AllTermsFound(q: string, text: string)
    requires forall w :: w in Words(q) ==> Contains(text, w)
    ensures QueryMatches(q, text)
  {
    var terms := Terms(q);
    assert FoundTerms(terms, text) == terms;
    if |terms| > 2 {
      RatioRule(|terms|, |terms|);
    }
  }

  /** A listing whose text holds "machine learning engineer" matches the query "ml engineer". */
  lemma MlEngineerMatchesExpandedListing(query: string, text: string)
    requires query == "ml engineer" && Contains(text, "machine learning engineer")
    ensures QueryMatches(ExpandQuery(query), text)
  {
    ExpandMlEngineer(query);
    WholeQueryMatches("machine learning engineer", text);
  }

  // ------------------------------------------------------------ item

  /** `position company tags`, lower-cased (remoteok.py:45-49); the description is not searched. */
  function SearchText(item: FeedItem): string {
    Lower(item.position.GetOr("") + " " + item.company.GetOr("") + " " + Join(" ", item.tags.GetOr([])))
  }

  /** The item's location for matching: missing or empty reads as "remote" (remoteok.py:81-82). */
  function JobLocation(item: FeedItem): (loc: string)
    ensures loc != ""
  {
    var l := Lower(item.location.GetOr("remote"));
    if l == "" then "remote" else l
  }

  /** remoteok.py:84-98. */
  predicate LocationMatches(filter: string, jobLoc: string) {
    filter == ""
    || Lower(filter) == "remote"
    || Contains(jobLoc, Lower(filter))
    || Contains(jobLoc, "worldwide")
    || Contains(jobLoc, "anywhere")
    || Contains(jobLoc, "remote")
  }

  /** An item without a location, or with an empty one, passes every location filter. */
  lemma UnlocatedItemPassesAnyFilter(filter: string, item: FeedItem)
    requires item.location.None? || item.location.value == ""
    ensures LocationMatches(filter, JobLocation(item))
  {
    assert JobLocation(item) == "remote";
    ContainsSelf("remote");
  }

  predicate Accepts(q: string, location: string, item: FeedItem) {
    QueryMatches(q, SearchText(item)) && LocationMatches(location, JobLocation(item))
  }

  /** The job built from an accepted item (remoteok.py:100-112); `None` when its date is
      truthy and `fromisoformat` rejects it, which raises out of the loop. */
  function ItemJob(item: FeedItem): (r: Option<Job>)
    ensures r.Some? ==> r.value.source == "remoteok" && r.value.jobType == "remote"
                        && r.value.experienceLevel == "not specified"
    ensures r.Some? ==> r.value.location == item.location.GetOr("Remote")
    ensures r.Some? ==> r.value.postedDate.IsDatetime()
    ensures r.None? <==> item.date.Some? && item.date.value.text != "" && !item.date.value.isoFormat
  {
    var posted :=
      if item.date.Some? && item.date.value.text != "" then
        (if item.date.value.isoFormat then Some(Parsed(item.date.value.text)) else None)
      else Some(ScrapedNow);
    if posted.None? then None
    else Some(Job(
      item.position.GetOr(""),
      item.company.GetOr(""),
      item.location.GetOr("Remote"),
      item.description.GetOr(""),
      item.url.GetOr(""),
      "remoteok",
      posted.value,
      "remote",
      "not specified"))
  }

  // ------------------------------------------------------------ the scan

  /** What the loop body does with one item: skip it, leave the loop (the date raised),
      or keep its job. */
  datatype Verdict = Skip | Stop | Take(job: Job)

  /** The body of the loop of remoteok.py:44-112, in the order the source tests:
      query terms, then location, then the date. */
  function ItemVerdict(q: string, location: string, item: FeedItem): (v: Verdict)
    ensures v.Take? <==> Accepts(q, location, item) && ItemJob(item).Some?
    ensures v.Take? ==> ItemJob(item) == Some(v.job)
    ensures v.Stop? <==> Accepts(q, location, item) && ItemJob(item).None?
  {
    if !QueryMatches(q, SearchText(item)) then Skip
    else if !LocationMatches(location, JobLocation(item)) then Skip
    else match ItemJob(item)
      case None => Stop
      case Some(j) => Take(j)
  }

  /** The verdict function of one search. */
  function Judge(q: string, location: string): FeedItem -> Verdict {
    item => ItemVerdict(q, location, item)
  }

  /** The loop of remoteok.py:40-113 over the items after the first, with `budget` jobs
      still allowed and `judge` deciding each item: it stops when the budget is used up or
      an item stops it. */
  function Scan(items: seq<FeedItem>, judge: FeedItem -> Verdict, budget: int): seq<Job> {
    if items == [] || budget <= 0 then []
    else match judge(items[0])
      case Skip => Scan(items[1..], judge, budget)
      case Stop => []
      case Take(j) => [j] + Scan(items[1..], judge, budget - 1)
  }

  /** The loop itself. */
  method ScanItems(items: seq<FeedItem>, judge: FeedItem -> Verdict, limit: int) returns (jobs: seq<Job>)
    ensures jobs == Scan(items, judge, limit)
  {
    jobs := [];
    var i := 0;
    while i < |items|
      invariant 0 <= i <= |items|
      invariant Scan(items, judge, limit) == jobs + Scan(items[i..], judge, limit - |jobs|)
    {
      assert items[i..][1..] == items[i + 1..];
      if |jobs| >= limit {
        break;
      }
      var v := judge(items[i]);
      if v.Stop? {
        break;
      }
      if v.Take? {
        jobs := jobs + [v.job];
      }
      i := i + 1;
    }
  }

  /** Every kept job in feed order, up to the first item that stops the loop. */
  function Matches(items: seq<FeedItem>, judge: FeedItem -> Verdict): seq<Job> {
    if items == [] then []
    else match judge(items[0])
      case Skip => Matches(items[1..], judge)
      case Stop => []
      case Take(j) => [j] + Matches(items[1..], judge)
  }

  /** The scan returns the first `budget` matches in feed order: never more than the
      budget, never out of order. */
  lemma {:induction false} ScanTakesFirstMatches(items: seq<FeedItem>, judge: FeedItem -> Verdict, budget: int)
    ensures var m := Matches(items, judge);
      Scan(items, judge, budget) == m[..if budget <= 0 then 0 else if budget < |m| then budget else |m|]
  {
    if items != [] && budget > 0 {
      ScanTakesFirstMatches(items[1..], judge, budget - 1);
      ScanTakesFirstMatches(items[1..], judge, budget);
    }
  }

  /** Every matched job is the job of an item the judge kept. */
  lemma {:induction false} MatchesAreKept(items: seq<FeedItem>, judge: FeedItem -> Verdict)
    ensures forall j :: j in Matches(items, judge) ==> (exists it :: it in items && judge(it) == Take(j))
  {
    if items != [] {
      MatchesAreKept(items[1..], judge);
      forall j | j in Matches(items, judge)
        ensures exists it :: it in items && judge(it) == Take(j)
      {
        if judge(items[0]) == Take(j) {
          assert items[0] in items;
        } else {
          assert j in Matches(items[1..], judge);
          var it :| it in items[1..] && judge(it) == Take(j);
          assert it in items;
        }
      }
    }
  }

  /** Without a location filter an item is kept iff it matches the query and its date
      parses: the retry filters on the query alone. */
  lemma EmptyFilterJudgesQueryOnly(q: string, item: FeedItem)
    ensures ItemVerdict(q, "", item).Take? <==> QueryMatches(q, SearchText(item)) && ItemJob(item).Some?
  {
  }

  /** A job a search keeps comes from an item that passes both filters, and carries
      RemoteOK's fixed fields. */
  lemma MatchesAreAccepted(items: seq<FeedItem>, q: string, location: string)
    ensures forall j :: j in Matches(items, Judge(q, location)) ==>
      (exists it :: it in items && Accepts(q, location, it) && ItemJob(it) == Some(j))
    ensures forall j :: j in Matches(items, Judge(q, location)) ==>
      (j.source == "remoteok" && j.jobType == "remote")
  {
    MatchesAreKept(items, Judge(q, location));
    forall j | j in Matches(items, Judge(q, location))
      ensures exists it :: it in items && Accepts(q, location, it) && ItemJob(it) == Some(j)
    {
      var it :| it in items && Judge(q, location)(it) == Take(j);
      assert ItemVerdict(q, location, it) == Take(j);
    }
  }

  /** `data[1:]`: the first element is a notice, not a job. */
  function Listings(data: seq<FeedItem>): seq<FeedItem> {
    if |data| >= 1 then data[1..] else []
  }

  /** The jobs one request yields; a failed request yields none. */
  function FeedJobs(feed: Feed, query: string, location: string, limit: int): seq<Job> {
    match feed
    case None => []
    case Some(data) => Scan(Listings(data), Judge(ExpandQuery(query), location), limit)
  }

  /** One request and its scan: the try block of remoteok.py:24-116. */
  method ScanFeed(query: string, location: string, limit: int, feed: Feed) returns (jobs: seq<Job>)
    ensures jobs == FeedJobs(feed, query, location, limit)
  {
    jobs := [];
    if feed.None? {
      return;
    }
    var q := ExpandQuery(query);
    jobs := ScanItems(Listings(feed.value), Judge(q, location), limit);
  }

  /** The response the next request gets: `feeds[k]` for the k-th request of one search,
      a failure once they run out. */
  function NextFeed(feeds: seq<Feed>): Feed {
    if feeds == [] then None else feeds[0]
  }

  function LaterFeeds(feeds: seq<Feed>): seq<Feed> {
    if feeds == [] then [] else feeds[1..]
  }

  /** `search_jobs`: one scan, and when it found nothing under a location filter, the
      same search once more without the filter. */
  function SearchResult(query: string, location: string, limit: int, feeds: seq<Feed>): seq<Job> {
    var first := FeedJobs(NextFeed(feeds), query, location, limit);
    if first == [] && location != "" then FeedJobs(NextFeed(LaterFeeds(feeds)), query, "", limit)
    else first
  }

  /** `search_jobs` (remoteok.py:15-125), with `requests` the number of feed requests made.
      The self-call clears the location, so it cannot call itself again. */
  method SearchJobs(query: string, location: string, limit: int, feeds: seq<Feed>)
    returns (jobs: seq<Job>, requests: nat)
    ensures jobs == SearchResult(query, location, limit, feeds)
    ensures 1 <= requests <= 2
    ensures requests == 2 <==> FeedJobs(NextFeed(feeds), query, location, limit) == [] && location != ""
    decreases |location|
  {
    jobs := ScanFeed(query, location, limit, NextFeed(feeds));
    requests := 1;
    if jobs == [] && location != "" {
      var retried, more := SearchJobs(query, "", limit, LaterFeeds(feeds));
      jobs, requests := retried, requests + more;
    }
  }

  /** A search returns at most `limit` jobs, each a RemoteOK remote job. */
  lemma SearchResultBounded(query: string, location: string, limit: int, feeds: seq<Feed>)
    ensures |SearchResult(query, location, limit, feeds)| <= if limit < 0 then 0 else limit
    ensures forall j :: j in SearchResult(query, location, limit, feeds) ==>
      (j.source == "remoteok" && j.jobType == "remote")
  {
    var q := ExpandQuery(query);
    var d1 := Listings(NextFeed(feeds).GetOr([]));
    var d2 := Listings(NextFeed(LaterFeeds(feeds)).GetOr([]));
    ScanTakesFirstMatches(d1, Judge(q, location), limit);
    ScanTakesFirstMatches(d2, Judge(q, ""), limit);
    MatchesAreAccepted(d1, q, location);
    MatchesAreAccepted(d2, q, "");
  }

  /** When the filtered search is empty, the retry result is every query match of the
      second response, up to `limit`: the location no longer filters anything. */
  lemma RetryIgnoresLocation(query: string, location: string, limit: int, feeds: seq<Feed>)
    requires location != "" && FeedJobs(NextFeed(feeds), query, location, limit) == []
    requires NextFeed(LaterFeeds(feeds)).Some?
    ensures var m := Matches(Listings(NextFeed(LaterFeeds(feeds)).value), Judge(ExpandQuery(query), ""));
      SearchResult(query, location, limit, feeds)
        == m[..if limit <= 0 then 0 else if limit < |m| then limit else |m|]
  {
    ScanTakesFirstMatches(Listings(NextFeed(LaterFeeds(feeds)).value), Judge(ExpandQuery(query), ""), limit);
  }
}
