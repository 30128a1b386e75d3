# job-hunter-ai: a verified model of the matching, scraping and resume-parsing core

This project models the backend logic of job-hunter-ai. That logic matches a parsed resume
against scraped job listings. It covers:

- **Relevance ranking** (`app/matching/job_matcher.py`). The resume skills found in a job
  description earn a bonus of up to 30 points. The bonus is blended with a semantic score and
  capped at 100. The blend is rounded to two decimals and banded into four recommendations.
  Jobs are ranked by a stable sort, highest score first.
- **Source adapters** for RemoteOK, Indeed, Stack Overflow, GitHub Jobs and LinkedIn
  (`app/scraper/sources/*.py`). The model covers:
  - the request parameters and page counts;
  - how a failing page is handled: Indeed skips it, Stack Overflow stops at it;
  - turning a card or JSON item into the job dictionary, with each field's fallback;
  - RemoteOK's client-side query and location filter and its single retry without location;
  - LinkedIn's guest search with its fallback search, and its RSS feed reader;
  - the final `[:limit]` slice, with Python's meaning for a negative limit.
- **The aggregator** (`app/scraper/job_scraper.py`). It calls GitHub, then Stack Overflow, then
  Indeed, each with `limit // 3`, concatenates their answers and cuts the result to `limit`.
  It also saves a batch of jobs to a URL-keyed table in one transaction.
- **Resume text helpers** (`app/resume/parser.py`): `extract_name`, `extract_section`,
  `parse_skills`, `calculate_experience_years` and the assembly step of `parse_resume`.

Every network request is a function parameter that maps a request record to
`Option<response>`. `None` stands for the exception the source catches. Because the requests
made are returned as real out-parameters, page counts, parameters and request order are stated
in contracts. Loops in the source are `method`s with loop invariants. Each is proved equal to
a recursive specification function, and the source's promises are lemmas about that function.

Files:

| file | contents |
|---|---|
| `wrappers.dfy` | `Option`, `Result`, and Python's `s[:n]` (`Seqs.SliceTo`) |
| `text.dfy` | ASCII `lower`/`upper`, `in` on strings, `find`, `strip`, `split()`, `split(sep)`, `join`, `replace` |
| `listing.dfy` | the job dictionary every adapter builds, and the shared card loop |
| `job_matcher.dfy` | `calculate_match_score`, `_get_recommendation`, `rank_jobs` |
| `remoteok.dfy`, `indeed.dfy`, `stackoverflow.dfy`, `github.dfy`, `linkedin.dfy` | the adapters |
| `job_scraper.dfy` | `search_all_sources`, and `save_jobs_to_db` as the class `JobStore` |
| `resume_parser.dfy` | the resume text helpers and `parse_resume`'s assembly |

Where the source behaves differently from what its comments or names suggest, the model follows the code:

- `extract_section` tries four headers in order. Any of them occurring in the upper-cased text
  means that `section_name.upper()` occurs there too, at or before it. So only the bare
  upper-cased name ever decides where a section starts (`ResumeParser.OnlyTheNameDecides`).
- `extract_name` never returns `None`, so the `"Unknown"` fallback of `parse_resume` is dead
  code (`ResumeParser.NameIsNeverUnknown`).
- `calculate_experience_years` computes `years[-1] - years`, an int minus a list. With two or
  more years in the text it raises `TypeError`, and so does `parse_resume`. The model keeps that
  error path (`ResumeParser.ExperienceYears`).
- RemoteOK's acronym expansion fires only when the query contains `"ml "` or is exactly
  `"ml"`. It then replaces every `"ml"`, including one inside a word such as "html"
  (`RemoteOk.MlExpansionIsComplete`). A query such as "senior ml", whose only "ml" ends the
  query, is not expanded at all (`RemoteOk.TrailingMlIsNotExpanded`).
- `_get_recommendation` is applied to the unrounded score. A job can therefore show score 80.0
  and still be a good match rather than a strong match (`JobMatcher.RoundedScoreCanCrossBand`).
- A negative `limit` is a Python slice from the end. GitHub then drops the last `-limit` items
  instead of returning none (`GitHub.NegativeLimitDropsTail`).
- `search_all_sources` does not deduplicate. A listing that two adapters return appears twice
  (`JobScraper.DuplicatesPassThrough`).
- `save_jobs_to_db` stores `json.dumps(job_data)` in `parsed_data`. Every adapter except the
  RSS reader puts a `datetime` under `posted_date`, and `json.dumps` raises `TypeError` on it.
  The exception is caught and the session rolled back, so a batch holding one new such job
  stores nothing (`JobScraper.DatetimeRollsBack`). In particular what `search_all_sources`
  returns is never stored (`JobScraper.SearchResultsAreNeverStored`). RSS jobs carry the feed's
  date string, which a `DateTime` column under SQLite, the default database, refuses at flush
  (`JobScraper.SqliteStoresNothing`). The model keeps both: `JobStore.SaveJobs` and `Stored` are
  the save as written, and `Saved` is the save the code is evidently meant to perform, with its
  own lemmas.

## Model

| member | source | states |
|---|---|---|
| JobMatcher.GetRecommendation | app/matching/job_matcher.py:64-74 | strong for a score of at least 80, good in [60, 80), moderate in [40, 60), poor below 40; each band holds exactly when its range does, so the bands partition the reals |
| JobMatcher.RecommendationMonotone | app/matching/job_matcher.py:64-74 | a higher score never gets a weaker band |
| JobMatcher.RoundHalfEven | app/matching/job_matcher.py:57 | the rounded integer lies within half a unit of its argument, and a tie goes to the even neighbour |
| JobMatcher.Round2Monotone | app/matching/job_matcher.py:57 | `round(x, 2)` preserves order |
| JobMatcher.Round2Close | app/matching/job_matcher.py:57 | `round(x, 2)` moves a value by at most 0.005 |
| JobMatcher.Round2Whole | app/matching/job_matcher.py:57 | a whole number is unchanged by rounding |
| JobMatcher.SkillsInCounts | app/matching/job_matcher.py:40-44 | each resume skill is matched exactly as often as the resume lists it when its lower-case form occurs in the lower-cased description, and never otherwise |
| JobMatcher.SkillsInMembers | app/matching/job_matcher.py:40-44 | a skill is matched iff the resume lists it and it occurs in the description; never more matches than resume skills |
| JobMatcher.SkillBonusBounds | app/matching/job_matcher.py:53 | the bonus lies in [0, 30], and is 0 for an empty skill list because the divisor is `max(len, 1)` |
| JobMatcher.CalculateMatchScore | app/matching/job_matcher.py:19-62 | the skill loop computes the specified match dictionary; the score is at most 100, `missing_skills` is always empty, and a skill is matched iff the resume lists it and the description contains it |
| JobMatcher.MatchScoreAtMost100 | app/matching/job_matcher.py:54-57 | the displayed match score never exceeds 100, whatever the similarity |
| JobMatcher.ScoreBounds | app/matching/job_matcher.py:37-54 | for a similarity in [0, 1] the unrounded score lies in [0, 100] |
| JobMatcher.NegativeSimilarityNegativeScore | app/matching/job_matcher.py:37-57 | there is no lower clamp: a negative similarity with no resume skills gives a negative match score |
| JobMatcher.RoundedScoreCanCrossBand | app/matching/job_matcher.py:57-61 | 79.996 is a good match, yet it is displayed as 80.0, the score of a strong match |
| JobMatcher.WorkedExample | app/matching/job_matcher.py:40-61 | skills Python, SQL and Docker against "Python and Docker required" at similarity 0.5 match Python and Docker and score 55.0, a moderate match |
| JobMatcher.SortByScoreIsStableSort | app/matching/job_matcher.py:99 | the sort returns a permutation of its input, highest score first, and the entries of each score keep their input order |
| JobMatcher.InsertByScoreSorted | app/matching/job_matcher.py:99 | inserting into a sorted ranking keeps it sorted |
| JobMatcher.InsertByScoreWithScore | app/matching/job_matcher.py:99 | inserting places the new entry behind every entry of its own score |
| JobMatcher.InsertByScoreMultiset | app/matching/job_matcher.py:99 | inserting adds exactly the one entry |
| JobMatcher.Scored | app/matching/job_matcher.py:85-96 | exactly one entry per input job |
| JobMatcher.RankJobs | app/matching/job_matcher.py:76-100 | the ranking is a permutation of the scored jobs, as long as the input, sorted highest first, with equal scores in input order |
| JobMatcher.RankedEntriesMatchTheirJobs | app/matching/job_matcher.py:85-96 | each ranked entry carries the match of its own job, computed from its description alone: the job title plays no part |
| RemoteOk.ExpandMlEngineer | app/scraper/sources/remoteok.py:52-58 | "ml engineer" is searched as "machine learning engineer" |
| RemoteOk.MlExpansionIsComplete | app/scraper/sources/remoteok.py:55-56 | once triggered, the expansion leaves no "ml" in the query |
| RemoteOk.TrailingMlIsNotExpanded | app/scraper/sources/remoteok.py:55-58 | "senior ml", whose "ml" is neither followed by a space nor the whole query, is searched unexpanded |
| RemoteOk.ShortQueryRule | app/scraper/sources/remoteok.py:62-74 | with at most two distinct terms an item passes iff every term, or the whole expanded query, occurs in its search text |
| RemoteOk.LongQueryRule | app/scraper/sources/remoteok.py:66-77 | with more than two terms an item passes iff at least 33 of every 100 terms occur |
| RemoteOk.RatioRule | app/scraper/sources/remoteok.py:67-76 | `count / size >= 0.33` is `100 * count >= 33 * size` |
| RemoteOk.BlankQueryMatchesAll | app/scraper/sources/remoteok.py:62-74 | a whitespace-only query has no terms and passes every item |
| RemoteOk.WholeQueryMatches | app/scraper/sources/remoteok.py:62-77 | an item whose search text holds the whole query passes, whatever the number of terms |
| RemoteOk.AllTermsFound | app/scraper/sources/remoteok.py:62-77 | an item whose search text holds every query word passes |
| RemoteOk.MlEngineerMatchesExpandedListing | app/scraper/sources/remoteok.py:52-74 | a listing titled "machine learning engineer" is found by the query "ml engineer" |
| RemoteOk.JobLocation | app/scraper/sources/remoteok.py:81-82 | the location matched against is never empty: a missing or empty one reads as "remote" |
| RemoteOk.UnlocatedItemPassesAnyFilter | app/scraper/sources/remoteok.py:81-98 | an item without a location passes every location filter |
| RemoteOk.ItemJob | app/scraper/sources/remoteok.py:100-112 | every job has source remoteok, job type remote, location defaulting to "Remote", and a `datetime` posted date; no job when the date is set and does not parse |
| RemoteOk.ItemVerdict | app/scraper/sources/remoteok.py:62-113 | an item is kept iff it passes the query and location filters and its date parses; it stops the loop iff it passes both and its date does not parse |
| RemoteOk.EmptyFilterJudgesQueryOnly | app/scraper/sources/remoteok.py:84-98 | without a location filter only the query and the date decide |
| RemoteOk.ScanItems | app/scraper/sources/remoteok.py:40-113 | the loop computes the specified scan |
| RemoteOk.ScanTakesFirstMatches | app/scraper/sources/remoteok.py:40-42 | the scan returns the first `limit` matches in feed order: never more than `limit`, none for a non-positive limit |
| RemoteOk.MatchesAreKept | app/scraper/sources/remoteok.py:40-113 | every job returned is the job of an item the filters kept |
| RemoteOk.MatchesAreAccepted | app/scraper/sources/remoteok.py:62-113 | every job returned comes from an item that passes both filters, and is a remote RemoteOK job |
| RemoteOk.ScanFeed | app/scraper/sources/remoteok.py:24-116 | one request scans the items after the first; a failed request yields no jobs |
| RemoteOk.SearchJobs | app/scraper/sources/remoteok.py:15-125 | the search makes one request, and a second one exactly when the first found nothing under a non-empty location; the retry cannot recurse again |
| RemoteOk.SearchResultBounded | app/scraper/sources/remoteok.py:40-42 | a search returns at most `limit` jobs, all remote RemoteOK jobs |
| RemoteOk.RetryIgnoresLocation | app/scraper/sources/remoteok.py:119-123 | after an empty filtered search the result is the first `limit` query matches of the second response |
| Indeed.PageCountCovers | app/scraper/sources/indeed.py:27-29 | at least one page for a non-negative limit, even 0, and enough pages of ten for `limit` jobs |
| Indeed.PageRequest | app/scraper/sources/indeed.py:31-39 | page i starts at `i * 10`, asks for 10, and carries `jt` only for a truthy job type |
| Indeed.Requests | app/scraper/sources/indeed.py:27-39 | exactly `limit // 10 + 1` requests, page i the i-th |
| Indeed.CardJob | app/scraper/sources/indeed.py:56-73 | a card yields a job iff it has a title and a company (and an anchor with an href, when it has one); location, description, job type and level fall back as the source says; the url is the anchor's href, or empty without an anchor; the date is the moment of scraping |
| Indeed.SearchJobs | app/scraper/sources/indeed.py:17-83 | the requests made are the page requests in order, and the result is every page's jobs, cut to `limit` |
| Indeed.FailedPageIsSkipped | app/scraper/sources/indeed.py:79-81 | a failing page adds nothing, and later pages are still read |
| Indeed.CollectedAppend | app/scraper/sources/indeed.py:29-81 | the jobs collected from two runs of pages are the first run's jobs followed by the second's |
| Indeed.CollectedFromIndeed | app/scraper/sources/indeed.py:54-73 | every collected job is the job of a card of a page that was fetched, and is an Indeed job dated at scraping |
| Indeed.SearchJobsBounded | app/scraper/sources/indeed.py:83 | the search returns at most `limit` jobs, each an Indeed job dated at scraping |
| StackOverflow.PageCountCovers | app/scraper/sources/stackoverflow.py:26-29 | enough pages of fifteen cards for `limit` jobs; none for a negative limit |
| StackOverflow.PageRequest | app/scraper/sources/stackoverflow.py:30-36 | page numbers on the wire start at 1; `l` is sent only for a non-empty location |
| StackOverflow.CardJob | app/scraper/sources/stackoverflow.py:52-69 | a card needs only a title; company defaults to "Unknown", the description is a prefix of at most 500 characters, the job type is remote iff the card text mentions remote |
| StackOverflow.SearchJobs | app/scraper/sources/stackoverflow.py:17-78 | the requests made are the page requests up to and including the first that fails, and the result is the jobs of the pages before it, cut to `limit` |
| StackOverflow.PageJobsBounded | app/scraper/sources/stackoverflow.py:51 | a page contributes at most fifteen jobs, each dated at scraping |
| StackOverflow.IssuedInOrder | app/scraper/sources/stackoverflow.py:29-44 | requests go out page by page, and a failing request is the last one made |
| StackOverflow.FailedPageEndsCrawl | app/scraper/sources/stackoverflow.py:28-76 | a failing page keeps the jobs already collected and drops every later page |
| StackOverflow.CrawlBounded | app/scraper/sources/stackoverflow.py:29-71 | each page crawled adds at most fifteen Stack Overflow jobs, dated at scraping |
| StackOverflow.SearchJobsBounded | app/scraper/sources/stackoverflow.py:78 | the search returns at most `limit` jobs, each a Stack Overflow job dated at scraping |
| GitHub.SearchRequest | app/scraper/sources/github.py:23-29 | `full_time` is sent as "true" or "false"; `location` is sent only when non-empty |
| GitHub.ItemJob | app/scraper/sources/github.py:41-53 | location defaults to the query location, source is github, job type is remote iff the description mentions remote; the date is the moment of scraping without `created_at`, otherwise the parsed `created_at`; an unparseable date raises |
| GitHub.ConvertItems | app/scraper/sources/github.py:40-54 | the loop converts the items in order and stops at the first date that raises |
| GitHub.SearchJobs | app/scraper/sources/github.py:12-59 | one request with the specified parameters; the jobs of the first `limit` items, or none when the request fails |
| GitHub.ConvertedIsPrefix | app/scraper/sources/github.py:40-59 | the jobs are, item for item, those of a prefix of the items, and a shorter result stops just before an item whose date raises |
| GitHub.SearchResultBounded | app/scraper/sources/github.py:40-54 | at most `limit` jobs, all GitHub jobs dated with a `datetime` |
| GitHub.NegativeLimitDropsTail | app/scraper/sources/github.py:40 | a negative limit drops the last `-limit` items instead of returning none |
| LinkedIn.GuestSearchRequest | app/scraper/sources/linkedin.py:44-53 | the guest search asks for `min(limit, 25)` postings |
| LinkedIn.GuestJob | app/scraper/sources/linkedin.py:72-89 | a card yields a job iff it has a title and a company; location falls back to the query location; the description is the card text's first 500 characters, all of it when shorter |
| LinkedIn.SearchJobsRss | app/scraper/sources/linkedin.py:28-102 | one request; the jobs of the first `limit` cards of a 200 response |
| LinkedIn.GuestJobsFromCards | app/scraper/sources/linkedin.py:63-102 | a non-200 response or a failed request gives no jobs; at most one job per card read, each from a card with title and company |
| LinkedIn.ContainerJob | app/scraper/sources/linkedin.py:142-158 | a container yields a job iff it has a title and a company; it always carries the query location, the container text's first 500 characters as description, and an empty url without a job id |
| LinkedIn.SearchJobsAlternative | app/scraper/sources/linkedin.py:104-167 | one request; the jobs of the first `limit` containers of a 200 response |
| LinkedIn.PageJobsFromContainers | app/scraper/sources/linkedin.py:134-161 | no jobs without a 200 response; at most one job per container read, all at the query location |
| LinkedIn.SearchJobs | app/scraper/sources/linkedin.py:169-191 | the fallback runs exactly when the guest search found fewer than `limit // 2` jobs, and then asks for the jobs still missing |
| LinkedIn.CombinedKeepsGuestJobs | app/scraper/sources/linkedin.py:182-191 | for a non-negative limit the result has at most `limit` jobs and starts with the guest jobs |
| LinkedIn.NoShortfallNoFallback | app/scraper/sources/linkedin.py:184 | without a shortfall the fallback's answer plays no part |
| LinkedIn.FeedJob | app/scraper/sources/linkedin.py:249-259 | missing elements read as ''; company is LinkedIn, location Various, source linkedin_rss; the posted date is the feed's string, not a `datetime` |
| LinkedIn.ParseRssFeed | app/scraper/sources/linkedin.py:230-267 | the feed's jobs, one per item, when the response is 200 and parses |
| Listing.KeepCards | app/scraper/sources/indeed.py:54-75 | the card loop keeps, in card order, the jobs of the cards the reader accepts |
| Listing.KeptFromCards | app/scraper/sources/indeed.py:54-75 | at most one job per card, each made from some card |
| Listing.AcceptedCardIsKept | app/scraper/sources/indeed.py:61-73 | a card the reader accepts is never lost |
| JobScraper.Calls | app/scraper/job_scraper.py:32-67 | three calls, GitHub then Stack Overflow then Indeed, each with `limit // 3`; GitHub gets no job type or level, Stack Overflow only the level, Indeed both |
| JobScraper.SearchAllSources | app/scraper/job_scraper.py:18-69 | the calls made are those three, in order, and the result is their answers concatenated and cut to `limit` |
| JobScraper.GatheredInOrder | app/scraper/job_scraper.py:27-69 | GitHub's jobs, then Stack Overflow's, then Indeed's |
| JobScraper.FailureIsIsolated | app/scraper/job_scraper.py:32-67 | an adapter that raises contributes nothing, and the others still run |
| JobScraper.DuplicatesPassThrough | app/scraper/job_scraper.py:27-69 | a listing returned by two adapters appears twice |
| JobScraper.FinalSliceDropsNothing | app/scraper/job_scraper.py:69 | with the adapters as modelled and a non-negative limit, the final slice drops nothing |
| JobScraper.Pending | app/scraper/job_scraper.py:75-93 | only jobs of the batch whose URL is not stored are added |
| JobScraper.Index | app/scraper/job_scraper.py:81-95 | the committed rows are keyed by URL, one per job |
| JobScraper.JobStore.SaveJobs | app/scraper/job_scraper.py:71-101 | the batch commits iff every new job has a string posted date (a `datetime` makes `json.dumps` raise) that the database takes for its `DateTime` column, and no two new jobs share a URL; a commit stores every new job, any exception leaves the table as it was |
| JobScraper.DatetimeRollsBack | app/scraper/job_scraper.py:81-99 | one new job dated with a `datetime` rolls the whole batch back |
| JobScraper.DatetimeBatchIsNeverStored | app/scraper/job_scraper.py:71-101 | a batch whose dates are all `datetime`s never changes the table |
| JobScraper.SqliteStoresNothing | app/scraper/job_scraper.py:71-101 | when the database takes no date string, as SQLite does, no save changes the table |
| JobScraper.SearchResultsAreNeverStored | app/scraper/job_scraper.py:18-101 | whatever the limit and the responses, the jobs `search_all_sources` returns are never stored by `save_jobs_to_db` |
| JobScraper.WritableBatchIsSavedAsIntended | app/scraper/job_scraper.py:71-101 | a batch whose jobs can all be written is saved as intended |
| JobScraper.SaveKeepsRows | app/scraper/job_scraper.py:77-99 | in the intended save, no stored row is changed or removed, and after a commit every job's URL is stored |
| JobScraper.PendingHasNew | app/scraper/job_scraper.py:77-93 | every job whose URL is not stored reaches the construction of its row, where `json.dumps` runs |
| JobScraper.DuplicateNewUrlRollsBack | app/scraper/job_scraper.py:93-99 | in the intended save, two new jobs sharing a URL roll the whole batch back |
| JobScraper.DistinctPendingSeparatesNew | app/scraper/job_scraper.py:77-95 | a batch that commits has no two new jobs with the same URL |
| JobScraper.SaveIsIdempotent | app/scraper/job_scraper.py:71-101 | in the intended save, saving the same batch twice is saving it once |
| JobScraper.NothingPending | app/scraper/job_scraper.py:77-79 | a batch whose URLs are all stored reaches no row construction |
| ResumeParser.FirstNameOf | app/resume/parser.py:50-57 | the line loop with its early return computes the specified name |
| ResumeParser.ExtractName | app/resume/parser.py:46-57 | the name is computed from the first five lines only |
| ResumeParser.FirstNameIsFirstCandidate | app/resume/parser.py:50-56 | the name is the stripped form of the first line of 4 to 49 characters, at most three words, all upper-case |
| ResumeParser.NoCandidateNoName | app/resume/parser.py:57 | without such a line the result is "Name Not Found" |
| ResumeParser.FirstNameIsLine | app/resume/parser.py:50-57 | the name is the fallback or a line that reads as a name |
| ResumeParser.NameIsNeverEmpty | app/resume/parser.py:52-57 | the name is always more than three characters long, so never empty or `None` |
| ResumeParser.NameIsNeverUnknown | app/resume/parser.py:148-166 | `extract_name` never returns "Unknown", so `parse_resume`'s fallback is unreachable |
| ResumeParser.ExtractSection | app/resume/parser.py:60-90 | the header loop stops at the first header found and computes the specified section |
| ResumeParser.OnlyTheNameDecides | app/resume/parser.py:63-77 | the header loop finds the first occurrence of the upper-cased name |
| ResumeParser.NoHeaderNoSection | app/resume/parser.py:79-80 | without a header in the upper-cased text the section is "" |
| ResumeParser.SectionIsBetweenHeaders | app/resume/parser.py:70-90 | otherwise the section is the original text from the header's first occurrence, to the end or to the first end marker at or after it |
| ResumeParser.SectionEndStops | app/resume/parser.py:83-87 | without an end marker, or with one not found from the start on, the section runs to the end of the text |
| ResumeParser.Collect | app/resume/parser.py:116-122 | a keyword is collected iff the keyword list holds it and the lower-cased text contains its lower-case form |
| ResumeParser.Skills | app/resume/parser.py:113-124 | the skills are a duplicate-free subset of the keyword list, exactly those the text mentions |
| ResumeParser.ParseSkills | app/resume/parser.py:93-124 | technical and soft skills are each the keywords of their own list that the text mentions |
| ResumeParser.ShorterKeywordRidesAlong | app/resume/parser.py:116-118 | a keyword inside another is reported whenever the longer one is |
| ResumeParser.DjangoMeansGo | app/resume/parser.py:97-118 | a resume that mentions Django is credited with Go |
| ResumeParser.ExperienceYears | app/resume/parser.py:133-140 | 0 for fewer than two years; with two or more the subtraction raises TypeError |
| ResumeParser.Summary | app/resume/parser.py:170 | the first 200 characters of the section, or "ML/Software Engineer" when it is empty |
| ResumeParser.ParseResumeFields | app/resume/parser.py:142-176 | parsing fails iff two or more years are found; otherwise the name is `extract_name`'s, the location Bangalore, experience 0, no work experience, education or certifications; the summary is built from the SUMMARY section; a missing or empty email or phone gets its stock value; the skills are `parse_skills`'s two sets |
| Text.SplitOnPieces | app/resume/parser.py:48 | no line that `split('\n')` returns holds a newline |
| Text.JoinSplitOn | app/resume/parser.py:48 | joining the pieces of `split('\n')` with the separator gives back the text: splitting loses no character |
| Text.WordsKeepVisible | app/scraper/sources/remoteok.py:64 | `split()` keeps every non-space character, in order |
| Text.WordsOfContained | app/scraper/sources/remoteok.py:64-66 | every word of a text occurs in any text that contains it |
| Text.ReplaceAllRemoves | app/scraper/sources/remoteok.py:56-58 | after `replace` the pattern no longer occurs, when the replacement cannot recreate it |
| Seqs.SliceToAppend | app/scraper/job_scraper.py:69 | `(a + b)[:n]` is `a[:n]` when n is within `a`, and otherwise all of `a` followed by `b[:n - len(a)]` |

## Left out

- HTTP requests, BeautifulSoup, ElementTree and JSON decoding are left out. They are library and network calls. Each request is a function parameter returning the parsed cards or items, or `None` for the exception or bad status the source catches. Element lookups are `Option` fields of those records.
- `time.sleep` and the `timeout=` arguments are left out: they affect timing only.
- `datetime.now()` is the constant `ScrapedNow`, an opaque timestamp, and a date that `datetime.fromisoformat` parsed is `Parsed` with its text.
- `datetime.fromisoformat` is not modelled. Whether it accepts a date is an input bit on the date text.
- The sentence-transformer model and cosine similarity (`job_matcher.py:16, 32-37`) are left out, because they are floating-point numerics over a foreign model. The similarity is a `real`-valued function parameter.
- JobMatcher.Round2: works on exact reals, half to even, with no binary floating-point error. Python's `round` on floats may round a tie the other way.
- RemoteOk.RatioRule: the `0.33` threshold is compared on exact reals, not binary floats. Near the threshold a float ratio could fall on the other side.
- `ResumeParser.extract_pdf_text` is left out: it is PyPDF2 and file input.
- `extract_email` and `extract_phone` are left out, because their regex semantics are beyond this model. Their results are `Option<string>` parameters of `ResumeParser.ParseResume`.
- The year regex `\b(20\d{2})\b` is left out. Its matches are a parameter of `ResumeParser.ExperienceYears`.
- Case mapping and whitespace are ASCII only: Python's Unicode `lower`, `upper`, `isupper` and `split` are not modelled.
- ResumeParser.Skills: the result is a set, because `list(set(...))` has no defined order. The order of the returned lists is not modelled.
- `LinkedInScraper.get_job_details` is not modelled. It is an optional detail fetch that `search_jobs` never calls.
- `print` calls and error messages are left out.
- JobScraper.JobStore.SaveJobs:
  - the source's `.get` defaults for `job_type`, `experience_level` and `posted_date` are not modelled, because the job record always has every field;
  - `parsed_data` is not stored: only whether `json.dumps` raises is modelled;
  - which date strings a database other than SQLite takes for a `DateTime` column is the store's parameter `acceptsText`;
  - the session is the table as a map from URL to job;
  - a missing key in a job dictionary (a `KeyError` before commit) is not modelled.
- A JSON item whose field holds `null` rather than being absent is not modelled. Absent keys are modelled as `None`.
- An RSS element present with no text (`None` as `.text`) is not modelled: the element either has text or is absent.
- The adapters inside `JobScraper.SearchAllSources` are an abstract function from call to `Option<seq<Job>>`. `JobScraper.ModelledAdapters` ties them to the adapters of this model.
- The API routes, resume tailoring and cover-letter generation, configuration, ORM and Pydantic declarations, `run.py` and the frontend are not part of this model. They are HTTP plumbing, templating, declarations and UI, with no logic to verify.
