/** The aggregation of app/scraper/job_scraper.py: three source adapters called in a fixed
    order with a third of the limit each, and the store that saves a batch of jobs by URL. */
module JobScraper {
  import opened Wrappers
  import opened Seqs
  import opened Listing
  import GitHub
  import StackOverflow
  import Indeed

  // ----- search_all_sources (job_scraper.py:18-69) -----

  /** The call made to each adapter, with the filters that adapter is given: GitHub gets
      neither the job type nor the experience level, Stack Overflow only the experience
      level, Indeed both. */
  datatype Call =
    | GitHubCall(query: string, location: string, limit: int)
    | StackOverflowCall(query: string, location: string, experienceLevel: Option<string>, limit: int)
    | IndeedCall(query: string, location: string, jobType: Option<string>, experienceLevel: Option<string>, limit: int)

  /** The adapters: the jobs a call returns, or `None` when it raised. */
  type Adapters = Call -> Option<seq<Job>>

  /** The three calls, in the order they are made, each with `limit // 3`. */
  function Calls(query: string, location: string, jobType: Option<string>, experienceLevel: Option<string>,
                 limit: int): (calls: seq<Call>)
    ensures |calls| == 3
    ensures calls[0].GitHubCall? && calls[1].StackOverflowCall? && calls[2].IndeedCall?
    ensures forall i :: 0 <= i < 3 ==> calls[i].query == query && calls[i].location == location
                                       && calls[i].limit == limit / 3
  {
    [GitHubCall(query, location, limit / 3),
     StackOverflowCall(query, location, experienceLevel, limit / 3),
     IndeedCall(query, location, jobType, experienceLevel, limit / 3)]
  }

  /** What one adapter adds: its jobs, or nothing when it raised. */
  function Contribution(answer: Option<seq<Job>>): seq<Job> {
    answer.GetOr([])
  }

  /** The answers of the three calls, concatenated in call order. */
  function Gathered(calls: seq<Call>, adapters: Adapters): seq<Job> {
    if calls == [] then []
    else Gathered(calls[..|calls| - 1], adapters) + Contribution(adapters(calls[|calls| - 1]))
  }

  /** `search_all_sources`. `calls` are the adapter calls made, in order. */
  method SearchAllSources(query: string, location: string, jobType: Option<string>, experienceLevel: Option<string>,
                          limit: int, adapters: Adapters)
    returns (jobs: seq<Job>, calls: seq<Call>)
    ensures calls == Calls(query, location, jobType, experienceLevel, limit)
    ensures jobs == SliceTo(Gathered(calls, adapters), limit)
  {
    calls := Calls(query, location, jobType, experienceLevel, limit);
    GatheredInOrder(calls, adapters);
    var all: seq<Job> := [];
    var answer := adapters(calls[0]);
    if answer.Some? {
      all := all + answer.value;
    }
    assert all == Contribution(adapters(calls[0]));
    answer := adapters(calls[1]);
    if answer.Some? {
      all := all + answer.value;
    }
    assert all == Contribution(adapters(calls[0])) + Contribution(adapters(calls[1]));
    answer := adapters(calls[2]);
    if answer.Some? {
      all := all + answer.value;
    }
    jobs := SliceTo(all, limit);
  }

  /** The result is GitHub's jobs, then Stack Overflow's, then Indeed's, cut to `limit`; an
      adapter that raised contributes nothing and the others still run. No job is dropped
      for sharing a URL with another. */
  lemma {:induction false} GatheredInOrder(calls: seq<Call>, adapters: Adapters)
    requires |calls| == 3
    ensures Gathered(calls, adapters)
            == Contribution(adapters(calls[0])) + Contribution(adapters(calls[1])) + Contribution(adapters(calls[2]))
  {
    var c1 := calls[..1];
    var c2 := calls[..2];
    assert c2[..1] == c1 && c1[..0] == [] && calls[..2] == c2;
    assert Gathered(c1, adapters) == Contribution(adapters(calls[0]));
    assert Gathered(c2, adapters) == Contribution(adapters(calls[0])) + Contribution(adapters(calls[1]));
  }

  /** A failing adapter is isolated: the result is what the other two answered. */
  lemma FailureIsIsolated(query: string, location: string, jobType: Option<string>, experienceLevel: Option<string>,
                          limit: int, adapters: Adapters, failed: nat)
    requires failed < 3
    requires adapters(Calls(query, location, jobType, experienceLevel, limit)[failed]).None?
    ensures var calls := Calls(query, location, jobType, experienceLevel, limit);
      Gathered(calls, adapters)
        == Contribution(adapters(calls[if failed == 0 then 1 else 0]))
           + Contribution(adapters(calls[if failed == 2 then 1 else 2]))
  {
    var calls := Calls(query, location, jobType, experienceLevel, limit);
    GatheredInOrder(calls, adapters);
  }

  /** Nothing is deduplicated: a listing returned by two adapters appears twice. */
  lemma DuplicatesPassThrough(query: string, location: string, jobType: Option<string>, experienceLevel: Option<string>,
                              limit: int, adapters: Adapters, job: Job)
    requires 2 <= limit
    requires adapters(GitHubCall(query, location, limit / 3)) == Some([job])
    requires adapters(StackOverflowCall(query, location, experienceLevel, limit / 3)) == Some([job])
    ensures var jobs := SliceTo(Gathered(Calls(query, location, jobType, experienceLevel, limit), adapters), limit);
      |jobs| >= 2 && jobs[0] == job && jobs[1] == job
  {
    var calls := Calls(query, location, jobType, experienceLevel, limit);
    GatheredInOrder(calls, adapters);
  }

  /** The adapters as this model defines them: none of them raises, since each catches its
      own errors. */
  function ModelledAdapters(github: GitHub.Fetch, stackOverflow: StackOverflow.Fetch, indeed: Indeed.Fetch): Adapters {
    (call: Call) =>
      match call
      case GitHubCall(q, l, n) =>
        Some(GitHub.SearchResult(l, n, github(GitHub.SearchRequest(q, l, true))))
      case StackOverflowCall(q, l, e, n) =>
        Some(SliceTo(StackOverflow.Crawl(q, l, e, stackOverflow, 0, StackOverflow.PageCount(n)), n))
      case IndeedCall(q, l, t, e, n) =>
        Some(SliceTo(Indeed.Collected(Indeed.Requests(q, l, t, n), indeed, l, t, e), n))
  }

  /** With the modelled adapters and a non-negative limit each source returns at most
      `limit // 3` jobs, so the final `[:limit]` never drops a job. */
  lemma FinalSliceDropsNothing(query: string, location: string, jobType: Option<string>, experienceLevel: Option<string>,
                               limit: int, github: GitHub.Fetch, stackOverflow: StackOverflow.Fetch, indeed: Indeed.Fetch)
    requires 0 <= limit
    ensures var adapters := ModelledAdapters(github, stackOverflow, indeed);
      var all := Gathered(Calls(query, location, jobType, experienceLevel, limit), adapters);
      |all| <= limit && SliceTo(all, limit) == all
  {
    var adapters := ModelledAdapters(github, stackOverflow, indeed);
    var calls := Calls(query, location, jobType, experienceLevel, limit);
    var n := limit / 3;
    GatheredInOrder(calls, adapters);
    GitHub.SearchResultBounded(location, n, github(GitHub.SearchRequest(query, location, true)));
    StackOverflow.SearchJobsBounded(query, location, experienceLevel, n, stackOverflow);
    Indeed.SearchJobsBounded(query, location, jobType, experienceLevel, n, indeed);
    assert |Contribution(adapters(calls[0]))| <= n;
    assert |Contribution(adapters(calls[1]))| <= n;
    assert |Contribution(adapters(calls[2]))| <= n;
    SliceToAll(Gathered(calls, adapters), limit);
  }

  // ----- save_jobs_to_db (job_scraper.py:71-101) -----

  /** The jobs of the batch that are added to the session: those whose URL is not stored yet.
      Adds are not flushed before the next lookup, so two new jobs with one URL are both added. */
  function Pending(stored: map<string, Job>, jobs: seq<Job>): (pending: seq<Job>)
    ensures forall j :: j in pending ==> j in jobs && j.url !in stored
  {
    if jobs == [] then []
    else
      var last := jobs[|jobs| - 1];
      Pending(stored, jobs[..|jobs| - 1]) + (if last.url in stored then [] else [last])
  }

  /** No two jobs share a URL: what the unique `url` column demands at commit. */
  predicate DistinctUrls(jobs: seq<Job>) {
    forall i, k :: 0 <= i < k < |jobs| ==> jobs[i].url != jobs[k].url
  }

  /** The rows a commit inserts, keyed by URL. */
  function Index(jobs: seq<Job>): (rows: map<string, Job>)
    ensures forall j :: j in jobs ==> j.url in rows
    ensures forall u :: u in rows ==> rows[u] in jobs && rows[u].url == u
  {
    if jobs == [] then map[]
    else Index(jobs[..|jobs| - 1])[jobs[|jobs| - 1].url := jobs[|jobs| - 1]]
  }

  /** The save the code is evidently written for: all the new jobs when their URLs are
      distinct, nothing new when the commit raises on a repeated URL and the session is
      rolled back. The lemmas below about it are what the source would promise if every
      job could be written. */
  function Saved(stored: map<string, Job>, jobs: seq<Job>): map<string, Job> {
    var pending := Pending(stored, jobs);
    if DistinctUrls(pending) then stored + Index(pending) else stored
  }

  /** `json.dumps(job_data)` for the `parsed_data` column succeeds: every other value of the
      dictionary is a string, and a `datetime` under `posted_date` raises `TypeError`. */
  predicate Serializable(j: Job) {
    !j.postedDate.IsDatetime()
  }

  /** The row can be written: `json.dumps` succeeds, and the `DateTime` column `posted_date`
      takes the string it is given. `acceptsText` says which strings the database driver
      takes there; SQLite, the default `DATABASE_URL`, takes none. */
  predicate Writable(j: Job, acceptsText: string -> bool) {
    Serializable(j) && acceptsText(j.postedDate.text)
  }

  /** The commit goes through: every pending job can be written and no two share a URL. */
  predicate Commits(stored: map<string, Job>, jobs: seq<Job>, acceptsText: string -> bool) {
    var pending := Pending(stored, jobs);
    (forall j :: j in pending ==> Writable(j, acceptsText)) && DistinctUrls(pending)
  }

  /** The stored rows after one save as the source is written: the intended save when the
      commit goes through, the old rows when an exception rolls the session back. */
  function Stored(stored: map<string, Job>, jobs: seq<Job>, acceptsText: string -> bool): map<string, Job> {
    if Commits(stored, jobs, acceptsText) then Saved(stored, jobs) else stored
  }

  /** The `jobs` table, as a map from URL to the stored job. */
  class JobStore {
    var rows: map<string, Job>
    /** The strings the database accepts in the `DateTime` column. */
    const acceptsText: string -> bool

    constructor(acceptsText: string -> bool)
      ensures rows == map[] && this.acceptsText == acceptsText
    {
      rows := map[];
      this.acceptsText := acceptsText;
    }

    /** `save_jobs_to_db`: `committed` says whether the commit went through. */
    method SaveJobs(jobs: seq<Job>) returns (committed: bool)
      modifies this
      ensures committed <==> Commits(old(rows), jobs, acceptsText)
      ensures rows == Stored(old(rows), jobs, acceptsText)
    {
      var pending: seq<Job> := [];
      var i := 0;
      while i < |jobs|
        invariant 0 <= i <= |jobs|
        invariant pending == Pending(rows, jobs[..i])
        invariant forall j :: j in pending ==> Serializable(j)
      {
        assert jobs[..i + 1][..i] == jobs[..i];
        if jobs[i].url !in rows {
          if !Serializable(jobs[i]) {
            // `json.dumps` raises before `db.add`; the session is rolled back
            PendingHasNew(rows, jobs, jobs[i]);
            return false;
          }
          pending := pending + [jobs[i]];
        }
        i := i + 1;
      }
      assert jobs[..|jobs|] == jobs;
      // the flush at commit raises on a rejected date string or a repeated URL
      committed := (forall j :: j in pending ==> acceptsText(j.postedDate.text)) && DistinctUrls(pending);
      if committed {
        rows := rows + Index(pending);
      }
    }
  }

  /** A new job whose posted date is a `datetime` rolls the whole batch back. */
  lemma DatetimeRollsBack(stored: map<string, Job>, jobs: seq<Job>, acceptsText: string -> bool, j: Job)
    requires j in jobs && j.url !in stored && j.postedDate.IsDatetime()
    ensures !Commits(stored, jobs, acceptsText) && Stored(stored, jobs, acceptsText) == stored
  {
    PendingHasNew(stored, jobs, j);
  }

  /** A batch whose posted dates are all `datetime`s is never stored: no adapter but the RSS
      reader produces any other kind, so a batch of them changes the table only when every
      URL is stored already, and then adds nothing. */
  lemma {:induction false} DatetimeBatchIsNeverStored(stored: map<string, Job>, jobs: seq<Job>, acceptsText: string -> bool)
    requires forall j :: j in jobs ==> j.postedDate.IsDatetime()
    ensures Stored(stored, jobs, acceptsText) == stored
  {
    var pending := Pending(stored, jobs);
    if pending != [] {
      DatetimeRollsBack(stored, jobs, acceptsText, pending[0]);
    }
  }

  /** Under SQLite, which takes no string for a `DateTime` column, no save ever adds a row. */
  lemma SqliteStoresNothing(stored: map<string, Job>, jobs: seq<Job>, acceptsText: string -> bool)
    requires forall t :: !acceptsText(t)
    ensures Stored(stored, jobs, acceptsText) == stored
  {
    var pending := Pending(stored, jobs);
    if pending != [] {
      assert !Writable(pending[0], acceptsText);
    }
  }

  /** What `search_all_sources` returns with the adapters as modelled is never stored, for
      any limit: GitHub, Stack Overflow and Indeed all date their jobs with a `datetime`. */
  lemma SearchResultsAreNeverStored(query: string, location: string, jobType: Option<string>, experienceLevel: Option<string>,
                                    limit: int, github: GitHub.Fetch, stackOverflow: StackOverflow.Fetch, indeed: Indeed.Fetch,
                                    stored: map<string, Job>, acceptsText: string -> bool)
    ensures var all := Gathered(Calls(query, location, jobType, experienceLevel, limit), ModelledAdapters(github, stackOverflow, indeed));
      Stored(stored, SliceTo(all, limit), acceptsText) == stored
  {
    var adapters := ModelledAdapters(github, stackOverflow, indeed);
    var calls := Calls(query, location, jobType, experienceLevel, limit);
    var n := limit / 3;
    GatheredInOrder(calls, adapters);
    GitHub.SearchResultBounded(location, n, github(GitHub.SearchRequest(query, location, true)));
    StackOverflow.SearchJobsBounded(query, location, experienceLevel, n, stackOverflow);
    Indeed.SearchJobsBounded(query, location, jobType, experienceLevel, n, indeed);
    var all := Gathered(calls, adapters);
    assert forall j :: j in all ==> j.postedDate.IsDatetime();
    var jobs := SliceTo(all, limit);
    forall j | j in jobs ensures j.postedDate.IsDatetime() {
      var k :| 0 <= k < |jobs| && jobs[k] == j;
      assert all[k] == j;
    }
    DatetimeBatchIsNeverStored(stored, jobs, acceptsText);
  }

  /** A batch of RSS jobs whose date strings the database takes is saved as intended. */
  lemma WritableBatchIsSavedAsIntended(stored: map<string, Job>, jobs: seq<Job>, acceptsText: string -> bool)
    requires forall j :: j in jobs ==> Writable(j, acceptsText)
    ensures Stored(stored, jobs, acceptsText) == Saved(stored, jobs)
  {
  }

  /** A save never changes or removes a stored row, and after a commit every job of the
      batch has a row under its URL. */
  lemma SaveKeepsRows(stored: map<string, Job>, jobs: seq<Job>)
    ensures forall u :: u in stored ==> u in Saved(stored, jobs) && Saved(stored, jobs)[u] == stored[u]
    ensures DistinctUrls(Pending(stored, jobs)) ==> forall j :: j in jobs ==> j.url in Saved(stored, jobs)
  {
    var pending := Pending(stored, jobs);
    if DistinctUrls(pending) {
      forall j | j in jobs ensures j.url in Saved(stored, jobs) {
        if j.url !in stored {
          PendingHasNew(stored, jobs, j);
        }
      }
    }
  }

  /** A job whose URL is not stored is among the pending adds. */
  lemma {:induction false} PendingHasNew(stored: map<string, Job>, jobs: seq<Job>, j: Job)
    requires j in jobs && j.url !in stored
    ensures j in Pending(stored, jobs)
  {
    var last := jobs[|jobs| - 1];
    if j != last {
      var init := jobs[..|jobs| - 1];
      assert jobs == init + [last];
      PendingHasNew(stored, init, j);
    }
  }

  /** Two new jobs with the same URL roll the whole batch back. */
  lemma DuplicateNewUrlRollsBack(stored: map<string, Job>, jobs: seq<Job>, i: nat, k: nat)
    requires i < k < |jobs| && jobs[i].url == jobs[k].url && jobs[i].url !in stored
    ensures Saved(stored, jobs) == stored
  {
    if DistinctUrls(Pending(stored, jobs)) {
      DistinctPendingSeparatesNew(stored, jobs, i, k);
    }
  }

  /** When the pending adds have distinct URLs, so do any two new jobs of the batch. */
  lemma {:induction false} DistinctPendingSeparatesNew(stored: map<string, Job>, jobs: seq<Job>, i: nat, k: nat)
    requires i < k < |jobs| && jobs[i].url !in stored && jobs[k].url !in stored
    requires DistinctUrls(Pending(stored, jobs))
    ensures jobs[i].url != jobs[k].url
  {
    var init := jobs[..|jobs| - 1];
    var rest := Pending(stored, init);
    assert Pending(stored, jobs) == rest + (if jobs[|jobs| - 1].url in stored then [] else [jobs[|jobs| - 1]]);
    if k < |jobs| - 1 {
      assert DistinctUrls(rest) by {
        forall a, b | 0 <= a < b < |rest| ensures rest[a].url != rest[b].url {
          assert rest[a] == Pending(stored, jobs)[a] && rest[b] == Pending(stored, jobs)[b];
        }
      }
      DistinctPendingSeparatesNew(stored, init, i, k);
    } else {
      PendingHasNew(stored, init, jobs[i]);
      var a :| 0 <= a < |rest| && rest[a] == jobs[i];
      assert Pending(stored, jobs)[a] == jobs[i] && Pending(stored, jobs)[|rest|] == jobs[k];
    }
  }

  /** Saving the same batch twice is saving it once: after a commit every URL is stored and
      nothing is pending; after a rollback the second attempt meets the same table. */
  lemma SaveIsIdempotent(stored: map<string, Job>, jobs: seq<Job>)
    ensures Saved(Saved(stored, jobs), jobs) == Saved(stored, jobs)
  {
    var once := Saved(stored, jobs);
    if DistinctUrls(Pending(stored, jobs)) {
      SaveKeepsRows(stored, jobs);
      NothingPending(once, jobs);
    }
  }

  /** When every URL of the batch is stored, nothing is pending. */
  lemma {:induction false} NothingPending(stored: map<string, Job>, jobs: seq<Job>)
    requires forall j :: j in jobs ==> j.url in stored
    ensures Pending(stored, jobs) == []
  {
    if jobs != [] {
      NothingPending(stored, jobs[..|jobs| - 1]);
      assert jobs[|jobs| - 1] in jobs;
    }
  }
}
