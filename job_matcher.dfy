/** The relevance ranking engine of app/matching/job_matcher.py.
    The sentence-embedding model and the cosine similarity it feeds are one function,
    `similarity(resumeText, jobDescription)`, given as a parameter; everything after it is
    exact arithmetic on reals. */
module JobMatcher {
  import opened Text
  import opened Listing

  // ------------------------------------------------------------ recommendation bands

  datatype Recommendation = StrongMatch | GoodMatch | ModerateMatch | PoorMatch

  /** `_get_recommendation`: four bands with inclusive lower bounds 80, 60 and 40. */
  function GetRecommendation(score: real): (r: Recommendation)
    ensures r == StrongMatch <==> score >= 80.0
    ensures r == GoodMatch <==> 60.0 <= score < 80.0
    ensures r == ModerateMatch <==> 40.0 <= score < 60.0
    ensures r == PoorMatch <==> score < 40.0
  {
    if score >= 80.0 then StrongMatch
    else if score >= 60.0 then GoodMatch
    else if score >= 40.0 then ModerateMatch
    else PoorMatch
  }

  /** The order of the bands, weakest first. */
  function BandRank(r: Recommendation): nat {
    match r
    case PoorMatch => 0
    case ModerateMatch => 1
    case GoodMatch => 2
    case StrongMatch => 3
  }

  /** A higher score never gets a weaker band. */
  lemma RecommendationMonotone(s: real, t: real)
    requires s <= t
    ensures BandRank(GetRecommendation(s)) <= BandRank(GetRecommendation(t))
  {
  }

  // ------------------------------------------------------------ round(x, 2)

  /** The integer nearest to `y`, ties to the even neighbour (Python's rounding rule). */
  function RoundHalfEven(y: real): (n: int)
    ensures -0.5 <= n as real - y <= 0.5
    ensures (n as real - y == 0.5 || y - n as real == 0.5) ==> n % 2 == 0
  {
    var f := y.Floor;
    var frac := y - f as real;
    if frac < 0.5 then f
    else if frac > 0.5 then f + 1
    else if f % 2 == 0 then f
    else f + 1
  }

  /** `round(x, 2)` on exact reals. */
  function Round2(x: real): real {
    RoundHalfEven(x * 100.0) as real / 100.0
  }

  lemma RoundHalfEvenMonotone(a: real, b: real)
    requires a <= b
    ensures RoundHalfEven(a) <= RoundHalfEven(b)
  {
    var fa, fb := a.Floor, b.Floor;
    assert fa <= fb;
    if fa < fb {
      assert RoundHalfEven(a) <= fa + 1 <= fb <= RoundHalfEven(b);
    }
  }

  /** Rounding to two decimals preserves order. */
  lemma Round2Monotone(x: real, y: real)
    requires x <= y
    ensures Round2(x) <= Round2(y)
  {
    RoundHalfEvenMonotone(x * 100.0, y * 100.0);
  }

  /** Rounding to two decimals moves a value by at most half a hundredth. */
  lemma Round2Close(x: real)
    ensures -0.005 <= Round2(x) - x <= 0.005
  {
    var n := RoundHalfEven(x * 100.0);
    assert -0.5 <= n as real - x * 100.0 <= 0.5;
    assert Round2(x) - x == (n as real - x * 100.0) / 100.0;
  }

  lemma Round2Whole(n: int)
    ensures Round2(n as real) == n as real
  {
    assert (n as real * 100.0).Floor == n * 100;
  }

  // ------------------------------------------------------------ skills and score

  /** The resume skills whose lower-case form occurs in the lower-cased description,
      in resume order and with duplicates kept (job_matcher.py:40-44). */
  function SkillsIn(skills: seq<string>, descLower: string): seq<string> {
    if skills == [] then []
    else (if Contains(descLower, Lower(skills[0])) then [skills[0]] else [])
         + SkillsIn(skills[1..], descLower)
  }

  /** `SkillsIn` keeps each skill exactly as often as the resume lists it when it occurs
      in the description, and drops it otherwise. */
  lemma {:induction false} SkillsInCounts(skills: seq<string>, descLower: string, x: string)
    ensures multiset(SkillsIn(skills, descLower))[x]
            == if Contains(descLower, Lower(x)) then multiset(skills)[x] else 0
  {
    if skills != [] {
      SkillsInCounts(skills[1..], descLower, x);
      assert skills == [skills[0]] + skills[1..];
    }
  }

  /** A skill is matched iff the resume lists it and it occurs in the description;
      there are never more matched skills than resume skills. */
  lemma SkillsInMembers(skills: seq<string>, descLower: string)
    ensures |SkillsIn(skills, descLower)| <= |skills|
    ensures forall x :: x in SkillsIn(skills, descLower)
                        <==> x in skills && Contains(descLower, Lower(x))
  {
    forall x ensures x in SkillsIn(skills, descLower) <==> x in skills && Contains(descLower, Lower(x)) {
      SkillsInCounts(skills, descLower, x);
    }
    SkillsInLength(skills, descLower);
  }

  lemma {:induction false} SkillsInLength(skills: seq<string>, descLower: string)
    ensures |SkillsIn(skills, descLower)| <= |skills|
  {
    if skills != [] {
      SkillsInLength(skills[1..], descLower);
    }
  }

  /** `(matched / max(total, 1)) * 30` (job_matcher.py:53). */
  function SkillBonus(matched: nat, total: nat): real {
    (matched as real / (if total < 1 then 1 else total) as real) * 30.0
  }

  /** The bonus lies in [0, 30] whenever no more skills match than the resume lists,
      and is 0 for an empty skill list. */
  lemma SkillBonusBounds(matched: nat, total: nat)
    requires matched <= total
    ensures 0.0 <= SkillBonus(matched, total) <= 30.0
    ensures total == 0 ==> SkillBonus(matched, total) == 0.0
  {
    if total > 0 {
      var q := matched as real / total as real;
      assert q * total as real == matched as real;
      assert q <= 1.0;
    }
  }

  /** `min(100, semantic * 0.7 + bonus)` (job_matcher.py:54): capped above, not below. */
  function FinalScore(semantic: real, bonus: real): real {
    if semantic * 0.7 + bonus < 100.0 then semantic * 0.7 + bonus else 100.0
  }

  datatype MatchResult = MatchResult(
    matchScore: real,
    semanticScore: real,
    matchedSkills: seq<string>,
    missingSkills: seq<string>,
    recommendation: Recommendation)

  /** The unrounded score of a job description against a resume. */
  function ScoreOf(resumeText: string, jobDescription: string, resumeSkills: seq<string>,
                   similarity: (string, string) -> real): real
  {
    var semantic := similarity(resumeText, jobDescription) * 100.0;
    var matched := SkillsIn(resumeSkills, Lower(jobDescription));
    FinalScore(semantic, SkillBonus(|matched|, |resumeSkills|))
  }

  /** The dictionary `calculate_match_score` returns; the job title plays no part. */
  function MatchOf(resumeText: string, jobDescription: string, resumeSkills: seq<string>,
                   similarity: (string, string) -> real): MatchResult
  {
    var final := ScoreOf(resumeText, jobDescription, resumeSkills, similarity);
    MatchResult(
      Round2(final),
      Round2(similarity(resumeText, jobDescription) * 100.0),
      SkillsIn(resumeSkills, Lower(jobDescription)),
      [],
      GetRecommendation(final))
  }

  /** `calculate_match_score`: the skill loop, then the bonus, cap, rounding and band.
      `jobTitle` is accepted and never read. */
  method CalculateMatchScore(resumeText: string, jobDescription: string, resumeSkills: seq<string>,
                             jobTitle: string, similarity: (string, string) -> real)
    returns (r: MatchResult)
    ensures r == MatchOf(resumeText, jobDescription, resumeSkills, similarity)
    ensures r.matchScore <= 100.0 && r.missingSkills == []
    ensures forall x :: x in r.matchedSkills <==> x in resumeSkills && Contains(Lower(jobDescription), Lower(x))
  {
    var semantic := similarity(resumeText, jobDescription) * 100.0;
    var descLower := Lower(jobDescription);
    var matched: seq<string> := [];
    var i := 0;
    while i < |resumeSkills|
      invariant 0 <= i <= |resumeSkills|
      invariant matched + SkillsIn(resumeSkills[i..], descLower) == SkillsIn(resumeSkills, descLower)
    {
      assert resumeSkills[i..] == [resumeSkills[i]] + resumeSkills[i + 1..];
      if Contains(descLower, Lower(resumeSkills[i])) {
        matched := matched + [resumeSkills[i]];
      }
      i := i + 1;
    }
    // the `"required" in job_desc_lower` branch has an empty body: missing_skills stays empty
    var bonus := SkillBonus(|matched|, |resumeSkills|);
    var final := FinalScore(semantic, bonus);
    r := MatchResult(Round2(final), Round2(semantic), matched, [], GetRecommendation(final));
    MatchScoreAtMost100(resumeText, jobDescription, resumeSkills, similarity);
    SkillsInMembers(resumeSkills, descLower);
  }

  /** The displayed match score never exceeds 100. */
  lemma MatchScoreAtMost100(resumeText: string, jobDescription: string, resumeSkills: seq<string>,
                            similarity: (string, string) -> real)
    ensures MatchOf(resumeText, jobDescription, resumeSkills, similarity).matchScore <= 100.0
  {
    var final := ScoreOf(resumeText, jobDescription, resumeSkills, similarity);
    Round2Monotone(final, 100.0);
    Round2Whole(100);
  }

  /** For a similarity in [0, 1] the unrounded score lies in [0, 100]; the skill bonus
      contributes at most 30 points. */
  lemma ScoreBounds(resumeText: string, jobDescription: string, resumeSkills: seq<string>,
                    similarity: (string, string) -> real)
    requires 0.0 <= similarity(resumeText, jobDescription) <= 1.0
    ensures var s := ScoreOf(resumeText, jobDescription, resumeSkills, similarity);
      0.0 <= s <= 100.0
      && s <= similarity(resumeText, jobDescription) * 70.0 + 30.0
  {
    var matched := SkillsIn(resumeSkills, Lower(jobDescription));
    SkillsInLength(resumeSkills, Lower(jobDescription));
    SkillBonusBounds(|matched|, |resumeSkills|);
  }

  /** Without a lower clamp a negative similarity yields a negative match score. */
  lemma NegativeSimilarityNegativeScore(resumeText: string, jobDescription: string,
                                        similarity: (string, string) -> real)
    requires similarity(resumeText, jobDescription) <= -0.01
    ensures MatchOf(resumeText, jobDescription, [], similarity).matchScore < 0.0
  {
    var final := ScoreOf(resumeText, jobDescription, [], similarity);
    assert final <= -0.7;
    Round2Monotone(final, -0.7);
    assert (-0.7 * 100.0).Floor == -70;
  }

  /** The band is taken from the unrounded score, so a job shown with score 80.0 can be
      labelled good_match: 79.996 rounds to 80.0. */
  lemma RoundedScoreCanCrossBand()
    ensures GetRecommendation(79.996) == GoodMatch
    ensures Round2(79.996) == 80.0 && GetRecommendation(Round2(79.996)) == StrongMatch
  {
    assert (79.996 * 100.0).Floor == 7999;
  }

  lemma WorkedExampleSkills()
    ensures SkillsIn(["Python", "SQL", "Docker"], Lower("Python and Docker required")) == ["Python", "Docker"]
  {
    var d := Lower("Python and Docker required");
    ExampleMatches(d);
    var skills := ["Python", "SQL", "Docker"];
    assert skills[1..] == ["SQL", "Docker"] && skills[1..][1..] == ["Docker"];
    SkillsInStep(["Docker"], d);
    SkillsInStep(["SQL", "Docker"], d);
    SkillsInStep(skills, d);
  }

  lemma SkillsInStep(skills: seq<string>, descLower: string)
    requires skills != []
    ensures SkillsIn(skills, descLower)
            == (if Contains(descLower, Lower(skills[0])) then [skills[0]] else []) + SkillsIn(skills[1..], descLower)
  {
  }

  /** Which of the example's skills occur in its lower-cased description. */
  lemma ExampleMatches(d: string)
    requires d == Lower("Python and Docker required")
    ensures Contains(d, Lower("Python")) && !Contains(d, Lower("SQL")) && Contains(d, Lower("Docker"))
  {
    ExampleDescription();
    ExampleSkillsLower();
    ExampleOccurrences(d);
    AbsentHead(d, "sql");
  }

  lemma ExampleOccurrences(d: string)
    requires d == "python and docker required"
    ensures OccursAt(d, "python", 0) && OccursAt(d, "docker", 11) && 's' !in d
  {
    assert d[..6] == "python";
    assert d[11..17] == "docker";
  }

  lemma ExampleDescription()
    ensures Lower("Python and Docker required") == "python and docker required"
  {
  }

  lemma ExampleSkillsLower()
    ensures Lower("Python") == "python" && Lower("SQL") == "sql" && Lower("Docker") == "docker"
  {
  }

  /** The worked example: skills Python, SQL, Docker against "Python and Docker required"
      with similarity 0.5 give matched [Python, Docker], bonus 20, score 55, moderate_match. */
  lemma WorkedExample(similarity: (string, string) -> real)
    requires similarity("backend engineer", "Python and Docker required") == 0.5
    ensures var m := MatchOf("backend engineer", "Python and Docker required",
                             ["Python", "SQL", "Docker"], similarity);
      m.matchedSkills == ["Python", "Docker"] && m.matchScore == 55.0
      && m.recommendation == ModerateMatch
  {
    WorkedExampleSkills();
    assert SkillBonus(2, 3) == 20.0;
    assert ScoreOf("backend engineer", "Python and Docker required", ["Python", "SQL", "Docker"], similarity) == 55.0;
    Round2Whole(55);
  }

  // ------------------------------------------------------------ ranking

  datatype Ranked = Ranked(job: Job, result: MatchResult)

  function Score(e: Ranked): real { e.result.matchScore }

  /** Highest score first. */
  predicate SortedByScore(s: seq<Ranked>) {
    forall i, j :: 0 <= i < j < |s| ==> Score(s[j]) <= Score(s[i])
  }

  /** The entries of `s` whose score is `k`, in their order in `s`. */
  function WithScore(s: seq<Ranked>, k: real): seq<Ranked> {
    if s == [] then []
    else (if Score(s[0]) == k then [s[0]] else []) + WithScore(s[1..], k)
  }

  /** Inserts `e` behind every entry scoring at least as high: equal scores keep arrival order. */
  function InsertByScore(e: Ranked, s: seq<Ranked>): seq<Ranked> {
    if s == [] then [e]
    else if Score(e) <= Score(s[0]) then [s[0]] + InsertByScore(e, s[1..])
    else [e] + s
  }

  /** `list.sort(key=match_score, reverse=True)`: a stable sort, highest score first. */
  function SortByScore(s: seq<Ranked>): seq<Ranked> {
    if s == [] then [] else InsertByScore(s[|s| - 1], SortByScore(s[..|s| - 1]))
  }

  lemma {:induction false} WithScoreAppend(a: seq<Ranked>, b: seq<Ranked>, k: real)
    ensures WithScore(a + b, k) == WithScore(a, k) + WithScore(b, k)
  {
    if a == [] {
      assert a + b == b;
    } else {
      var head := if Score(a[0]) == k then [a[0]] else [];
      assert a + b == [a[0]] + (a[1..] + b);
      WithScoreCons(a[0], a[1..] + b, k);
      WithScoreAppend(a[1..], b, k);
      assert a == [a[0]] + a[1..];
      WithScoreCons(a[0], a[1..], k);
      assert head + (WithScore(a[1..], k) + WithScore(b, k)) == (head + WithScore(a[1..], k)) + WithScore(b, k);
    }
  }

  lemma {:induction false} WithScoreNone(s: seq<Ranked>, k: real)
    requires forall i :: 0 <= i < |s| ==> Score(s[i]) < k
    ensures WithScore(s, k) == []
  {
    if s != [] {
      WithScoreNone(s[1..], k);
    }
  }

  lemma {:induction false} InsertByScoreMultiset(e: Ranked, s: seq<Ranked>)
    ensures multiset(InsertByScore(e, s)) == multiset(s) + multiset{e}
  {
    if s != [] && Score(e) <= Score(s[0]) {
      InsertByScoreMultiset(e, s[1..]);
      assert s == [s[0]] + s[1..];
    }
  }

  lemma {:induction false} InsertByScoreSorted(e: Ranked, s: seq<Ranked>)
    requires SortedByScore(s)
    ensures SortedByScore(InsertByScore(e, s))
  {
    if s != [] && Score(e) <= Score(s[0]) {
      SortedTail(s);
      InsertByScoreSorted(e, s[1..]);
      InsertByScoreBounded(e, s[1..], Score(s[0]));
      SortedCons(s[0], InsertByScore(e, s[1..]));
    } else if s != [] {
      SortedCons(e, s);
    }
  }

  /** Inserting never lifts a score above a bound that every entry and `e` respect. */
  lemma {:induction false} InsertByScoreBounded(e: Ranked, s: seq<Ranked>, bound: real)
    requires Score(e) <= bound && forall i :: 0 <= i < |s| ==> Score(s[i]) <= bound
    ensures forall i :: 0 <= i < |InsertByScore(e, s)| ==> Score(InsertByScore(e, s)[i]) <= bound
  {
    if s != [] && Score(e) <= Score(s[0]) {
      InsertByScoreBounded(e, s[1..], bound);
      var rest := InsertByScore(e, s[1..]);
      forall i | 0 <= i < |[s[0]] + rest| ensures Score(([s[0]] + rest)[i]) <= bound {
        if i > 0 {
          assert ([s[0]] + rest)[i] == rest[i - 1];
        }
      }
    }
  }

  /** An entry scoring at least as high as every entry of a sorted sequence can lead it. */
  lemma SortedCons(x: Ranked, rest: seq<Ranked>)
    requires SortedByScore(rest) && forall i :: 0 <= i < |rest| ==> Score(rest[i]) <= Score(x)
    ensures SortedByScore([x] + rest)
  {
    var r := [x] + rest;
    forall i, j | 0 <= i < j < |r| ensures Score(r[j]) <= Score(r[i]) {
      assert r[j] == rest[j - 1];
      if i > 0 {
        assert r[i] == rest[i - 1];
      }
    }
  }

  lemma WithScoreCons(x: Ranked, t: seq<Ranked>, k: real)
    ensures WithScore([x] + t, k) == (if Score(x) == k then [x] else []) + WithScore(t, k)
  {
    assert ([x] + t)[0] == x && ([x] + t)[1..] == t;
  }

  lemma SortedTail(s: seq<Ranked>)
    requires SortedByScore(s) && s != []
    ensures SortedByScore(s[1..])
  {
    forall i, j | 0 <= i < j < |s| - 1 ensures Score(s[1..][j]) <= Score(s[1..][i]) {
      assert s[1..][i] == s[i + 1] && s[1..][j] == s[j + 1];
    }
  }

  lemma {:induction false} InsertByScoreWithScore(e: Ranked, s: seq<Ranked>, k: real)
    requires SortedByScore(s)
    ensures WithScore(InsertByScore(e, s), k) == WithScore(s, k) + (if Score(e) == k then [e] else [])
  {
    if s == [] {
    } else if Score(e) <= Score(s[0]) {
      SortedTail(s);
      InsertByScoreWithScore(e, s[1..], k);
      InsertBehindWithScore(e, s, k, if Score(e) == k then [e] else []);
    } else {
      InsertAheadWithScore(e, s, k);
    }
  }

  /** An entry scoring no higher than the head of a sequence goes behind it: what it adds
      to the tail's entries of score `k` it adds to the whole's. */
  lemma InsertBehindWithScore(e: Ranked, s: seq<Ranked>, k: real, added: seq<Ranked>)
    requires s != [] && Score(e) <= Score(s[0])
    requires WithScore(InsertByScore(e, s[1..]), k) == WithScore(s[1..], k) + added
    ensures WithScore(InsertByScore(e, s), k) == WithScore(s, k) + added
  {
    var head := if Score(s[0]) == k then [s[0]] else [];
    WithScoreCons(s[0], InsertByScore(e, s[1..]), k);
    assert s == [s[0]] + s[1..];
    WithScoreCons(s[0], s[1..], k);
    assert head + (WithScore(s[1..], k) + added) == (head + WithScore(s[1..], k)) + added;
  }

  /** An entry scoring above the head of a sorted sequence goes in front, and no entry of
      the sequence shares its score. */
  lemma InsertAheadWithScore(e: Ranked, s: seq<Ranked>, k: real)
    requires SortedByScore(s) && s != [] && Score(s[0]) < Score(e)
    ensures WithScore([e] + s, k) == WithScore(s, k) + (if Score(e) == k then [e] else [])
  {
    WithScoreAppend([e], s, k);
    if Score(e) == k {
      WithScoreNone(s, k);
    }
  }

  /** The sort returns a permutation of its input, highest score first, and entries with
      equal scores keep their input order: it is the stable descending sort. */
  lemma {:induction false} SortByScoreIsStableSort(s: seq<Ranked>)
    ensures SortedByScore(SortByScore(s))
    ensures multiset(SortByScore(s)) == multiset(s) && |SortByScore(s)| == |s|
    ensures forall k :: WithScore(SortByScore(s), k) == WithScore(s, k)
  {
    if s == [] {
    } else {
      var init, last := s[..|s| - 1], s[|s| - 1];
      SortByScoreIsStableSort(init);
      InsertByScoreSorted(last, SortByScore(init));
      InsertByScoreMultiset(last, SortByScore(init));
      assert s == init + [last];
      forall k ensures WithScore(SortByScore(s), k) == WithScore(s, k) {
        InsertByScoreWithScore(last, SortByScore(init), k);
        WithScoreAppend(init, [last], k);
      }
    }
    assert |SortByScore(s)| == |multiset(SortByScore(s))| == |multiset(s)|;
  }

  /** One entry per job, in input order, before sorting (job_matcher.py:85-96). */
  function Scored(resumeText: string, resumeSkills: seq<string>, jobs: seq<Job>,
                  similarity: (string, string) -> real): (r: seq<Ranked>)
    ensures |r| == |jobs|
  {
    seq(|jobs|, i requires 0 <= i < |jobs| =>
      Ranked(jobs[i], MatchOf(resumeText, jobs[i].description, resumeSkills, similarity)))
  }

  /** `rank_jobs`: score every job, then sort stably by match score, highest first. */
  method RankJobs(resumeText: string, resumeSkills: seq<string>, jobs: seq<Job>,
                  similarity: (string, string) -> real)
    returns (ranked: seq<Ranked>)
    ensures ranked == SortByScore(Scored(resumeText, resumeSkills, jobs, similarity))
    ensures |ranked| == |jobs| && SortedByScore(ranked)
    ensures multiset(ranked) == multiset(Scored(resumeText, resumeSkills, jobs, similarity))
    ensures forall k :: WithScore(ranked, k) == WithScore(Scored(resumeText, resumeSkills, jobs, similarity), k)
  {
    var entries: seq<Ranked> := [];
    var i := 0;
    while i < |jobs|
      invariant 0 <= i <= |jobs|
      invariant entries == Scored(resumeText, resumeSkills, jobs, similarity)[..i]
    {
      var m := CalculateMatchScore(resumeText, jobs[i].description, resumeSkills, jobs[i].title, similarity);
      entries := entries + [Ranked(jobs[i], m)];
      i := i + 1;
    }
    assert entries == Scored(resumeText, resumeSkills, jobs, similarity);
    ranked := SortByScore(entries);
    SortByScoreIsStableSort(entries);
  }

  /** Every ranked entry carries the match of its own job: no score is attached to the wrong job. */
  lemma RankedEntriesMatchTheirJobs(resumeText: string, resumeSkills: seq<string>, jobs: seq<Job>,
                                    similarity: (string, string) -> real)
    ensures forall e :: e in SortByScore(Scored(resumeText, resumeSkills, jobs, similarity)) ==>
      (e.job in jobs && e.result == MatchOf(resumeText, e.job.description, resumeSkills, similarity))
  {
    var sc := Scored(resumeText, resumeSkills, jobs, similarity);
    SortByScoreIsStableSort(sc);
    forall e | e in SortByScore(sc)
      ensures e.job in jobs && e.result == MatchOf(resumeText, e.job.description, resumeSkills, similarity)
    {
      assert e in multiset(sc);
      var i :| 0 <= i < |sc| && sc[i] == e;
    }
  }
}
