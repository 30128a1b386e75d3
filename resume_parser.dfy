/** The text helpers of app/resume/parser.py and the assembly of a parsed resume from them:
    the name, a section between headers, the skills mentioned, and the years of experience. */
module ResumeParser {
  import opened Wrappers
  import opened Seqs
  import opened Text
  import opened Listing

  // ----- extract_name (parser.py:46-57) -----

  const NameNotFound := "Name Not Found"
  /** Only this many lines from the top are looked at. */
  const NameLines := 5

  /** A stripped line that reads as a name: 4 to 49 characters, at most three words, every
      word upper-case. */
  predicate NameLike(line: string) {
    3 < |line| < 50 && |Words(line)| <= 3
    && forall k :: 0 <= k < |Words(line)| ==> IsUpper(Words(line)[k])
  }

  /** The first of `lines` whose stripped form reads as a name, stripped; or the fallback. */
  function FirstName(lines: seq<string>): string {
    if lines == [] then NameNotFound
    else if NameLike(Strip(lines[0])) then Strip(lines[0])
    else FirstName(lines[1..])
  }

  /** The lines `extract_name` looks at: the first five of `text.split('\n')`. */
  function TopLines(text: string): seq<string> {
    SliceTo(SplitOn(text, '\n'), NameLines)
  }

  /** The loop of `extract_name` over the lines it looks at, with its early return. */
  method FirstNameOf(lines: seq<string>) returns (name: string)
    ensures name == FirstName(lines)
  {
    var i := 0;
    while i < |lines|
      invariant 0 <= i <= |lines|
      invariant FirstName(lines) == FirstName(lines[i..])
    {
      assert lines[i..][1..] == lines[i + 1..];
      var line := Strip(lines[i]);
      if 3 < |line| < 50 {
        var words := Words(line);
        if |words| <= 3 && forall k :: 0 <= k < |words| ==> IsUpper(words[k]) {
          return line;
        }
      }
      i := i + 1;
    }
    return NameNotFound;
  }

  /** `extract_name`. */
  method ExtractName(text: string) returns (name: string)
    ensures name == FirstName(TopLines(text))
  {
    name := FirstNameOf(TopLines(text));
  }

  /** The name is the stripped form of the first line that reads as a name. */
  lemma {:induction false} FirstNameIsFirstCandidate(lines: seq<string>, i: nat)
    requires i < |lines| && NameLike(Strip(lines[i]))
    requires forall k :: 0 <= k < i ==> !NameLike(Strip(lines[k]))
    ensures FirstName(lines) == Strip(lines[i])
  {
    if i > 0 {
      assert !NameLike(Strip(lines[0]));
      forall k | 0 <= k < i - 1 ensures !NameLike(Strip(lines[1..][k])) {
        assert lines[1..][k] == lines[k + 1];
      }
      FirstNameIsFirstCandidate(lines[1..], i - 1);
    }
  }

  /** Without a line that reads as a name, the fallback is returned. */
  lemma {:induction false} NoCandidateNoName(lines: seq<string>)
    requires forall k :: 0 <= k < |lines| ==> !NameLike(Strip(lines[k]))
    ensures FirstName(lines) == NameNotFound
  {
    if lines != [] {
      NoCandidateNoName(lines[1..]);
    }
  }

  /** A line whose second character is a lower-case letter right after a non-space does not
      read as a name: its first word is not upper-case. */
  lemma LowerSecondIsNoName(line: string)
    requires |line| >= 2 && !IsSpace(line[0]) && IsLowerChar(line[1])
    ensures !NameLike(line)
  {
    var w := LeadingWord(line);
    assert TrimStart(line) == line;
    assert |w| >= 2 && w[1] == line[1];
    assert Words(line)[0] == w;
  }

  /** The fallback does not itself read as a name (its first word has lower-case letters),
      so it never stands for a real line. */
  lemma FallbackIsNoName(fallback: string)
    requires fallback == NameNotFound
    ensures !NameLike(fallback)
  {
    assert fallback[0] == 'N' && fallback[1] == 'a';
    LowerSecondIsNoName(fallback);
  }

  /** The name is always at least four characters long: never empty and never `None`. */
  lemma {:induction false} NameIsNeverEmpty(lines: seq<string>)
    ensures |FirstName(lines)| > 3
  {
    if lines != [] && !NameLike(Strip(lines[0])) {
      NameIsNeverEmpty(lines[1..]);
    }
  }

  // ----- extract_section (parser.py:60-90) -----

  /** The headers tried, in order. */
  function Headers(sectionName: string): seq<string> {
    [Upper(sectionName), Upper(sectionName) + "S", "## " + sectionName, "• " + sectionName]
  }

  /** The index of the first header of `headers` that occurs in `s`, at its first occurrence;
      -1 when none does. */
  function FirstFound(s: string, headers: seq<string>): (r: int)
    ensures r == -1 || (0 <= r <= |s|)
  {
    if headers == [] then -1
    else
      var i := FindFrom(s, headers[0], 0);
      if i != -1 then i else FirstFound(s, headers[1..])
  }

  /** `x` is truthy: present and non-empty. */
  predicate Truthy(x: Option<string>) {
    x.Some? && x.value != ""
  }

  /** Where the section stops: at the first occurrence of the end marker at or after the
      start, or at the end of the text. */
  function SectionEnd(upper: string, endMarker: Option<string>, start: nat): (e: int)
    requires start <= |upper|
    ensures start <= e <= |upper|
  {
    if Truthy(endMarker) then
      var e := FindFrom(upper, Upper(endMarker.value), start);
      if e == -1 then |upper| else e
    else |upper|
  }

  /** The section of `text` under the header `sectionName`, as `extract_section` cuts it. */
  function Section(text: string, sectionName: string, endMarker: Option<string>): string {
    var upper := Upper(text);
    var start := FirstFound(upper, Headers(sectionName));
    if start == -1 then "" else text[start..SectionEnd(upper, endMarker, start)]
  }

  /** `extract_section`: the header loop stops at the first header found. */
  method ExtractSection(text: string, sectionName: string, endMarker: Option<string>) returns (section: string)
    ensures section == Section(text, sectionName, endMarker)
  {
    var headers := Headers(sectionName);
    var upper := Upper(text);
    var start := -1;
    var h := 0;
    while h < |headers|
      invariant 0 <= h <= |headers|
      invariant FirstFound(upper, headers) == FirstFound(upper, headers[h..])
    {
      assert headers[h..][1..] == headers[h + 1..];
      var i := FindFrom(upper, headers[h], 0);
      if i != -1 {
        start := i;
        break;
      }
      h := h + 1;
    }
    if start == -1 {
      return "";
    }
    var end := |text|;
    if Truthy(endMarker) {
      end := FindFrom(upper, Upper(endMarker.value), start);
      if end == -1 {
        end := |text|;
      }
    }
    section := text[start..end];
  }

  /** Upper-cased text holds no lower-case letter, so nothing found in it holds one. */
  lemma FoundInUpperHasNoLower(text: string, p: string)
    requires Contains(Upper(text), p)
    ensures forall j :: 0 <= j < |p| ==> !IsLowerChar(p[j])
  {
    var s := Upper(text);
    var i :| 0 <= i <= |s| - |p| && OccursAt(s, p, i);
    forall j | 0 <= j < |p| ensures !IsLowerChar(p[j]) {
      assert p[j] == s[i..i + |p|][j] == s[i + j];
    }
  }

  /** A header that holds `sectionName` occurs only where `Upper(sectionName)` does. */
  lemma HoldsUpperName(text: string, sectionName: string, header: string, k: nat)
    requires k + |sectionName| <= |header| && header[k..k + |sectionName|] == sectionName
    requires Contains(Upper(text), header)
    ensures Contains(Upper(text), Upper(sectionName))
  {
    FoundInUpperHasNoLower(text, header);
    forall j | 0 <= j < |sectionName| ensures Upper(sectionName)[j] == sectionName[j] {
      assert header[k + j] == sectionName[j];
    }
    assert Upper(sectionName) == sectionName;
    assert OccursAt(header, sectionName, k);
    ContainsAt(header, sectionName, k);
    ContainsTrans(Upper(text), header, sectionName);
  }

  /** A header list none of whose headers occurs gives -1. */
  lemma {:induction false} NoneFound(s: string, headers: seq<string>)
    requires forall k :: 0 <= k < |headers| ==> FindFrom(s, headers[k], 0) == -1
    ensures FirstFound(s, headers) == -1
  {
    if headers != [] {
      NoneFound(s, headers[1..]);
    }
  }

  /** Every header holds the upper-cased name: wherever one occurs in upper-cased text, the
      name does too. */
  lemma HeaderHoldsName(text: string, sectionName: string, header: string)
    requires header in Headers(sectionName)
    ensures Contains(Upper(text), header) ==> Contains(Upper(text), Upper(sectionName))
  {
    var s := Upper(text);
    var u := Upper(sectionName);
    if Contains(s, header) {
      if header == u {
      } else if header == u + "S" {
        assert header[..|u|] == u;
        HoldsPlural(s, u, header);
      } else if header == "## " + sectionName {
        assert header[3..3 + |sectionName|] == sectionName;
        HoldsUpperName(text, sectionName, header, 3);
      } else {
        assert header == "• " + sectionName;
        assert header[2..2 + |sectionName|] == sectionName;
        HoldsUpperName(text, sectionName, header, 2);
      }
    }
  }

  /** A header is absent wherever the upper-cased name is. */
  lemma AbsentWithName(text: string, sectionName: string, header: string)
    requires header in Headers(sectionName)
    requires !Contains(Upper(text), Upper(sectionName))
    ensures FindFrom(Upper(text), header, 0) == -1
  {
    FindFromContains(Upper(text), header);
    HeaderHoldsName(text, sectionName, header);
  }

  /** Only the bare upper-cased name ever decides where a section starts: the plural and the
      decorated headers hold it (or, with a lower-case letter, cannot occur in upper-cased
      text), so whenever they occur it has already been found. */
  lemma OnlyTheNameDecides(text: string, sectionName: string)
    ensures FirstFound(Upper(text), Headers(sectionName)) == FindFrom(Upper(text), Upper(sectionName), 0)
  {
    var s := Upper(text);
    var u := Upper(sectionName);
    var hs := Headers(sectionName);
    FindFromContains(s, u);
    if FindFrom(s, u, 0) == -1 {
      forall k | 0 <= k < |hs| ensures FindFrom(s, hs[k], 0) == -1 {
        AbsentWithName(text, sectionName, hs[k]);
      }
      NoneFound(s, hs);
    }
  }

  /** `NAME` occurs wherever `NAMES` does. */
  lemma HoldsPlural(s: string, u: string, h: string)
    requires |u| <= |h| && h[..|u|] == u && Contains(s, h)
    ensures Contains(s, u)
  {
    assert OccursAt(h, u, 0);
    ContainsAt(h, u, 0);
    ContainsTrans(s, h, u);
  }

  /** The section is empty when the upper-cased name does not occur in the upper-cased text. */
  lemma NoHeaderNoSection(text: string, sectionName: string, endMarker: Option<string>)
    requires !Contains(Upper(text), Upper(sectionName))
    ensures Section(text, sectionName, endMarker) == ""
  {
    OnlyTheNameDecides(text, sectionName);
    FindFromContains(Upper(text), Upper(sectionName));
  }

  /** Otherwise the section is the original text from the name's first occurrence up to the
      first occurrence of the end marker at or after it, or to the end of the text. */
  lemma SectionIsBetweenHeaders(text: string, sectionName: string, endMarker: Option<string>, start: int)
    requires start == FindFrom(Upper(text), Upper(sectionName), 0) && start != -1
    ensures OccursAt(Upper(text), Upper(sectionName), start)
    ensures start + |Section(text, sectionName, endMarker)| <= |text|
    ensures Section(text, sectionName, endMarker) == text[start..start + |Section(text, sectionName, endMarker)|]
    ensures !Truthy(endMarker) ==> Section(text, sectionName, endMarker) == text[start..]
    ensures Truthy(endMarker) ==>
      var end := start + |Section(text, sectionName, endMarker)|;
      (end == |text| || OccursAt(Upper(text), Upper(endMarker.value), end))
      && forall i :: start <= i < end ==> !OccursAt(Upper(text), Upper(endMarker.value), i)
  {
    SectionAt(text, sectionName, endMarker, start);
    var end := SectionEnd(Upper(text), endMarker, start);
    var section := Section(text, sectionName, endMarker);
    assert start + |section| == end;
    SectionEndStops(Upper(text), endMarker, start);
  }

  /** Found, the section runs from the name's first occurrence to where it ends. */
  lemma SectionAt(text: string, sectionName: string, endMarker: Option<string>, start: int)
    requires start == FindFrom(Upper(text), Upper(sectionName), 0) && start != -1
    ensures 0 <= start <= |text|
    ensures Section(text, sectionName, endMarker) == text[start..SectionEnd(Upper(text), endMarker, start)]
  {
    OnlyTheNameDecides(text, sectionName);
  }

  /** The section ends at the first occurrence of a truthy end marker from the start on, or
      at the end of the text. */
  lemma SectionEndStops(upper: string, endMarker: Option<string>, start: nat)
    requires start <= |upper|
    ensures !Truthy(endMarker) ==> SectionEnd(upper, endMarker, start) == |upper|
    ensures Truthy(endMarker) ==>
      var end := SectionEnd(upper, endMarker, start);
      (end == |upper| || OccursAt(upper, Upper(endMarker.value), end))
      && forall i :: start <= i < end ==> !OccursAt(upper, Upper(endMarker.value), i)
  {
  }

  // ----- parse_skills (parser.py:93-124) -----

  const TechKeywords: seq<string> := [
    "Python", "Java", "JavaScript", "TypeScript", "C++", "C#", "Go", "Rust",
    "React", "Vue", "Angular", "Django", "FastAPI", "Flask", "Spring", "Node",
    "TensorFlow", "PyTorch", "Scikit-learn", "Pandas", "NumPy", "Keras",
    "SQL", "MySQL", "PostgreSQL", "MongoDB", "Redis", "Elasticsearch",
    "Docker", "Kubernetes", "AWS", "GCP", "Azure", "CI/CD", "Git", "Jenkins",
    "Linux", "REST API", "GraphQL", "Microservices", "Machine Learning",
    "Deep Learning", "NLP", "Computer Vision", "Data Science"]

  const SoftKeywords: seq<string> := [
    "Communication", "Leadership", "Problem Solving", "Teamwork",
    "Project Management", "Critical Thinking", "Adaptability", "Creativity",
    "Time Management", "Collaboration"]

  /** `skill.lower() in text.lower()`. */
  predicate Mentions(text: string, skill: string) {
    Contains(Lower(text), Lower(skill))
  }

  /** The keywords of `keywords` the text mentions, as one loop of `parse_skills` collects
      them before the `set` removes duplicates. */
  method Collect(text: string, keywords: seq<string>) returns (found: set<string>)
    ensures forall k :: k in found <==> k in keywords && Mentions(text, k)
  {
    var listed: seq<string> := [];
    var i := 0;
    while i < |keywords|
      invariant 0 <= i <= |keywords|
      invariant forall k :: k in listed <==> k in keywords[..i] && Mentions(text, k)
    {
      assert keywords[..i + 1] == keywords[..i] + [keywords[i]];
      if Mentions(text, keywords[i]) {
        listed := listed + [keywords[i]];
      }
      i := i + 1;
    }
    assert keywords[..|keywords|] == keywords;
    found := set k | k in listed;
  }

  /** The skills of a text: each keyword list filtered by mention, without duplicates. */
  function Skills(text: string, keywords: seq<string>): (found: set<string>)
    ensures forall k :: k in found <==> k in keywords && Mentions(text, k)
  {
    set k | k in keywords && Mentions(text, k)
  }

  /** `parse_skills`: the technical and the soft skills the text mentions. */
  method ParseSkills(text: string) returns (technical: set<string>, soft: set<string>)
    ensures technical == Skills(text, TechKeywords) && soft == Skills(text, SoftKeywords)
  {
    technical := Collect(text, TechKeywords);
    soft := Collect(text, SoftKeywords);
  }

  /** A keyword inside another is reported whenever the longer one is: matching is by
      substring, not by word. */
  lemma ShorterKeywordRidesAlong(text: string, short: string, long: string, k: nat)
    requires k + |short| <= |long| && long[k..k + |short|] == short
    requires Mentions(text, long)
    ensures Mentions(text, short)
  {
    var ll := Lower(long);
    assert ll[k..k + |short|] == Lower(short);
    assert OccursAt(ll, Lower(short), k);
    ContainsAt(ll, Lower(short), k);
    ContainsTrans(Lower(text), ll, Lower(short));
  }

  /** A resume that mentions Django is credited with Go ("djan-go"). */
  lemma DjangoMeansGo(text: string, django: string, go: string)
    requires django == "Django" && go == "Go" && Mentions(text, django)
    ensures Mentions(text, go) && go in Skills(text, TechKeywords)
  {
    GoInDjango(django, go);
    ContainsTrans(Lower(text), Lower(django), Lower(go));
    GoIsTechKeyword(go);
  }

  lemma GoInDjango(django: string, go: string)
    requires django == "Django" && go == "Go"
    ensures Contains(Lower(django), Lower(go))
  {
    assert django[4] == 'g' && django[5] == 'o' && go[0] == 'G' && go[1] == 'o';
    assert Lower(django)[4..6] == Lower(go);
    assert OccursAt(Lower(django), Lower(go), 4);
    ContainsAt(Lower(django), Lower(go), 4);
  }

  lemma GoIsTechKeyword(go: string)
    requires go == "Go"
    ensures go in TechKeywords
  {
    assert TechKeywords[6] == go;
  }

  // ----- calculate_experience_years (parser.py:127-140) -----

  /** The error `calculate_experience_years` raises: `years[-1] - years` subtracts a list
      from an int. */
  datatype Raised = TypeError

  /** `calculate_experience_years`, given the years the pattern `\b(20\d{2})\b` finds. */
  function ExperienceYears(years: seq<int>): (r: Result<int, Raised>)
    ensures r.Err? <==> |years| >= 2
    ensures r.Ok? ==> r.value == 0
  {
    if |years| == 0 then Ok(0)
    else if |years| >= 2 then Err(TypeError)
    else Ok(0)
  }

  // ----- parse_resume (parser.py:142-176) -----

  datatype WorkExperience = WorkExperience(company: string, jobTitle: string, duration: string, description: string)
  datatype Education = Education(school: string, degree: string, field: string, year: string)

  /** `ResumeData` (app/resume/models.py): skills as sets, since their order is arbitrary. */
  datatype ResumeData = ResumeData(
    fullName: string,
    email: string,
    phone: string,
    location: string,
    summary: string,
    technicalSkills: set<string>,
    softSkills: set<string>,
    yearsOfExperience: int,
    workExperience: seq<WorkExperience>,
    education: seq<Education>,
    certifications: seq<string>)

  const SummaryLength := 200

  /** The summary: the first 200 characters of the SUMMARY section, or a stock line. */
  function Summary(section: string): (r: string)
    ensures section == "" ==> r == "ML/Software Engineer"
    ensures section != "" ==> r <= section && |r| == if |section| < SummaryLength then |section| else SummaryLength
  {
    if section != "" then SliceTo(section, SummaryLength) else "ML/Software Engineer"
  }

  /** The assembly of `parse_resume` after text extraction: `email` and `phone` are what the
      e-mail and phone patterns found, `years` what the year pattern found. */
  function ParseResume(text: string, email: Option<string>, phone: Option<string>, years: seq<int>): Result<ResumeData, Raised> {
    match ExperienceYears(years)
    case Err(e) => Err(e)
    case Ok(experience) =>
      Ok(ResumeData(
        OrDefault(Some(FirstName(TopLines(text))), "Unknown"),
        OrDefault(email, "not@found.com"),
        OrDefault(phone, "+91-0000000000"),
        "Bangalore",
        Summary(Section(text, "SUMMARY", None)),
        Skills(text, TechKeywords),
        Skills(text, SoftKeywords),
        experience,
        [],
        [],
        []))
  }

  /** Parsing fails exactly when two or more years are found; otherwise the name is what
      `extract_name` found (the "Unknown" fallback is never taken), the location is always
      Bangalore, the experience always 0, and no work experience, education or
      certification is ever filled in. The summary is read from the SUMMARY section, a
      missing email or phone gets its stock value, and the skill sets are those of
      `parse_skills`. */
  lemma ParseResumeFields(text: string, email: Option<string>, phone: Option<string>, years: seq<int>)
    ensures ParseResume(text, email, phone, years).Err? <==> |years| >= 2
    ensures var r := ParseResume(text, email, phone, years);
      r.Ok? ==>
        r.value.fullName == FirstName(TopLines(text)) && r.value.fullName != "Unknown"
        && r.value.location == "Bangalore" && r.value.yearsOfExperience == 0
        && r.value.workExperience == [] && r.value.education == [] && r.value.certifications == []
        && r.value.summary == Summary(Section(text, "SUMMARY", None))
    ensures var r := ParseResume(text, email, phone, years);
      r.Ok? ==>
        (email.Some? && email.value != "" ==> r.value.email == email.value)
        && (email.None? || email.value == "" ==> r.value.email == "not@found.com")
        && (phone.Some? && phone.value != "" ==> r.value.phone == phone.value)
        && (phone.None? || phone.value == "" ==> r.value.phone == "+91-0000000000")
    ensures var r := ParseResume(text, email, phone, years);
      r.Ok? ==> r.value.technicalSkills == Skills(text, TechKeywords) && r.value.softSkills == Skills(text, SoftKeywords)
  {
    NameIsNeverEmpty(TopLines(text));
    NameIsNeverUnknown(TopLines(text));
  }

  /** "Unknown" is neither the fallback nor a name-like line, so `extract_name` never
      returns it. */
  lemma NameIsNeverUnknown(lines: seq<string>)
    ensures FirstName(lines) != "Unknown"
  {
    FirstNameIsLine(lines);
    UnknownIsNoName("Unknown");
  }

  lemma UnknownIsNoName(unknown: string)
    requires unknown == "Unknown"
    ensures !NameLike(unknown)
  {
    assert unknown[0] == 'U' && unknown[1] == 'n';
    LowerSecondIsNoName(unknown);
  }

  /** The name is the fallback or a line that reads as a name. */
  lemma {:induction false} FirstNameIsLine(lines: seq<string>)
    ensures FirstName(lines) == NameNotFound || NameLike(FirstName(lines))
  {
    if lines != [] && !NameLike(Strip(lines[0])) {
      FirstNameIsLine(lines[1..]);
    }
  }
}
