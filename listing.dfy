/** The job dictionary every source adapter builds, and the pieces of scraped markup
    that feed it. Field names follow the `Job` table of app/database/models.py. */
module Listing {
  import opened Wrappers

  /** `posted_date`: the moment of scraping (`datetime.now()`), a source date parsed by
      `datetime.fromisoformat`, or the RSS feed's date kept as the string it reads. */
  datatype PostedDate = ScrapedNow | Parsed(text: string) | Verbatim(text: string)
  {
    /** The value is a Python `datetime`, which `json.dumps` cannot serialize. */
    predicate IsDatetime() {
      !Verbatim?
    }
  }

  /** A date string in a source's payload, with whether `datetime.fromisoformat` accepts it
      (after the `'Z'` to `'+00:00'` rewrite); a rejected one makes the adapter raise. */
  datatype Stamp = Stamp(text: string, isoFormat: bool)

  /** The anchor element of a card: absent, present without an `href` attribute, or with one. */
  datatype Link = NoLink | LinkWithoutHref | Href(url: string)

  datatype Job = Job(
    title: string,
    company: string,
    location: string,
    description: string,
    url: string,
    source: string,
    postedDate: PostedDate,
    jobType: string,
    experienceLevel: string)

  /** `x or default` for an optional string: `None` and `""` are both falsy. */
  function OrDefault(x: Option<string>, default: string): (r: string)
    ensures r == default || (x.Some? && x.value != "" && r == x.value)
  {
    if x.Some? && x.value != "" then x.value else default
  }

  /** `elem.find('a')['href'] if elem.find('a') else ''`: `None` when the lookup raises `KeyError`. */
  function AnchorUrl(link: Link): (r: Option<string>)
    ensures r.None? <==> link == LinkWithoutHref
  {
    match link
    case NoLink => Some("")
    case LinkWithoutHref => None
    case Href(u) => Some(u)
  }

  /** The jobs of the cards that `read` accepts, in card order: the loop every HTML adapter
      runs over its cards, where a card may be skipped. */
  function Kept<C>(cards: seq<C>, read: C -> Option<Job>): seq<Job> {
    if cards == [] then []
    else
      var last := read(cards[|cards| - 1]);
      Kept(cards[..|cards| - 1], read) + (if last.Some? then [last.value] else [])
  }

  /** The card loop itself. */
  method KeepCards<C>(cards: seq<C>, read: C -> Option<Job>) returns (found: seq<Job>)
    ensures found == Kept(cards, read)
  {
    found := [];
    var c := 0;
    while c < |cards|
      invariant 0 <= c <= |cards|
      invariant found == Kept(cards[..c], read)
    {
      assert cards[..c + 1][..c] == cards[..c];
      var job := read(cards[c]);
      if job.Some? {
        found := found + [job.value];
      }
      c := c + 1;
    }
    assert cards[..|cards|] == cards;
  }

  /** Each card yields at most one job, and every job kept is what `read` made of some card. */
  lemma {:induction false} KeptFromCards<C>(cards: seq<C>, read: C -> Option<Job>)
    ensures |Kept(cards, read)| <= |cards|
    ensures forall j :: j in Kept(cards, read) ==> exists c :: c in cards && read(c) == Some(j)
  {
    if cards != [] {
      var init := cards[..|cards| - 1];
      KeptFromCards(init, read);
      forall j | j in Kept(cards, read) ensures exists c :: c in cards && read(c) == Some(j) {
        if j in Kept(init, read) {
          var c :| c in init && read(c) == Some(j);
          assert c in cards;
        } else {
          assert read(cards[|cards| - 1]) == Some(j);
        }
      }
    }
  }

  /** A card `read` accepts is never lost: its job is kept. */
  lemma {:induction false} AcceptedCardIsKept<C>(cards: seq<C>, read: C -> Option<Job>, c: C)
    requires c in cards && read(c).Some?
    ensures read(c).value in Kept(cards, read)
  {
    var last := cards[|cards| - 1];
    if c != last {
      var init := cards[..|cards| - 1];
      assert cards == init + [last];
      AcceptedCardIsKept(init, read, c);
    }
  }
}
