/**
 * The LinkedIn pass of `scrape_linkedin`: one search page per target role,
 * card-list selection with alternative selectors, the per-field fallback
 * chains, required-field rejection, the company filter and job typing.
 * LinkedIn postings are not deduplicated.
 */
module LinkedIn {
  import opened Wrappers
  import opened Text
  import opened Chain
  import opened Dom
  import opened Jobs
  import opened Classify

  const TitleSelectors: seq<string> := [".base-search-card__title", "h3", ".sr-only"]
  const CompanySelectors: seq<string> := [".base-search-card__subtitle a", ".base-search-card__subtitle", "h4 a", "h4"]
  const LocationSelectors: seq<string> := [".job-search-card__location", ".job-result-card__location"]
  const LinkSelectors: seq<string> := [".base-card__full-link", "a[href*='/jobs/view/']", "a"]
  const TimeSelectors: seq<string> := [".job-search-card__listdate--new", "time", "[datetime]"]
  const PrimaryCardSelector: string := ".job-search-card"
  const AlternativeCardSelectors: seq<string> := [
    ".base-search-card", ".jobs-search-results__list-item", ".job-result-card",
    ".jobs-search__results-list li", "[data-job-id]", "[data-entity-urn*='jobPosting']"]

  /** The marker a link must contain to be accepted. */
  const JobViewPath: string := "/jobs/view/"

  /** The search URL of one role: spaces become `%20`. */
  function SearchUrl(role: string): string {
    var keywords := ReplaceChar(role, ' ', "%20");
    "https://www.linkedin.com/jobs/search/?keywords=" + keywords + "&location=Saudi%20Arabia&f_TPR=r86400"
  }

  // ---------------------------------------------------------------- text chains

  /** What one selector of a title, company or location chain does. */
  datatype Step = Hit(value: string) | Miss | Raise

  /**
   * One selector: no element is a miss; visible text, stripped, is a hit when
   * non-empty; otherwise the stripped `innerHTML`, when non-empty, is a hit
   * after its tags are removed and it is stripped again (even if nothing is
   * left). An element with no `innerHTML` makes `.strip()` raise, which
   * abandons the whole card.
   */
  function TextStep(found: Option<Element>): Step {
    match found
    case None => Miss
    case Some(e) =>
      var shown := Strip(e.text);
      if shown != "" then Hit(shown)
      else match Attribute(e, "innerHTML")
        case None => Raise
        case Some(html) =>
          var markup := Strip(html);
          if markup != "" then Hit(Strip(StripTags(markup)))
          else Miss
  }

  /**
   * A text chain over `sels`: the value of the first hit, `""` when every
   * selector misses, `None` when the first step that is not a miss raised.
   */
  function ChainText(card: Card, sels: seq<string>): Option<string>
    decreases |sels|
  {
    if sels == [] then Some("")
    else match TextStep(Find(card, sels[0]))
      case Miss => ChainText(card, sels[1..])
      case Hit(v) => Some(v)
      case Raise => None
  }

  /** The loop of one text chain, breaking at the first hit. */
  method ExtractText(card: Card, sels: seq<string>) returns (r: Option<string>)
    ensures r == ChainText(card, sels)
  {
    var value := "";
    var i := 0;
    while i < |sels|
      invariant 0 <= i <= |sels|
      invariant ChainText(card, sels[i..]) == ChainText(card, sels)
      invariant value == ""
    {
      assert sels[i..][0] == sels[i] && sels[i..][1..] == sels[i + 1..];
      var found := Find(card, sels[i]);
      if found.Some? {
        var e := found.value;
        value := Strip(e.text);
        if value != "" {
          return Some(value);
        }
        var html := Attribute(e, "innerHTML");
        if html.None? {
          return None;
        }
        value := Strip(html.value);
        if value != "" {
          value := Strip(StripTags(value));
          return Some(value);
        }
      }
      i := i + 1;
    }
    return Some(value);
  }

  /** The chain stops at a selector whose step is not a miss. */
  function TextStops(card: Card): string -> bool {
    sel => !TextStep(Find(card, sel)).Miss?
  }

  /**
   * The chain is decided by its first selector that does not miss: that
   * selector's hit, or `None` if it raised, or `""` when there is none.
   */
  lemma {:induction false} ChainTextIsFirstStop(card: Card, sels: seq<string>)
    ensures var k := FirstIndex(sels, TextStops(card));
            ChainText(card, sels) ==
              if k == |sels| then Some("")
              else match TextStep(Find(card, sels[k])) case Hit(v) => Some(v) case _ => None
    decreases |sels|
  {
    if sels != [] && TextStep(Find(card, sels[0])).Miss? {
      ChainTextIsFirstStop(card, sels[1..]);
    }
  }

  /** Every value a chain yields is already stripped. */
  lemma {:induction false} ChainTextStripped(card: Card, sels: seq<string>)
    ensures ChainText(card, sels).Some? ==> Strip(ChainText(card, sels).value) == ChainText(card, sels).value
    decreases |sels|
  {
    if sels != [] {
      match Find(card, sels[0])
      case None => ChainTextStripped(card, sels[1..]);
      case Some(e) =>
        StripOfStripped(e.text);
        if "innerHTML" in e.attributes {
          StripOfStripped(StripTags(Strip(e.attributes["innerHTML"])));
        }
        ChainTextStripped(card, sels[1..]);
    }
  }

  /** A value taken from markup carries no tag any more. */
  lemma MarkupValueHasNoTag(e: Element)
    requires Strip(e.text) == ""
    requires TextStep(Some(e)).Hit?
    ensures NoTag(TextStep(Some(e)).value)
  {
    var markup := Strip(e.attributes["innerHTML"]);
    StripTagsLeavesNoTag(markup);
    StripKeepsNoTag(StripTags(markup));
  }

  /** The first hit wins: once a selector does not miss, the selectors after it are never consulted. */
  lemma {:induction false} FirstHitWins(card: Card, sels: seq<string>, more: seq<string>)
    requires exists i :: 0 <= i < |sels| && !TextStep(Find(card, sels[i])).Miss?
    ensures ChainText(card, sels + more) == ChainText(card, sels)
    decreases |sels|
  {
    if TextStep(Find(card, sels[0])).Miss? {
      var i :| 0 <= i < |sels| && !TextStep(Find(card, sels[i])).Miss?;
      assert sels[1..][i - 1] == sels[i];
      assert (sels + more)[1..] == sels[1..] + more;
      FirstHitWins(card, sels[1..], more);
    }
  }

  /**
   * Markup made only of tags (and whitespace) stops the chain with an empty
   * value, which later rejects the card; `"<b></b>"` is such markup.
   */
  lemma TagOnlyMarkupStops(card: Card, sels: seq<string>, e: Element, m: string)
    requires sels != [] && Find(card, sels[0]) == Some(e)
    requires Strip(e.text) == "" && Attribute(e, "innerHTML") == Some(m)
    requires Strip(m) != "" && Strip(StripTags(Strip(m))) == ""
    ensures ChainText(card, sels) == Some("")
  {
  }

  /** `"<b></b>"` is markup of that kind. */
  lemma BoldOnlyMarkup()
    ensures Strip("<b></b>") != "" && Strip(StripTags(Strip("<b></b>"))) == ""
  {
    assert Strip("<b></b>") == "<b></b>";
    TagStripExample();
  }

  // ---------------------------------------------------------------- link chain

  /** The `href` of the element a selector finds, `None` for no element or no attribute. */
  function HrefOf(found: Option<Element>): Option<string> {
    match found
    case None => None
    case Some(e) => Attribute(e, "href")
  }

  /** An `href` is accepted when it is non-empty and contains `/jobs/view/`. */
  predicate Accepted(h: Option<string>) {
    h.Some? && h.value != "" && Contains(h.value, JobViewPath)
  }

  /**
   * The link chain over `sels`, with `link` the value read so far: an
   * accepted `href` ends it, cut at its first `?` (`split('?')[0]`); any other
   * `href` read replaces `link` and the chain goes on.
   */
  function LinkFrom(card: Card, sels: seq<string>, link: Option<string>): Option<string>
    decreases |sels|
  {
    if sels == [] then link
    else match Find(card, sels[0])
      case None => LinkFrom(card, sels[1..], link)
      case Some(e) =>
        var h := Attribute(e, "href");
        if Accepted(h) then Some(SplitOn(h.value, '?')[0]) else LinkFrom(card, sels[1..], h)
  }

  /** The link of a card: the chain over the link selectors, starting from `""`. */
  function ChainLink(card: Card): Option<string> {
    LinkFrom(card, LinkSelectors, Some(""))
  }

  /** The loop of the link chain, breaking at the first accepted link. */
  method ExtractLink(card: Card) returns (link: Option<string>)
    ensures link == ChainLink(card)
  {
    link := Some("");
    var i := 0;
    while i < |LinkSelectors|
      invariant 0 <= i <= |LinkSelectors|
      invariant LinkFrom(card, LinkSelectors[i..], link) == ChainLink(card)
    {
      assert LinkSelectors[i..][0] == LinkSelectors[i] && LinkSelectors[i..][1..] == LinkSelectors[i + 1..];
      var found := Find(card, LinkSelectors[i]);
      if found.Some? {
        link := Attribute(found.value, "href");
        if link.Some? && link.value != "" && Contains(link.value, JobViewPath) {
          link := Some(SplitOn(link.value, '?')[0]);
          return;
        }
      }
      i := i + 1;
    }
  }

  function LinkStops(card: Card): string -> bool {
    sel => Accepted(HrefOf(Find(card, sel)))
  }

  /**
   * When some selector's `href` is accepted, the link is the first accepted
   * `href` up to its first `?`, and so holds no `?`.
   */
  lemma {:induction false} AcceptedLink(card: Card, sels: seq<string>, link: Option<string>)
    requires exists i :: 0 <= i < |sels| && Accepted(HrefOf(Find(card, sels[i])))
    ensures var k := FirstIndex(sels, LinkStops(card));
            && k < |sels|
            && LinkFrom(card, sels, link) == Some(Before(HrefOf(Find(card, sels[k])).value, '?'))
            && '?' !in LinkFrom(card, sels, link).value
    decreases |sels|
  {
    if !Accepted(HrefOf(Find(card, sels[0]))) {
      var i :| 0 <= i < |sels| && Accepted(HrefOf(Find(card, sels[i])));
      assert sels[1..][i - 1] == sels[i];
      AcceptedLink(card, sels[1..], HrefOf(Find(card, sels[0])));
      AcceptedLink(card, sels[1..], link);
    }
  }

  /** The `href` last read by the selectors of `sels` that find an element, else `link`. */
  function LastHref(card: Card, sels: seq<string>, link: Option<string>): Option<string>
    decreases |sels|
  {
    if sels == [] then link
    else
      match Find(card, sels[|sels| - 1])
      case None => LastHref(card, sels[..|sels| - 1], link)
      case Some(e) => Attribute(e, "href")
  }

  /** With no accepted `href`, the link is the last `href` read, whatever it is. */
  lemma {:induction false} UnacceptedLink(card: Card, sels: seq<string>, link: Option<string>)
    requires forall i :: 0 <= i < |sels| ==> !Accepted(HrefOf(Find(card, sels[i])))
    ensures LinkFrom(card, sels, link) == LastHref(card, sels, link)
    decreases |sels|
  {
    if sels != [] {
      var rest := sels[1..];
      var link' := if sels[0] in card.elements then HrefOf(Find(card, sels[0])) else link;
      assert forall i :: 0 <= i < |rest| ==> rest[i] == sels[i + 1];
      UnacceptedLink(card, rest, link');
      LastHrefCons(card, sels, link);
    }
  }

  /** Reading the selectors front to back: the first one only matters when no later one finds an element. */
  lemma {:induction false} LastHrefCons(card: Card, sels: seq<string>, link: Option<string>)
    requires sels != []
    ensures LastHref(card, sels, link)
         == LastHref(card, sels[1..], if sels[0] in card.elements then HrefOf(Find(card, sels[0])) else link)
    decreases |sels|
  {
    if |sels| > 1 {
      var init := sels[..|sels| - 1];
      assert init[1..] == sels[1..][..|sels[1..]| - 1];
      assert init[0] == sels[0];
      assert sels[1..][|sels[1..]| - 1] == sels[|sels| - 1];
      LastHrefCons(card, init, link);
    } else {
      assert sels[..0] == [] && sels[1..] == [];
    }
  }

  /** Without an accepted link, an `href` from the catch-all `a` selector is still kept as the link. */
  lemma UnacceptedHrefIsKept(card: Card, h: string)
    requires forall i :: 0 <= i < |LinkSelectors| - 1 ==> LinkSelectors[i] !in card.elements
    requires "a" in card.elements && Attribute(card.elements["a"], "href") == Some(h)
    requires !Contains(h, JobViewPath)
    ensures ChainLink(card) == Some(h)
  {
    UnacceptedLink(card, LinkSelectors, Some(""));
  }

  // ---------------------------------------------------------------- posting date

  /** The `datetime` attribute a selector finds, `""` when there is none. */
  function DatetimeOf(found: Option<Element>): string {
    match found
    case None => ""
    case Some(e) => match Attribute(e, "datetime") case None => "" case Some(d) => d
  }

  /** The date chain over `sels`: the first non-empty `datetime` attribute, else the run date. */
  function PostedFrom(card: Card, sels: seq<string>, runDay: int): Posted
    decreases |sels|
  {
    if sels == [] then OnDay(runDay)
    else
      var d := DatetimeOf(Find(card, sels[0]));
      if d != "" then Stamp(d) else PostedFrom(card, sels[1..], runDay)
  }

  /** The posting date of a card. */
  function ChainPosted(card: Card, runDay: int): Posted {
    PostedFrom(card, TimeSelectors, runDay)
  }

  /** The loop of the date chain, then the run-date default. */
  method ExtractPosted(card: Card, runDay: int) returns (p: Posted)
    ensures p == ChainPosted(card, runDay)
  {
    var i := 0;
    while i < |TimeSelectors|
      invariant 0 <= i <= |TimeSelectors|
      invariant PostedFrom(card, TimeSelectors[i..], runDay) == ChainPosted(card, runDay)
    {
      assert TimeSelectors[i..][0] == TimeSelectors[i] && TimeSelectors[i..][1..] == TimeSelectors[i + 1..];
      var found := Find(card, TimeSelectors[i]);
      if found.Some? {
        var d := Attribute(found.value, "datetime");
        if d.Some? && d.value != "" {
          return Stamp(d.value);
        }
      }
      i := i + 1;
    }
    return OnDay(runDay);
  }

  /** The date chain stops at a selector whose element has a non-empty `datetime`. */
  function DateStops(card: Card): string -> bool {
    sel => DatetimeOf(Find(card, sel)) != ""
  }

  /**
   * A card carries its own date exactly when some selector finds a non-empty
   * `datetime`, and then it is the first such; otherwise it is the run date.
   */
  lemma {:induction false} PostedSpec(card: Card, sels: seq<string>, runDay: int)
    ensures PostedFrom(card, sels, runDay).Stamp? <==>
      exists i :: 0 <= i < |sels| && DatetimeOf(Find(card, sels[i])) != ""
    ensures PostedFrom(card, sels, runDay).Stamp? ==>
      var k := FirstIndex(sels, DateStops(card));
      && k < |sels|
      && PostedFrom(card, sels, runDay).text == DatetimeOf(Find(card, sels[k]))
      && PostedFrom(card, sels, runDay).text != ""
    ensures PostedFrom(card, sels, runDay).OnDay? ==> PostedFrom(card, sels, runDay).day == runDay
    decreases |sels|
  {
    if sels != [] {
      PostedSpec(card, sels[1..], runDay);
      assert forall i :: 1 <= i < |sels| ==> sels[1..][i - 1] == sels[i];
    }
  }

  // ---------------------------------------------------------------- one card

  /** The whole card: the fields, the rejections, the company filter and the job type. */
  function CardJob(card: Card, runDay: int): Option<Job>
  {
    var title := ChainText(card, TitleSelectors);
    var company := ChainText(card, CompanySelectors);
    var location := ChainText(card, LocationSelectors);
    var link := ChainLink(card);
    if title.None? || company.None? || location.None? then None
    else if title.value == "" || company.value == "" || link.None? || link.value == "" then None
    else if CompanyFiltered(company.value) then None
    else
      var jobType := DetermineJobType(title.value + " " + location.value);
      Some(Job(company.value, LinkedIn, title.value, jobType, link, ChainPosted(card, runDay),
               if location.value == "" then "Saudi Arabia" else location.value, "", None, None, None))
  }

  /**
   * A card yields a job exactly when no chain raised, title, company and link
   * are non-empty and the company is not denylisted; there is no relevance
   * test. The job carries the chains' values and the typed title-plus-location.
   */
  lemma CardJobSpec(card: Card, runDay: int)
    ensures CardJob(card, runDay).Some? <==>
      && ChainText(card, TitleSelectors).Some? && ChainText(card, TitleSelectors).value != ""
      && ChainText(card, CompanySelectors).Some? && ChainText(card, CompanySelectors).value != ""
      && ChainText(card, LocationSelectors).Some?
      && ChainLink(card).Some? && ChainLink(card).value != ""
      && !CompanyFiltered(ChainText(card, CompanySelectors).value)
    ensures CardJob(card, runDay).Some? ==>
      var j := CardJob(card, runDay).value;
      var location := ChainText(card, LocationSelectors).value;
      && j.platform == LinkedIn
      && j.jobTitle == ChainText(card, TitleSelectors).value
      && j.companyName == ChainText(card, CompanySelectors).value
      && j.jobLink == ChainLink(card)
      && j.postedTime == ChainPosted(card, runDay)
      && j.jobType == DetermineJobType(j.jobTitle + " " + location)
      && j.location == (if location == "" then "Saudi Arabia" else location)
      && j.descriptionSnippet == "" && j.salaryInfo.None? && j.careerLevel.None? && j.description.None?
  {
  }

  /** The body of the per-card `try`: run the chains, then validate and build the job. */
  method ProcessCard(card: Card, runDay: int) returns (r: Option<Job>)
    ensures r == CardJob(card, runDay)
  {
    var title := ExtractText(card, TitleSelectors);
    if title.None? { return None; }
    var company := ExtractText(card, CompanySelectors);
    if company.None? { return None; }
    var location := ExtractText(card, LocationSelectors);
    if location.None? { return None; }
    var link := ExtractLink(card);
    var posted := ExtractPosted(card, runDay);
    if title.value == "" || company.value == "" || link.None? || link.value == "" {
      return None;
    }
    var filtered := IsCompanyFiltered(company.value);
    if filtered {
      return None;
    }
    var jobType := DetermineJobType(title.value + " " + location.value);
    var place := if location.value == "" then "Saudi Arabia" else location.value;
    return Some(Job(company.value, LinkedIn, title.value, jobType, link, posted, place, "", None, None, None));
  }

  // ---------------------------------------------------------------- pages

  /** The first non-empty card list among the selectors of `sels`, else none. */
  function FirstNonEmpty(cardLists: map<string, seq<Card>>, sels: seq<string>): seq<Card>
    decreases |sels|
  {
    if sels == [] then []
    else if FindAll(cardLists, sels[0]) != [] then FindAll(cardLists, sels[0])
    else FirstNonEmpty(cardLists, sels[1..])
  }

  /** The cards processed for one role: the primary list, else the first non-empty alternative, else none. */
  function SelectedCards(cardLists: map<string, seq<Card>>): seq<Card> {
    FirstNonEmpty(cardLists, [PrimaryCardSelector] + AlternativeCardSelectors)
  }

  function CardStops(cardLists: map<string, seq<Card>>): string -> bool {
    sel => FindAll(cardLists, sel) != []
  }

  /**
   * The selection is the list of the first selector that finds cards, and is
   * empty exactly when no selector finds any.
   */
  lemma {:induction false} FirstNonEmptySpec(cardLists: map<string, seq<Card>>, sels: seq<string>)
    ensures var k := FirstIndex(sels, CardStops(cardLists));
            FirstNonEmpty(cardLists, sels) == if k < |sels| then FindAll(cardLists, sels[k]) else []
    ensures FirstNonEmpty(cardLists, sels) == [] <==>
      forall i :: 0 <= i < |sels| ==> FindAll(cardLists, sels[i]) == []
    decreases |sels|
  {
    if sels != [] {
      FirstNonEmptySpec(cardLists, sels[1..]);
      assert forall i :: 1 <= i < |sels| ==> sels[1..][i - 1] == sels[i];
    }
  }

  /** The card-list selection: the primary selector, then the alternatives in order; an empty result skips the role. */
  method SelectCards(cardLists: map<string, seq<Card>>) returns (cards: seq<Card>)
    ensures cards == SelectedCards(cardLists)
  {
    var sels := [PrimaryCardSelector] + AlternativeCardSelectors;
    assert sels[1..] == AlternativeCardSelectors;
    cards := FindAll(cardLists, PrimaryCardSelector);
    if cards == [] {
      var i := 0;
      while i < |AlternativeCardSelectors|
        invariant 0 <= i <= |AlternativeCardSelectors|
        invariant FirstNonEmpty(cardLists, AlternativeCardSelectors[i..]) == SelectedCards(cardLists)
        invariant cards == []
      {
        var rest := AlternativeCardSelectors[i..];
        assert rest[0] == AlternativeCardSelectors[i] && rest[1..] == AlternativeCardSelectors[i + 1..];
        var alt := FindAll(cardLists, AlternativeCardSelectors[i]);
        if alt != [] {
          cards := alt;
          return;
        }
        i := i + 1;
      }
    }
  }

  /** The per-card function: what one card's `try` body appends, if anything. */
  function JobOfCard(runDay: int): Card -> Option<Job> {
    c => CardJob(c, runDay)
  }

  /** The jobs of a run of cards, in card order; cards that fail or are rejected add nothing. */
  function CardsJobs(cards: seq<Card>, runDay: int): seq<Job> {
    Collect(cards, JobOfCard(runDay))
  }

  /** The jobs of one role's page under a per-card function `f`. */
  function PageJobs(page: Page, f: Card -> Option<Job>): seq<Job> {
    match page
    case NavFailed => []
    case Loaded(cardLists) => Collect(SelectedCards(cardLists), f)
  }

  /** The jobs of consecutive pages, in order. */
  function PagesJobs(pages: seq<Page>, f: Card -> Option<Job>): seq<Job>
    decreases |pages|
  {
    if pages == [] then []
    else PagesJobs(pages[..|pages| - 1], f) + PageJobs(pages[|pages| - 1], f)
  }

  function Failed(): Page -> bool {
    (p: Page) => p.NavFailed?
  }

  /**
   * The LinkedIn pass: one page per role, in role order. A navigation that
   * raises escapes to the pass's outer `try`, so the pages from the first
   * failure on are never processed; the jobs gathered before it are returned.
   */
  function LinkedInRun(pages: seq<Page>, runDay: int): seq<Job> {
    PagesJobs(pages[..FirstIndex(pages, Failed())], JobOfCard(runDay))
  }

  /**
   * One role's card loop: each card's `try` body, appending the job it
   * yields. `f` names the per-card function so that the callers' proofs need
   * not look inside it.
   */
  method ScrapeCards(cards: seq<Card>, runDay: int, ghost f: Card -> Option<Job>) returns (jobs: seq<Job>)
    requires forall c {:trigger CardJob(c, runDay)} :: f(c) == CardJob(c, runDay)
    ensures jobs == Collect(cards, f)
  {
    jobs := [];
    var c := 0;
    while c < |cards|
      invariant 0 <= c <= |cards|
      invariant jobs == Collect(cards[..c], f)
    {
      CollectPrefix(cards, c, f);
      var job := ProcessCard(cards[c], runDay);
      if job.Some? {
        jobs := jobs + [job.value];
      }
      c := c + 1;
    }
    assert cards[..c] == cards;
  }

  /** One loaded role page: select its cards, then run the card loop. */
  method ScrapePage(page: Page, runDay: int, ghost f: Card -> Option<Job>) returns (jobs: seq<Job>)
    requires page.Loaded?
    requires forall c {:trigger CardJob(c, runDay)} :: f(c) == CardJob(c, runDay)
    ensures jobs == PageJobs(page, f)
  {
    var cards := SelectCards(page.cardLists);
    jobs := ScrapeCards(cards, runDay, f);
  }

  /** The jobs of one more page. */
  lemma PagesJobsSnoc(pages: seq<Page>, r: nat, f: Card -> Option<Job>)
    requires r < |pages|
    ensures PagesJobs(pages[..r + 1], f) == PagesJobs(pages[..r], f) + PageJobs(pages[r], f)
  {
    assert pages[..r + 1][..r] == pages[..r];
  }

  /** The first failed navigation after `r` loaded pages is the one `LinkedInRun` stops at. */
  lemma FailureAt(pages: seq<Page>, r: nat)
    requires r <= |pages|
    requires forall i :: 0 <= i < r ==> pages[i].Loaded?
    requires r < |pages| ==> pages[r].NavFailed?
    ensures FirstIndex(pages, Failed()) == r
  {
    FirstIndexUnique(pages, Failed(), r);
  }

  /** The role loop under the per-card function `f`, up to the first failed navigation. */
  method ScrapePages(pages: seq<Page>, runDay: int, ghost f: Card -> Option<Job>) returns (jobs: seq<Job>)
    requires forall c {:trigger CardJob(c, runDay)} :: f(c) == CardJob(c, runDay)
    ensures jobs == PagesJobs(pages[..FirstIndex(pages, Failed())], f)
  {
    jobs := [];
    var r := 0;
    while r < |pages|
      invariant 0 <= r <= |pages|
      invariant forall i :: 0 <= i < r ==> pages[i].Loaded?
      invariant jobs == PagesJobs(pages[..r], f)
    {
      var page := pages[r];
      if page.NavFailed? {
        FailureAt(pages, r);
        return;
      }
      var pageJobs := ScrapePage(page, runDay, f);
      PagesJobsSnoc(pages, r, f);
      jobs := jobs + pageJobs;
      r := r + 1;
    }
    FailureAt(pages, r);
    assert pages[..r] == pages;
  }

  /**
   * `scrape_linkedin`: the role loop, each role's card loop, and the outer
   * `try` that ends the pass at a failed navigation. `pages[r]` is what the
   * browser shows for `SearchUrl(TargetRoles[r])`.
   */
  method ScrapeLinkedIn(pages: seq<Page>, runDay: int) returns (jobs: seq<Job>)
    ensures jobs == LinkedInRun(pages, runDay)
  {
    jobs := ScrapePages(pages, runDay, JobOfCard(runDay));
  }

  /** Nothing after the first failed navigation matters. */
  lemma {:induction false} RunStopsAtFailure(done: seq<Page>, rest: seq<Page>, runDay: int)
    requires forall i :: 0 <= i < |done| ==> done[i].Loaded?
    ensures LinkedInRun(done + [NavFailed] + rest, runDay) == PagesJobs(done, JobOfCard(runDay))
  {
    var pages := done + [NavFailed] + rest;
    FirstIndexUnique(pages, Failed(), |done|);
    assert pages[..|done|] == done;
  }

  /** Every job of a run of pages is what `f` gives for some card. */
  lemma {:induction false} PagesJobsFrom(pages: seq<Page>, f: Card -> Option<Job>)
    ensures forall y :: y in PagesJobs(pages, f) ==> exists c :: f(c) == Some(y)
    decreases |pages|
  {
    if pages != [] {
      PagesJobsFrom(pages[..|pages| - 1], f);
      match pages[|pages| - 1]
      case NavFailed =>
      case Loaded(cardLists) => CollectFrom(SelectedCards(cardLists), f);
    }
  }

  /**
   * Every job of the LinkedIn pass is tagged "LinkedIn", has a non-empty
   * title, company and link, and its company is not denylisted.
   */
  lemma LinkedInRunJobs(pages: seq<Page>, runDay: int)
    ensures forall j :: j in LinkedInRun(pages, runDay) ==>
      && j.platform == LinkedIn && j.jobTitle != "" && j.companyName != ""
      && j.jobLink.Some? && j.jobLink.value != "" && !CompanyFiltered(j.companyName)
  {
    var f := JobOfCard(runDay);
    PagesJobsFrom(pages[..FirstIndex(pages, Failed())], f);
    forall j | j in LinkedInRun(pages, runDay)
      ensures && j.platform == LinkedIn && j.jobTitle != "" && j.companyName != ""
              && j.jobLink.Some? && j.jobLink.value != "" && !CompanyFiltered(j.companyName)
    {
      var c :| f(c) == Some(j);
      CardJobSpec(c, runDay);
    }
  }

  /** LinkedIn keeps repeats: a card listed twice yields its job twice. */
  lemma RepeatedCardKept(card: Card, runDay: int, j: Job)
    requires CardJob(card, runDay) == Some(j)
    ensures CardsJobs([card, card], runDay) == [j, j]
  {
    CollectTwice(card, j, JobOfCard(runDay));
  }
}
