/**
 * The Bayt pass of `scrape_bayt`: the per-role search URL, the card list,
 * and the per-card extraction of title, link, company (four strategies, each
 * tried only when the one before it raised), location, salary, description,
 * career level and the relative posting date, then the filters that reject
 * a card. The hash-set dedup that follows lives with the scraper's state.
 */
module Bayt {
  import opened Wrappers
  import opened Text
  import opened Chain
  import opened Dom
  import opened Jobs
  import opened Classify

  const SearchPrefix: string := "https://www.bayt.com/en/saudi-arabia/jobs/"
  const SearchSuffix: string := "-jobs/?date=1"

  const CardSelector: string := ".has-pointer-d"
  const TitleSelector: string := "h2 a"
  const CompanyLinkSelector: string := "a.t-default.t-bold"
  const CompanyWrapperSelector: string := ".job-company-location-wrapper b"
  const BoldSelector: string := "b, .t-bold"
  const LocationSelector: string := "div.t-mute.t-small"
  const SalarySelector: string := "dt.jb-label-salary"
  const DescriptionSelector: string := "div.jb-descr"
  const CareerSelector: string := "dt.jb-label-careerlevel"
  const DateSelector: string := "span[data-automation-id='job-active-date']"

  const UnknownCompany: string := "Unknown Company"
  const DefaultLocation: string := "Saudi Arabia"

  // ---------------------------------------------------------------- search URL

  /** `role.replace(' ', '-').lower()`: the role as it appears in the URL path. */
  function RoleSlug(role: string): (slug: string)
    ensures |slug| == |role|
    ensures forall i :: 0 <= i < |role| ==> slug[i] == if role[i] == ' ' then '-' else LowerChar(role[i])
    ensures ' ' !in slug
  {
    var dashed := ReplaceChar(role, ' ', "-");
    ReplaceByChar(role, ' ', '-');
    var slug := Lower(dashed);
    assert forall i :: 0 <= i < |slug| ==> slug[i] == LowerChar(dashed[i]);
    slug
  }

  /** The search page of one role. */
  function SearchUrl(role: string): string {
    SearchPrefix + RoleSlug(role) + SearchSuffix
  }

  /** A role written in lower case without spaces appears in the URL unchanged. */
  lemma {:induction false} SlugOfPlainRole(role: string)
    requires ' ' !in role
    requires forall i :: 0 <= i < |role| ==> !('A' <= role[i] <= 'Z')
    ensures RoleSlug(role) == role
    decreases |role|
  {
    ReplaceAbsent(role, ' ', "-");
    assert Lower(role) == role;
  }

  // ---------------------------------------------------------------- title and link

  /** `job_link.split('?')[0]` when `href` is a non-empty string; `None` and `""` stay as they are. */
  function CutQuery(href: Option<string>): (link: Option<string>)
    ensures link.Some? <==> href.Some?
    ensures link.Some? ==> '?' !in link.value
    ensures link.Some? ==> link.value <= href.value
    ensures link.Some? && '?' !in href.value ==> link == href
    ensures link.Some? && |link.value| < |href.value| ==> href.value[|link.value|] == '?'
  {
    match href
    case None => None
    case Some(h) =>
      var cut := Before(h, '?');
      assert '?' !in h ==> h[..IndexOf(h, '?')] == h;
      Some(if h == "" then h else cut)
  }

  /** The `h2 a` element: its stripped text and the cut `href`; `None` when it is missing, which skips the card. */
  function TitleLink(card: Card): (r: Option<(string, Option<string>)>)
    ensures r.Some? <==> TitleSelector in card.elements
    ensures r.Some? ==> r.value.0 == Strip(card.elements[TitleSelector].text)
    ensures r.Some? ==> r.value.1 == CutQuery(Attribute(card.elements[TitleSelector], "href"))
  {
    match Find(card, TitleSelector)
    case None => None
    case Some(e) => Some((Strip(e.text), CutQuery(Attribute(e, "href"))))
  }

  // ---------------------------------------------------------------- company

  /** Strategy 3's test on a stripped bold text. */
  predicate BoldCandidate(text: string, title: string) {
    text != "" && text != title
    && !Contains(text, "Easy Apply") && !Contains(text, "Saudi nationals")
    && !Contains(text, "Mid career") && !Contains(text, "Senior") && !Contains(text, "Entry level")
  }

  function BoldStops(title: string): Element -> bool {
    (e: Element) => BoldCandidate(Strip(e.text), title)
  }

  /** Strategy 3: the stripped text of the first bold element that passes, else none. */
  function FirstBold(elems: seq<Element>, title: string): Option<string> {
    match FirstOk(elems, BoldStops(title))
    case None => None
    case Some(e) => Some(Strip(e.text))
  }

  /** Strategy 3's loop over the bold elements; `break` at the first text that passes. */
  method FindBoldCompany(elems: seq<Element>, title: string) returns (company: Option<string>)
    ensures company == FirstBold(elems, title)
  {
    var found := FindFirst(elems, BoldStops(title));
    company := if found.Some? then Some(Strip(found.value.text)) else None;
  }

  /** Strategy 4's test on a stripped line of the card text. */
  predicate LineCandidate(line: string, title: string) {
    line != "" && line != title
    && !StartsWith(line, "$") && !StartsWith(line, "Yesterday") && !StartsWith(line, "days ago")
    && !Contains(Lower(line), "career")
    && !Contains(line, "Easy Apply") && !Contains(line, "Saudi nationals") && !Contains(line, "Saudi Arabia")
    && !StartsWith(line, "Seeking")
  }

  function LineStops(title: string): string -> bool {
    (line: string) => LineCandidate(Strip(line), title)
  }

  /** Strategy 4: the first line whose stripped form passes, stripped, else none. */
  function FirstLine(lines: seq<string>, title: string): Option<string> {
    match FirstOk(lines, LineStops(title))
    case None => None
    case Some(line) => Some(Strip(line))
  }

  /** The lines strategy 4 scans: `card.text.split('\n')[1:]`, so never the first one. */
  function CardLines(card: Card): seq<string> {
    SplitOn(card.text, '\n')[1..]
  }

  /** Strategy 4's loop over the card's lines; `break` at the first line that passes. */
  method FindLineCompany(lines: seq<string>, title: string) returns (company: Option<string>)
    ensures company == FirstLine(lines, title)
  {
    var found := FindFirst(lines, LineStops(title));
    company := if found.Some? then Some(Strip(found.value)) else None;
  }

  /**
   * What the nested strategies leave in `company_name`: strategy 1's text
   * when its element exists (even an empty one), else strategy 2's, else,
   * when `find_elements` returns, strategy 3's pick, and only when it raises,
   * strategy 4's.
   */
  function RawCompany(card: Card, title: string): Option<string> {
    if CompanyLinkSelector in card.elements then Some(Strip(card.elements[CompanyLinkSelector].text))
    else if CompanyWrapperSelector in card.elements then Some(Strip(card.elements[CompanyWrapperSelector].text))
    else if BoldSelector in card.lists then FirstBold(card.lists[BoldSelector], title)
    else FirstLine(CardLines(card), title)
  }

  /** The final validation: an empty or missing name becomes "Unknown Company". */
  function Validated(raw: Option<string>): (company: string)
    ensures company != ""
    ensures company == UnknownCompany || raw == Some(company)
  {
    if raw.None? || raw.value == "" then UnknownCompany else raw.value
  }

  /** The company the card yields. */
  function CompanyName(card: Card, title: string): string {
    Validated(RawCompany(card, title))
  }

  /** The company decision as the nested `try` blocks make it. */
  method ExtractCompany(card: Card, title: string) returns (company: string)
    ensures company == CompanyName(card, title)
  {
    var raw: Option<string>;
    if CompanyLinkSelector in card.elements {
      raw := Some(Strip(card.elements[CompanyLinkSelector].text));
    } else if CompanyWrapperSelector in card.elements {
      raw := Some(Strip(card.elements[CompanyWrapperSelector].text));
    } else if BoldSelector in card.lists {
      raw := FindBoldCompany(card.lists[BoldSelector], title);
    } else {
      raw := FindLineCompany(CardLines(card), title);
    }
    company := Validated(raw);
  }

  /**
   * The strategies never look past one that did not raise: an empty first
   * company link gives "Unknown Company" whatever the other elements say,
   * and a bold list with no acceptable text does so without reading the card text.
   */
  lemma CompanyStrategiesStop(card: Card, title: string)
    ensures CompanyLinkSelector in card.elements && Strip(card.elements[CompanyLinkSelector].text) == "" ==>
      CompanyName(card, title) == UnknownCompany
    ensures (CompanyLinkSelector !in card.elements && CompanyWrapperSelector !in card.elements && BoldSelector in card.lists
             && forall i :: 0 <= i < |card.lists[BoldSelector]| ==> !BoldStops(title)(card.lists[BoldSelector][i])) ==>
      CompanyName(card, title) == UnknownCompany
  {
    if CompanyLinkSelector !in card.elements && CompanyWrapperSelector !in card.elements && BoldSelector in card.lists {
      FirstOkSpec(card.lists[BoldSelector], BoldStops(title));
    }
  }

  /** Strategy 3 only picks a text that passes its test. */
  lemma BoldPickPasses(elems: seq<Element>, title: string)
    requires FirstBold(elems, title).Some?
    ensures BoldCandidate(FirstBold(elems, title).value, title)
  {
    var ok := BoldStops(title);
    FirstOkSpec(elems, ok);
    var e := FirstOk(elems, ok).value;
    assert ok(e);
    assert FirstBold(elems, title) == Some(Strip(e.text));
  }

  /** Strategy 4 only picks a line that passes its test. */
  lemma LinePickPasses(lines: seq<string>, title: string)
    requires FirstLine(lines, title).Some?
    ensures LineCandidate(FirstLine(lines, title).value, title)
  {
    var ok := LineStops(title);
    FirstOkSpec(lines, ok);
    var line := FirstOk(lines, ok).value;
    assert ok(line);
    assert FirstLine(lines, title) == Some(Strip(line));
  }

  /** A strategy 3 pick is never the title and never names an excluded label. */
  lemma BoldFallbackCompany(card: Card, title: string)
    requires CompanyLinkSelector !in card.elements && CompanyWrapperSelector !in card.elements
    requires BoldSelector in card.lists
    requires CompanyName(card, title) != UnknownCompany
    ensures CompanyName(card, title) != title
    ensures !Contains(CompanyName(card, title), "Easy Apply") && !Contains(CompanyName(card, title), "Saudi nationals")
  {
    BoldPickPasses(card.lists[BoldSelector], title);
  }

  /** A strategy 4 pick is never the title and never names an excluded label or Saudi Arabia. */
  lemma LineFallbackCompany(card: Card, title: string)
    requires CompanyLinkSelector !in card.elements && CompanyWrapperSelector !in card.elements
    requires BoldSelector !in card.lists
    requires CompanyName(card, title) != UnknownCompany
    ensures CompanyName(card, title) != title
    ensures !Contains(CompanyName(card, title), "Easy Apply") && !Contains(CompanyName(card, title), "Saudi nationals")
    ensures !Contains(CompanyName(card, title), "Saudi Arabia")
  {
    var pick := FirstLine(CardLines(card), title);
    assert RawCompany(card, title) == pick;
    assert pick.Some? && CompanyName(card, title) == pick.value;
    LinePickPasses(CardLines(card), title);
  }

  // ---------------------------------------------------------------- location, salary, description, career

  /** `div.t-mute.t-small`: city and country around the first `·`, else the whole text; "Saudi Arabia" when missing or empty. */
  function LocationOf(card: Card): string {
    match Find(card, LocationSelector)
    case None => DefaultLocation
    case Some(e) =>
      var text := Strip(e.text);
      if text == "" then DefaultLocation
      else
        var parts := SplitOn(text, '·');
        if |parts| >= 2 then Strip(parts[0]) + ", " + Strip(parts[1]) else text
  }

  /** The location is the default, the whole text when it holds no `·`, else the stripped pieces before and after the first `·`. */
  lemma LocationSpec(card: Card)
    ensures var text := if LocationSelector in card.elements then Strip(card.elements[LocationSelector].text) else "";
            LocationOf(card) ==
              if text == "" then DefaultLocation
              else if '·' !in text then text
              else
                var i := IndexOf(text, '·');
                Strip(text[..i]) + ", " + Strip(Before(text[i + 1..], '·'))
  {
    if LocationSelector in card.elements {
      var text := Strip(card.elements[LocationSelector].text);
      if text != "" && '·' in text {
        SplitOnSecond(text, '·');
      }
    }
  }

  /** `dt.jb-label-salary`: `'$' + '$'.join(text.split('$')[1:])` when the stripped text holds a `$`, else none. */
  function SalaryOf(card: Card): Option<string> {
    match Find(card, SalarySelector)
    case None => None
    case Some(e) =>
      var text := Strip(e.text);
      if text != "" && |SplitOn(text, '$')| > 1 then Some("$" + Join(SplitOn(text, '$')[1..], "$"))
      else None
  }

  /** The salary is the stripped text from its first `$` on, and there is one only when the text has a `$`. */
  lemma SalarySuffix(card: Card)
    ensures var text := if SalarySelector in card.elements then Strip(card.elements[SalarySelector].text) else "";
            SalaryOf(card) == if '$' in text then Some(text[IndexOf(text, '$')..]) else None
  {
    if SalarySelector in card.elements {
      var text := Strip(card.elements[SalarySelector].text);
      if '$' in text {
        DollarTail(text);
      }
    }
  }

  /** `'$' + '$'.join(text.split('$')[1:])` is the text from its first `$` on. */
  lemma DollarTail(text: string)
    requires '$' in text
    ensures "$" + Join(SplitOn(text, '$')[1..], "$") == text[IndexOf(text, '$')..]
  {
    SplitTailJoin(text, '$');
    FromFirst(text, '$');
  }

  /** `div.jb-descr`: its stripped text, or none. */
  function DescriptionOf(card: Card): (d: Option<string>)
    ensures d.Some? <==> DescriptionSelector in card.elements
    ensures d.Some? ==> d.value == Strip(card.elements[DescriptionSelector].text)
  {
    match Find(card, DescriptionSelector)
    case None => None
    case Some(e) => Some(Strip(e.text))
  }

  /** `dt.jb-label-careerlevel`: the stripped text without its first token when it has two or more. */
  function CareerOf(card: Card): Option<string> {
    match Find(card, CareerSelector)
    case None => None
    case Some(e) =>
      var level := Strip(e.text);
      if level != "" && |Words(level)| >= 2 then Some(Join(Words(level)[1..], " ")) else Some(level)
  }

  /**
   * A career label of two or more tokens loses exactly its first one (the
   * icon text) and keeps the others, single-spaced; a shorter label is kept
   * stripped; a missing element gives none.
   */
  lemma CareerDropsIcon(card: Card)
    ensures CareerSelector !in card.elements ==> CareerOf(card).None?
    ensures CareerSelector in card.elements ==>
      var level := Strip(card.elements[CareerSelector].text);
      var ws := Words(level);
      && CareerOf(card).Some?
      && (|ws| >= 2 ==> Words(CareerOf(card).value) == ws[1..] && Strip(CareerOf(card).value) == CareerOf(card).value)
      && (|ws| < 2 ==> CareerOf(card).value == level)
  {
    if CareerSelector in card.elements {
      var ws := Words(Strip(card.elements[CareerSelector].text));
      if |ws| >= 2 {
        assert forall i :: 0 <= i < |ws[1..]| ==> ws[1..][i] == ws[i + 1];
        WordsOfJoin(ws[1..]);
        JoinOfWordsStripped(ws[1..]);
        assert Strip(card.elements[CareerSelector].text) != "";
      }
    }
  }

  /** Python truthiness of an optional string: attached only when present and non-empty. */
  function Truthy(o: Option<string>): (r: Option<string>)
    ensures r.Some? <==> o.Some? && o.value != ""
    ensures r.Some? ==> r == o
  {
    if o.Some? && o.value != "" then o else None
  }

  // ---------------------------------------------------------------- posted date

  /** `date(1, 1, 1).toordinal()` and `date(9999, 12, 31).toordinal()`: the days a `datetime` can hold. */
  const FirstOrdinal: int := 1
  const LastOrdinal: int := 3652059

  /** The largest magnitude `timedelta(days=n)` accepts. */
  const MaxDeltaDays: int := 999999999

  /**
   * `(datetime.now() - timedelta(days=n))` as a day ordinal, when it exists:
   * outside the range `timedelta` raises, or the subtraction does, with `OverflowError`.
   */
  predicate InRange(runDay: int, n: int) {
    -MaxDeltaDays <= n <= MaxDeltaDays && FirstOrdinal <= runDay - n <= LastOrdinal
  }

  /**
   * The date `n` days before the run date; when that raises, the `except`
   * around it leaves `posted_time` at its default, the run date.
   */
  function DaysBefore(runDay: int, n: int): (day: int)
    ensures InRange(runDay, n) ==> day == runDay - n
    ensures !InRange(runDay, n) ==> day == runDay
  {
    if InRange(runDay, n) then runDay - n else runDay
  }

  /** The relative-date rules on the date element's text; `runDay` is the run date's ordinal. */
  function PostedFromText(raw: string, runDay: int): int {
    var text := Strip(raw);
    if text == "" then runDay
    else if Contains(text, "Yesterday") then DaysBefore(runDay, 1)
    else if Contains(text, "days ago") then
      var ws := Words(text);
      assert ws != [];
      match ParseInt(ws[0])
      case Some(n) => DaysBefore(runDay, n)
      case None => runDay
    else if Contains(text, "day ago") then DaysBefore(runDay, 1)
    else runDay
  }

  /** The posting day of a card: the run date when the date element is missing. */
  function PostedDay(card: Card, runDay: int): (day: int)
    ensures DateSelector !in card.elements ==> day == runDay
  {
    match Find(card, DateSelector)
    case None => runDay
    case Some(e) => PostedFromText(e.text, runDay)
  }

  /**
   * "Yesterday" and "day ago" mean the day before; "days ago" goes back as
   * many days as its first token reads, or not at all when that token is not
   * an integer; empty or other text means the run date. A date that would
   * fall outside years 1 to 9999 raises, and the run date is kept instead.
   */
  lemma PostedRules(raw: string, runDay: int)
    ensures Strip(raw) == "" ==> PostedFromText(raw, runDay) == runDay
    ensures Contains(Strip(raw), "Yesterday") ==>
      PostedFromText(raw, runDay) == if runDay - 1 >= FirstOrdinal && runDay - 1 <= LastOrdinal then runDay - 1 else runDay
    ensures !Contains(Strip(raw), "days ago") && Contains(Strip(raw), "day ago") ==>
      PostedFromText(raw, runDay) == if runDay - 1 >= FirstOrdinal && runDay - 1 <= LastOrdinal then runDay - 1 else runDay
    ensures !Contains(Strip(raw), "Yesterday") && !Contains(Strip(raw), "days ago") && !Contains(Strip(raw), "day ago") ==>
      PostedFromText(raw, runDay) == runDay
    ensures var ws := Words(Strip(raw));
            !Contains(Strip(raw), "Yesterday") && Contains(Strip(raw), "days ago") && ws != [] ==>
              PostedFromText(raw, runDay) ==
                match ParseInt(ws[0])
                case Some(n) => if InRange(runDay, n) then runDay - n else runDay
                case None => runDay
  {
    if Strip(raw) == "" {
      assert !Contains(Strip(raw), "Yesterday");
    }
  }

  /**
   * "N days ago" is N days before the run date when that day is one a
   * `datetime` can hold, and the run date otherwise.
   */
  lemma DaysAgo(n: nat, runDay: int)
    ensures FirstOrdinal <= runDay - n <= LastOrdinal && n <= MaxDeltaDays ==>
      PostedFromText(Decimal(n) + " days ago", runDay) == runDay - n
    ensures runDay - n < FirstOrdinal || runDay - n > LastOrdinal || n > MaxDeltaDays ==>
      PostedFromText(Decimal(n) + " days ago", runDay) == runDay
  {
    var d := Decimal(n);
    var text := d + " days ago";
    DaysAgoText(d);
    assert Strip(text) == text;
    ParseIntOfDecimal(n);
  }

  /** On the run date 2024-01-01 (ordinal 738886), "800000 days ago" would fall before year 1, so the run date is kept. */
  lemma FarPastKeepsRunDay()
    ensures PostedFromText(Decimal(800000) + " days ago", 738886) == 738886
  {
    DaysAgo(800000, 738886);
  }

  /** The shape of `d + " days ago"` for a numeral `d`, as the date rules read it. */
  lemma DaysAgoText(d: string)
    requires d != [] && AllDigits(d)
    ensures var text := d + " days ago";
            && !IsSpace(text[0]) && !IsSpace(text[|text| - 1])
            && !Contains(text, "Yesterday") && Contains(text, "days ago")
            && Words(text) != [] && Words(text)[0] == d
  {
    var text := d + " days ago";
    var tail := " days ago";
    assert forall i :: 0 <= i < |d| ==> text[i] == d[i];
    assert text[|d|..] == tail;
    assert 'Y' !in text by {
      assert forall i :: |d| <= i < |text| ==> text[i] == tail[i - |d|];
    }
    if Contains(text, "Yesterday") {
      ContainsFirstChar(text, "Yesterday");
    }
    assert text[|d| + 1..|d| + 9] == "days ago";
    ContainsAt(text, "days ago", |d| + 1);
    SpanStops(text, |d|);
    assert text[..|d|] == d;
  }

  lemma {:induction false} SpanStops(s: string, n: nat)
    requires n < |s| && IsSpace(s[n])
    requires forall i :: 0 <= i < n ==> !IsSpace(s[i])
    ensures Span(s, false) == n
    decreases n
  {
    if n > 0 {
      SpanStops(s[1..], n - 1);
    }
  }

  // ---------------------------------------------------------------- one card

  /**
   * One card's `try` body up to the dedup: `None` when the title element is
   * missing, the title is empty or irrelevant, or the company is denylisted.
   */
  function BaytCardJob(card: Card, runDay: int): Option<Job> {
    match TitleLink(card)
    case None => None
    case Some((title, link)) =>
      var company := CompanyName(card, title);
      if title == "" || !IsRelevantRole(title) || CompanyFiltered(company) then None
      else
        var description := DescriptionOf(card);
        var detail := if description.Some? then description.value else "";
        Some(Job(company, Bayt, title, DetermineJobType(title + " " + detail), link,
                 OnDay(PostedDay(card, runDay)), LocationOf(card), "",
                 Truthy(SalaryOf(card)), Truthy(CareerOf(card)), Truthy(description)))
  }

  /**
   * A card yields a job exactly when it has a title element with a non-empty,
   * relevant title and its company is not denylisted; the job carries that
   * title, the company after the fallbacks, the platform "Bayt", the type of
   * title and description together, and a link without a query.
   */
  lemma BaytCardJobSpec(card: Card, runDay: int)
    ensures BaytCardJob(card, runDay).Some? <==>
      TitleSelector in card.elements
      && var title := Strip(card.elements[TitleSelector].text);
      title != "" && IsRelevantRole(title) && !CompanyFiltered(CompanyName(card, title))
    ensures BaytCardJob(card, runDay).Some? ==>
      var j := BaytCardJob(card, runDay).value;
      var title := Strip(card.elements[TitleSelector].text);
      && j.jobTitle == title
      && j.companyName == CompanyName(card, title)
      && j.companyName != ""
      && j.platform == Bayt
      && j.jobType == DetermineJobType(title + " " + (if DescriptionSelector in card.elements then Strip(card.elements[DescriptionSelector].text) else ""))
      && (j.jobLink.Some? ==> '?' !in j.jobLink.value)
      && j.postedTime == OnDay(PostedDay(card, runDay))
      && IsRelevantRole(j.jobTitle)
  {
  }

  /** One card, as the source runs it: the strategies' loops, then the filters. */
  method ProcessBaytCard(card: Card, runDay: int) returns (r: Option<Job>)
    ensures r == BaytCardJob(card, runDay)
  {
    if TitleSelector !in card.elements {
      return None;
    }
    var titleElem := card.elements[TitleSelector];
    var title := Strip(titleElem.text);
    var link := CutQuery(Attribute(titleElem, "href"));
    var company := ExtractCompany(card, title);
    var location := LocationOf(card);
    var salary := SalaryOf(card);
    var description := DescriptionOf(card);
    var career := CareerOf(card);
    var day := PostedDay(card, runDay);
    if title == "" || !IsRelevantRole(title) {
      return None;
    }
    var filtered := IsCompanyFiltered(company);
    if filtered {
      return None;
    }
    var detail := if description.Some? then description.value else "";
    r := Some(Job(company, Bayt, title, DetermineJobType(title + " " + detail), link,
                  OnDay(day), location, "", Truthy(salary), Truthy(career), Truthy(description)));
  }

  // ---------------------------------------------------------------- pages

  /** The cards of one role's page: `.has-pointer-d`; a failed navigation or an empty list skips the role. */
  function PageCards(page: Page): seq<Card> {
    match page
    case NavFailed => []
    case Loaded(cardLists) => FindAll(cardLists, CardSelector)
  }

  function JobOfCard(runDay: int): Card -> Option<Job> {
    (c: Card) => BaytCardJob(c, runDay)
  }

  /** The candidates of consecutive role pages, before the dedup, under a per-card function `f`. */
  function Candidates(pages: seq<Page>, f: Card -> Option<Job>): seq<Job>
    decreases |pages|
  {
    if pages == [] then []
    else Candidates(pages[..|pages| - 1], f) + Collect(PageCards(pages[|pages| - 1]), f)
  }

  /** The candidates of the whole pass; unlike LinkedIn, a failed role does not end it. */
  function BaytCandidates(pages: seq<Page>, runDay: int): seq<Job> {
    Candidates(pages, JobOfCard(runDay))
  }

  /** One more role page. */
  lemma CandidatesSnoc(pages: seq<Page>, r: nat, f: Card -> Option<Job>)
    requires r < |pages|
    ensures Candidates(pages[..r + 1], f) == Candidates(pages[..r], f) + Collect(PageCards(pages[r]), f)
  {
    assert pages[..r + 1][..r] == pages[..r];
  }

  /** One more role page at the end. */
  lemma CandidatesPush(pages: seq<Page>, page: Page, f: Card -> Option<Job>)
    ensures Candidates(pages + [page], f) == Candidates(pages, f) + Collect(PageCards(page), f)
  {
    assert (pages + [page])[..|pages|] == pages;
  }

  /** The candidates of two runs of pages are the two runs' candidates. */
  lemma {:induction false} CandidatesAppend(xs: seq<Page>, ys: seq<Page>, f: Card -> Option<Job>)
    ensures Candidates(xs + ys, f) == Candidates(xs, f) + Candidates(ys, f)
    decreases |ys|
  {
    if ys == [] {
      assert xs + ys == xs;
    } else {
      var init, last := ys[..|ys| - 1], ys[|ys| - 1];
      CandidatesAppend(xs, init, f);
      assert ys == init + [last];
      assert xs + ys == (xs + init) + [last];
      CandidatesPush(init, last, f);
      CandidatesPush(xs + init, last, f);
      AppendAssociative(Candidates(xs, f), Candidates(init, f), Collect(PageCards(last), f));
    }
  }

  /** A failed navigation in the middle costs only that role. */
  lemma FailedRoleSkipped(before: seq<Page>, after: seq<Page>, f: Card -> Option<Job>)
    ensures Candidates(before + [NavFailed] + after, f) == Candidates(before, f) + Candidates(after, f)
  {
    var failed := [NavFailed];
    assert Candidates(failed, f) == [] by {
      assert failed[..0] == [];
    }
    CandidatesAppend(before, failed, f);
    CandidatesAppend(before + failed, after, f);
    var c := Candidates(before, f);
    assert c + [] == c;
  }

  /** When every role's navigation fails there are no candidates. */
  lemma {:induction false} AllRolesFailed(pages: seq<Page>, f: Card -> Option<Job>)
    requires forall i :: 0 <= i < |pages| ==> pages[i].NavFailed?
    ensures Candidates(pages, f) == []
    decreases |pages|
  {
    if pages != [] {
      var init := pages[..|pages| - 1];
      assert forall i :: 0 <= i < |init| ==> init[i] == pages[i];
      AllRolesFailed(init, f);
      assert PageCards(pages[|pages| - 1]) == [];
    }
  }

  /** Every Bayt candidate is a relevant, non-denylisted posting tagged "Bayt". */
  lemma {:induction false} CandidatesAreRelevant(pages: seq<Page>, runDay: int)
    ensures forall j :: j in BaytCandidates(pages, runDay) ==>
      j.platform == Bayt && IsRelevantRole(j.jobTitle) && !CompanyFiltered(j.companyName) && j.companyName != ""
    decreases |pages|
  {
    var f := JobOfCard(runDay);
    if pages != [] {
      var init := pages[..|pages| - 1];
      CandidatesAreRelevant(init, runDay);
      var cards := PageCards(pages[|pages| - 1]);
      CollectFrom(cards, f);
      forall c | c in cards && f(c).Some?
        ensures f(c).value.platform == Bayt && IsRelevantRole(f(c).value.jobTitle)
          && !CompanyFiltered(f(c).value.companyName) && f(c).value.companyName != ""
      {
        BaytCardJobSpec(c, runDay);
      }
    }
  }
}
