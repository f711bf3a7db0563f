/**
 * The CISA advisory scraper: a listing crawl that collects the advisories of one
 * month, page by page, and a follow-up pass that fetches each advisory's page.
 * HTTP and HTML parsing are abstracted: a site is a map from URL to what the
 * parser finds on that page, and a URL missing from the map is a failed request.
 */
module Scraper {
  import opened Wrappers

  const BaseUrl := "https://www.cisa.gov"
  const ListingPath := "/news-events/cybersecurity-advisories"
  const HeaderFallback := "Header not available"
  const MainFallback := "Main content not available"
  const ContentFallback := "Content not available"

  /** The first listing page the crawl requests. */
  function InitialUrl(): string
  {
    BaseUrl + ListingPath
  }

  datatype DateRec = DateRec(year: int, month: int, day: int)

  /** A calendar date as a parsed ISO timestamp yields it (time of day is irrelevant here). */
  type Date = d: DateRec | 1 <= d.year <= 9999 && 1 <= d.month <= 12 && 1 <= d.day <= 31
    witness DateRec(2024, 9, 1)

  /**
   * One advisory teaser of a listing page, as far as the scraper reads it: the date of
   * its `<time>` tag, the text of its title heading, the `href` of its first link.
   * `None` stands for a missing tag, which makes the extraction raise an error the scraper
   * catches. A tag present without its attribute is not represented.
   */
  datatype Teaser = Teaser(date: Option<Date>, title: Option<string>, href: Option<string>)

  /** A listing page: its teasers in page order and the `href` of the pager's "next" link, `None` when there is no such link. */
  datatype ListingPage = ListingPage(teasers: seq<Teaser>, nextHref: Option<string>)

  /** The listing pages the site serves; requesting a URL outside the map fails. */
  type Site = map<string, ListingPage>

  /** An advisory's own page: its title heading and main block, or a page whose extraction raises. */
  datatype ContentPage = ContentPage(header: Option<string>, main: Option<string>) | Unparsable

  /** The advisory pages the site serves; requesting a URL outside the map fails. */
  type ContentSite = map<string, ContentPage>

  /** The `content` entry of an advisory record: a header/main record, or the fallback string. */
  datatype AdvisoryContent = Sections(header: string, main: string) | Unavailable(note: string)

  /** One advisory record; `content` is absent until the content pass has visited it. */
  datatype Advisory = Advisory(title: string, date: string, pageNumber: int, link: string, content: Option<AdvisoryContent>)

  // ---------------------------------------------------------------- dates

  function Pow10(k: nat): nat
  {
    if k == 0 then 1 else 10 * Pow10(k - 1)
  }

  predicate AllDigits(s: string)
  {
    forall k :: 0 <= k < |s| ==> '0' <= s[k] <= '9'
  }

  /** The last `width` decimal digits of `n`, zero-padded. */
  function Digits(n: nat, width: nat): (s: string)
    ensures |s| == width && AllDigits(s)
  {
    if width == 0 then "" else Digits(n / 10, width - 1) + [(48 + n % 10) as char]
  }

  /** The number a string of decimal digits spells. */
  function DigitsValue(s: string): nat
    requires AllDigits(s)
  {
    if s == [] then 0 else 10 * DigitsValue(s[..|s| - 1]) + (s[|s| - 1] as int - 48)
  }

  /** Zero-padding loses nothing when the number fits the width. */
  lemma {:induction false} DigitsValueOfDigits(n: nat, width: nat)
    requires n < Pow10(width)
    ensures DigitsValue(Digits(n, width)) == n
  {
    if width > 0 {
      var s := Digits(n, width);
      var q, r := n / 10, n % 10;
      assert n == 10 * q + r && 0 <= r < 10;
      assert q < Pow10(width - 1);
      assert s == Digits(q, width - 1) + [(48 + r) as char];
      assert s[..|s| - 1] == Digits(q, width - 1) && s[|s| - 1] as int - 48 == r;
      DigitsValueOfDigits(q, width - 1);
    }
  }

  /** `strftime("%Y-%m-%d")`. */
  function FormatDate(d: Date): (s: string)
    ensures |s| == 10 && s[4] == '-' && s[7] == '-'
  {
    Digits(d.year, 4) + "-" + Digits(d.month, 2) + "-" + Digits(d.day, 2)
  }

  /** Reads a `YYYY-MM-DD` string back into a date. */
  function ParseDate(s: string): Option<DateRec>
  {
    if |s| == 10 && s[4] == '-' && s[7] == '-' && AllDigits(s[..4]) && AllDigits(s[5..7]) && AllDigits(s[8..])
    then Some(DateRec(DigitsValue(s[..4]), DigitsValue(s[5..7]), DigitsValue(s[8..])))
    else None
  }

  /** The stored date string determines the advisory's date exactly. */
  lemma FormatDateRoundTrip(d: Date)
    ensures ParseDate(FormatDate(d)) == Some(d)
  {
    var s := FormatDate(d);
    assert s[..4] == Digits(d.year, 4);
    assert s[5..7] == Digits(d.month, 2);
    assert s[8..] == Digits(d.day, 2);
    DigitsValueOfDigits(d.year, 4);
    DigitsValueOfDigits(d.month, 2);
    DigitsValueOfDigits(d.day, 2);
  }

  // ---------------------------------------------------------------- listing pages

  /** The teaser is dated in the target month of the target year. */
  predicate InTargetMonth(t: Teaser, month: int, year: int)
  {
    t.date.Some? && t.date.value.year == year && t.date.value.month == month
  }

  /** The teaser yields a record: it is in the target month and its title and link can be extracted. */
  predicate Accepted(t: Teaser, month: int, year: int)
  {
    InTargetMonth(t, month, year) && t.title.Some? && t.href.Some?
  }

  /** The record appended for an accepted teaser found on page `page`. */
  function RecordOf(t: Teaser, page: int): Advisory
    requires t.date.Some? && t.title.Some? && t.href.Some?
  {
    Advisory(t.title.value, FormatDate(t.date.value), page, BaseUrl + t.href.value, None)
  }

  /** The record keeps the teaser's title, its date (readable back exactly) and its link made absolute. */
  lemma RecordOfKeepsTeaser(t: Teaser, page: int)
    requires t.date.Some? && t.title.Some? && t.href.Some?
    ensures var a := RecordOf(t, page);
      && a.title == t.title.value && ParseDate(a.date) == Some(t.date.value)
      && a.link == BaseUrl + t.href.value && a.pageNumber == page && a.content.None?
  {
    FormatDateRoundTrip(t.date.value);
  }

  /** The records one listing page contributes, in page order. */
  function PageRecords(ts: seq<Teaser>, page: int, month: int, year: int): seq<Advisory>
  {
    if ts == [] then []
    else (if Accepted(ts[0], month, year) then [RecordOf(ts[0], page)] else []) + PageRecords(ts[1..], page, month, year)
  }

  /** What requesting `url` adds to the list: nothing when the request fails. */
  function PageResult(site: Site, url: string, page: int, month: int, year: int): seq<Advisory>
  {
    if url in site then PageRecords(site[url].teasers, page, month, year) else []
  }

  /** What `scrape_page` returns: the absolute URL of the next listing page, if the pager has one. */
  function NextPageUrl(site: Site, url: string): Option<string>
  {
    if url in site && site[url].nextHref.Some? then Some(BaseUrl + site[url].nextHref.value) else None
  }

  /** Teasers are handled one at a time: the records of two stretches of a page concatenate. */
  lemma {:induction false} PageRecordsConcat(a: seq<Teaser>, b: seq<Teaser>, page: int, month: int, year: int)
    ensures PageRecords(a + b, page, month, year) == PageRecords(a, page, month, year) + PageRecords(b, page, month, year)
  {
    if a != [] {
      var head := if Accepted(a[0], month, year) then [RecordOf(a[0], page)] else [];
      var restA, restB := PageRecords(a[1..], page, month, year), PageRecords(b, page, month, year);
      assert PageRecords(a + b, page, month, year) == head + PageRecords(a[1..] + b, page, month, year) by {
        assert (a + b)[0] == a[0] && (a + b)[1..] == a[1..] + b;
      }
      PageRecordsConcat(a[1..], b, page, month, year);
      assert head + (restA + restB) == (head + restA) + restB;
    } else {
      assert a + b == b;
    }
  }

  /** A teaser that is out of the month or cannot be extracted is skipped without disturbing its neighbours. */
  lemma SkippedTeaser(a: seq<Teaser>, t: Teaser, b: seq<Teaser>, page: int, month: int, year: int)
    requires !Accepted(t, month, year)
    ensures PageRecords(a + [t] + b, page, month, year) == PageRecords(a, page, month, year) + PageRecords(b, page, month, year)
  {
    PageRecordsConcat(a + [t], b, page, month, year);
    PageRecordsConcat(a, [t], page, month, year);
    assert PageRecords([t], page, month, year) == [];
  }

  /** A page yields exactly the records of its accepted teasers. */
  lemma {:induction false} PageRecordsMembers(ts: seq<Teaser>, page: int, month: int, year: int)
    ensures forall a :: a in PageRecords(ts, page, month, year) <==>
      exists i :: 0 <= i < |ts| && Accepted(ts[i], month, year) && a == RecordOf(ts[i], page)
  {
    if ts != [] {
      var tail := ts[1..];
      PageRecordsMembers(tail, page, month, year);
      var head := if Accepted(ts[0], month, year) then [RecordOf(ts[0], page)] else [];
      assert PageRecords(ts, page, month, year) == head + PageRecords(tail, page, month, year);
      forall a | a in PageRecords(ts, page, month, year)
        ensures exists i :: 0 <= i < |ts| && Accepted(ts[i], month, year) && a == RecordOf(ts[i], page)
      {
        if a in head {
          assert Accepted(ts[0], month, year) && a == RecordOf(ts[0], page);
        } else {
          var j :| 0 <= j < |tail| && Accepted(tail[j], month, year) && a == RecordOf(tail[j], page);
          assert ts[j + 1] == tail[j];
        }
      }
      forall a, i | 0 <= i < |ts| && Accepted(ts[i], month, year) && a == RecordOf(ts[i], page)
        ensures a in PageRecords(ts, page, month, year)
      {
        if i > 0 {
          assert tail[i - 1] == ts[i];
        }
      }
    }
  }

  /** Every record of a page carries that page's number and no content yet. */
  lemma PageRecordsNumbered(ts: seq<Teaser>, page: int, month: int, year: int)
    ensures forall a :: a in PageRecords(ts, page, month, year) ==> a.pageNumber == page && a.content.None?
  {
    PageRecordsMembers(ts, page, month, year);
  }

  // ---------------------------------------------------------------- the crawl

  /** The listing URLs the crawl requests, with at most `fuel` requests. */
  function Crawl(site: Site, url: string, fuel: nat): (visited: seq<string>)
    ensures |visited| <= fuel
    decreases fuel
  {
    if fuel == 0 then []
    else
      [url] + match NextPageUrl(site, url) {
        case None => []
        case Some(next) => Crawl(site, next, fuel - 1)
      }
  }

  /** The rest of a crawl that continues from `next`, if there is a next page. */
  function CrawlFrom(site: Site, next: Option<string>, fuel: nat): seq<string>
  {
    if next.Some? then Crawl(site, next.value, fuel) else []
  }

  /**
   * `visited` is a chain of listing requests from `start`, each page the "next" link of
   * the one before, and `current` is where the last of them points.
   */
  ghost predicate CrawlChain(site: Site, start: string, visited: seq<string>, current: Option<string>)
    decreases |visited|
  {
    if visited == [] then current == Some(start)
    else
      var last := visited[|visited| - 1];
      current == NextPageUrl(site, last) && CrawlChain(site, start, visited[..|visited| - 1], Some(last))
  }

  /** A chain of requests is a prefix of the crawl, which goes on from where the chain points. */
  lemma {:induction false} CrawlChainPrefix(site: Site, start: string, fuel: nat, visited: seq<string>, current: Option<string>)
    requires |visited| <= fuel && CrawlChain(site, start, visited, current)
    ensures visited + CrawlFrom(site, current, fuel - |visited|) == Crawl(site, start, fuel)
    decreases |visited|
  {
    if visited == [] {
      assert visited + CrawlFrom(site, current, fuel) == Crawl(site, start, fuel);
    } else {
      var prefix, last := visited[..|visited| - 1], visited[|visited| - 1];
      assert visited == prefix + [last];
      assert CrawlChain(site, start, prefix, Some(last)) && current == NextPageUrl(site, last);
      CrawlChainPrefix(site, start, fuel, prefix, Some(last));
      var rest := CrawlFrom(site, current, fuel - |visited|);
      CrawlStep(site, last, fuel - |prefix|, current);
      AppendAssoc(prefix, [last], rest);
    }
  }

  /** A crawl from a page with budget left requests that page, then goes on from its "next" link. */
  lemma CrawlStep(site: Site, url: string, fuel: nat, next: Option<string>)
    requires fuel > 0 && next == NextPageUrl(site, url)
    ensures CrawlFrom(site, Some(url), fuel) == [url] + CrawlFrom(site, next, fuel - 1)
  {
  }

  /** A chain that ends at a page without a "next" link, or that has spent the budget, is the whole crawl. */
  lemma CrawlDone(site: Site, start: string, fuel: nat, visited: seq<string>, current: Option<string>)
    requires |visited| <= fuel && CrawlChain(site, start, visited, current)
    requires current.None? || |visited| == fuel
    ensures visited == Crawl(site, start, fuel)
  {
    CrawlChainPrefix(site, start, fuel, visited, current);
    assert CrawlFrom(site, current, fuel - |visited|) == [];
    assert visited + [] == visited;
  }

  /** The records a crawl over `urls` collects, the first page numbered `first`: each page's after all earlier ones. */
  function CrawlRecords(site: Site, urls: seq<string>, first: int, month: int, year: int): seq<Advisory>
  {
    if urls == [] then []
    else CrawlRecords(site, urls[..|urls| - 1], first, month, year) + PageResult(site, urls[|urls| - 1], first + |urls| - 1, month, year)
  }

  /** Requesting one more page appends that page's records, numbered after the pages before it. */
  lemma CrawlRecordsSnoc(site: Site, urls: seq<string>, url: string, first: int, month: int, year: int)
    ensures CrawlRecords(site, urls + [url], first, month, year)
      == CrawlRecords(site, urls, first, month, year) + PageResult(site, url, first + |urls|, month, year)
  {
    assert (urls + [url])[..|urls|] == urls;
  }

  lemma AppendAssoc<T>(a: seq<T>, b: seq<T>, c: seq<T>)
    ensures a + (b + c) == (a + b) + c
  {
  }

  /**
   * The crawl starts at the given URL, follows each page's "next" link to the
   * following one, and stops exactly when a page has no "next" link (or its request
   * failed), unless the request budget runs out first.
   */
  lemma {:induction false} CrawlFollowsNextLinks(site: Site, url: string, fuel: nat)
    ensures var c := Crawl(site, url, fuel);
      && (fuel > 0 ==> |c| > 0 && c[0] == url)
      && (forall k :: 0 <= k < |c| - 1 ==> NextPageUrl(site, c[k]) == Some(c[k + 1]))
      && (0 < |c| < fuel ==> NextPageUrl(site, c[|c| - 1]).None?)
    decreases fuel
  {
    if fuel > 0 {
      var c := Crawl(site, url, fuel);
      match NextPageUrl(site, url)
      case None =>
      case Some(next) =>
        CrawlFollowsNextLinks(site, next, fuel - 1);
        var c' := Crawl(site, next, fuel - 1);
        assert c == [url] + c';
        forall k | 0 <= k < |c| - 1 ensures NextPageUrl(site, c[k]) == Some(c[k + 1]) {
          if k > 0 {
            assert c[k] == c'[k - 1] && c[k + 1] == c'[k];
          }
        }
    }
  }

  /** Every record of a crawl carries the number of one of its pages: none lies outside `first` .. `first + |urls| - 1`. */
  lemma {:induction false} CrawlRecordsPageNumbers(site: Site, urls: seq<string>, first: int, month: int, year: int)
    ensures forall a :: a in CrawlRecords(site, urls, first, month, year) ==> first <= a.pageNumber < first + |urls|
    decreases |urls|
  {
    if urls != [] {
      var prefix, last := urls[..|urls| - 1], urls[|urls| - 1];
      var earlier, page := CrawlRecords(site, prefix, first, month, year), PageResult(site, last, first + |urls| - 1, month, year);
      CrawlRecordsPageNumbers(site, prefix, first, month, year);
      if last in site {
        PageRecordsNumbered(site[last].teasers, first + |urls| - 1, month, year);
      }
      assert forall a :: a in page ==> a.pageNumber == first + |urls| - 1;
      assert CrawlRecords(site, urls, first, month, year) == earlier + page;
    }
  }

  // ---------------------------------------------------------------- advisory pages

  /** The `content` an advisory gets from fetching its page. */
  function ContentFor(contents: ContentSite, link: string): (c: AdvisoryContent)
    ensures c.Unavailable? <==> (link !in contents || contents[link].Unparsable?)
    ensures c.Unavailable? ==> c.note == ContentFallback
    ensures c.Sections? ==>
      c.header == contents[link].header.GetOr(HeaderFallback) && c.main == contents[link].main.GetOr(MainFallback)
  {
    if link !in contents then Unavailable(ContentFallback)
    else
      match contents[link]
      case Unparsable => Unavailable(ContentFallback)
      case ContentPage(header, main) => Sections(header.GetOr(HeaderFallback), main.GetOr(MainFallback))
  }

  /** The advisory after its content pass: only `content` changes, and it is always set. */
  function WithContent(a: Advisory, contents: ContentSite): (b: Advisory)
    ensures b.title == a.title && b.date == a.date && b.pageNumber == a.pageNumber && b.link == a.link
    ensures b.content.Some?
  {
    a.(content := Some(ContentFor(contents, a.link)))
  }

  /** Every advisory of the list after a full content pass. */
  function EnrichAll(advs: seq<Advisory>, contents: ContentSite): (r: seq<Advisory>)
    ensures |r| == |advs|
    ensures forall i :: 0 <= i < |r| ==>
      && r[i].link == advs[i].link && r[i].title == advs[i].title
      && r[i].date == advs[i].date && r[i].pageNumber == advs[i].pageNumber
      && r[i].content == Some(ContentFor(contents, advs[i].link))
  {
    seq(|advs|, i requires 0 <= i < |advs| => WithContent(advs[i], contents))
  }

  // ---------------------------------------------------------------- the scraper object

  class CisaScraper {
    const currentMonth: int
    const currentYear: int
    var advisoryList: seq<Advisory>

    /** A scraper for one month of one year, with nothing collected yet. */
    constructor (month: int, year: int)
      ensures currentMonth == month && currentYear == year && advisoryList == []
    {
      currentMonth := month;
      currentYear := year;
      advisoryList := [];
    }

    /**
     * Requests one listing page, appends a record for each teaser of the target month
     * (skipping the rest and the ones that fail to extract) and returns the next page's URL.
     */
    method ScrapePage(site: Site, url: string, pageNumber: int) returns (next: Option<string>)
      modifies this
      ensures advisoryList == old(advisoryList) + PageResult(site, url, pageNumber, currentMonth, currentYear)
      ensures next == NextPageUrl(site, url)
    {
      if url !in site {
        return None;
      }
      var teasers := site[url].teasers;
      var i := 0;
      while i < |teasers|
        invariant 0 <= i <= |teasers|
        invariant advisoryList == old(advisoryList) + PageRecords(teasers[..i], pageNumber, currentMonth, currentYear)
      {
        var t := teasers[i];
        if t.date.None? {
          // the <time> lookup raises; the teaser is skipped
        } else if t.date.value.year == currentYear && t.date.value.month == currentMonth {
          if t.title.None? {
            // the title lookup raises; the teaser is skipped
          } else if t.href.None? {
            // the link lookup raises; the teaser is skipped
          } else {
            advisoryList := advisoryList + [RecordOf(t, pageNumber)];
          }
        }
        PageRecordsConcat(teasers[..i], [t], pageNumber, currentMonth, currentYear);
        assert teasers[..i + 1] == teasers[..i] + [t];
        i := i + 1;
      }
      assert teasers[..i] == teasers;
      next := match site[url].nextHref {
        case Some(href) => Some(BaseUrl + href)
        case None => None
      };
    }

    /**
     * Crawls the listing from its first page, numbering pages 1, 2, 3, ..., until a
     * page has no next link. `maxPages` bounds the number of requests.
     */
    method ScrapeAdvisories(site: Site, maxPages: nat) returns (visited: seq<string>)
      modifies this
      ensures visited == Crawl(site, InitialUrl(), maxPages)
      ensures advisoryList == old(advisoryList) + CrawlRecords(site, visited, 1, currentMonth, currentYear)
    {
      var current: Option<string> := Some(InitialUrl());
      var pageNumber := 1;
      visited := [];
      while current.Some? && pageNumber <= maxPages
        invariant pageNumber == |visited| + 1 && |visited| <= maxPages
        invariant CrawlChain(site, InitialUrl(), visited, current)
        invariant advisoryList == old(advisoryList) + CrawlRecords(site, visited, 1, currentMonth, currentYear)
        decreases maxPages - |visited|
      {
        var url := current.value;
        current := ScrapePage(site, url, pageNumber);
        CrawlRecordsSnoc(site, visited, url, 1, currentMonth, currentYear);
        AppendAssoc(old(advisoryList), CrawlRecords(site, visited, 1, currentMonth, currentYear), PageResult(site, url, pageNumber, currentMonth, currentYear));
        assert (visited + [url])[..|visited|] == visited;
        visited := visited + [url];
        pageNumber := pageNumber + 1;
      }
      CrawlDone(site, InitialUrl(), maxPages, visited, current);
    }

    /** Fetches the page of the `i`-th advisory and sets its `content`, leaving everything else as it was. */
    method GetAdvisoryContent(contents: ContentSite, i: nat)
      requires i < |advisoryList|
      modifies this
      ensures advisoryList == old(advisoryList)[i := WithContent(old(advisoryList)[i], contents)]
    {
      var advisory := advisoryList[i];
      var content: AdvisoryContent;
      if advisory.link !in contents {
        content := Unavailable(ContentFallback);
      } else {
        match contents[advisory.link]
        case Unparsable =>
          content := Unavailable(ContentFallback);
        case ContentPage(headerTag, mainTag) =>
          var header := if headerTag.Some? then headerTag.value else HeaderFallback;
          var main := if mainTag.Some? then mainTag.value else MainFallback;
          content := Sections(header, main);
      }
      advisoryList := advisoryList[i := advisory.(content := Some(content))];
    }

    /** Runs the content pass over every advisory, in list order. */
    method FetchAllAdvisoryContent(contents: ContentSite)
      modifies this
      ensures advisoryList == EnrichAll(old(advisoryList), contents)
    {
      ghost var before := advisoryList;
      var i := 0;
      while i < |advisoryList|
        invariant |advisoryList| == |before| && 0 <= i <= |before|
        invariant advisoryList[..i] == EnrichAll(before[..i], contents)
        invariant advisoryList[i..] == before[i..]
      {
        GetAdvisoryContent(contents, i);
        assert before[..i + 1] == before[..i] + [before[i]];
        i := i + 1;
      }
      assert before[..i] == before && advisoryList[..i] == advisoryList;
    }
  }
}
