/**
 * The two document formatters the research agents feed to the LLM: web-search
 * results and CISA advisories, each rendered as a `<Document href=...>` block and
 * the blocks joined by a horizontal rule. The search service and the HTTP/HTML side
 * of the scraper are parameters.
 */
module Tools {
  import opened Wrappers
  import opened Text
  import opened Scraper

  /** What separates two document blocks. */
  const DocumentSeparator := "\n\n---\n\n"
  const BlockOpen := "<Document href=\""
  const BlockMiddle := "\"/>\n"
  const BlockClose := "\n</Document>"

  /** The month and year every CISA lookup targets, whatever the caller asks for. */
  const CisaMonth := 9
  const CisaYear := 2024

  /** One hit of the web search: the page address and the extracted text. */
  datatype SearchResult = SearchResult(url: string, content: string)

  /** A source document as the LLM prompt shows it. */
  datatype Document = Document(href: string, body: string)

  /** The block of one document: its address in the opening tag, its text, the closing tag. */
  function DocumentBlock(d: Document): (b: string)
    ensures |b| == |BlockOpen| + |d.href| + |BlockMiddle| + |d.body| + |BlockClose|
    ensures b[..|BlockOpen|] == BlockOpen && b[|b| - |BlockClose|..] == BlockClose
    ensures b[|BlockOpen|..|BlockOpen| + |d.href|] == d.href
    ensures b[|BlockOpen| + |d.href| + |BlockMiddle|..|b| - |BlockClose|] == d.body
  {
    BlockOpen + d.href + BlockMiddle + d.body + BlockClose
  }

  /**
   * A block determines its document when the addresses hold no double quote (a URL
   * never does); otherwise text after a quote in the address could pass for the body.
   */
  lemma DocumentBlockInjective(d: Document, e: Document)
    requires '"' !in d.href && '"' !in e.href
    requires DocumentBlock(d) == DocumentBlock(e)
    ensures d == e
  {
    if |d.href| < |e.href| {
      QuoteEndsAddress(d);
      assert false;
    } else if |e.href| < |d.href| {
      QuoteEndsAddress(e);
      assert false;
    }
  }

  /** The character right after the address is the quote that closes it. */
  lemma QuoteEndsAddress(d: Document)
    ensures DocumentBlock(d)[|BlockOpen| + |d.href|] == '"'
  {
  }

  /** Without that condition the block is ambiguous: an address with a quote can swallow the body. */
  lemma DocumentBlockAmbiguous()
    ensures DocumentBlock(Document("a\"/>\nx", "y")) == DocumentBlock(Document("a", "x\"/>\ny"))
  {
  }

  /** All blocks, in document order, joined by the separator. */
  function FormatDocuments(docs: seq<Document>): (r: string)
    ensures docs == [] ==> r == ""
    ensures |docs| == 1 ==> r == DocumentBlock(docs[0])
  {
    Join(DocumentSeparator, seq(|docs|, i requires 0 <= i < |docs| => DocumentBlock(docs[i])))
  }

  /** One more document appends the separator and its block, after everything before it. */
  lemma FormatDocumentsSnoc(docs: seq<Document>, d: Document)
    requires docs != []
    ensures FormatDocuments(docs + [d]) == FormatDocuments(docs) + DocumentSeparator + DocumentBlock(d)
  {
    var blocks := seq(|docs|, i requires 0 <= i < |docs| => DocumentBlock(docs[i]));
    var more := seq(|docs| + 1, i requires 0 <= i < |docs| + 1 => DocumentBlock((docs + [d])[i]));
    assert more == blocks + [DocumentBlock(d)];
    JoinSnoc(DocumentSeparator, blocks, DocumentBlock(d));
  }

  /** The document a search result becomes. */
  function ResultDocument(r: SearchResult): Document
  {
    Document(r.url, r.content)
  }

  /** `search_web`'s formatting of the results the search returned. */
  function SearchWeb(results: seq<SearchResult>): (r: string)
    ensures results == [] ==> r == ""
  {
    FormatDocuments(seq(|results|, i requires 0 <= i < |results| => ResultDocument(results[i])))
  }

  /** The results appear in the order the search returned them, one block each. */
  lemma SearchWebInOrder(results: seq<SearchResult>, x: SearchResult)
    ensures SearchWeb([x]) == DocumentBlock(Document(x.url, x.content))
    ensures results != [] ==>
      SearchWeb(results + [x]) == SearchWeb(results) + DocumentSeparator + DocumentBlock(Document(x.url, x.content))
  {
    assert seq(1, i requires 0 <= i < 1 => ResultDocument([x][i])) == [ResultDocument(x)];
    if results != [] {
      var docs := seq(|results|, i requires 0 <= i < |results| => ResultDocument(results[i]));
      var more := seq(|results| + 1, i requires 0 <= i < |results| + 1 => ResultDocument((results + [x])[i]));
      assert more == docs + [ResultDocument(x)];
      FormatDocumentsSnoc(docs, ResultDocument(x));
    }
  }

  /** Why formatting the advisories raises: a record without `content`, or with the fallback string as `content`. */
  datatype FormatError = MissingContent(index: nat) | ContentNotRecord(index: nat)

  /** The advisory's `content` is a header/main record, so its `main` can be looked up. */
  predicate HasMain(a: Advisory)
  {
    a.content.Some? && a.content.value.Sections?
  }

  /** The error raised at the first advisory whose `main` cannot be looked up, in list order. */
  function FirstFormatError(advs: seq<Advisory>): (e: Option<FormatError>)
    ensures e.None? <==> forall i :: 0 <= i < |advs| ==> HasMain(advs[i])
    ensures e.Some? ==>
      var i := e.value.index;
      && i < |advs| && !HasMain(advs[i]) && (forall j :: 0 <= j < i ==> HasMain(advs[j]))
      && (e.value.MissingContent? <==> advs[i].content.None?)
  {
    if advs == [] then None
    else if advs[0].content.None? then Some(MissingContent(0))
    else if !advs[0].content.value.Sections? then Some(ContentNotRecord(0))
    else
      match FirstFormatError(advs[1..])
      case None => None
      case Some(MissingContent(i)) => Some(MissingContent(i + 1))
      case Some(ContentNotRecord(i)) => Some(ContentNotRecord(i + 1))
  }

  /** The document an advisory becomes: its link and the `main` text of its page. */
  function AdvisoryDocument(a: Advisory): Document
    requires HasMain(a)
  {
    Document(a.link, a.content.value.main)
  }

  /** `fetch_cisa_info`'s formatting of the advisory list, or the error it raises. */
  function FormatAdvisories(advs: seq<Advisory>): (r: Result<string, FormatError>)
    ensures r.Err? <==> exists i :: 0 <= i < |advs| && !HasMain(advs[i])
    ensures advs == [] ==> r == Ok("")
  {
    match FirstFormatError(advs)
    case Some(e) => Err(e)
    case None => Ok(FormatDocuments(seq(|advs|, i requires 0 <= i < |advs| => AdvisoryDocument(advs[i]))))
  }

  /**
   * The advisories appear in list order, one block each: a single advisory gives
   * the block of its link and main text, and a further advisory appends the
   * separator and its block.
   */
  lemma FormatAdvisoriesInOrder(advs: seq<Advisory>, a: Advisory)
    requires HasMain(a)
    ensures FormatAdvisories([a]) == Ok(DocumentBlock(Document(a.link, a.content.value.main)))
    ensures advs != [] && (forall i :: 0 <= i < |advs| ==> HasMain(advs[i])) ==>
      && FormatAdvisories(advs).Ok?
      && FormatAdvisories(advs + [a]) == Ok(FormatAdvisories(advs).value + DocumentSeparator + DocumentBlock(Document(a.link, a.content.value.main)))
  {
    assert seq(1, i requires 0 <= i < 1 => AdvisoryDocument([a][i])) == [AdvisoryDocument(a)];
    if advs != [] && forall i :: 0 <= i < |advs| ==> HasMain(advs[i]) {
      var more := advs + [a];
      assert forall i :: 0 <= i < |more| ==> HasMain(more[i]);
      var docs := seq(|advs|, i requires 0 <= i < |advs| => AdvisoryDocument(advs[i]));
      var docs' := seq(|more|, i requires 0 <= i < |more| => AdvisoryDocument(more[i]));
      assert docs' == docs + [AdvisoryDocument(a)];
      FormatDocumentsSnoc(docs, AdvisoryDocument(a));
    }
  }

  /**
   * After the content pass no advisory lacks `content`, and the advisories format
   * exactly when every advisory page was fetched and parsed.
   */
  lemma FormatAfterContentPass(advs: seq<Advisory>, contents: ContentSite)
    ensures var r := FormatAdvisories(EnrichAll(advs, contents));
      && (r.Err? ==> r.error.ContentNotRecord?)
      && (r.Ok? <==> forall i :: 0 <= i < |advs| ==> advs[i].link in contents && contents[advs[i].link].ContentPage?)
  {
    var enriched := EnrichAll(advs, contents);
    forall i | 0 <= i < |advs|
      ensures HasMain(enriched[i]) <==> advs[i].link in contents && contents[advs[i].link].ContentPage?
    {
      assert enriched[i].content == Some(ContentFor(contents, advs[i].link));
    }
  }

  /** The CISA tool: a scraper fixed on September 2024. */
  class CisaTool {
    const scraper: CisaScraper

    constructor ()
      ensures fresh(scraper)
      ensures scraper.currentMonth == CisaMonth && scraper.currentYear == CisaYear && scraper.advisoryList == []
    {
      scraper := new CisaScraper(CisaMonth, CisaYear);
    }

    /**
     * Crawls the listing, fetches every advisory's page, and formats the advisories.
     * The scraper keeps its list, so a second call appends the crawl's records again.
     */
    method FetchCisaInfo(site: Site, contents: ContentSite, maxPages: nat) returns (r: Result<string, FormatError>)
      modifies scraper
      ensures scraper.advisoryList == EnrichAll(
        old(scraper.advisoryList) + CrawlRecords(site, Crawl(site, InitialUrl(), maxPages), 1, scraper.currentMonth, scraper.currentYear),
        contents)
      ensures r == FormatAdvisories(scraper.advisoryList)
    {
      var _ := scraper.ScrapeAdvisories(site, maxPages);
      scraper.FetchAllAdvisoryContent(contents);
      r := FormatAdvisories(scraper.advisoryList);
    }
  }
}
