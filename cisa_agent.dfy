/**
 * The CISA subgraph: a fetch node runs the CISA tool (crawl, content pass,
 * formatting) and stores the formatted advisories; a summarize node hands them,
 * unchanged, to the section writer. The graph declares no output schema, so the
 * caller sees the whole state. The listing, the advisory pages and the section
 * writer are parameters.
 */
module CisaAgent {
  import opened Wrappers
  import opened TaskGraph
  import Scraper
  import Tools

  datatype Field = CisaSummary | FormattedDocs

  /** The subgraph's state: the fields set so far. */
  type State = map<Field, string>

  /** The nodes of the subgraph, by the names they are registered under. */
  datatype NodeName = FetchCisaInfo | Summarize

  /** The section writer: (context, focus) to the section the LLM writes. */
  type SectionWriter = (string, string) -> string

  const Focus := "CISA Advisory summary"

  // ---------------------------------------------------------------- nodes

  /** The summarize node's update: the summary alone, written from the formatted advisories as they are. */
  function SummarizeNode(s: State, write: SectionWriter): (u: State)
    requires FormattedDocs in s
    ensures u.Keys == {CisaSummary}
  {
    map[CisaSummary := write(s[FormattedDocs], Focus)]
  }

  /** The summarize node reads the formatted advisories and nothing else. */
  lemma SummarizeReadsDocs(s: State, s': State, write: SectionWriter)
    requires FormattedDocs in s && FormattedDocs in s' && s[FormattedDocs] == s'[FormattedDocs]
    ensures SummarizeNode(s, write) == SummarizeNode(s', write)
  {
  }

  /** The agent: the graph's nodes share one CISA tool, and so one scraper and its advisory list. */
  class Agent {
    const tool: Tools.CisaTool

    constructor ()
      ensures fresh(tool) && fresh(tool.scraper)
      ensures tool.scraper.currentMonth == Tools.CisaMonth && tool.scraper.currentYear == Tools.CisaYear
      ensures tool.scraper.advisoryList == []
    {
      tool := new Tools.CisaTool();
    }

    /**
     * The fetch node. It reads nothing from the state: its update holds the formatted
     * advisories alone, and when an advisory has no header/main record the formatting
     * fails and the node raises instead.
     */
    method FetchNode(s: State, site: Scraper.Site, contents: Scraper.ContentSite, maxPages: nat) returns (r: Result<State, Tools.FormatError>)
      modifies tool.scraper
      ensures tool.scraper.advisoryList == Scraper.EnrichAll(
        old(tool.scraper.advisoryList) + Scraper.CrawlRecords(site, Scraper.Crawl(site, Scraper.InitialUrl(), maxPages), 1, tool.scraper.currentMonth, tool.scraper.currentYear),
        contents)
      ensures r.Ok? <==> Tools.FormatAdvisories(tool.scraper.advisoryList).Ok?
      ensures r.Ok? ==> r.value == map[FormattedDocs := Tools.FormatAdvisories(tool.scraper.advisoryList).value]
      ensures r.Err? ==> r.error == Tools.FormatAdvisories(tool.scraper.advisoryList).error
    {
      var docs := tool.FetchCisaInfo(site, contents, maxPages);
      match docs
      case Ok(text) => r := Ok(map[FormattedDocs := text]);
      case Err(e) => r := Err(e);
    }

    /**
     * One run of the compiled graph from the input state `s`: fetch, then summarize.
     * With no output schema the caller gets the whole final state.
     */
    method Invoke(s: State, site: Scraper.Site, contents: Scraper.ContentSite, maxPages: nat, write: SectionWriter)
      returns (r: Result<State, Tools.FormatError>)
      modifies tool.scraper
      ensures tool.scraper.advisoryList == Scraper.EnrichAll(
        old(tool.scraper.advisoryList) + Scraper.CrawlRecords(site, Scraper.Crawl(site, Scraper.InitialUrl(), maxPages), 1, tool.scraper.currentMonth, tool.scraper.currentYear),
        contents)
      ensures r.Ok? <==> Tools.FormatAdvisories(tool.scraper.advisoryList).Ok?
      ensures r.Ok? ==> var docs := Tools.FormatAdvisories(tool.scraper.advisoryList).value;
        r.value == s[FormattedDocs := docs][CisaSummary := write(docs, Focus)]
    {
      var fetched := FetchNode(s, site, contents, maxPages);
      match fetched
      case Err(e) => r := Err(e);
      case Ok(u) =>
        var t := s + u;
        r := Ok(t + SummarizeNode(t, write));
    }
  }

  // ---------------------------------------------------------------- wiring

  /** The `add_edge` calls of `_setup_graph`, in order. */
  function Wiring(): seq<EdgeDecl<NodeName>>
  {
    [Edge(Start, Node(FetchCisaInfo)), Edge(Node(FetchCisaInfo), Node(Summarize)), Edge(Node(Summarize), End)]
  }

  /** The dependency relation the calls declare: a chain. */
  const WiringPairs: set<(Vertex<NodeName>, Vertex<NodeName>)> :=
    {(Start, Node(FetchCisaInfo)), (Node(FetchCisaInfo), Node(Summarize)), (Node(Summarize), End)}

  /** The calls declare exactly those edges. */
  lemma WiringEdges()
    ensures Edges(Wiring()) == WiringPairs
  {
  }

  /** Every vertex has one successor and one predecessor along the chain START, fetch, summarize, END. */
  lemma WiringShape()
    ensures Succs(WiringPairs, Start) == {Node(FetchCisaInfo)} && Preds(WiringPairs, Start) == {}
    ensures Succs(WiringPairs, Node(FetchCisaInfo)) == {Node(Summarize)} && Preds(WiringPairs, Node(FetchCisaInfo)) == {Start}
    ensures Succs(WiringPairs, Node(Summarize)) == {End} && Preds(WiringPairs, Node(Summarize)) == {Node(FetchCisaInfo)}
    ensures Succs(WiringPairs, End) == {} && Preds(WiringPairs, End) == {Node(Summarize)}
  {
  }

  /** The position of each vertex along the chain. */
  function Stage(v: Vertex<NodeName>): nat
  {
    match v
    case Start => 0
    case Node(FetchCisaInfo) => 1
    case Node(Summarize) => 2
    case End => 3
  }

  /** The chain has no cycle. */
  lemma WiringAcyclic()
    ensures Acyclic(WiringPairs)
  {
    assert StagedBy(WiringPairs, Stage);
    StagedIsAcyclic(WiringPairs, Stage);
  }

  /** What summarize reads was written by its predecessor. */
  lemma SummarizeInputAvailable()
    ensures Available(WiringPairs, (n: NodeName) => if n == FetchCisaInfo then {FormattedDocs} else {CisaSummary}, {}, Summarize, FormattedDocs)
  {
    WrittenByPred(WiringPairs, (n: NodeName) => if n == FetchCisaInfo then {FormattedDocs} else {CisaSummary}, {}, FetchCisaInfo, Summarize, FormattedDocs);
  }
}
