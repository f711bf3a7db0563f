/**
 * The ransomware subgraph. Four search nodes each fill one field with the formatted
 * results of a web search about the reporting month; a summarize node joins the
 * four fields and hands them to the section writer. Only the summary leaves the
 * subgraph. The search service and the section writer are parameters, and so are
 * the query templates: the properties below hold whatever the query text, and
 * `Templates` holds the text the nodes actually send.
 */
module RansomwareAgent {
  import opened Text
  import opened TaskGraph
  import opened RunState
  import opened SearchQuery
  import Tools

  datatype Field = Month | Year | ActiveGroups | Ttps | Vulnerabilities | RaasInsights | RansomwareSummary

  /** The subgraph's state: the fields set so far. */
  type State = map<Field, string>

  /** The nodes of the subgraph, by the names they are registered under. */
  datatype NodeName = GatherActiveGroups | IdentifyTtps | FindExploitedVulnerabilities | ProvideRaasInsights | Summarize

  /** The web search: a query to its results, in the order the service ranks them. */
  type SearchService = string -> seq<Tools.SearchResult>

  /** The section writer: (context, focus) to the section the LLM writes. */
  type SectionWriter = (string, string) -> string

  const Focus := "Ransomware Threat"

  /** The field each node writes. */
  function Writes(n: NodeName): Field
  {
    match n
    case GatherActiveGroups => ActiveGroups
    case IdentifyTtps => Ttps
    case FindExploitedVulnerabilities => Vulnerabilities
    case ProvideRaasInsights => RaasInsights
    case Summarize => RansomwareSummary
  }

  /** The gathering nodes, in the order they are registered. */
  const Gatherers := [GatherActiveGroups, IdentifyTtps, FindExploitedVulnerabilities, ProvideRaasInsights]

  /** The fields the gathering nodes write, which is also the order in which summarize joins them. */
  const Gathered := [ActiveGroups, Ttps, Vulnerabilities, RaasInsights]

  /** The query templates of the gathering nodes, in the same order (the triple-quoted ones keep their line breaks and indentation). */
  const Templates := [
    Template("Most active ransomware groups in the month ",
      ", \n        targeted sectors (healthcare, finance, education), and recent ransomware attack trends\n        "),
    Template("Common TTPs used by ransomware groups in the month ",
      ", \n        methods for gaining initial access, exploitation of vulnerabilities, phishing, and social engineering techniques\n        "),
    Template("Vulnerabilities frequently abused by ransomware groups, specific software or systems targeted, and techniques for exploiting them in the month ", ""),
    Template("Overview of the Ransomware-as-a-Service (RaaS) model, role in recent ransomware attacks, and contribution to the rise in ransomware incidents in the month ", "")
  ]

  // ---------------------------------------------------------------- nodes

  /** A gathering node's update: its own field, set to the formatted results of its query for the state's period. */
  function Gather(n: NodeName, t: Template, s: State, search: SearchService): (u: State)
    requires Month in s && Year in s
    ensures u.Keys == {Writes(n)}
  {
    map[Writes(n) := Tools.SearchWeb(search(Fill(t, s[Month], s[Year])))]
  }

  /** A gathering node reads the month and the year and nothing else. */
  lemma GatherReadsPeriod(n: NodeName, t: Template, s: State, s': State, search: SearchService)
    requires Month in s && Year in s && Month in s' && Year in s'
    requires s[Month] == s'[Month] && s[Year] == s'[Year]
    ensures Gather(n, t, s, search) == Gather(n, t, s', search)
  {
  }

  /** The summarize node's context: the gathered fields, in fixed order, one newline apart. */
  function SummaryContext(s: State): string
    requires forall f :: f in Gathered ==> f in s
  {
    Join("\n", [s[ActiveGroups], s[Ttps], s[Vulnerabilities], s[RaasInsights]])
  }

  /**
   * The summarize context holds the four findings in registration order, one newline
   * apart; each finding sits at its own offset, whatever text it holds.
   */
  lemma SummaryContextLayout(s: State)
    requires forall f :: f in Gathered ==> f in s
    ensures var ctx, a, b, c, d := SummaryContext(s), s[ActiveGroups], s[Ttps], s[Vulnerabilities], s[RaasInsights];
      && ctx == a + "\n" + b + "\n" + c + "\n" + d
      && |ctx| == |a| + |b| + |c| + |d| + 3
      && ctx[..|a|] == a
      && ctx[|a| + 1..|a| + 1 + |b|] == b
      && ctx[|a| + |b| + 2..|a| + |b| + 2 + |c|] == c
      && ctx[|a| + |b| + |c| + 3..] == d
      && ctx[|a|] == ctx[|a| + |b| + 1] == ctx[|a| + |b| + |c| + 2] == '\n'
  {
    var ctx, a, b, c, d := SummaryContext(s), s[ActiveGroups], s[Ttps], s[Vulnerabilities], s[RaasInsights];
    JoinFour("\n", a, b, c, d);
    JoinFourOffsets("\n", a, b, c, d);
    assert ctx[|a|..|a| + 1] == "\n" && ctx[|a| + |b| + 1..|a| + |b| + 2] == "\n";
    assert ctx[|a| + |b| + |c| + 2..|a| + |b| + |c| + 3] == "\n";
  }

  /** When no gathered text holds a newline, the context splits back into the four fields in order. */
  lemma SummaryContextSplits(s: State)
    requires forall f :: f in Gathered ==> f in s && '\n' !in s[f]
    ensures Split(SummaryContext(s), "\n") == [s[ActiveGroups], s[Ttps], s[Vulnerabilities], s[RaasInsights]]
  {
    var parts := [s[ActiveGroups], s[Ttps], s[Vulnerabilities], s[RaasInsights]];
    assert forall k :: 0 <= k < |parts| ==> parts[k] == s[Gathered[k]];
    SplitJoin(parts, "\n");
  }

  /** The summarize node's update: the summary alone, written with the ransomware focus. */
  function SummarizeNode(s: State, write: SectionWriter): (u: State)
    requires forall f :: f in Gathered ==> f in s
    ensures u.Keys == {RansomwareSummary}
  {
    map[RansomwareSummary := write(SummaryContext(s), Focus)]
  }

  /** The summarize node reads the gathered fields and nothing else. */
  lemma SummarizeReadsGathered(s: State, s': State, write: SectionWriter)
    requires forall f :: f in Gathered ==> f in s && f in s' && s[f] == s'[f]
    ensures SummarizeNode(s, write) == SummarizeNode(s', write)
  {
  }

  // ---------------------------------------------------------------- wiring

  /** The `add_edge` calls of `_setup_graph`, in order. */
  function Wiring(): seq<EdgeDecl<NodeName>>
  {
    Through(GatherActiveGroups) + Through(IdentifyTtps) + Through(FindExploitedVulnerabilities) + Through(ProvideRaasInsights)
      + [Edge(Node(Summarize), End)]
  }

  /** The pair of calls that routes one gatherer: START to it, it to summarize. */
  function Through(n: NodeName): seq<EdgeDecl<NodeName>>
  {
    [Edge(Start, Node(n)), Edge(Node(n), Node(Summarize))]
  }

  /** The dependency relation the calls declare: START to each gatherer, each gatherer to summarize, summarize to END. */
  const WiringPairs: set<(Vertex<NodeName>, Vertex<NodeName>)> :=
    { (Start, Node(GatherActiveGroups)), (Node(GatherActiveGroups), Node(Summarize)),
      (Start, Node(IdentifyTtps)), (Node(IdentifyTtps), Node(Summarize)),
      (Start, Node(FindExploitedVulnerabilities)), (Node(FindExploitedVulnerabilities), Node(Summarize)),
      (Start, Node(ProvideRaasInsights)), (Node(ProvideRaasInsights), Node(Summarize)),
      (Node(Summarize), End) }

  /** The pair of calls for one gatherer declares its two edges. */
  lemma ThroughEdges(n: NodeName)
    ensures Edges(Through(n)) == {(Start, Node(n)), (Node(n), Node(Summarize))}
  {
    EdgesSingleCons(Start, Node(n), [Edge(Node(n), Node(Summarize))]);
    EdgesSingleCons(Node(n), Node(Summarize), []);
  }

  /** The calls declare exactly those edges. */
  lemma WiringEdges()
    ensures Edges(Wiring()) == WiringPairs
  {
    var a, b, c, d := Through(GatherActiveGroups), Through(IdentifyTtps), Through(FindExploitedVulnerabilities), Through(ProvideRaasInsights);
    var last := [Edge(Node(Summarize), End)];
    EdgesAppend(a + b + c + d, last);
    EdgesAppend(a + b + c, d);
    EdgesAppend(a + b, c);
    EdgesAppend(a, b);
    ThroughEdges(GatherActiveGroups);
    ThroughEdges(IdentifyTtps);
    ThroughEdges(FindExploitedVulnerabilities);
    ThroughEdges(ProvideRaasInsights);
    EdgesSingleCons(Node(Summarize), End, []);
  }

  /** The gathering nodes as vertices of the graph. */
  const GathererVertices: set<Vertex<NodeName>> :=
    {Node(GatherActiveGroups), Node(IdentifyTtps), Node(FindExploitedVulnerabilities), Node(ProvideRaasInsights)}

  /** START fans out to the four gatherers, summarize waits for all four, and END follows summarize alone. */
  lemma WiringShape()
    ensures Succs(WiringPairs, Start) == GathererVertices
    ensures Preds(WiringPairs, Node(Summarize)) == GathererVertices
    ensures Succs(WiringPairs, Node(Summarize)) == {End}
    ensures Preds(WiringPairs, End) == {Node(Summarize)}
  {
  }

  /** Each gatherer has START as its only predecessor and summarize as its only successor. */
  lemma GathererNeighbours()
    ensures forall g :: g in GathererVertices ==> Preds(WiringPairs, g) == {Start} && Succs(WiringPairs, g) == {Node(Summarize)}
  {
  }

  /** The stage of each vertex: START, the gatherers, summarize, END. */
  function Stage(v: Vertex<NodeName>): nat
  {
    match v
    case Start => 0
    case End => 3
    case Node(n) => if n == Summarize then 2 else 1
  }

  /** The wiring has no cycle. */
  lemma WiringAcyclic()
    ensures Acyclic(WiringPairs)
  {
    assert StagedBy(WiringPairs, Stage);
    StagedIsAcyclic(WiringPairs, Stage);
  }

  /** Everything summarize reads was written by one of its predecessors. */
  lemma SummarizeInputsAvailable()
    ensures forall f :: f in Gathered ==> Available(WiringPairs, (n: NodeName) => {Writes(n)}, {Month, Year}, Summarize, f)
  {
    var e := WiringPairs;
    var writes := (n: NodeName) => {Writes(n)};
    WrittenByPred(e, writes, {Month, Year}, GatherActiveGroups, Summarize, ActiveGroups);
    WrittenByPred(e, writes, {Month, Year}, IdentifyTtps, Summarize, Ttps);
    WrittenByPred(e, writes, {Month, Year}, FindExploitedVulnerabilities, Summarize, Vulnerabilities);
    WrittenByPred(e, writes, {Month, Year}, ProvideRaasInsights, Summarize, RaasInsights);
  }

  // ---------------------------------------------------------------- one run

  /** The updates of the four gathering nodes, in registration order, each with its template from `ts`. */
  function GatherUpdates(ts: seq<Template>, s: State, search: SearchService): (us: seq<State>)
    requires |ts| == 4 && Month in s && Year in s
    ensures |us| == 4 && Disjoint(us)
    ensures forall i :: 0 <= i < 4 ==> us[i].Keys == {Gathered[i]}
  {
    var us := seq(4, i requires 0 <= i < 4 => Gather(Gatherers[i], ts[i], s, search));
    SingleFieldsDisjoint(us, Gathered);
    us
  }

  /** The gathering nodes set disjoint fields, so merging their updates in any order gives the same state. */
  lemma GatherOrderIrrelevant(ts: seq<Template>, s: State, search: SearchService, order: seq<State>)
    requires |ts| == 4 && Month in s && Year in s
    requires Disjoint(order) && forall u :: u in order <==> u in GatherUpdates(ts, s, search)
    ensures ApplyAll(s, order) == ApplyAll(s, GatherUpdates(ts, s, search))
  {
    JoinOrderIndependent(s, order, GatherUpdates(ts, s, search));
  }

  /** What the gathering nodes find, in registration order: the formatted results of each query for the state's period. */
  function Findings(ts: seq<Template>, s: State, search: SearchService): (rs: seq<string>)
    requires |ts| == 4 && Month in s && Year in s
  {
    seq(4, i requires 0 <= i < 4 => Tools.SearchWeb(search(Fill(ts[i], s[Month], s[Year]))))
  }

  /** After the gathering nodes, each gathered field holds what its node found, whatever the order of the merge. */
  lemma GatheredPresent(ts: seq<Template>, s: State, search: SearchService)
    requires |ts| == 4 && Month in s && Year in s
    ensures var g, rs := ApplyAll(s, GatherUpdates(ts, s, search)), Findings(ts, s, search);
      forall i :: 0 <= i < 4 ==> Gathered[i] in g && g[Gathered[i]] == rs[i]
  {
    var us := GatherUpdates(ts, s, search);
    forall i | 0 <= i < 4
      ensures Gathered[i] in ApplyAll(s, us) && ApplyAll(s, us)[Gathered[i]] == Findings(ts, s, search)[i]
    {
      ApplyAllWritten(s, us, i, Gathered[i]);
    }
  }

  /** The state after the gathering nodes and summarize have run on the input `s`, with query templates `ts`. */
  function Run(ts: seq<Template>, s: State, search: SearchService, write: SectionWriter): State
    requires |ts| == 4 && Month in s && Year in s
  {
    var gathered := ApplyAll(s, GatherUpdates(ts, s, search));
    GatheredPresent(ts, s, search);
    ApplyAll(gathered, [SummarizeNode(gathered, write)])
  }

  /** What the subgraph hands back: the output schema has the summary only. */
  function Output(s: State): (o: State)
    ensures o.Keys == s.Keys * {RansomwareSummary}
    ensures forall f :: f in o ==> o[f] == s[f]
  {
    map f | f in s.Keys * {RansomwareSummary} :: s[f]
  }

  /** The compiled subgraph: a run with the source's query text, seen through the output schema. */
  function Subgraph(s: State, search: SearchService, write: SectionWriter): State
    requires Month in s && Year in s
  {
    Output(Run(Templates, s, search, write))
  }

  /** The compiled subgraph hands back the summary of what the source's four queries found. */
  lemma SubgraphOutput(s: State, search: SearchService, write: SectionWriter)
    requires Month in s && Year in s
    ensures Subgraph(s, search, write) == map[RansomwareSummary := write(Join("\n", Findings(Templates, s, search)), Focus)]
  {
    RunOutput(Templates, s, search, write);
  }

  /**
   * End to end: the caller gets exactly one field, the section the writer produces
   * from what the four gathering nodes found, joined in registration order.
   */
  lemma RunOutput(ts: seq<Template>, s: State, search: SearchService, write: SectionWriter)
    requires |ts| == 4 && Month in s && Year in s
    ensures Output(Run(ts, s, search, write)) == map[RansomwareSummary := write(Join("\n", Findings(ts, s, search)), Focus)]
  {
    var g, rs := ApplyAll(s, GatherUpdates(ts, s, search)), Findings(ts, s, search);
    GatheredPresent(ts, s, search);
    assert g[Gathered[0]] == rs[0] && g[Gathered[1]] == rs[1] && g[Gathered[2]] == rs[2] && g[Gathered[3]] == rs[3];
    assert [g[ActiveGroups], g[Ttps], g[Vulnerabilities], g[RaasInsights]] == rs;
    var u := SummarizeNode(g, write);
    assert ApplyAll(g, [u]) == g + u by {
      assert [u][1..] == [];
    }
    var r := Run(ts, s, search, write);
    assert r == g + u;
    assert RansomwareSummary in r && r[RansomwareSummary] == write(Join("\n", rs), Focus);
  }
}
