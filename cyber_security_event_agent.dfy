/**
 * The cyber-security-events subgraph. Three search nodes each fill one field with
 * the formatted results of a web search about the reporting month; a summarize node
 * joins the three fields and hands them to the section writer. Only the summary
 * leaves the subgraph. The search service and the section writer are parameters, and so are
 * the query templates: the properties below hold whatever the query text, and
 * `Templates` holds the text the nodes actually send.
 */
module CyberSecurityEventAgent {
  import opened Text
  import opened TaskGraph
  import opened RunState
  import opened SearchQuery
  import Tools

  datatype Field = Month | Year | IndustrySpecificAttacks | EmergingTrends | BotnetMalwareActivity | CyberSecurityEventsSummary

  /** The subgraph's state: the fields set so far. */
  type State = map<Field, string>

  /** The nodes of the subgraph, by the names they are registered under. */
  datatype NodeName = GatherIndustrySpecificAttacks | IdentifyEmergingTrends | FindBotnetMalwareActivity | Summarize

  /** The web search: a query to its results, in the order the service ranks them. */
  type SearchService = string -> seq<Tools.SearchResult>

  /** The section writer: (context, focus) to the section the LLM writes. */
  type SectionWriter = (string, string) -> string

  const Focus := "Cyber Security Events"

  /** The field each node writes. */
  function Writes(n: NodeName): Field
  {
    match n
    case GatherIndustrySpecificAttacks => IndustrySpecificAttacks
    case IdentifyEmergingTrends => EmergingTrends
    case FindBotnetMalwareActivity => BotnetMalwareActivity
    case Summarize => CyberSecurityEventsSummary
  }

  /** The gathering nodes, in the order they are registered. */
  const Gatherers := [GatherIndustrySpecificAttacks, IdentifyEmergingTrends, FindBotnetMalwareActivity]

  /** The fields the gathering nodes write, which is also the order in which summarize joins them. */
  const Gathered := [IndustrySpecificAttacks, EmergingTrends, BotnetMalwareActivity]

  /** The query templates of the gathering nodes, in the same order. */
  const Templates := [
    Template("Cyberattacks targeting specific industries like healthcare, finance, education, and government in ",
      ", including the techniques and vulnerabilities exploited."),
    Template("Emerging cybersecurity trends and threats in ",
      ", including new attack vectors, techniques used by attackers, and vulnerabilities being exploited."),
    Template("Recent botnet or malware campaigns targeting critical systems or network infrastructure in ",
      ", including details on affected systems and methods of compromise.")
  ]

  // ---------------------------------------------------------------- nodes

  /** A gathering node's update: its own field, set to the formatted results of its query for the state's period. */
  function Gather(n: NodeName, t: Template, s: State, search: SearchService): (u: State)
    requires Month in s && Year in s
    ensures u.Keys == {Writes(n)}
  {
    map[Writes(n) := Tools.SearchWeb(search(Fill(t, s[Month], s[Year])))]
  }

  /** A gathering node reads the month and the year and nothing else. */
  lemma GatherReadsPeriod(n: NodeName, t: Template, s: State, s': State, search: SearchService)
    requires Month in s && Year in s && Month in s' && Year in s'
    requires s[Month] == s'[Month] && s[Year] == s'[Year]
    ensures Gather(n, t, s, search) == Gather(n, t, s', search)
  {
  }

  /** The summarize node's context: the gathered fields, in fixed order, one newline apart. */
  function SummaryContext(s: State): string
    requires forall f :: f in Gathered ==> f in s
  {
    Join("\n", [s[IndustrySpecificAttacks], s[EmergingTrends], s[BotnetMalwareActivity]])
  }

  /**
   * The summarize context holds the three findings in registration order, one newline
   * apart; each finding sits at its own offset, whatever text it holds.
   */
  lemma SummaryContextLayout(s: State)
    requires forall f :: f in Gathered ==> f in s
    ensures var ctx, a, b, c := SummaryContext(s), s[IndustrySpecificAttacks], s[EmergingTrends], s[BotnetMalwareActivity];
      && ctx == a + "\n" + b + "\n" + c
      && |ctx| == |a| + |b| + |c| + 2
      && ctx[..|a|] == a
      && ctx[|a| + 1..|a| + 1 + |b|] == b
      && ctx[|a| + |b| + 2..] == c
      && ctx[|a|] == ctx[|a| + |b| + 1] == '\n'
  {
    var ctx, a, b, c := SummaryContext(s), s[IndustrySpecificAttacks], s[EmergingTrends], s[BotnetMalwareActivity];
    JoinThree("\n", a, b, c);
    JoinThreeOffsets("\n", a, b, c);
    assert ctx[|a|..|a| + 1] == "\n" && ctx[|a| + |b| + 1..|a| + |b| + 2] == "\n";
  }

  /** When no gathered text holds a newline, the context splits back into the three fields in order. */
  lemma SummaryContextSplits(s: State)
    requires forall f :: f in Gathered ==> f in s && '\n' !in s[f]
    ensures Split(SummaryContext(s), "\n") == [s[IndustrySpecificAttacks], s[EmergingTrends], s[BotnetMalwareActivity]]
  {
    var parts := [s[IndustrySpecificAttacks], s[EmergingTrends], s[BotnetMalwareActivity]];
    assert forall k :: 0 <= k < |parts| ==> parts[k] == s[Gathered[k]];
    SplitJoin(parts, "\n");
  }

  /** The summarize node's update: the summary alone, written with the events focus. */
  function SummarizeNode(s: State, write: SectionWriter): (u: State)
    requires forall f :: f in Gathered ==> f in s
    ensures u.Keys == {CyberSecurityEventsSummary}
  {
    map[CyberSecurityEventsSummary := write(SummaryContext(s), Focus)]
  }

  /** The summarize node reads the gathered fields and nothing else. */
  lemma SummarizeReadsGathered(s: State, s': State, write: SectionWriter)
    requires forall f :: f in Gathered ==> f in s && f in s' && s[f] == s'[f]
    ensures SummarizeNode(s, write) == SummarizeNode(s', write)
  {
  }

  // ---------------------------------------------------------------- wiring

  /** The `add_edge` calls of `_setup_graph`, in order. */
  function Wiring(): seq<EdgeDecl<NodeName>>
  {
    [ Edge(Start, Node(GatherIndustrySpecificAttacks)), Edge(Node(GatherIndustrySpecificAttacks), Node(Summarize)),
      Edge(Start, Node(IdentifyEmergingTrends)), Edge(Node(IdentifyEmergingTrends), Node(Summarize)),
      Edge(Start, Node(FindBotnetMalwareActivity)), Edge(Node(FindBotnetMalwareActivity), Node(Summarize)),
      Edge(Node(Summarize), End) ]
  }

  /** The dependency relation the calls declare: START to each gatherer, each gatherer to summarize, summarize to END. */
  const WiringPairs: set<(Vertex<NodeName>, Vertex<NodeName>)> :=
    { (Start, Node(GatherIndustrySpecificAttacks)), (Node(GatherIndustrySpecificAttacks), Node(Summarize)),
      (Start, Node(IdentifyEmergingTrends)), (Node(IdentifyEmergingTrends), Node(Summarize)),
      (Start, Node(FindBotnetMalwareActivity)), (Node(FindBotnetMalwareActivity), Node(Summarize)),
      (Node(Summarize), End) }

  /** The calls declare exactly those edges. */
  lemma WiringEdges()
    ensures Edges(Wiring()) == WiringPairs
  {
  }

  /** The gathering nodes as vertices of the graph. */
  const GathererVertices: set<Vertex<NodeName>> :=
    {Node(GatherIndustrySpecificAttacks), Node(IdentifyEmergingTrends), Node(FindBotnetMalwareActivity)}

  /**
   * START fans out to the three gatherers, each gatherer has START as its only
   * predecessor and summarize as its only successor, summarize waits for all three,
   * and END follows summarize alone.
   */
  lemma WiringShape()
    ensures Succs(WiringPairs, Start) == GathererVertices
    ensures Preds(WiringPairs, Node(Summarize)) == GathererVertices
    ensures Succs(WiringPairs, Node(Summarize)) == {End}
    ensures Preds(WiringPairs, End) == {Node(Summarize)}
    ensures forall g :: g in GathererVertices ==> Preds(WiringPairs, g) == {Start} && Succs(WiringPairs, g) == {Node(Summarize)}
  {
  }

  /** The stage of each vertex: START, the gatherers, summarize, END. */
  function Stage(v: Vertex<NodeName>): nat
  {
    match v
    case Start => 0
    case End => 3
    case Node(n) => if n == Summarize then 2 else 1
  }

  /** The wiring has no cycle. */
  lemma WiringAcyclic()
    ensures Acyclic(WiringPairs)
  {
    assert StagedBy(WiringPairs, Stage);
    StagedIsAcyclic(WiringPairs, Stage);
  }

  /** Everything summarize reads was written by one of its predecessors. */
  lemma SummarizeInputsAvailable()
    ensures forall f :: f in Gathered ==> Available(WiringPairs, (n: NodeName) => {Writes(n)}, {Month, Year}, Summarize, f)
  {
    var e := WiringPairs;
    var writes := (n: NodeName) => {Writes(n)};
    WrittenByPred(e, writes, {Month, Year}, GatherIndustrySpecificAttacks, Summarize, IndustrySpecificAttacks);
    WrittenByPred(e, writes, {Month, Year}, IdentifyEmergingTrends, Summarize, EmergingTrends);
    WrittenByPred(e, writes, {Month, Year}, FindBotnetMalwareActivity, Summarize, BotnetMalwareActivity);
  }

  // ---------------------------------------------------------------- one run

  /** The updates of the three gathering nodes, in registration order, each with its template from `ts`. */
  function GatherUpdates(ts: seq<Template>, s: State, search: SearchService): (us: seq<State>)
    requires |ts| == 3 && Month in s && Year in s
    ensures |us| == 3 && Disjoint(us)
    ensures forall i :: 0 <= i < 3 ==> us[i].Keys == {Gathered[i]}
  {
    var us := seq(3, i requires 0 <= i < 3 => Gather(Gatherers[i], ts[i], s, search));
    SingleFieldsDisjoint(us, Gathered);
    us
  }

  /** The gathering nodes set disjoint fields, so merging their updates in any order gives the same state. */
  lemma GatherOrderIrrelevant(ts: seq<Template>, s: State, search: SearchService, order: seq<State>)
    requires |ts| == 3 && Month in s && Year in s
    requires Disjoint(order) && forall u :: u in order <==> u in GatherUpdates(ts, s, search)
    ensures ApplyAll(s, order) == ApplyAll(s, GatherUpdates(ts, s, search))
  {
    JoinOrderIndependent(s, order, GatherUpdates(ts, s, search));
  }

  /** What the gathering nodes find, in registration order: the formatted results of each query for the state's period. */
  function Findings(ts: seq<Template>, s: State, search: SearchService): (rs: seq<string>)
    requires |ts| == 3 && Month in s && Year in s
  {
    seq(3, i requires 0 <= i < 3 => Tools.SearchWeb(search(Fill(ts[i], s[Month], s[Year]))))
  }

  /** After the gathering nodes, each gathered field holds what its node found, whatever the order of the merge. */
  lemma GatheredPresent(ts: seq<Template>, s: State, search: SearchService)
    requires |ts| == 3 && Month in s && Year in s
    ensures var g, rs := ApplyAll(s, GatherUpdates(ts, s, search)), Findings(ts, s, search);
      forall i :: 0 <= i < 3 ==> Gathered[i] in g && g[Gathered[i]] == rs[i]
  {
    var us := GatherUpdates(ts, s, search);
    forall i | 0 <= i < 3
      ensures Gathered[i] in ApplyAll(s, us) && ApplyAll(s, us)[Gathered[i]] == Findings(ts, s, search)[i]
    {
      ApplyAllWritten(s, us, i, Gathered[i]);
    }
  }

  /** The state after the gathering nodes and summarize have run on the input `s`, with query templates `ts`. */
  function Run(ts: seq<Template>, s: State, search: SearchService, write: SectionWriter): State
    requires |ts| == 3 && Month in s && Year in s
  {
    var gathered := ApplyAll(s, GatherUpdates(ts, s, search));
    GatheredPresent(ts, s, search);
    ApplyAll(gathered, [SummarizeNode(gathered, write)])
  }

  /** What the subgraph hands back: the output schema has the summary only. */
  function Output(s: State): (o: State)
    ensures o.Keys == s.Keys * {CyberSecurityEventsSummary}
    ensures forall f :: f in o ==> o[f] == s[f]
  {
    map f | f in s.Keys * {CyberSecurityEventsSummary} :: s[f]
  }

  /** The compiled subgraph: a run with the source's query text, seen through the output schema. */
  function Subgraph(s: State, search: SearchService, write: SectionWriter): State
    requires Month in s && Year in s
  {
    Output(Run(Templates, s, search, write))
  }

  /** The compiled subgraph hands back the summary of what the source's three queries found. */
  lemma SubgraphOutput(s: State, search: SearchService, write: SectionWriter)
    requires Month in s && Year in s
    ensures Subgraph(s, search, write) == map[CyberSecurityEventsSummary := write(Join("\n", Findings(Templates, s, search)), Focus)]
  {
    RunOutput(Templates, s, search, write);
  }

  /**
   * End to end: the caller gets exactly one field, the section the writer produces
   * from what the three gathering nodes found, joined in registration order.
   */
  lemma RunOutput(ts: seq<Template>, s: State, search: SearchService, write: SectionWriter)
    requires |ts| == 3 && Month in s && Year in s
    ensures Output(Run(ts, s, search, write)) == map[CyberSecurityEventsSummary := write(Join("\n", Findings(ts, s, search)), Focus)]
  {
    var g, rs := ApplyAll(s, GatherUpdates(ts, s, search)), Findings(ts, s, search);
    GatheredPresent(ts, s, search);
    assert g[Gathered[0]] == rs[0] && g[Gathered[1]] == rs[1] && g[Gathered[2]] == rs[2];
    assert [g[IndustrySpecificAttacks], g[EmergingTrends], g[BotnetMalwareActivity]] == rs;
    var u := SummarizeNode(g, write);
    assert ApplyAll(g, [u]) == g + u by {
      assert [u][1..] == [];
    }
    var r := Run(ts, s, search, write);
    assert r == g + u;
    assert CyberSecurityEventsSummary in r && r[CyberSecurityEventsSummary] == write(Join("\n", rs), Focus);
  }
}
