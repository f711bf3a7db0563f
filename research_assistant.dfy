/**
 * The top-level research graph: four topic agents run from START, their summaries
 * meet at write_report, the executive summary and the conclusion are written after
 * it, and finalize_report assembles the final report. The LLM calls are parameters;
 * the topic agents' own logic lives in their modules (the vulnerability agent is not
 * part of this model, only the field it fills).
 */
module ResearchAssistant {
  import opened Wrappers
  import opened Text
  import opened TaskGraph

  datatype Field =
    | Month | Year
    | VulnerabilitySummary | RansomwareSummary | CyberSecurityEventsSummary | CisaSummary
    | ExecutiveSummary | Content | Conclusion | FinalReport

  /** The graph's state: the fields set so far. */
  type State = map<Field, string>

  /** The nodes of the graph, by the names they are registered under. */
  datatype NodeName =
    | VulnerabilityAgent | RansomwareAgent | CyberSecurityEventAgent | CisaAgent
    | WriteReport | WriteExecutiveSummary | WriteConclusion | FinalizeReport

  /** The report writer's LLM call: (topic, month, memos) to the report body. */
  type ReportLlm = (string, string, string) -> string

  /** The closing writer's LLM call: (topic, memos, request) to the section. */
  type ClosingLlm = (string, string, string) -> string

  const Topic := "Threat and Vulnerabilities"
  const IntroductionRequest := "Write the report introduction"
  const ConclusionRequest := "Write the report conclusion"

  /** The summaries the writers reflect on, in the order they are joined. */
  const Summaries := [VulnerabilitySummary, RansomwareSummary, CyberSecurityEventsSummary, CisaSummary]

  /** The field each node writes; a topic agent hands back its summary only. */
  function Writes(n: NodeName): Field
  {
    match n
    case VulnerabilityAgent => VulnerabilitySummary
    case RansomwareAgent => RansomwareSummary
    case CyberSecurityEventAgent => CyberSecurityEventsSummary
    case CisaAgent => CisaSummary
    case WriteReport => Content
    case WriteExecutiveSummary => ExecutiveSummary
    case WriteConclusion => Conclusion
    case FinalizeReport => FinalReport
  }

  // ---------------------------------------------------------------- the writer nodes

  /** The memos all three writers build: the four summaries, a blank line apart, in fixed order. */
  function Memos(s: State): string
    requires forall f :: f in Summaries ==> f in s
  {
    Join("\n\n", [s[VulnerabilitySummary], s[RansomwareSummary], s[CyberSecurityEventsSummary], s[CisaSummary]])
  }

  /**
   * The memos hold the four summaries in the order vulnerability, ransomware, events,
   * advisories, a blank line apart; each summary sits at its own offset, whatever text it holds.
   */
  lemma MemosLayout(s: State)
    requires forall f :: f in Summaries ==> f in s
    ensures var m, a, b, c, d := Memos(s), s[VulnerabilitySummary], s[RansomwareSummary], s[CyberSecurityEventsSummary], s[CisaSummary];
      && m == a + "\n\n" + b + "\n\n" + c + "\n\n" + d
      && |m| == |a| + |b| + |c| + |d| + 6
      && m[..|a|] == a
      && m[|a| + 2..|a| + 2 + |b|] == b
      && m[|a| + |b| + 4..|a| + |b| + 4 + |c|] == c
      && m[|a| + |b| + |c| + 6..] == d
      && m[|a|..|a| + 2] == m[|a| + |b| + 2..|a| + |b| + 4] == m[|a| + |b| + |c| + 4..|a| + |b| + |c| + 6] == "\n\n"
  {
    var m, a, b, c, d := Memos(s), s[VulnerabilitySummary], s[RansomwareSummary], s[CyberSecurityEventsSummary], s[CisaSummary];
    var sep := "\n\n";
    assert |sep| == 2 && m == Join(sep, [a, b, c, d]);
    JoinFour(sep, a, b, c, d);
    JoinFourOffsets(sep, a, b, c, d);
    assert m[|a|..|a| + 2] == sep && m[|a| + |b| + 2..|a| + |b| + 4] == sep;
  }

  /** When no summary holds a newline, the memos split back into the four summaries in order. */
  lemma MemosSplit(s: State)
    requires forall f :: f in Summaries ==> f in s && '\n' !in s[f]
    ensures Split(Memos(s), "\n\n") == [s[VulnerabilitySummary], s[RansomwareSummary], s[CyberSecurityEventsSummary], s[CisaSummary]]
  {
    var parts := [s[VulnerabilitySummary], s[RansomwareSummary], s[CyberSecurityEventsSummary], s[CisaSummary]];
    assert forall k :: 0 <= k < |parts| ==> parts[k] == s[Summaries[k]];
    SplitJoin(parts, "\n\n");
  }

  /** write_report: the body of the report, from the topic, the month and the memos. */
  function WriteReportNode(s: State, llm: ReportLlm): (u: State)
    requires Month in s && forall f :: f in Summaries ==> f in s
    ensures u.Keys == {Content}
  {
    map[Content := llm(Topic, s[Month], Memos(s))]
  }

  /** write_executive_summary: the introduction, from the topic and the memos. */
  function WriteExecutiveSummaryNode(s: State, llm: ClosingLlm): (u: State)
    requires forall f :: f in Summaries ==> f in s
    ensures u.Keys == {ExecutiveSummary}
  {
    map[ExecutiveSummary := llm(Topic, Memos(s), IntroductionRequest)]
  }

  /** write_conclusion: the conclusion, from the topic and the memos. */
  function WriteConclusionNode(s: State, llm: ClosingLlm): (u: State)
    requires forall f :: f in Summaries ==> f in s
    ensures u.Keys == {Conclusion}
  {
    map[Conclusion := llm(Topic, Memos(s), ConclusionRequest)]
  }

  /** write_report reads the month and the four summaries, and nothing else (not the year). */
  lemma WriteReportReads(s: State, s': State, llm: ReportLlm)
    requires Month in s && Month in s' && s[Month] == s'[Month]
    requires forall f :: f in Summaries ==> f in s && f in s' && s[f] == s'[f]
    ensures WriteReportNode(s, llm) == WriteReportNode(s', llm)
  {
  }

  /**
   * The closing writers read the four summaries and nothing else: though they run
   * after write_report, they never see the report body, nor the month.
   */
  lemma ClosingWritersRead(s: State, s': State, llm: ClosingLlm)
    requires forall f :: f in Summaries ==> f in s && f in s' && s[f] == s'[f]
    ensures WriteExecutiveSummaryNode(s, llm) == WriteExecutiveSummaryNode(s', llm)
    ensures WriteConclusionNode(s, llm) == WriteConclusionNode(s', llm)
  {
  }

  // ---------------------------------------------------------------- the finalizer

  const InsightsMarker := "## Insights"
  const SourcesMarker := "## Sources"
  const SourcesDelimiter := "\n## Sources\n"
  const SectionBreak := "\n\n---\n\n"
  const SourcesHeading := "\n\n## Sources\n"

  /** The characters `strip("## Insights")` removes: those of the marker, as a set. */
  const TitleChars: set<char> := {'#', ' ', 'I', 'n', 's', 'i', 'g', 'h', 't'}

  /** The strip set is exactly the set of the marker's characters. */
  lemma TitleCharsOfMarker()
    ensures forall c :: c in TitleChars <==> c in InsightsMarker
  {
    assert InsightsMarker == ['#', '#', ' ', 'I', 'n', 's', 'i', 'g', 'h', 't', 's'];
  }

  /** The title step as written: a character-set strip at both ends, only when the body starts with the marker. */
  function StripTitle(content: string): string
  {
    if StartsWith(content, InsightsMarker) then Strip(content, TitleChars) else content
  }

  /** The title step as intended: the marker is cut off the front, and nothing else changes. */
  function RemoveTitle(content: string): string
  {
    if StartsWith(content, InsightsMarker) then content[|InsightsMarker|..] else content
  }

  /**
   * The body and the sources: when the body mentions the Sources heading and splits
   * on the delimiter into exactly two pieces, those pieces; otherwise (the failed
   * unpacking is swallowed) the body unchanged and no sources.
   */
  function SplitSources(body: string): (string, Option<string>)
  {
    if Contains(body, SourcesMarker) then
      var parts := Split(body, SourcesDelimiter);
      if |parts| == 2 then (parts[0], Some(parts[1])) else (body, None)
    else (body, None)
  }

  /** The final report from the title-stripped body: summary, body and conclusion, then the sources if any. */
  function Assemble(summary: string, body: string, conclusion: string): string
  {
    var (middle, sources) := SplitSources(body);
    var report := summary + SectionBreak + middle + SectionBreak + conclusion;
    if sources.Some? then report + SourcesHeading + sources.value else report
  }

  /** `finalize_report` as written. */
  function FinalizeReportAsWritten(summary: string, content: string, conclusion: string): string
  {
    Assemble(summary, StripTitle(content), conclusion)
  }

  /**
   * `finalize_report` with the title step corrected: the corrected half of the finding
   * about the title step. The graph below uses `FinalizeReportAsWritten`.
   */
  function FinalizeReportFixed(summary: string, content: string, conclusion: string): string
  {
    Assemble(summary, RemoveTitle(content), conclusion)
  }

  /** Both title steps leave a body that does not start with the marker untouched. */
  lemma TitleStepsNeedMarker(content: string)
    requires !StartsWith(content, InsightsMarker)
    ensures StripTitle(content) == content && RemoveTitle(content) == content
  {
  }

  /**
   * The title step as written is a character-set strip: it keeps a slice of the body,
   * everything it drops at either end is one of the marker's characters, and what it
   * keeps neither starts nor ends with one.
   */
  lemma StripTitleIsCharSetStrip(content: string)
    requires StartsWith(content, InsightsMarker)
    ensures var r, i := StripTitle(content), StripStart(content, TitleChars);
      && i + |r| <= |content| && r == content[i..i + |r|]
      && (forall k :: 0 <= k < i ==> content[k] in TitleChars)
      && (forall k :: i + |r| <= k < |content| ==> content[k] in TitleChars)
      && (r == [] || (r[0] !in TitleChars && r[|r| - 1] !in TitleChars))
  {
    StripSlice(content, TitleChars);
  }

  /** The corrected title step removes exactly the marker. */
  lemma RemoveTitleExact(body: string)
    ensures RemoveTitle(InsightsMarker + body) == body
  {
    assert (InsightsMarker + body)[..|InsightsMarker|] == InsightsMarker;
  }

  /**
   * As written, when the text after the marker starts with a character outside the
   * marker's (a line break, say), the marker goes, and so does every trailing
   * character of the text that happens to be one of the marker's.
   */
  lemma StripTitleOfMarked(body: string)
    requires body != [] && body[0] !in TitleChars
    ensures StripTitle(InsightsMarker + body) == RStrip(body, TitleChars)
  {
    var content := InsightsMarker + body;
    assert content[..|InsightsMarker|] == InsightsMarker;
    TitleCharsOfMarker();
    assert forall k :: 0 <= k < |InsightsMarker| ==> content[k] == InsightsMarker[k];
    assert content[|InsightsMarker|..] == body;
    LStripStopsAt(content, TitleChars, |InsightsMarker|);
  }

  /**
   * As written, text after the marker that ends in some of the marker's characters
   * loses them: with the marker, a body and such a tail, only the body is left.
   */
  lemma StripTitleDropsTail(body: string, tail: string)
    requires body != [] && body[0] !in TitleChars && body[|body| - 1] !in TitleChars
    requires forall k :: 0 <= k < |tail| ==> tail[k] in TitleChars
    ensures StripTitle(InsightsMarker + (body + tail)) == body
  {
    StripTitleOfMarked(body + tail);
    RStripStopsAt(body + tail, TitleChars, |body|);
    assert (body + tail)[..|body|] == body;
  }

  /**
   * The discrepancy on one body: the strip as written cuts "h this" off the end of
   * the text, where the intended step keeps the text whole.
   */
  lemma StripTitleOverreaches()
    ensures StripTitle(InsightsMarker + "\nPatch this") == "\nPatc"
    ensures RemoveTitle(InsightsMarker + "\nPatch this") == "\nPatch this"
  {
    var body, tail := "\nPatc", "h this";
    assert body + tail == "\nPatch this";
    StripTitleDropsTail(body, tail);
    RemoveTitleExact(body + tail);
  }

  /** The delimiter holds the Sources heading, so a body with the delimiter mentions the heading. */
  lemma DelimiterMentionsHeading(body: string, i: nat)
    requires OccursAt(body, SourcesDelimiter, i)
    ensures Contains(body, SourcesMarker)
  {
    forall k | 0 <= k < |SourcesMarker|
      ensures body[i + 1 + k] == SourcesMarker[k]
    {
      assert body[i + 1 + k] == body[i..i + |SourcesDelimiter|][1 + k];
    }
    assert body[i + 1..i + 1 + |SourcesMarker|] == SourcesMarker;
    IndexOfFirst(body, SourcesMarker);
    assert OccursAt(body, SourcesMarker, i + 1);
  }

  /**
   * What the split keeps: with no sources the body is untouched; with sources, the
   * middle, the delimiter and the sources put back together give the body, and the
   * middle holds no delimiter.
   */
  lemma SplitSourcesRoundTrip(body: string)
    ensures var (middle, sources) := SplitSources(body);
      && (sources.None? ==> middle == body)
      && (sources.Some? ==> middle + SourcesDelimiter + sources.value == body && Occurrences(middle, SourcesDelimiter) == {})
      && (sources.Some? <==> Contains(body, SourcesMarker) && |Split(body, SourcesDelimiter)| == 2)
  {
    var parts := Split(body, SourcesDelimiter);
    if Contains(body, SourcesMarker) && |parts| == 2 {
      JoinSplit(body, SourcesDelimiter);
      assert Join(SourcesDelimiter, parts) == parts[0] + SourcesDelimiter + parts[1] by {
        assert parts[1..] == [parts[1]];
      }
      SplitPiecesFree(body, SourcesDelimiter);
    }
  }

  /** Without the Sources heading the report is the three parts joined by section breaks. */
  lemma AssemblePlain(summary: string, body: string, conclusion: string)
    requires !Contains(body, SourcesMarker)
    ensures Assemble(summary, body, conclusion) == summary + SectionBreak + body + SectionBreak + conclusion
  {
  }

  /** A body that neither starts with the marker nor mentions the Sources heading passes through unchanged. */
  lemma FinalizePlain(summary: string, content: string, conclusion: string)
    requires !StartsWith(content, InsightsMarker) && !Contains(content, SourcesMarker)
    ensures FinalizeReportAsWritten(summary, content, conclusion) == summary + SectionBreak + content + SectionBreak + conclusion
    ensures FinalizeReportFixed(summary, content, conclusion) == summary + SectionBreak + content + SectionBreak + conclusion
  {
    TitleStepsNeedMarker(content);
    AssemblePlain(summary, content, conclusion);
  }

  /**
   * A delimiter that occurs exactly once cuts the body in two: the report's middle is
   * the text before it, and the report ends with the Sources heading and the text after it.
   */
  lemma AssembleSingleDelimiter(summary: string, body: string, conclusion: string)
    requires |Occurrences(body, SourcesDelimiter)| == 1
    ensures var parts := Split(body, SourcesDelimiter);
      && |parts| == 2 && parts[0] + SourcesDelimiter + parts[1] == body
      && Assemble(summary, body, conclusion) == summary + SectionBreak + parts[0] + SectionBreak + conclusion + SourcesHeading + parts[1]
  {
    SplitAtSingleOccurrence(body, SourcesDelimiter);
    var i :| i in Occurrences(body, SourcesDelimiter);
    DelimiterMentionsHeading(body, i);
  }

  /** A body without the delimiter is kept whole and gets no Sources section. */
  lemma AssembleWithoutDelimiter(summary: string, body: string, conclusion: string)
    requires Occurrences(body, SourcesDelimiter) == {}
    ensures Assemble(summary, body, conclusion) == summary + SectionBreak + body + SectionBreak + conclusion
  {
    SplitSingleIffAbsent(body, SourcesDelimiter);
  }

  /** Two delimiters that do not overlap make the unpacking fail: the body is kept whole, with no Sources section. */
  lemma AssembleTwoDelimiters(summary: string, body: string, conclusion: string, i: nat, j: nat)
    requires OccursAt(body, SourcesDelimiter, i) && OccursAt(body, SourcesDelimiter, j) && i + |SourcesDelimiter| <= j
    ensures Assemble(summary, body, conclusion) == summary + SectionBreak + body + SectionBreak + conclusion
  {
    SplitApart(body, SourcesDelimiter, i, j);
  }

  /**
   * Two delimiters that share their line break count as one for the split: the body
   * below holds the delimiter twice, yet the report gets a Sources section.
   */
  lemma OverlappingDelimiters(summary: string, conclusion: string)
    ensures var body := "\n## Sources\n## Sources\n";
      && OccursAt(body, SourcesDelimiter, 0) && OccursAt(body, SourcesDelimiter, 11)
      && Assemble(summary, body, conclusion) == summary + SectionBreak + "" + SectionBreak + conclusion + SourcesHeading + "## Sources\n"
  {
    var rest := "## Sources\n";
    var body := SourcesDelimiter + rest;
    assert body == "\n## Sources\n## Sources\n";
    assert OccursAt(body, SourcesDelimiter, 0) by {
      assert body[..12] == SourcesDelimiter;
    }
    assert OccursAt(body, SourcesDelimiter, 11) by {
      assert body[11..23] == SourcesDelimiter;
    }
    DelimiterMentionsHeading(body, 0);
    SplitLeadingSeparator(SourcesDelimiter, rest);
  }

  /**
   * The report always starts with the summary and a section break, and after the
   * conclusion there is nothing but, when the split succeeded, the Sources section.
   */
  lemma AssembleShape(summary: string, body: string, conclusion: string)
    ensures var r, middle, sources := Assemble(summary, body, conclusion), SplitSources(body).0, SplitSources(body).1;
      var head := summary + SectionBreak + middle + SectionBreak + conclusion;
      && StartsWith(r, summary + SectionBreak)
      && StartsWith(r, head)
      && (sources.None? <==> r == head)
      && (sources.Some? ==> r[|head|..] == SourcesHeading + sources.value)
  {
    var r, middle, sources := Assemble(summary, body, conclusion), SplitSources(body).0, SplitSources(body).1;
    var head := summary + SectionBreak + middle + SectionBreak + conclusion;
    assert head[..|summary + SectionBreak|] == summary + SectionBreak;
    if sources.Some? {
      assert r == head + (SourcesHeading + sources.value);
      assert r[..|head|] == head;
    }
  }

  /** finalize_report's update: the final report alone, assembled with the title step as written. */
  function FinalizeNode(s: State): (u: State)
    requires ExecutiveSummary in s && Content in s && Conclusion in s
    ensures u.Keys == {FinalReport}
  {
    map[FinalReport := FinalizeReportAsWritten(s[ExecutiveSummary], s[Content], s[Conclusion])]
  }

  // ---------------------------------------------------------------- wiring

  /** The `add_edge` calls of `_add_edges` that gather the summaries: START to each agent, then the join at write_report. */
  function GatherWiring(): seq<EdgeDecl<NodeName>>
  {
    [ Edge(Start, Node(VulnerabilityAgent)),
      Edge(Start, Node(RansomwareAgent)),
      Edge(Start, Node(CyberSecurityEventAgent)),
      Edge(Start, Node(CisaAgent)),
      EdgeDecl([Node(VulnerabilityAgent), Node(RansomwareAgent), Node(CyberSecurityEventAgent), Node(CisaAgent)], Node(WriteReport)) ]
  }

  /** The calls after them: the closing sections after the body, the join at finalize_report, then END. */
  function WritingWiring(): seq<EdgeDecl<NodeName>>
  {
    [ Edge(Node(WriteReport), Node(WriteExecutiveSummary)),
      Edge(Node(WriteReport), Node(WriteConclusion)),
      EdgeDecl([Node(WriteConclusion), Node(WriteReport), Node(WriteExecutiveSummary)], Node(FinalizeReport)),
      Edge(Node(FinalizeReport), End) ]
  }

  /** All `add_edge` calls, in order. */
  function Wiring(): seq<EdgeDecl<NodeName>>
  {
    GatherWiring() + WritingWiring()
  }

  /** The topic agents as vertices of the graph. */
  const AgentVertices: set<Vertex<NodeName>> :=
    {Node(VulnerabilityAgent), Node(RansomwareAgent), Node(CyberSecurityEventAgent), Node(CisaAgent)}

  /** The dependency relation the gathering calls declare. */
  const GatherPairs: set<(Vertex<NodeName>, Vertex<NodeName>)> :=
    { (Start, Node(VulnerabilityAgent)), (Start, Node(RansomwareAgent)),
      (Start, Node(CyberSecurityEventAgent)), (Start, Node(CisaAgent)),
      (Node(VulnerabilityAgent), Node(WriteReport)), (Node(RansomwareAgent), Node(WriteReport)),
      (Node(CyberSecurityEventAgent), Node(WriteReport)), (Node(CisaAgent), Node(WriteReport)) }

  /** The dependency relation the writing calls declare. */
  const WritingPairs: set<(Vertex<NodeName>, Vertex<NodeName>)> :=
    { (Node(WriteReport), Node(WriteExecutiveSummary)), (Node(WriteReport), Node(WriteConclusion)),
      (Node(WriteConclusion), Node(FinalizeReport)), (Node(WriteReport), Node(FinalizeReport)),
      (Node(WriteExecutiveSummary), Node(FinalizeReport)),
      (Node(FinalizeReport), End) }

  /** The dependency relation of the whole graph. */
  const WiringPairs: set<(Vertex<NodeName>, Vertex<NodeName>)> := GatherPairs + WritingPairs

  /** The gathering calls declare exactly their pairs. */
  lemma GatherEdges()
    ensures Edges(GatherWiring()) == GatherPairs
  {
  }

  /** The writing calls declare exactly their pairs. */
  lemma WritingEdges()
    ensures Edges(WritingWiring()) == WritingPairs
  {
  }

  /** The calls declare exactly the graph's pairs. */
  lemma WiringEdges()
    ensures Edges(Wiring()) == WiringPairs
  {
    EdgesAppend(GatherWiring(), WritingWiring());
    GatherEdges();
    WritingEdges();
  }

  /** START fans out to the four agents, and write_report waits for all four and for nothing else. */
  lemma WiringFanOut()
    ensures Succs(WiringPairs, Start) == AgentVertices
    ensures Preds(WiringPairs, Node(WriteReport)) == AgentVertices
  {
  }

  /** Each agent follows START alone and leads to write_report alone. */
  lemma AgentNeighbours()
    ensures forall a :: a in AgentVertices ==> Preds(WiringPairs, a) == {Start} && Succs(WiringPairs, a) == {Node(WriteReport)}
  {
  }

  /**
   * The executive summary and the conclusion each follow write_report alone;
   * finalize_report waits for the conclusion, the body and the executive summary;
   * END follows finalize_report alone.
   */
  lemma WiringClosing()
    ensures Preds(WiringPairs, Node(WriteExecutiveSummary)) == {Node(WriteReport)}
    ensures Preds(WiringPairs, Node(WriteConclusion)) == {Node(WriteReport)}
    ensures Preds(WiringPairs, Node(FinalizeReport)) == {Node(WriteConclusion), Node(WriteReport), Node(WriteExecutiveSummary)}
    ensures Preds(WiringPairs, End) == {Node(FinalizeReport)}
  {
  }

  /** The stage of each vertex: START, the agents, the body, the closing sections, the finalizer, END. */
  function Stage(v: Vertex<NodeName>): nat
  {
    match v
    case Start => 0
    case Node(n) =>
      (match n
       case WriteReport => 2
       case WriteExecutiveSummary => 3
       case WriteConclusion => 3
       case FinalizeReport => 4
       case _ => 1)
    case End => 5
  }

  /** The wiring has no cycle. */
  lemma WiringAcyclic()
    ensures Acyclic(WiringPairs)
  {
    assert StagedBy(WiringPairs, Stage);
    StagedIsAcyclic(WiringPairs, Stage);
  }

  /** The fields each node writes, as a set. */
  function WriteSet(n: NodeName): set<Field>
  {
    {Writes(n)}
  }

  /** Every summary write_report reads comes from the agent just upstream. */
  lemma ReportInputsAvailable()
    ensures forall f :: f in Summaries ==> Available(WiringPairs, WriteSet, {Month, Year}, WriteReport, f)
  {
    WrittenByPred(WiringPairs, WriteSet, {Month, Year}, VulnerabilityAgent, WriteReport, VulnerabilitySummary);
    WrittenByPred(WiringPairs, WriteSet, {Month, Year}, RansomwareAgent, WriteReport, RansomwareSummary);
    WrittenByPred(WiringPairs, WriteSet, {Month, Year}, CyberSecurityEventAgent, WriteReport, CyberSecurityEventsSummary);
    WrittenByPred(WiringPairs, WriteSet, {Month, Year}, CisaAgent, WriteReport, CisaSummary);
  }

  /** Every summary a closing writer reads comes from an agent two steps upstream, through write_report. */
  lemma ClosingInputsAvailable(reader: NodeName)
    requires reader == WriteExecutiveSummary || reader == WriteConclusion
    ensures forall f :: f in Summaries ==> Available(WiringPairs, WriteSet, {Month, Year}, reader, f)
  {
    WrittenTwoUp(WiringPairs, WriteSet, {Month, Year}, VulnerabilityAgent, WriteReport, reader, VulnerabilitySummary);
    WrittenTwoUp(WiringPairs, WriteSet, {Month, Year}, RansomwareAgent, WriteReport, reader, RansomwareSummary);
    WrittenTwoUp(WiringPairs, WriteSet, {Month, Year}, CyberSecurityEventAgent, WriteReport, reader, CyberSecurityEventsSummary);
    WrittenTwoUp(WiringPairs, WriteSet, {Month, Year}, CisaAgent, WriteReport, reader, CisaSummary);
  }

  /** The three parts finalize_report reads come from its three predecessors. */
  lemma FinalizeInputsAvailable()
    ensures Available(WiringPairs, WriteSet, {Month, Year}, FinalizeReport, ExecutiveSummary)
    ensures Available(WiringPairs, WriteSet, {Month, Year}, FinalizeReport, Content)
    ensures Available(WiringPairs, WriteSet, {Month, Year}, FinalizeReport, Conclusion)
  {
    WrittenByPred(WiringPairs, WriteSet, {Month, Year}, WriteExecutiveSummary, FinalizeReport, ExecutiveSummary);
    WrittenByPred(WiringPairs, WriteSet, {Month, Year}, WriteReport, FinalizeReport, Content);
    WrittenByPred(WiringPairs, WriteSet, {Month, Year}, WriteConclusion, FinalizeReport, Conclusion);
  }

  // ---------------------------------------------------------------- the report stage

  /** The report stage once the four summaries are in: the body, then the two closing sections, then the finalizer. */
  function ReportStage(s: State, report: ReportLlm, closing: ClosingLlm): (r: State)
    requires Month in s && forall f :: f in Summaries ==> f in s
    ensures r.Keys == s.Keys + {Content, ExecutiveSummary, Conclusion, FinalReport}
  {
    var withBody := s + WriteReportNode(s, report);
    var closed := withBody + WriteExecutiveSummaryNode(withBody, closing) + WriteConclusionNode(withBody, closing);
    closed + FinalizeNode(closed)
  }

  /** The report stage leaves every field it does not write as it was: the month, the year and the summaries. */
  lemma ReportStageKeeps(s: State, report: ReportLlm, closing: ClosingLlm, f: Field)
    requires Month in s && forall f :: f in Summaries ==> f in s
    requires f in s && f != Content && f != ExecutiveSummary && f != Conclusion && f != FinalReport
    ensures ReportStage(s, report, closing)[f] == s[f]
  {
  }

  /**
   * End to end: the final report assembles the executive summary and the conclusion
   * the closing writer produced from the memos, around the body the report writer
   * produced from the month and the memos.
   */
  lemma ReportStageFinal(s: State, report: ReportLlm, closing: ClosingLlm)
    requires Month in s && forall f :: f in Summaries ==> f in s
    ensures var r, memos := ReportStage(s, report, closing), Memos(s);
      && FinalReport in r
      && r[FinalReport] == FinalizeReportAsWritten(closing(Topic, memos, IntroductionRequest), report(Topic, s[Month], memos), closing(Topic, memos, ConclusionRequest))
  {
    var memos := Memos(s);
    var withBody := s + WriteReportNode(s, report);
    assert withBody[Content] == report(Topic, s[Month], memos);
    assert withBody[VulnerabilitySummary] == s[VulnerabilitySummary] && withBody[RansomwareSummary] == s[RansomwareSummary];
    assert withBody[CyberSecurityEventsSummary] == s[CyberSecurityEventsSummary] && withBody[CisaSummary] == s[CisaSummary];
    assert Memos(withBody) == memos;
    var closed := withBody + WriteExecutiveSummaryNode(withBody, closing) + WriteConclusionNode(withBody, closing);
    assert closed[ExecutiveSummary] == closing(Topic, memos, IntroductionRequest);
    assert closed[Conclusion] == closing(Topic, memos, ConclusionRequest);
    assert closed[Content] == withBody[Content];
  }
}
