# Cybersecurity research assistant — a verified model

The cybersecurity research assistant writes a monthly threat report. One graph
run fans out to four research agents. The vulnerability, ransomware,
cyber-security-event and CISA agents each produce a topic summary. A report writer
turns the four summaries into the report body. An executive-summary writer and a
conclusion writer turn the same summaries into the framing sections. A finalizer
stitches introduction, body and conclusion together and moves the body's
"## Sources" list to the end.

All three modelled agents are subgraphs. The ransomware and event agents each run
one web search per aspect (three or four searches, all in parallel), then one
summarize node joins the findings. The CISA agent crawls the CISA advisory listing for September 2024,
fetches every advisory's page and formats the advisories for its summarize node.

The model covers:

- **Text** (`text.dfy`): Python's `str.split`, `str.join`, `startswith`, `in` and
  the character-set `strip`, with the laws the finalizer relies on.
- **TaskGraph** (`task_graph.dfy`): `add_edge` calls as data, the dependency
  relation they declare, paths, acyclicity by stages, and the availability of a
  node's inputs.
- **RunState** (`run_state.dfy`): merging node updates into the graph state.
- **Scraper** (`scraper.dfy`): the `CisaScraper` class. It has the month filter,
  the page crawl, the content pass and the ISO date round trip.
- **Tools** (`tools.dfy`): the `<Document href=...>` formatting of search results
  and advisories, and the `CisaTool` class.
- **SearchQuery** (`query.dfy`): the shape of the gathering nodes' queries.
- **RansomwareAgent**, **CyberSecurityEventAgent**, **CisaAgent**: the three
  subgraphs. Each has its wiring, nodes, joins and output.
- **ResearchAssistant** (`research_assistant.dfy`): the top-level graph, the three
  writer nodes, the finalizer and the report stage.

The LLM, the web search and the CISA web site are parameters. An LLM is a
function from its prompt's variable parts to its answer. A search service maps a
query to its results. A site is a map from URL to what the HTML parser finds on
that page.

Three consequences of the code, as written, that are easy to misread:

- The title step is a character-set strip, and it stops at the first character
  outside the set. So `"## Insights\nAlpha text\n## Sources\n[1] http://x"` keeps
  its leading newline. The split on `"\n## Sources\n"` then consumes the newline
  before the heading, and the framed body is `"\nAlpha text"`
  (`ResearchAssistant.StripTitleIsCharSetStrip`,
  `ResearchAssistant.AssembleSingleDelimiter`).
- Two *overlapping* citation delimiters still split into two parts, so the
  citations are kept (`ResearchAssistant.OverlappingDelimiters`). Two separate
  delimiters make the unpacking fail, and the content is kept whole
  (`ResearchAssistant.AssembleTwoDelimiters`).
- The subgraphs' summarize nodes join their findings with a single `"\n"`. The
  top-level writers join the summaries with `"\n\n"`.

## Model

| member | source | states |
|---|---|---|
| Text.StripSlice | cybersecurity_research_assistant.py:199 | `strip(chars)` is the slice between the first and the last character not in `chars`; the characters removed on either side all lie in `chars` |
| Text.JoinSplit | cybersecurity_research_assistant.py:202 | joining the pieces of a split with its separator gives back the original string |
| Text.SplitPiecesFree | cybersecurity_research_assistant.py:202 | no piece of a split contains the separator |
| Text.SplitSingleIffAbsent | cybersecurity_research_assistant.py:200-206 | a split gives one piece exactly when the separator does not occur |
| Text.SplitAtSingleOccurrence | cybersecurity_research_assistant.py:202 | with exactly one occurrence the split has two pieces, and they rejoin with the separator into the string |
| Text.SplitApart | cybersecurity_research_assistant.py:202-204 | two non-overlapping occurrences give at least three pieces, so the two-name unpacking raises |
| Text.SplitLeadingSeparator | cybersecurity_research_assistant.py:202 | a string that is the separator followed by something shorter than it splits into `["", rest]` |
| Text.JoinFourOffsets | cybersecurity_research_assistant.py:102-109 | a join of four parts holds each part and each separator at its offset, whatever the parts contain |
| Text.JoinThreeOffsets | agents/cyber_security_event_agent.py:77-83 | a join of three parts holds each part and each separator at its offset, whatever the parts contain |
| Text.SplitJoin | cybersecurity_research_assistant.py:102-109 | splitting a join gives the parts back when no part holds the separator's first character |
| Text.ContainsIffOccurs | cybersecurity_research_assistant.py:200 | Python's `in` holds exactly when the pattern occurs at some index |
| Text.IndexOfFirst | cybersecurity_research_assistant.py:202 | the search finds the leftmost occurrence, and none exists when it finds nothing |
| TaskGraph.EdgesMembers | cybersecurity_research_assistant.py:251-259 | an `add_edge` with a list of sources declares one dependency per source, and nothing else |
| TaskGraph.StagedIsAcyclic | cybersecurity_research_assistant.py:246-266 | edges that all go up in stage admit no cycle |
| TaskGraph.WrittenByPred | cybersecurity_research_assistant.py:251-259 | a field written by a direct predecessor is available to the node that joins on it |
| RunState.JoinOrderIndependent | cybersecurity_research_assistant.py:251-259 | merging node updates with disjoint fields gives the same state in any arrival order |
| RunState.ApplyAllWritten | agents/ransomware_agent.py:40-50 | after the merge, a field written by one update holds that update's value |
| RunState.ApplyAllUntouched | agents/ransomware_agent.py:40-50 | a field no update writes keeps its value through the merge |
| Scraper.FormatDateRoundTrip | utils/cisa_scraper.py:58 | the `%Y-%m-%d` text of a date parses back to the same date |
| Scraper.RecordOfKeepsTeaser | utils/cisa_scraper.py:49-62 | a record carries the teaser's title, the formatted date, the page number and the base URL prepended to the link |
| Scraper.PageRecordsMembers | utils/cisa_scraper.py:36-72 | a page yields a record exactly for each teaser that is dated in the target month and year and whose title and link extract |
| Scraper.SkippedTeaser | utils/cisa_scraper.py:67-72 | a teaser from another month, or one whose extraction raises, adds nothing, and the records around it are unchanged |
| Scraper.PageRecordsConcat | utils/cisa_scraper.py:36 | the records of a page are those of its teasers, in page order |
| Scraper.PageRecordsNumbered | utils/cisa_scraper.py:55-61 | every record of a page carries that page's number and no content yet |
| Scraper.CisaScraper.constructor | utils/cisa_scraper.py:11-17 | a new scraper targets the given month and year and has collected nothing |
| Scraper.CisaScraper.ScrapePage | utils/cisa_scraper.py:19-81 | appends the page's records and returns the next page's URL; a failed request appends nothing and returns none |
| Scraper.CisaScraper.ScrapeAdvisories | utils/cisa_scraper.py:83-93 | visits the listing pages along their next links, numbered from 1, and appends their records in crawl order |
| Scraper.CrawlFollowsNextLinks | utils/cisa_scraper.py:88-90 | the crawl starts at its first URL and each visited page's next link is the following page |
| Scraper.CrawlDone | utils/cisa_scraper.py:88 | a chain of next links that has ended or has used up the page budget is the whole crawl |
| Scraper.CrawlRecordsPageNumbers | utils/cisa_scraper.py:86-90 | every crawled record's page number lies between the first page number and the count of pages visited |
| Scraper.ContentFor | utils/cisa_scraper.py:106-136 | a failed request or an extraction error gives "Content not available"; otherwise the header and main text, with a fallback for each missing tag |
| Scraper.WithContent | utils/cisa_scraper.py:127 | the content pass sets `content` and changes nothing else of the record |
| Scraper.EnrichAll | utils/cisa_scraper.py:138-141 | after the pass every record keeps its title, date, page and link, and holds its page's content |
| Scraper.CisaScraper.GetAdvisoryContent | utils/cisa_scraper.py:106-136 | only the `i`-th record changes, and it gets its page's content |
| Scraper.CisaScraper.FetchAllAdvisoryContent | utils/cisa_scraper.py:138-141 | the whole list becomes its enriched form, in order |
| Tools.DocumentBlock | utils/tools.py:14 | the block is the opening tag with the address, the text, then the closing tag, each recoverable by position |
| Tools.DocumentBlockInjective | utils/tools.py:14 | for addresses without a double quote, different documents give different blocks |
| Tools.DocumentBlockAmbiguous | utils/tools.py:14 | an address that contains a quote can make two different documents render the same block |
| Tools.FormatDocumentsSnoc | utils/tools.py:12-17 | adding a document appends the separator and its block, so the blocks appear in result order |
| Tools.SearchWeb | utils/tools.py:9-18 | no results give the empty string |
| Tools.SearchWebInOrder | utils/tools.py:12-17 | one result gives its block alone, and a further result appends the separator and its block |
| Tools.FirstFormatError | utils/tools.py:28-33 | formatting raises at the first advisory whose content is missing or is the fallback string, and only then |
| Tools.FormatAdvisories | utils/tools.py:28-33 | formatting fails exactly when some advisory has no header/main record; an empty list gives the empty string |
| Tools.FormatAdvisoriesInOrder | utils/tools.py:28-33 | one advisory gives the block of its link and main text; each further advisory appends the separator and its block, so the blocks follow list order |
| Tools.FormatAfterContentPass | utils/tools.py:26-33 | after the content pass, formatting succeeds exactly when every advisory's page was fetched and parsed |
| Tools.CisaTool.constructor | utils/tools.py:22-23 | a tool's scraper targets September 2024 and is empty |
| Tools.CisaTool.FetchCisaInfo | utils/tools.py:25-34 | the scraper's list gains the crawl's records and every record gets its page's content; the result is their formatting |
| SearchQuery.Fill | agents/ransomware_agent.py:55-57 | the query is the fixed lead, the month, a space, the year, and the fixed tail, each at its position |
| SearchQuery.FillDeterminesPeriod | agents/ransomware_agent.py:69 | for months without spaces, equal queries from one template mean equal months and years |
| RansomwareAgent.Gather | agents/ransomware_agent.py:54-76 | each gathering node writes exactly its own field |
| RansomwareAgent.GatherReadsPeriod | agents/ransomware_agent.py:54-76 | a gathering node reads only the month and the year |
| RansomwareAgent.SummaryContextLayout | agents/ransomware_agent.py:79-86 | the context is the four findings in node order, one newline apart, each at its offset whatever it contains |
| RansomwareAgent.SummaryContextSplits | agents/ransomware_agent.py:79-86 | the summarize context holds the four findings in order, recoverable by splitting on newlines when none contains one |
| RansomwareAgent.SummarizeNode | agents/ransomware_agent.py:78-88 | summarize writes the ransomware summary alone |
| RansomwareAgent.SummarizeReadsGathered | agents/ransomware_agent.py:78-88 | summarize reads only the four gathered findings |
| RansomwareAgent.ThroughEdges | agents/ransomware_agent.py:40-41 | each START-to-gatherer-to-summarize pair of calls declares exactly its two edges |
| RansomwareAgent.WiringEdges | agents/ransomware_agent.py:40-52 | the `add_edge` calls declare exactly the fan-out, the join and the edge to END |
| RansomwareAgent.WiringShape | agents/ransomware_agent.py:40-52 | START leads to the four gatherers, summarize waits for exactly those four, and only summarize reaches END |
| RansomwareAgent.GathererNeighbours | agents/ransomware_agent.py:40-50 | each gatherer follows START alone and leads to summarize alone |
| RansomwareAgent.WiringAcyclic | agents/ransomware_agent.py:40-52 | the subgraph has no cycle |
| RansomwareAgent.SummarizeInputsAvailable | agents/ransomware_agent.py:40-52 | every finding summarize reads is written by one of its predecessors |
| RansomwareAgent.GatherUpdates | agents/ransomware_agent.py:54-76 | the four updates write four distinct fields, one each |
| RansomwareAgent.GatherOrderIrrelevant | agents/ransomware_agent.py:40-50 | the join's state does not depend on the order in which the gatherers finish |
| RansomwareAgent.GatheredPresent | agents/ransomware_agent.py:54-76 | after the join each finding field holds the formatted search results of its query |
| RansomwareAgent.Output | agents/ransomware_agent.py:21-22 | the output schema keeps the ransomware summary and nothing else |
| RansomwareAgent.RunOutput | agents/ransomware_agent.py:27 | a run returns exactly the summary written from the four findings, joined by newlines in node order |
| RansomwareAgent.SubgraphOutput | agents/ransomware_agent.py:54-88 | the compiled subgraph, with the source's four queries, returns exactly the summary of what they found |
| CyberSecurityEventAgent.Gather | agents/cyber_security_event_agent.py:53-72 | each gathering node writes exactly its own field |
| CyberSecurityEventAgent.GatherReadsPeriod | agents/cyber_security_event_agent.py:53-72 | a gathering node reads only the month and the year |
| CyberSecurityEventAgent.SummaryContextLayout | agents/cyber_security_event_agent.py:77-83 | the context is the three findings in node order, one newline apart, each at its offset whatever it contains |
| CyberSecurityEventAgent.SummaryContextSplits | agents/cyber_security_event_agent.py:77-83 | the context holds the three findings in order, recoverable by splitting on newlines when none contains one |
| CyberSecurityEventAgent.SummarizeNode | agents/cyber_security_event_agent.py:74-85 | summarize writes the events summary alone |
| CyberSecurityEventAgent.SummarizeReadsGathered | agents/cyber_security_event_agent.py:74-85 | summarize reads only the three gathered findings |
| CyberSecurityEventAgent.WiringEdges | agents/cyber_security_event_agent.py:42-51 | the `add_edge` calls declare exactly the fan-out, the join and the edge to END |
| CyberSecurityEventAgent.WiringShape | agents/cyber_security_event_agent.py:42-51 | START leads to the three gatherers, each leads only to summarize, and summarize waits for exactly those three |
| CyberSecurityEventAgent.WiringAcyclic | agents/cyber_security_event_agent.py:42-51 | the subgraph has no cycle |
| CyberSecurityEventAgent.SummarizeInputsAvailable | agents/cyber_security_event_agent.py:42-51 | every finding summarize reads is written by one of its predecessors |
| CyberSecurityEventAgent.GatherUpdates | agents/cyber_security_event_agent.py:53-72 | the three updates write three distinct fields, one each |
| CyberSecurityEventAgent.GatherOrderIrrelevant | agents/cyber_security_event_agent.py:42-50 | the join's state does not depend on the order in which the gatherers finish |
| CyberSecurityEventAgent.GatheredPresent | agents/cyber_security_event_agent.py:53-72 | after the join each finding field holds the formatted search results of its query |
| CyberSecurityEventAgent.Output | agents/cyber_security_event_agent.py:20-21 | the output schema keeps the events summary and nothing else |
| CyberSecurityEventAgent.RunOutput | agents/cyber_security_event_agent.py:26-28 | a run returns exactly the summary written from the three findings, joined by newlines in node order |
| CyberSecurityEventAgent.SubgraphOutput | agents/cyber_security_event_agent.py:53-85 | the compiled subgraph, with the source's three queries, returns exactly the summary of what they found |
| CisaAgent.SummarizeNode | agents/cisa_agent.py:34-37 | summarize writes the CISA summary alone |
| CisaAgent.SummarizeReadsDocs | agents/cisa_agent.py:34-36 | summarize reads only the formatted advisories |
| CisaAgent.Agent.constructor | agents/cisa_agent.py:16-20 | the agent owns a fresh tool whose scraper targets September 2024 and is empty |
| CisaAgent.Agent.FetchNode | agents/cisa_agent.py:30-32 | the node's update is the formatted advisories alone, or the formatting error it raises |
| CisaAgent.Agent.Invoke | agents/cisa_agent.py:22-37 | a run fails exactly when formatting fails; otherwise the whole state gains the formatted advisories and their summary |
| CisaAgent.WiringEdges | agents/cisa_agent.py:26-28 | the calls declare exactly the chain START, fetch, summarize, END |
| CisaAgent.WiringShape | agents/cisa_agent.py:26-28 | every vertex has exactly its neighbours along that chain |
| CisaAgent.WiringAcyclic | agents/cisa_agent.py:26-28 | the subgraph has no cycle |
| CisaAgent.SummarizeInputAvailable | agents/cisa_agent.py:26-35 | the formatted advisories summarize reads are written by its predecessor |
| ResearchAssistant.MemosLayout | cybersecurity_research_assistant.py:102-109 | the memos are the four summaries in the order vulnerability, ransomware, events, advisories, a blank line apart, each at its offset whatever it contains |
| ResearchAssistant.MemosSplit | cybersecurity_research_assistant.py:102-109 | the memos hold the four summaries in the order vulnerability, ransomware, events, advisories, recoverable by splitting on blank lines |
| ResearchAssistant.WriteReportNode | cybersecurity_research_assistant.py:94-117 | the body writer writes `content` alone |
| ResearchAssistant.WriteExecutiveSummaryNode | cybersecurity_research_assistant.py:145-167 | the introduction writer writes `executive_summary` alone |
| ResearchAssistant.WriteConclusionNode | cybersecurity_research_assistant.py:169-191 | the conclusion writer writes `conclusion` alone |
| ResearchAssistant.WriteReportReads | cybersecurity_research_assistant.py:94-112 | the body depends only on the month and the four summaries |
| ResearchAssistant.ClosingWritersRead | cybersecurity_research_assistant.py:145-191 | the introduction and the conclusion depend only on the four summaries, not on the body |
| ResearchAssistant.TitleCharsOfMarker | cybersecurity_research_assistant.py:199 | the characters the title step strips are exactly those of "## Insights" |
| ResearchAssistant.TitleStepsNeedMarker | cybersecurity_research_assistant.py:198 | content that does not start with the marker passes the title step unchanged |
| ResearchAssistant.StripTitleIsCharSetStrip | cybersecurity_research_assistant.py:198-199 | the title step as written removes every leading and trailing character that occurs in the marker, not the marker itself |
| ResearchAssistant.StripTitleOfMarked | cybersecurity_research_assistant.py:198-199 | after the marker, a body that starts with a character outside the marker keeps its start but loses its marker-character tail |
| ResearchAssistant.StripTitleDropsTail | cybersecurity_research_assistant.py:198-199 | a trailing run of marker characters after the body is cut off |
| ResearchAssistant.StripTitleOverreaches | cybersecurity_research_assistant.py:198-199 | the step as written turns "## Insights\nPatch this" into "\nPatc"; prefix removal keeps "\nPatch this" |
| ResearchAssistant.RemoveTitleExact | cybersecurity_research_assistant.py:198-199 | the corrected step removes exactly the leading marker and keeps the rest |
| ResearchAssistant.DelimiterMentionsHeading | cybersecurity_research_assistant.py:200-202 | an occurrence of the citations delimiter contains the heading, so the `in` guard lets every such body reach the split |
| ResearchAssistant.SplitSourcesRoundTrip | cybersecurity_research_assistant.py:200-206 | when citations are found, body, delimiter and citations join back to the original content; otherwise the content is kept unchanged |
| ResearchAssistant.AssemblePlain | cybersecurity_research_assistant.py:205-214 | without the heading, the report is introduction, rule, body, rule, conclusion |
| ResearchAssistant.FinalizePlain | cybersecurity_research_assistant.py:195-217 | content with neither marker nor heading is framed verbatim, by both title steps |
| ResearchAssistant.AssembleSingleDelimiter | cybersecurity_research_assistant.py:200-216 | with exactly one delimiter the report ends with the heading and the text after it, and the framed body is the text before it |
| ResearchAssistant.AssembleWithoutDelimiter | cybersecurity_research_assistant.py:200-214 | when the delimiter does not occur, even if the bare heading does, the content is kept whole and no citations are added |
| ResearchAssistant.AssembleTwoDelimiters | cybersecurity_research_assistant.py:202-204 | two separate delimiters make the unpacking fail; the content is kept whole and no citations are added |
| ResearchAssistant.OverlappingDelimiters | cybersecurity_research_assistant.py:200-216 | two overlapping delimiters still split in two, so the citations are kept |
| ResearchAssistant.AssembleShape | cybersecurity_research_assistant.py:208-216 | the report always starts with the introduction and a rule, and ends with the conclusion or with the citations block |
| ResearchAssistant.FinalizeNode | cybersecurity_research_assistant.py:195-217 | the finalizer writes `final_report` alone, with the title step as written |
| ResearchAssistant.GatherEdges | cybersecurity_research_assistant.py:247-259 | the first calls declare the fan-out to the four agents and their join into the body writer |
| ResearchAssistant.WritingEdges | cybersecurity_research_assistant.py:260-266 | the later calls declare the edges to the framing writers, the join into the finalizer and the edge to END |
| ResearchAssistant.WiringEdges | cybersecurity_research_assistant.py:246-266 | the `add_edge` calls declare exactly those fourteen dependencies |
| ResearchAssistant.WiringFanOut | cybersecurity_research_assistant.py:247-259 | START leads to the four agents, and the body writer waits for exactly those four |
| ResearchAssistant.AgentNeighbours | cybersecurity_research_assistant.py:247-259 | each agent follows START alone and leads only to the body writer |
| ResearchAssistant.WiringClosing | cybersecurity_research_assistant.py:260-266 | the framing writers wait only for the body writer, the finalizer waits for the body and both framing writers, and only the finalizer reaches END |
| ResearchAssistant.WiringAcyclic | cybersecurity_research_assistant.py:246-266 | the research graph has no cycle |
| ResearchAssistant.ReportInputsAvailable | cybersecurity_research_assistant.py:251-259 | every summary the body writer reads is written by one of its predecessors |
| ResearchAssistant.ClosingInputsAvailable | cybersecurity_research_assistant.py:260-261 | every summary the framing writers read is written upstream of them |
| ResearchAssistant.FinalizeInputsAvailable | cybersecurity_research_assistant.py:262-265 | the introduction, body and conclusion the finalizer reads are all written by its predecessors |
| ResearchAssistant.ReportStage | cybersecurity_research_assistant.py:260-266 | after the writing stage the state holds its inputs plus `content`, `executive_summary`, `conclusion` and `final_report` |
| ResearchAssistant.ReportStageKeeps | cybersecurity_research_assistant.py:18-28 | the writing stage leaves every other field as it was |
| ResearchAssistant.ReportStageFinal | cybersecurity_research_assistant.py:94-217 | the final report is `finalize_report` as written (character-set title strip included) applied to the introduction, body and conclusion the writers produce from the same memos |

## Left out

- The LLM, the Tavily web search and the CISA web site are parameters. Prompt
  wording, the model name and the temperature are not modelled.
- `WebTool` asks the search for at most three results. The model takes whatever
  result list the search service returns.
- HTML parsing is abstracted to what the parser finds on a page: the teasers' dates,
  titles and links, the next link, and an advisory page's header and main block.
- A teaser date that `datetime.fromisoformat` rejects raises `ValueError`. The
  scraper does not catch it. The model's dates are always valid, so that crash is
  not modelled.
- Scraper.CisaScraper.ScrapePage: a teaser's `<time>` tag without `datetime`, its
  `<a>` tag without `href`, or a pager "next" link without `href` raises `KeyError`.
  The scraper catches only `AttributeError` and `TypeError`, so the crawl aborts, and
  `fetch_cisa_info` with it. The model has no such tag: a teaser's `None` is a missing
  tag, which the source catches and skips, and a missing next link ends the crawl.
  The model does not capture that crash.
- Scraper.FormatDate: the year is padded to four digits. The C library may print
  years before 1000 unpadded.
- `time.sleep` rate limiting, logging and the request timeout are left out.
- Scraper.CisaScraper.ScrapeAdvisories: the crawl takes a page budget (`maxPages`).
  The source loops until a page has no next link, and a site whose next links form
  a cycle would never stop. The model does not capture that non-termination.
- `load_or_scrape_advisories` is modelled as always scraping. Its cache check reads
  `../data/advisories.json` but then opens `advisories.json`. The JSON cache is file
  I/O.
- Scraper.CisaScraper.GetAdvisoryContent: takes the index of a record in the list,
  not the record itself. The aliasing of Python dicts is not modelled.
- Tools.CisaTool.FetchCisaInfo: a second call on the same tool appends the crawl's
  records again. The model states this but proves nothing further about repeated calls.
- The langgraph runtime is not modelled: scheduling, threads, checkpointing,
  compilation and node registration (`add_node`). The model keeps only the static
  edges, the update merge, each subgraph's run composed from its node functions and
  the research graph's writing stage (`ResearchAssistant.ReportStage`). The research
  graph's agent stage, where the four subgraph outputs are merged into the research
  state, is not composed: the writers take the four summaries as given.
- The vulnerability agent is not part of this model. The research graph treats it as
  a node that writes the vulnerability summary.
- The module-level agent instances, `main.py` and `utils/utils.py` are not modelled.
  `write_section` is the section-writer parameter.
- The gathering nodes' queries are templates: a fixed lead and tail around the month
  and year. The subgraphs use the source's query text; the other lemmas hold for any
  templates.
- Text.SplitJoin: the recovery by splitting needs parts free of the separator's first
  character. So ResearchAssistant.MemosSplit and the SummaryContextSplits lemmas
  assume texts with no newline. The Layout lemmas locate each part for any text.

## Findings

| source | as written | input that shows it | evidently intended | confidence | as-written member | corrected member |
|---|---|---|---|---|---|---|
| cybersecurity_research_assistant.py:198-199 | `content.strip("## Insights")` strips any leading and trailing characters from the set `#`, space, `I`, `n`, `s`, `i`, `g`, `h`, `t` | content "## Insights\nPatch this" becomes "\nPatc", losing the body's last word's letters | remove the leading "## Insights" marker once and keep the rest of the body intact | not executed | ResearchAssistant.StripTitleOverreaches | ResearchAssistant.RemoveTitleExact |
