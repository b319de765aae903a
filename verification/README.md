# Farming-grants RAG chatbot backend: a Dafny model

This project models the core of the DEFRA RAG chatbot backend. It covers two halves.

**The conversation graph** (`app/core/agents/agentic_graph.py`) is the agentic RAG graph:
- an `agent` node asks a tool-bound chat model and runs its `gov_knowledge_base` tool calls;
- a conditional edge either goes straight to `generate` (once `should_generate` is set), or applies the keyword-and-question override before LangGraph's `tools_condition`;
- a `retrieve` node stores documents and appends a notice;
- a relevance grading chain sends the run to `generate` or to `rewrite`;
- `rewrite` loops back to the agent;
- `generate` answers and appends a sorted "Sources:" block;
- a checkpointer keeps each user's last state between turns.

**The ingestion scripts** (`app/core/rag/*.py`):
- fetch GOV.UK content for every search result with a valid link;
- render each fetched grant as a Markdown document with metadata;
- tally the outcomes, and in one script write one file per grant;
- turn the processed records into documents;
- add the document chunks to the vector store in batches, retrying rate-limited batches with a doubling delay.

## How the model is built

- **External calls are function-valued parameters.** This covers the chat model, `tools_condition`, the retriever, the grading chain, the rewriting model, the answer chain, the HTML converter, HTTP fetches, file writes and the vector store's `add_documents`. Properties therefore hold for every behaviour of those services.
- **Values and state.**
  - Graph state is a value (`Conversation.AgentState`). Each node returns a partial `Update`, and `Conversation.Apply` merges it as LangGraph's `add_messages` reducer and key overwrite do.
  - The checkpointer, whose map the source updates in place, is a class (`Graph.Checkpointer`).
- **Methods and specification functions.** Loops that build lists or counters are methods, each proved equal to a specification function:
  - the agent's tool loop;
  - the change-history loop;
  - `fetch_content_for_items`;
  - the three summary loops;
  - `create_langchain_documents`;
  - the batch and retry loops of `ingest_to_vectorstore`.

  Lemmas then state what the source promises about those functions.
- **Exceptions are results, not preconditions.**
  - A node that raises, such as indexing an empty history, is `None`, and the run ends as `Raised`.
  - A failing fetch is one of three error outcomes. As written, some of the scripts' handlers raise while handling one (see "## Findings").
  - A failing store call is the text of the exception.
- **Fuel.** `Graph.Run` takes a node-run budget (`fuel`), because the graph's rewrite cycle has no bound of its own.

What the code does, and the model with it:
- The graph has no refusal path for off-topic questions. Off-topic answers come from the chat model.
- The "Sources:" block is always appended. It reads "No sources found." when no document has a URL.
- The rewrite loop has no retry limit (`Graph.RewriteCycleUnbounded`).
- There is no history compaction.
- The relevance verdict is a substring test for "yes", not a parsed `binary_score`.
- After the retrieve node, the looked-up question is the node's own notice, "Documents retrieved.". So the relevance check grades the notice against itself (`Graph.RelevanceCheckSeesOnlyNotice`), and the keyword override cannot fire again (`Graph.AgentDefersAfterRetrieve`).
- The agent node writes `should_generate`, and the model keeps it in the state, so it persists across turns through the checkpointer (`Graph.LaterTurnsSkipRetrieval`). `AgentState` does not declare that key; see "## Left out".

## Model

| member | source | states |
|---|---|---|
| Text.StripBounds | app/core/agents/agentic_graph.py:114 | `str.strip()` returns the slice of its input between a run of leading and a run of trailing whitespace |
| Text.Lower | app/core/agents/agentic_graph.py:24 | lower-casing keeps the length and maps each character on its own |
| Conversation.LastHumanIndex | app/core/agents/agentic_graph.py:22-25 | the reverse scan finds a human message with no human message after it, and finds none only when the history has no human message |
| Conversation.QuestionLookup | app/core/agents/agentic_graph.py:99-107 | the question is the content of the most recent human message, else of the first message; there is none exactly when the history is empty |
| Conversation.AppendNonHumanKeepsQuestion | app/core/agents/agentic_graph.py:240-251 | appending only AI or tool messages to a non-empty history leaves the looked-up question unchanged |
| Conversation.AppendHumanIsQuestion | app/core/agents/agentic_graph.py:210-214 | a history ending in a human message has that message's content as its question |
| Routing.DebugToolsCondition | app/core/agents/agentic_graph.py:18-73 | it raises exactly on an empty history; it answers "tools" exactly when the lower-cased question is a question naming a farming keyword or the LLM's condition says "tools"; it departs from the LLM's answer only when forced |
| Routing.AgentEdge | app/core/agents/agentic_graph.py:291-297 | the edge goes to generate exactly when `should_generate` is truthy; otherwise it raises exactly on an empty history, goes to retrieve exactly when the lower-cased question is a keyword question or the LLM's condition says "tools", and ends the run exactly when neither holds |
| Routing.CheckDocumentRelevance | app/core/agents/agentic_graph.py:95-111 | the relevance check raises exactly when the history is empty |
| Routing.YesInStrippedIsYesAt | app/core/agents/agentic_graph.py:114-117 | "yes" in the stripped, lower-cased output of the grading chain is "yes", in some mix of cases, in the raw output |
| Routing.YesAtIsYesInStripped | app/core/agents/agentic_graph.py:114-117 | any case-insensitive "yes" in the raw output survives stripping and lower-casing |
| Routing.RelevanceVerdict | app/core/agents/agentic_graph.py:114-122 | the run goes to generate if and only if "yes", ignoring case, occurs anywhere in the grading chain's output, and to rewrite otherwise |
| Citations.BelowIrreflexive | app/core/agents/agentic_graph.py:265 | Python's string order never puts a string below itself |
| Citations.BelowTransitive | app/core/agents/agentic_graph.py:265 | Python's string order is transitive |
| Citations.BelowTotal | app/core/agents/agentic_graph.py:265 | any two distinct strings are ordered one way or the other |
| Citations.BelowAsymmetric | app/core/agents/agentic_graph.py:265 | no two strings are each below the other |
| Citations.Insert | app/core/agents/agentic_graph.py:264-265 | inserting into a strictly sorted list keeps it strictly sorted and adds exactly the new line |
| Citations.SortedUnique | app/core/agents/agentic_graph.py:265 | `sorted(set(lines))` is strictly sorted and holds exactly the distinct lines |
| Citations.SortedListIsUnique | app/core/agents/agentic_graph.py:265 | two strictly sorted lists with the same members are equal, so the sorted listing of a set is unique |
| Citations.CitationLines | app/core/agents/agentic_graph.py:259-264 | a line is collected exactly when some document has a non-empty url and renders to that "title: url" line |
| Citations.CollectSources | app/core/agents/agentic_graph.py:258-265 | the sources text is "No sources found." exactly when no document has a non-empty url; a listing never reads as that text |
| Citations.FormatDocs | app/core/agents/agentic_graph.py:255-256 | the context is empty without documents and is the page text of a single document; each document's text is followed, after a blank line, by the next one's |
| Citations.CollectSourcesSpec | app/core/agents/agentic_graph.py:258-265 | the sources text is the newline-joined sorted listing of exactly the distinct citation lines, or "No sources found." when there are none |
| Nodes.Agent | app/core/agents/agentic_graph.py:125-189 | the agent node's loop computes exactly the update `AgentUpdate` describes for the model's reply |
| Nodes.AgentUpdateSpec | app/core/agents/agentic_graph.py:142-189 | the update holds the reply, then one tool message per knowledge-base call in call order, each reporting its own query's document count; `docs` is the last call's documents; both flags are set exactly when such a call ran |
| Nodes.AgentWithoutToolCalls | app/core/agents/agentic_graph.py:143-154 | a reply without tool calls is returned alone and no other key is written |
| Nodes.KnowledgeBaseCallsConcat | app/core/agents/agentic_graph.py:157-162 | the knowledge-base calls keep call order |
| Nodes.KnowledgeBaseCallsMembers | app/core/agents/agentic_graph.py:157-175 | exactly the calls named `gov_knowledge_base` are run, one per such call |
| Nodes.RetrieveAndStore | app/core/agents/agentic_graph.py:192-202 | `retrieve_and_store` raises exactly on an empty history |
| Nodes.RewritePrompt | app/core/agents/agentic_graph.py:220-230 | the prompt is the fixed instructions with the question quoted between them, "None" when there is no question |
| Nodes.Rewrite | app/core/agents/agentic_graph.py:205-234 | rewrite appends one AI message without tool calls, the rewriting model's reply to the prompt quoting the looked-up question, and writes no other key |
| Nodes.FullResponse | app/core/agents/agentic_graph.py:272-273 | the answer text is the chain's answer untouched, then the "Sources:" heading, then the sources text, which reads "No sources found." exactly when no document has a url |
| Nodes.Generate | app/core/agents/agentic_graph.py:237-276 | generate appends one AI message: the chain's answer on the formatted `docs` (empty when unset) and the looked-up question, with the sources; it writes no other key |
| Graph.AgentStep | app/core/agents/agentic_graph.py:291-297 | the agent step never raises: the node appends the model's reply before the edge looks up the question |
| Graph.Step | app/core/agents/agentic_graph.py:283-304 | a step raises only at the retrieve node on an empty history, and every step follows an edge of the compiled graph |
| Graph.Run | app/core/agents/agentic_graph.py:283-304 | a run only extends the history, and a run that reaches END ends with an AI message: the generated answer or the model's own reply |
| Graph.DriveExtendsHistory | app/core/agents/agent_state.py:11 | a run whose every step only appends messages ends with an extension of its starting history |
| Graph.StepExtendsHistory | app/core/agents/agentic_graph.py:283-304 | every node appends at least one message and rewrites none |
| Graph.RunExtendsHistory | app/core/agents/agentic_graph.py:283-304 | the history is append-only over a whole run, however it ends |
| Graph.DriveKeepsFlags | app/core/agents/agentic_graph.py:184-187 | if no step writes `False` or clears a flag, neither does a run |
| Graph.StepNeverWritesFalse | app/core/agents/agentic_graph.py:184-187 | no node writes `False` to `retrieval_attempted` or `should_generate`, and a flag once `True` stays `True` |
| Graph.RunNeverWritesFalse | app/core/agents/agentic_graph.py:198-202 | over a whole run both flags are never `False`, and once set they stay set |
| Graph.AgentUpdateAddsNoHumanMessage | app/core/agents/agentic_graph.py:146-178 | the agent appends only AI and tool messages |
| Graph.KeywordQuestionForcesRetrieval | app/core/agents/agentic_graph.py:59-68 | with `should_generate` unset, a keyword question leads either to the retrieve node or to generate after the tool retrieved, whatever the model decided |
| Graph.StickyShouldGenerate | app/core/agents/agentic_graph.py:291-303 | once `should_generate` is set, a run is exactly agent then generate and finishes |
| Graph.AgentStepSticky | app/core/agents/agentic_graph.py:293-294 | with `should_generate` set, the agent step always continues to generate |
| Graph.RetrieveNodeEffect | app/core/agents/agentic_graph.py:192-202 | the retrieve node appends exactly the human notice, stores the retriever's answer to the last message and sets `retrieval_attempted`, leaving `should_generate` alone |
| Graph.RelevanceCheckSeesOnlyNotice | app/core/agents/agentic_graph.py:95-111 | after the retrieve node the grading chain's question and document are both the notice text, so the verdict ignores the user's question and the documents |
| Graph.RewriteKeepsQuestion | app/core/agents/agentic_graph.py:205-234 | rewrite appends one AI message and no other key changes, so the question seen later is the old one |
| Graph.GenerateAppendsAnswer | app/core/agents/agentic_graph.py:237-276 | generate appends one AI message whose content is exactly the chain's answer, the sources heading and the sources text, with "No sources found." when `docs` is unset; no other key changes |
| Graph.AgentStepStalls | app/core/agents/agentic_graph.py:291-297 | with no knowledge-base call and "tools" from the LLM's condition, the agent step goes to retrieve |
| Graph.RetrieveStepStaysInCycle | app/core/agents/agentic_graph.py:299-301 | the retrieve step never raises on a non-empty history and lands in a rewrite-cycle state |
| Graph.RetrieveStepStalls | app/core/agents/agentic_graph.py:299-301 | a grading chain that rejects the notice sends every retrieve step to rewrite |
| Graph.CycleStep | app/core/agents/agentic_graph.py:291-304 | from a state of the agent, retrieve, rewrite cycle, one step neither ends nor raises and stays in the cycle |
| Graph.RewriteCycleUnbounded | app/core/agents/agentic_graph.py:291-304 | with such a model, tools condition and grading chain, a run never finishes within any node budget |
| Graph.NoticeNeverForcesRetrieval | app/core/agents/agentic_graph.py:58-64 | the retrieve node's notice, lower-cased, is not a question, so the keyword override never fires on it |
| Graph.AgentDefersAfterRetrieve | app/core/agents/agentic_graph.py:18-73 | once the question is the notice, an agent step without a knowledge-base call goes to retrieve exactly when `tools_condition` says "tools", and otherwise ends the run |
| Graph.InitialState | app/core/agents/agentic_graph.py:329-343 | the input state is the prior history followed by exactly the new human message, which becomes the question; the prior keys carry over, and a first turn starts with none |
| Graph.LaterTurnsSkipRetrieval | app/core/agents/agentic_graph.py:314-346 | once a turn has set `should_generate`, every later turn of that user goes agent then generate and finishes |
| Graph.Checkpointer.constructor | app/core/agents/agentic_graph.py:306-311 | the checkpointer starts with no thread |
| Graph.Checkpointer.RunGraphWithMemory | app/core/agents/agentic_graph.py:314-346 | the run starts from the stored state extended by the query, the state reached replaces that user's entry only, and the stored history extends the prior one |
| ContentFetch.RecordFor | app/core/rag/download_farming_grants.py:199-242 | every record holds the link and the content URL, and exactly one of the content and the error, the content exactly when the fetch succeeded |
| ContentFetch.FetchContentForItems | app/core/rag/download_farming_grants.py:169-245 | the intended loop: one record per valid link, in input order, built from that link's fetch, an error record for each of the three caught failures |
| ContentFetch.FetchContentForItemsAsWritten | app/core/rag/data_ingest_via_search_api.py:67-145 | the loop as the three scripts write it (this file and `data_ingest_via_search_apiv2.py` lines 74-150 and `download_farming_grants.py` lines 169-245) computes `RunAsWritten` for the script's handlers |
| ContentFetch.RunAsWrittenSpec | app/core/rag/data_ingest_via_search_api.py:93-142 | as written, the loop returns its records exactly when no handler raises, and they are then the intended records; otherwise it stops at the first link whose handler raises |
| ContentFetch.OneFailedFetchCrashes | app/core/rag/data_ingest_via_search_api.py:109-122 | a single valid link whose fetch fails yields an error record in the intended loop, but raises as written in the search-API script, and in the other two for an HTTP status error |
| ContentFetch.SearchApiRunHasNoErrors | app/core/rag/data_ingest_via_search_api.py:109-142 | as the search-API script is written, every record of a run that returns holds content and no error |
| ContentFetch.ValidLinksMembers | app/core/rag/download_farming_grants.py:177-183 | a link is fetched if and only if some result carries it, non-empty and starting with "/"; there are as many records as such results |
| GrantMarkdown.BodyMarkdown | app/core/rag/download_farming_grants.py:95-108 | the body is empty for an empty HTML body and never starts or ends with whitespace |
| GrantMarkdown.HistoryPartsShape | app/core/rag/download_farming_grants.py:110-118 | no parts for an empty history; otherwise the heading and then bullet `i + 1` for entry `i` |
| GrantMarkdown.ChangeHistoryParts | app/core/rag/download_farming_grants.py:110-117 | the change-history loop builds exactly those parts |
| GrantMarkdown.RenderGrant | app/core/rag/download_farming_grants.py:82-83 | conversion gives nothing exactly for a record with an error or without content |
| GrantMarkdown.ConvertGrantDataToMetadataAndMarkdown | app/core/rag/download_farming_grants.py:70-136 | the converter computes the document and metadata `RenderGrant` describes |
| GrantMarkdown.ConvertGrantDataToMarkdown | app/core/rag/data_ingest_via_search_apiv2.py:153-212 | the v2 converter gives nothing exactly for error or content-less records, and otherwise the same document as the download script |
| GrantMarkdown.HistoryTextEmptyIff | app/core/rag/download_farming_grants.py:118-127 | the history text is empty exactly when the history is |
| GrantMarkdown.RenderedLayout | app/core/rag/download_farming_grants.py:85-134 | the document opens with the title, the metadata URL and the description (with their defaults), then the body, then the history between newlines, and always ends in a newline; the metadata holds those values |
| Text.JoinAdjacent | app/core/rag/download_farming_grants.py:118 | two adjacent parts appear, separator between, in the joined text |
| GrantMarkdown.MarkdownHistoryInOrder | app/core/rag/download_farming_grants.py:111-127 | in an assembled document the first bullet follows the heading, and each bullet is followed by the next entry's |
| GrantMarkdown.HistoryInOrder | app/core/rag/download_farming_grants.py:111-127 | the rendered grant lists its change history in the history's order |
| GrantMarkdown.EmptyContentDefaults | app/core/rag/download_farming_grants.py:85-93 | content without any key renders with "No Title", "No Description", no body and no history |
| Tallies.DownloadTally | app/core/rag/download_farming_grants.py:269-287 | the processed list is the renderings of the records that render, in order; one success per processed document; every record is counted once |
| Tallies.SuccessesSpec | app/core/rag/download_farming_grants.py:275-278 | a document is processed exactly when some fetched record renders to it |
| Tallies.SuccessesCount | app/core/rag/download_farming_grants.py:269-284 | the success count is the number of records with content and no error |
| Tallies.SafeFilename | app/core/rag/data_ingest_via_search_apiv2.py:250 | the file name has no "/", ends in ".md", and is as long as the link without its leading slashes plus three |
| Tallies.SafeFilenameChars | app/core/rag/data_ingest_via_search_apiv2.py:250 | exactly the leading slashes are dropped, and each later character maps one for one, a slash to an underscore |
| Tallies.NoSlashAfterReplace | app/core/rag/data_ingest_via_search_apiv2.py:250 | replacing slashes leaves none |
| Tallies.SafeFilenameCollides | app/core/rag/data_ingest_via_search_apiv2.py:250-255 | "/a/b", "/a_b" and "a/b" all map to "a_b.md", so one grant's file can overwrite another's |
| Tallies.V2Tally | app/core/rag/data_ingest_via_search_apiv2.py:228-278 | the counters are the per-record classification summed over the records, or all zero when the directory could not be made; one file name is written per successful save |
| Tallies.CountV2Partition | app/core/rag/data_ingest_via_search_apiv2.py:245-276 | every record increments exactly one of the three counters |
| Tallies.RenderedNonEmpty | app/core/rag/data_ingest_via_search_apiv2.py:204-212 | a rendered document is never empty, so the truthiness test reduces to whether the record rendered |
| Tallies.ClassifyV2Spec | app/core/rag/data_ingest_via_search_apiv2.py:246-276 | "unknown" counts exactly the records with neither content nor error; error records are always failures; a save is attempted exactly for records with content and no error |
| Tallies.SearchApiTally | app/core/rag/data_ingest_via_search_api.py:157-173 | the success count is the number of records with content and no error, and every record is counted once |
| Tallies.SuccessesAreFetches | app/core/rag/data_ingest_via_search_api.py:99-142 | on the records of the intended fetch loop, successes are exactly the fetches that returned content, and no record reaches the "unknown" branch |
| Ingest.CreateLangchainDocuments | app/core/rag/ingest_markdown_docs.py:36-52 | the documents are those of the well-formed records, in order, one per well-formed record |
| Ingest.NormaliseMetadataSpec | app/core/rag/ingest_markdown_docs.py:42-44 | metadata keeps its keys; nulls become "" and strings are kept |
| Ingest.KeptDocumentsSpec | app/core/rag/ingest_markdown_docs.py:39-46 | a document is produced exactly for a record with both keys, with that record's Markdown and metadata |
| Ingest.Batches | app/core/rag/ingest_markdown_docs.py:93-94 | there is no batch exactly when there is no chunk |
| Ingest.BatchesFlatten | app/core/rag/ingest_markdown_docs.py:93-94 | the batches, joined, are the chunks in order |
| Ingest.BatchesSizes | app/core/rag/ingest_markdown_docs.py:93-94 | no batch is empty or longer than the batch size |
| Ingest.BatchesBounds | app/core/rag/ingest_markdown_docs.py:93 | the batches hold all chunks and one fewer batch would not |
| Ingest.BatchesCount | app/core/rag/ingest_markdown_docs.py:93-100 | there are `ceil(n / size)` batches, the total the progress message prints |
| Ingest.BatchAt | app/core/rag/ingest_markdown_docs.py:93-94 | batch `k` is the slice `[k * size : k * size + size]`, cut at the end of the list |
| Ingest.Attempt | app/core/rag/ingest_markdown_docs.py:95-116 | retrying a batch records exactly one outcome, for that batch, and never undoes a call |
| Ingest.AddBatch | app/core/rag/ingest_markdown_docs.py:95-116 | the `while ... else` retry loop computes exactly `Attempt` from zero retries |
| Ingest.AddBatches | app/core/rag/ingest_markdown_docs.py:93-116 | the batch loop computes exactly `Drain` over the batches |
| Ingest.IngestSpec | app/core/rag/ingest_markdown_docs.py:73-94 | no chunks and no store return early; a batch size that is not positive makes no store call and no sleep, and only a zero one reports the `range` error |
| Ingest.IngestToVectorstore | app/core/rag/ingest_markdown_docs.py:73-119 | early returns for no chunks or no store, the `range` error for a zero batch size, no batch for a negative one, else the batch run and the error it stopped on |
| Ingest.AttemptSpec | app/core/rag/ingest_markdown_docs.py:95-116 | at most `max_retries + 1` calls per batch, every one but the last rate-limited; added exactly when the last call succeeded; a failure carries the non-429 error (or the negative-sleep error); skipped only after all calls were rate-limited; one sleep per retried call |
| Ingest.AttemptGeometric | app/core/rag/ingest_markdown_docs.py:108-110 | within a batch the delays keep doubling |
| Ingest.DrainGeometric | app/core/rag/ingest_markdown_docs.py:93-110 | the delay is never reset between batches: the sleeps are `b0, 2 b0, 4 b0, ...` over the whole run |
| Ingest.DrainOutcomes | app/core/rag/ingest_markdown_docs.py:93-119 | batches are handled in order, each at most once; only the last handled can have failed; stopping early means it failed |
| Ingest.IngestOutcomes | app/core/rag/ingest_markdown_docs.py:73-119 | for chunks, a store and a positive batch size, the run reports an error exactly when a batch failed; without one every batch was added or skipped, in order; the `j`-th sleep is `backoff * 2^j` |
| Ingest.RunErrorSpec | app/core/rag/ingest_markdown_docs.py:118-119 | when only the last outcome can fail, an error is reported exactly when some batch failed |

## Left out

- The chat models, prompts and LangChain Hub prompt: every model call is a parameter. The system message and prompt texts (other than the rewrite prompt) are not modelled.
- LangGraph internals: the graph engine is `Graph.Drive` with a node budget. LangGraph's own recursion limit is not modelled, so a run that uses up its budget is `OutOfSteps` rather than a library error.
- `tools_condition` is a parameter of the state. Its own reading of the last message's tool calls is not modelled.
- Decoding a tool call's JSON arguments: a tool call carries its `query` already decoded. Malformed arguments, which raise in the source, are not modelled.
- Text.Lower: lower-cases ASCII letters only. Python's full Unicode case mapping is not modelled.
- Logging and `print` calls, including the graph's mermaid diagram file.
- In `fetch_content_for_items`, the HTTP call, `raise_for_status`, JSON decoding and the pause between requests are one parameter returning a success or one of three failures.
  - The model does not capture exceptions other than those three.
  - It does not capture the text of the exception messages.
- ContentFetch.FetchContentForItems: it is the intended loop, and the summaries (`Tallies`) use it. As written, an HTTP status error raises `AttributeError` in all three scripts, and any failure does in the search-API script (see "## Findings"). `FetchContentForItemsAsWritten` models that.
- Graph.StickyShouldGenerate, Graph.LaterTurnsSkipRetrieval: these hold only if LangGraph keeps `should_generate`. The model keeps every key the agent node writes. `AgentState` (`app/core/agents/agent_state.py`) declares only `messages`, `retrieval_attempted` and `docs`, and LangGraph's state graph probably drops writes to undeclared keys. In that case the short-circuit to `generate` never fires, and the edge always applies the override and `tools_condition`. LangGraph's channel handling is not part of this model.
- `fetch_farming_grant_content` (the search API call and its paging) is not part of this model. Its results are the input of `FetchContentForItems`.
- JSON content beyond `title`, `description`, `details.body` and `details.change_history` is not modelled. A key present with a JSON `null` value is not modelled either: `.get` would return `None` and the f-string would print "None".
- The HTML-to-Markdown converter is a parameter. Its output is not modelled.
- File output:
  - Directory creation and each file write are parameters returning whether they worked.
  - `save_markdown_in_json_file` (the JSON dump and the average-length report) is not part of this model.
  - The search-API script's final JSON dump is not part of this model.
- Tallies.DownloadTally: requires a link on records that do not render. The source reads `item["link"]` to print them, and a missing key raises there.
- Tallies.V2Tally: requires a link on every record. The source reads `item["link"]` in every branch.
- Tallies.SearchApiTally: requires a link on every record, for the same reason.
- `load_processed_data` and the text splitter (`split_documents`, token-based chunking) are not part of this model. `IngestToVectorstore` takes the chunks as input.
- The vector store is a parameter giving the outcome of its n-th `add_documents` call. A batch it partly stored before raising is not modelled.
- `time.sleep` is recorded as the list of delays requested. The passing of time is not modelled.
- Integer widths: Python integers are unbounded, and so are the model's.

## Findings

| source | as written | input that shows it | evidently intended | confidence | as-written member | corrected member |
|---|---|---|---|---|---|---|
| app/core/rag/data_ingest_via_search_api.py:109-122 | the handlers name `httpx.exceptions.HTTPError` and `httpx.exceptions.RequestException`; httpx has no `exceptions` attribute, so evaluating the first `except` clause raises `AttributeError` whatever the failure | one search result with a valid link whose fetch fails (a 404, a network error, or a body that is not JSON) | store an error record for the link and go on with the next | not executed; depends on the installed httpx having no `exceptions` attribute | ContentFetch.FetchContentForItemsAsWritten, ContentFetch.OneFailedFetchCrashes | ContentFetch.FetchContentForItems |
| app/core/rag/download_farming_grants.py:209-213 | the status handler's progress line reads `e.response.reason`; httpx's response has `reason_phrase` only, so the handler raises `AttributeError` before storing the record (the same line is at `data_ingest_via_search_apiv2.py` lines 114-118) | one search result with a valid link whose content URL answers 404 | store "HTTP Error: 404 Not Found" for the link and go on | not executed; depends on httpx's response having no `reason` attribute | ContentFetch.FetchContentForItemsAsWritten, ContentFetch.OneFailedFetchCrashes | ContentFetch.FetchContentForItems |
