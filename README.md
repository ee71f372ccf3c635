# Agentic RAG résumé assistant — a Dafny model

This project models the decision logic of the Q&A chatbot in
"Q_A_Chatbot_Using_Agentic_RAG_Architecture_Project". It covers five parts of the system.

**The document question-answering graph** (`backend/app/workflow.py` and its nodes):

- `retrieve` fetches passages for the question.
- `grade_documents` keeps the passages the grading model affirms. It loops back to `retrieve` when none is affirmed.
- Contact details, the GitHub profile and the undergraduate CGPA are then extracted.
- `check_cgpa` sends an alert e-mail when the CGPA is above 9.0.
- `generate` writes the final answer.

**The agentic pipeline** (`backend/app/services/agentic_rag_service.py`):

- A router model chooses a knowledge base (resume, projects, both, or a meeting request).
- The chosen flat vector indexes are searched and an answering model replies.
- A grader model judges the answer. A failed judgement asks a correcting model once.
- The module also renders the stored résumé as plain text.

**The résumé form normaliser** (`backend/app/services/resume_parser.py`). It builds the
twelve-key context of the LaTeX template.

**The fallback rules of the project-summary helpers** (`backend/app/services/llm_service.py`):

- title
- technologies
- feature bullets
- summary record and file name
- feature refinement
- LaTeX fence removal
- free-form refinement

**The data helpers of the Streamlit front end** (`frontend/streamlit_app.py`):

- merging selected projects into the stored ones
- naming saved repository files
- normalising parsed résumé lists
- updating a project's features in the session
- reading the GitHub user name
- choosing the manually entered projects

Every external service is a parameter of the model, given as a function of what the code
passes to it. This covers the language models, the retriever, the vector indexes, the
GitHub fetcher, the mailer, `json.loads` and `float`. For most of them a reply of `None`
stands for a call that raised, and the model then does what the code does: it catches the
exception or lets it end the run. The graph's retriever and GitHub fetcher have no such
reply, so they always answer (see "Left out"). Each step records the external calls it
makes, in order. The properties are stated about those calls as well as about the results.

Files:

| file | what it holds |
|---|---|
| `wrappers.dfy` | `Option` and `Result` |
| `json.dfy` | JSON values as Python holds them, Python truthiness, `d.get`, and the `a or b or c` chain |
| `seqs.dfy` | filtering, subsequences and joining |
| `text.dfy` | `strip`/`rstrip`, `lower`, `split`, `replace`, `title` and substring search on ASCII text |
| `graph_state.dfy` | the graph state record, the services and the call trace |
| `nodes.dfy` | one module per node file |
| `workflow.dfy` | the graph builder as a class, the compiled table, the fuel-bounded run loop, and the run properties |
| `agentic_rag.dfy` | the router, the grading model, retrieval, the pipeline and the résumé rendering |
| `resume_parser.dfy` | `csv_to_list` and `normalize_form_to_context` |
| `llm_service.dfy` | the project-summary helpers |
| `streamlit_helpers.dfy` | the front-end helpers |

Grading does not clear the passages it rejects. When no passage is relevant, the grading
node keeps the graded passages in the state and only sets the route to "retrieve"
(`backend/app/nodes/grading.py:20-22`). `Grading.GradeKeepsIrrelevantDocuments` states this.

## Model

| member | source | states |
|---|---|---|
| GraphState.OrString | backend/app/nodes/email_node.py:4 | `a or b or ""` is empty exactly when both are absent or empty, and is `a` when `a` is non-empty |
| Json.FirstTruthy | backend/app/services/llm_service.py:188 | a Python `or` chain yields one of its operands: the first true one, or the last operand when every earlier one is false |
| Json.RepoNamePrecedence | backend/app/services/llm_service.py:188 | the repository name is `repository`, else `repo`, else `name` (the first one set to a true value), else the default |
| Retrieval.RetrieveNode | backend/app/nodes/retrieval.py:1-8 | an empty or missing question gives no passages and no retriever call; otherwise exactly one retriever call, and the passages are its results in order; every other field is kept |
| Grading.GraderCalls | backend/app/nodes/grading.py:13-15 | one grader call per passage, in order, each with the same question |
| Grading.GradeNode | backend/app/nodes/grading.py:8-24 | the route is "retrieve" exactly when no passage is relevant, and then the passages are unchanged; otherwise it is "generate" with the non-empty list of relevant passages; nothing else changes |
| Grading.GradeDocuments | backend/app/nodes/grading.py:12-24 | the loop that appends affirmed passages computes `GradeNode` |
| Grading.RelevantIsAffirmedSubsequence | backend/app/nodes/grading.py:13-19 | a passage is kept exactly when its grader reply, lower-cased, contains "yes"; a failed grader call drops only that passage; the kept passages are a subsequence of the input, with every copy kept |
| Grading.GradeKeepsIrrelevantDocuments | backend/app/nodes/grading.py:20-22 | with no relevant passage the route is "retrieve" and the (non-empty) passages stay in the state |
| Extraction.ExtractContactNode | backend/app/nodes/extraction.py:7-24 | the extractor sees the passages joined by newlines; a failed extraction sets all four contact fields to "Not mentioned" and the other links to `[]`; each missing key defaults on its own; no other field changes |
| Extraction.CgpaValue | backend/app/nodes/extraction.py:30-34 | the reply is stripped and then parsed; a failed chain or parse gives 0.0 |
| Extraction.ExtractCgpaNode | backend/app/nodes/extraction.py:26-35 | one extractor call on the joined passages; only `ug_cgpa` changes |
| GithubAnalysis.Username | backend/app/nodes/analyze_github.py:8 | the user name is the last `/`-separated segment once trailing slashes are removed, so it holds no `/` |
| GithubAnalysis.UsernameEmpty | backend/app/nodes/analyze_github.py:8 | the user name is empty exactly when the URL is nothing but slashes |
| GithubAnalysis.AnalyzeGithubNode | backend/app/nodes/analyze_github.py:3-11 | an empty URL or "Not mentioned" sets `projects` to `[]` with no fetch; otherwise there is one fetch for the user name, and `projects` is its result; nothing else changes |
| GithubAnalysis.SentinelGithubSkips | backend/app/nodes/analyze_github.py:4-6 | a GitHub field of "Not mentioned" is taken over LinkedIn and makes the node skip |
| Routing.CheckCgpaNode | backend/app/nodes/routing.py:1-8 | the route is "send_email" exactly when the CGPA is present and strictly above 9.0, else "generate"; nothing else changes |
| Routing.ThresholdIsStrict | backend/app/nodes/routing.py:3-8 | 9.0 and 8.9 route to "generate", 9.5 to "send_email", and a missing CGPA to "generate" |
| EmailNode.SendEmailNode | backend/app/nodes/email_node.py:3-10 | the state is returned unchanged; the mailer is called once exactly when `email_id or email` is non-empty, with that recipient, the fixed subject, and `message` or the phone template as the body |
| Answer.Context | backend/app/nodes/answer.py:11-13 | no passages give the empty context |
| Answer.GenerateNode | backend/app/nodes/answer.py:8-17 | one generator call on the joined passages and the question; `solution` is always set, to its reply or to "Could not generate answer."; nothing else changes |
| Workflow.StateGraph.constructor | backend/app/workflow.py:13 | a new graph builder is empty |
| Workflow.StateGraph.AddNode | backend/app/workflow.py:15-23 | adds the node and reports whether the name was new; nothing else changes |
| Workflow.StateGraph.SetEntryPoint | backend/app/workflow.py:25 | sets the entry point and nothing else |
| Workflow.StateGraph.AddEdge | backend/app/workflow.py:27 | sets the node's unconditional successor and nothing else |
| Workflow.StateGraph.AddConditionalEdges | backend/app/workflow.py:28-32 | sets the node's path map and nothing else |
| Workflow.StateGraph.Compile | backend/app/workflow.py:46 | compiles exactly when the entry point is set and every edge joins declared nodes (or `END`) |
| Workflow.WorkflowWellFormed | backend/app/workflow.py:12-46 | the table of `build_workflow` passes the compile checks |
| Workflow.AddWorkflowNodes | backend/app/workflow.py:15-23 | the nine `add_node` calls all declare new names |
| Workflow.AddWorkflowEdges | backend/app/workflow.py:27-44 | the edge calls build exactly the edges and path maps of the table |
| Workflow.BuildWorkflow | backend/app/workflow.py:12-46 | `build_workflow` compiles to the table: entry `retrieve`, the linear chain, the two path maps, and `generate -> END` |
| Workflow.ContinuedStep | backend/app/workflow.py:46 | one more node execution of a run: route lookup failure, `END`, or a continuation |
| Workflow.Invoke | backend/app/workflow.py:46 | the execution loop of the compiled graph computes the run (at most `fuel` node executions) and the calls made on the way |
| Workflow.RunWorkflow | backend/app/workflow.py:12-46 | building the workflow and invoking it runs the table from `retrieve` |
| Workflow.CompiledRoutes | backend/app/workflow.py:27-44 | the compiled graph moves as the route table says |
| Workflow.TransitionsMoveForward | backend/app/workflow.py:27-44 | every transition moves forward along the main path except grading back to retrieval; only `generate` reaches `END` |
| Workflow.ActionsBehave | backend/app/workflow.py:15-23 | the registered node functions write routes their path maps know, route on the CGPA threshold, and keep the retrieval/grading loop deterministic |
| Workflow.RunsEndInGenerate | backend/app/workflow.py:43-44 | no run fails on routing; a finished run executed `generate` last |
| Workflow.EdgeStep | backend/app/workflow.py:34-37 | a run through an unconditional edge executes the node, then continues at its successor |
| Workflow.CheckCgpaFinishes | backend/app/workflow.py:38-44 | from `check_cgpa`, `END` follows after `generate`, preceded by `send_email` exactly when the CGPA is above the threshold |
| Workflow.ForwardFinishes | backend/app/workflow.py:34-44 | from any node past grading, a run finishes within the remaining nodes of the path |
| Workflow.RelevantRunFinishes | backend/app/workflow.py:25-44 | when the first grading keeps a passage, the run finishes within nine node executions |
| Workflow.IrrelevantRunLoops | backend/app/workflow.py:27-32 | when the first grading keeps nothing, the run alternates between `retrieve` and `grade_documents` until the bound runs out |
| Workflow.TerminationCharacterised | backend/app/workflow.py:27-44 | a run finishes for some bound exactly when the first grading keeps a passage |
| Workflow.WorkflowTermination | backend/app/workflow.py:12-46 | the same for the built workflow; an empty question never finishes |
| Workflow.ExtractContactSeesDocuments | backend/app/workflow.py:31 | `extract_contact` always sees a non-empty list of passages |
| Workflow.WorkflowRuns | backend/app/workflow.py:12-46 | on the built workflow no run fails on routing, a finished run ends with `generate`, and `extract_contact` sees passages |
| Workflow.WorkflowAlertsAboveThreshold | backend/app/workflow.py:38-44 | on the built workflow `send_email` follows `check_cgpa` exactly above the threshold, and the run then finishes |
| AgenticRag.RouteQuery | backend/app/services/agentic_rag_service.py:175-184 | the decision is always one of "both", "project", "meeting" and "resume" |
| AgenticRag.RoutePrecedence | backend/app/services/agentic_rag_service.py:175-184 | on the stripped, lower-cased reply, "both" exactly when both "project" and "resume" occur, in either order; "project" then beats "meeting", which beats the default "resume" |
| AgenticRag.RouteIgnoresCase | backend/app/services/agentic_rag_service.py:175 | the decision ignores letter case |
| AgenticRag.PlainWordDecision | backend/app/services/agentic_rag_service.py:175 | a lower-case word without surrounding whitespace is decided as it is |
| AgenticRag.KnownRepliesDecode | backend/app/services/agentic_rag_service.py:177-184 | "project", "meeting" and "resume" decode to themselves, but the reply "both" decodes to "resume" |
| AgenticRag.BraceSpanIsGreedyMatch | backend/app/services/agentic_rag_service.py:273 | the span exists exactly when a `{` comes before a `}`, and runs from the first `{` to the last `}` |
| AgenticRag.BraceSpanOfWrapped | backend/app/services/agentic_rag_service.py:273 | an object wrapped in prose without braces is found exactly |
| AgenticRag.GradeFailsClosed | backend/app/services/agentic_rag_service.py:273-283 | no span fails with "Could not parse grader response."; a span that does not parse to an object fails with "Invalid grader JSON"; otherwise the answer passes exactly when "grade" is text that lower-cases to "pass"; a text (or missing) grade carries the object's "feedback" (default "") whether it passes or fails, and a non-text grade fails with "Invalid grader JSON" |
| AgenticRag.MissingGradeFails | backend/app/services/agentic_rag_service.py:278-280 | an object without "grade" fails |
| AgenticRag.UpperCasePassPasses | backend/app/services/agentic_rag_service.py:278-280 | "PASS" passes |
| AgenticRag.Selected | backend/app/services/agentic_rag_service.py:202-206 | an index is loaded exactly when the source uses it and its file exists, resume first |
| AgenticRag.TopPassages | backend/app/services/agentic_rag_service.py:214 | at most four passages come from one index |
| AgenticRag.AnswerContext | backend/app/services/agentic_rag_service.py:221-227 | the passages joined by blank lines, unless the source uses the resume; then the raw resume replaces them outright |
| AgenticRag.RetrievalShape | backend/app/services/agentic_rag_service.py:202-246 | the fixed "No embeddings found" message with no search happens exactly when no selected index exists; otherwise one search per loaded index, in order, then at most one answering call on the context |
| AgenticRag.RetrievalCallKinds | backend/app/services/agentic_rag_service.py:187-246 | retrieval only searches and answers |
| AgenticRag.AtMostFourPerIndex | backend/app/services/agentic_rag_service.py:213-215 | at most four passages per index, eight in all |
| AgenticRag.ResumeContextDiscardsPassages | backend/app/services/agentic_rag_service.py:223-227 | with a resume source, the search results never reach the answering model |
| AgenticRag.SearchAll | backend/app/services/agentic_rag_service.py:212-215 | the extend loop collects every index's passages and makes one search per index |
| AgenticRag.RetrieveAnswer | backend/app/services/agentic_rag_service.py:187-246 | `retrieve_answer` computes `RetrieveSpec` |
| AgenticRag.AnswerFrom | backend/app/services/agentic_rag_service.py:217-246 | the part after the searches computes its specification |
| AgenticRag.MeetingNotice | backend/app/services/agentic_rag_service.py:285-296 | the meeting node sends one notification with the fixed subject and body |
| AgenticRag.AgenticRagPipeline | backend/app/services/agentic_rag_service.py:302-346 | the pipeline, with the answer reassigned on a failed grade, computes `Pipeline` |
| AgenticRag.ReviewAnswer | backend/app/services/agentic_rag_service.py:325-346 | grading the answer, then on a failed verdict one correction call with the verdict's feedback and the answer reassigned to its reply, computes `Review` |
| AgenticRag.MeetingShortCircuit | backend/app/services/agentic_rag_service.py:317-319 | a meeting request sends exactly one notification and does not retrieve, answer or grade |
| AgenticRag.PassingAnswerUnchanged | backend/app/services/agentic_rag_service.py:323-346 | a passing grade returns the retrieved answer unchanged, after exactly one grading call |
| AgenticRag.FailingAnswerCorrected | backend/app/services/agentic_rag_service.py:328-346 | a failing grade makes exactly one correction call with the grading model's feedback and returns its reply without grading again |
| AgenticRag.RetryAtMostOnce | backend/app/services/agentic_rag_service.py:328-346 | every run grades at most once and corrects at most once, and never grades after a correction |
| AgenticRag.CorrectionFollowsFailedGrade | backend/app/services/agentic_rag_service.py:332-342 | a correction is the last call and comes right after a grading call whose verdict failed |
| AgenticRag.RetryAtMostOnceWith | backend/app/services/agentic_rag_service.py:314-346 | the retry rule holds for any router, retriever and grader, as long as retrieval only searches and answers |
| AgenticRag.ResumeLayout | backend/app/services/agentic_rag_service.py:70-88 | the rendered resume has six fixed lines plus one per education entry, experience entry, experience item and achievement |
| AgenticRag.ResumeFrontLines | backend/app/services/agentic_rag_service.py:70-76 | three contact lines, with "N/A" for a missing one, then the education heading and one line per education entry |
| AgenticRag.ResumeBackLines | backend/app/services/agentic_rag_service.py:78-86 | the experience heading, then exactly the experience lines, then the achievements heading and one line per achievement |
| AgenticRag.ExperienceEntryAt | backend/app/services/agentic_rag_service.py:78-82 | entry `i` starts right after the lines of the entries before it, with its block: its own line, then one line per item, in order |
| AgenticRag.LoadUserResumeJson | backend/app/services/agentic_rag_service.py:58-88 | "" when the file is missing; otherwise the collected lines joined by newlines |
| AgenticRag.AppendExperience | backend/app/services/agentic_rag_service.py:79-82 | the nested experience loops append each entry's line followed by its items |
| ResumeParser.CsvToList | backend/app/services/resume_parser.py:6-11 | a false value gives `[]`; a list is returned as it is; a string gives a list of stripped, non-empty, comma-free texts (which ones: `CsvToListPieces`); any other value raises |
| ResumeParser.CsvToListPieces | backend/app/services/resume_parser.py:11 | a string gives exactly its comma-separated pieces, stripped, with the empty ones dropped, in input order |
| ResumeParser.CsvItemsArePieces | backend/app/services/resume_parser.py:11 | the items of the list comprehension are the stripped pieces that are not empty, in the order of the pieces |
| ResumeParser.CsvRoundTrip | backend/app/services/resume_parser.py:11 | clean items joined by commas parse back to the same items, in order |
| ResumeParser.CsvReparse | backend/app/services/resume_parser.py:11 | the parser's output, written back as a comma list, parses to itself |
| ResumeParser.ContextFailure | backend/app/services/resume_parser.py:20-21 | the call raises exactly when `languages` or `tools` is a true value that is neither a string nor a list |
| ResumeParser.ContextShape | backend/app/services/resume_parser.py:13-26 | a context has exactly the twelve keys; scalars default to "" and lists to `[]`; `languages` and `tools` are `csv_to_list` of their form values: `[]` when missing or false, the list itself when a list, clean items when text |
| ResumeParser.NormalizeIdempotent | backend/app/services/resume_parser.py:13-26 | normalising a context again changes nothing |
| LlmService.GenerateProjectTitle | backend/app/services/llm_service.py:68-76 | a reply gives its stripped text with every `"` removed and every other character kept, in order; a failed call gives the repository name with `_` as spaces, title-cased: same letters up to case, and a letter is a capital exactly when it starts a word |
| LlmService.ExtractTechnologies | backend/app/services/llm_service.py:100-108 | the parsed reply exactly when it is a JSON list, else `[]` |
| LlmService.GenerateProjectFeatures | backend/app/services/llm_service.py:150-171 | `parsed["features"]` exactly when the reply parses to an object with that key, else the three fixed bullets |
| LlmService.SummarizeProject | backend/app/services/llm_service.py:179-220 | the name comes from `repository`, `repo`, `name` or "UnnamedRepo"; the record holds the title helper's result for that name, the other two helpers' results and an empty date; the file name is the name's letters, digits, `-` and `_`, in order and with every copy |
| LlmService.RefineProject | backend/app/services/llm_service.py:246-258 | a failed call raises; otherwise the reply parsed as a JSON list, or the original features |
| LlmService.RemoveFences | backend/app/services/llm_service.py:291-292 | the cleaned text holds no "```" fence and has no whitespace at either end |
| LlmService.FixLatexSyntax | backend/app/services/llm_service.py:261-298 | the input comes back unchanged when the call or the text extraction raises; otherwise the result is stripped and fence-free |
| LlmService.FencedReplyUnwrapped | backend/app/services/llm_service.py:291-292 | a reply that is a body in a "```" block comes back as the body |
| LlmService.TaggedFenceKeepsTag | backend/app/services/llm_service.py:291-292 | a block opened with "```latex" comes back with the tag: the back-ticks are stripped before "```latex" is looked for |
| LlmService.TicklessReplyStripped | backend/app/services/llm_service.py:291-292 | a reply without back-ticks, as the prompt asks for, comes back only stripped |
| LlmService.RefineTextAsWritten | backend/app/services/llm_service.py:319-331 | `refine_text` as written: the result is `data` or an object, and always `data` when `data` is not an object (its `keys()` raises) |
| LlmService.RefinementDiscarded | backend/app/services/llm_service.py:319-327 | as written, a chat message reply always gives back `data` |
| LlmService.MessageLosesRefinement | backend/app/services/llm_service.py:319-327 | a chat message whose text parses to a refined object: as written the refinement is lost, and the corrected version returns it |
| LlmService.RefineText | backend/app/services/llm_service.py:300-331 | when `data` is an object, a reply whose text parses to an object is the refined data; anything else, including a `data` that is not an object, leaves `data` |
| StreamlitHelpers.MergeProjects | frontend/streamlit_app.py:143-155 | the merge exists exactly when every title is text |
| StreamlitHelpers.MergeShape | frontend/streamlit_app.py:143-155 | the stored projects come first, unchanged and in order; after them come exactly the selected projects with a new title key, in order and with every copy, so duplicates among the selected ones stay |
| StreamlitHelpers.MergeIdempotent | frontend/streamlit_app.py:146-155 | merging the same selection twice adds nothing the second time |
| StreamlitHelpers.MergedTitles | frontend/streamlit_app.py:146 | the title keys of the merged list are those of both parts |
| StreamlitHelpers.SafeFileName | frontend/streamlit_app.py:589-591 | the file name is non-empty and holds only letters, digits, `-` and `_`; it is "repo" when the name has none, and otherwise exactly the name's letters, digits, `-` and `_`, in order and with every copy |
| StreamlitHelpers.SafeFileNameIdempotent | frontend/streamlit_app.py:589-591 | sanitising a sanitised file name changes nothing |
| StreamlitHelpers.ProjectFileName | frontend/streamlit_app.py:588-591 | a file name exists exactly when the chosen name (`repository`, `repo`, `name`, "unknown_repo") is text |
| StreamlitHelpers.NormalizedListsShape | frontend/streamlit_app.py:354-358 | the four list keys are present and hold no dict: a dict becomes a one-element list, a missing key `[]`, a list stays as it is; other keys are untouched |
| StreamlitHelpers.NormalizedListsIdempotent | frontend/streamlit_app.py:354-358 | normalising twice is normalising once |
| StreamlitHelpers.NormalizeLists | frontend/streamlit_app.py:354-358 | the in-place key loop computes `NormalizedLists` |
| StreamlitHelpers.UpdatedSummariesShape | frontend/streamlit_app.py:620-625 | only the first summary with the title changes, and only its features; with no match nothing changes |
| StreamlitHelpers.UpdatedSummariesIdempotent | frontend/streamlit_app.py:620-625 | updating again with the same features changes nothing more |
| StreamlitHelpers.UpdateProjectInSession | frontend/streamlit_app.py:615-625 | the in-place loop with `break` leaves the array equal to `UpdatedSummaries` of its old contents |
| StreamlitHelpers.GithubUsername | frontend/streamlit_app.py:639 | a false value gives ""; a true string gives the last `/`-segment of the stripped text after trailing slashes are dropped, which holds no `/`; any other true value raises |
| StreamlitHelpers.UsernameOfProfileUrl | frontend/streamlit_app.py:639 | `https://github.com/<user>`, with or without a trailing slash, gives back the user |
| StreamlitHelpers.ManualSelectionExact | frontend/streamlit_app.py:549 | a manual project is kept, with every copy and in order, exactly when it is ticked and has a title |

## Left out

- The language models, the retriever, FAISS, the embeddings and the prompt text are left out. Each model or service is a function parameter of the model. Where a service's reply is optional, a raised exception is a `None` reply. The prompts the code builds are not modelled; only the arguments that reach a service are recorded.
- `get_random_llm` (random choice of API key) is left out: it only picks which key a model call uses.
- `load_flat_faiss` and its pickle handling are left out. An index is "present" or "missing", and a present index is a search function.
- `json.loads` and `float(...)` are parameters. The CGPA is a mathematical real, not an IEEE double.
- File I/O is a parameter: the raw text and the parsed content of `data/user_data.json`, and the existence of index files. Writing JSON files, and the "file could not be saved" warnings, are left out.
- The SMTP mailers (`send_email`, `send_email_gmail`) are recorded as one notification call; their network behaviour is left out.
- `print` and Streamlit output (warnings, toasts, widgets) are left out.
- The `debug` node (`print_state`) is not part of this model; it is taken to return the state unchanged.
- LangGraph's own recursion limit is not modelled. A run carries an explicit bound on node executions, and a run that hits it is `OutOfFuel`.
- Services are deterministic functions. A retriever or grader that answers differently when asked the same thing twice is not modelled, which is why a run that finds nothing relevant the first time loops until the bound.
- Text is Unicode code points with ASCII-only case folding and `isalnum`. Non-ASCII letters and digits count as neither.
- Text.Whitespace: `strip()` removes space, tab, newline, carriage return, vertical tab and form feed. Python's `str.strip()` also removes the separators `\x1c`-`\x1f` and the non-ASCII spaces (`\x85`, `\xa0`, `\u2000`-`\u200a` and others); the model keeps those characters.
- Dictionary key order and JSON rendering (`json.dumps`, `indent=2`) are not modelled. Maps are unordered.
- `similarity_search(k=4)` is modelled as the first four results the index returns.
- AgenticRag.LoadUserResumeJson: the top-level `name`, `email` and `phone` and the fields of entries are modelled as strings (absent as `None`). A JSON `null` or other non-string value in any of them, which Python formats with `str` (a top-level `"name": null` renders `Name: None`), is not modelled, and neither is a top-level file that is not a dict.
- LlmService.SummarizeProject: a repository name that is a true non-string value is modelled as raising. Python would iterate a list or dict name when building the file name. The `readme`, `requirements` and `files_name` fields only reach the prompts, so the model has no input for them. In the code, a `readme` that is `null` or not text, a `requirements` that cannot be iterated (such as `null`), or a `files_name` that is not a list of text raises while the prompts are built (`llm_service.py:58-59`, `:123-125`), before any `try`; the model does not capture that failure.
- StreamlitHelpers.ProjectFileName: a true non-string name is modelled as raising, as in `SummarizeProject`.
- LlmService.SummarizeProject: the features call receives the raw `requirements` text rather than the extracted technologies (`llm_service.py:200`). That only changes the prompt, which is not modelled.
- StreamlitHelpers.UpdateProjectInSession: the session's summary list is the array itself. Creating an empty list when the session has none, and storing it back, are not modelled.
- StreamlitHelpers.MergeProjects: reading and writing `user_data.json`, and the fallback to `{}` when it cannot be parsed, are left out. The stored projects are a parameter.
- Retrieval.RetrieveNode: the retriever always answers. An exception from `retriever.invoke` propagates out of the run in the code; the model does not capture that path.
- GithubAnalysis.AnalyzeGithubNode: the fetcher always answers with a list of dicts. An exception from `fetch_and_analyze_github`, or a project that is not a dict (whose `get` raises when the names are logged), ends the run in the code; the model does not capture that path.
- Extraction.ExtractContactNode: contact fields are text or absent. A JSON `null` or a non-string value in the extractor's reply has no counterpart. In the code a `"github": null` makes the GitHub node fall back to LinkedIn; the nearest model input, a missing key, gives "Not mentioned" and the node skips. A parser result that is not a dict, whose `get` raises, is not modelled either.
- `save_projects` (`streamlit_app.py:89-97`) uses the same sanitiser without the "repo" fallback. It is not modelled separately.

## Findings

| source | as written | input that shows it | evidently intended | confidence | as-written member | corrected member |
|---|---|---|---|---|---|---|
| backend/app/services/llm_service.py:320 | `refined = json.loads(resp) if isinstance(resp, str) else resp`. The chat model returns a message object, which is neither a string nor a dict, so every refinement falls through to `return data` | a chat reply whose `content` is `{"title": "Refined"}` for the data `{"title": "Draft"}` | parse the reply's text (`resp.content`) and return the parsed object | not executed | LlmService.RefineTextAsWritten, LlmService.RefinementDiscarded, LlmService.MessageLosesRefinement | LlmService.RefineText |
