/** The agentic question-answering pipeline: a router model picks a knowledge base, the
    chosen vector indexes are searched and answered from, a grader model judges the answer,
    and one correction is asked for when the judgement fails. It also holds the plain-text
    rendering of the stored resume. */
module AgenticRag {
  import opened Wrappers
  import opened Json
  import opened Seqs
  import opened Text

  // ================================================================ router

  const Routes: set<string> := {"both", "project", "meeting", "resume"}

  /** What the router decides on: the model's reply, stripped and lower-cased. */
  function Decision(reply: string): string {
    Lower(Strip(reply))
  }

  /** `route_query` after the model has replied: mentioning both knowledge bases wins,
      then "project", then "meeting"; anything else falls back to "resume". */
  function RouteQuery(reply: string): (r: string)
    ensures r in Routes
  {
    RouteOf(Decision(reply))
  }

  /** The if-chain of `route_query` on the normalised reply. */
  function RouteOf(answer: string): (r: string)
    ensures r in Routes
  {
    if Contains(answer, "project") && Contains(answer, "resume") then "both"
    else if Contains(answer, "project") then "project"
    else if Contains(answer, "meeting") then "meeting"
    else "resume"
  }

  /** The precedence of the decoder, each outcome with the exact replies that give it:
      "both" needs both knowledge bases mentioned, in either order, and "project" beats
      "meeting", which beats the default. */
  lemma RoutePrecedence(reply: string)
    ensures var a, r := Decision(reply), RouteQuery(reply);
            (r == "both" <==> Contains(a, "project") && Contains(a, "resume"))
            && (r == "project" <==> Contains(a, "project") && !Contains(a, "resume"))
            && (r == "meeting" <==> !Contains(a, "project") && Contains(a, "meeting"))
            && (r == "resume" <==> !Contains(a, "project") && !Contains(a, "meeting"))
  {
  }

  /** The decision ignores letter case in the reply. */
  lemma RouteIgnoresCase(reply: string)
    ensures RouteQuery(Lower(reply)) == RouteQuery(reply)
  {
    LowerStrip(reply);
    LowerIdempotent(Strip(reply));
    assert Decision(Lower(reply)) == Decision(reply);
  }

  /** A word with no surrounding whitespace and no capitals is its own decision text. */
  lemma PlainWordDecision(w: string)
    requires w != [] && w[0] !in Whitespace && w[|w| - 1] !in Whitespace
    requires forall i :: 0 <= i < |w| ==> IsLower(w[i])
    ensures Decision(w) == w
  {
    assert TrimLeft(w, Whitespace) == w;
    assert TrimRight(w, Whitespace) == w;
  }

  /** "project" does not contain "resume" and neither contains "meeting". */
  lemma KeywordsDistinct()
    ensures !Contains("project", "resume") && !Contains("resume", "project")
    ensures !Contains("resume", "meeting") && !Contains("meeting", "project")
    ensures !Contains("both", "project") && !Contains("both", "meeting")
  {
    var p, r, m := "project", "resume", "meeting";
    forall i | 0 <= i <= |p| - |r| ensures !OccursAt(p, r, i) {
      assert p[i..i + |r|][0] != r[0] || p[i..i + |r|][1] != r[1];
    }
    ShortNotContains(r, p);
    ShortNotContains(r, m);
    assert m[0] != p[0];
    assert !OccursAt(m, p, 0);
    ShortNotContains("both", p);
    ShortNotContains("both", m);
  }

  /** The three one-word answers the router is asked for decode to themselves, but the
      fourth, "both", mentions neither knowledge base and so decodes to "resume". */
  lemma KnownRepliesDecode()
    ensures RouteQuery("project") == "project"
    ensures RouteQuery("meeting") == "meeting"
    ensures RouteQuery("resume") == "resume"
    ensures RouteQuery("both") == "resume"
  {
    ProjectReplyDecodes();
    MeetingReplyDecodes();
    ResumeReplyDecodes();
    BothReplyDecodes();
  }

  // One lemma per reply keeps each of these proofs small.

  lemma ProjectReplyDecodes()
    ensures RouteQuery("project") == "project"
  {
    PlainWordDecision("project");
    SelfContains("project");
    KeywordsDistinct();
  }

  lemma MeetingReplyDecodes()
    ensures RouteQuery("meeting") == "meeting"
  {
    PlainWordDecision("meeting");
    SelfContains("meeting");
    KeywordsDistinct();
  }

  lemma ResumeReplyDecodes()
    ensures RouteQuery("resume") == "resume"
  {
    PlainWordDecision("resume");
    KeywordsDistinct();
  }

  lemma BothReplyDecodes()
    ensures RouteQuery("both") == "resume"
  {
    PlainWordDecision("both");
    KeywordsDistinct();
  }

  lemma SelfContains(t: string)
    ensures Contains(t, t)
  {
    assert OccursAt(t, t, 0);
  }

  // ================================================================ grader

  /** The index of the first `c` in `s`, or `|s|` when there is none. */
  function IndexOf(s: string, c: char): (i: nat)
    ensures i <= |s|
    ensures i < |s| ==> s[i] == c
    ensures forall k :: 0 <= k < i ==> s[k] != c
  {
    if s == [] then 0
    else if s[0] == c then 0
    else 1 + IndexOf(s[1..], c)
  }

  /** The index of the last `c` in `s`, or -1 when there is none. */
  function LastIndexOf(s: string, c: char): (i: int)
    ensures -1 <= i < |s|
    ensures i >= 0 ==> s[i] == c
    ensures forall k :: i < k < |s| ==> s[k] != c
  {
    if s == [] then -1
    else if s[|s| - 1] == c then |s| - 1
    else LastIndexOf(s[..|s| - 1], c)
  }

  /** The text `re.search(r'\{[\s\S]*\}', text)` matches: the greedy span from the first
      `{` to the last `}` after it. */
  function BraceSpan(text: string): Option<string> {
    var a := IndexOf(text, '{');
    var b := LastIndexOf(text, '}');
    if a < b then Some(text[a..b + 1]) else None
  }

  /** The span exists exactly when some `{` comes before some `}`; it then starts at the
      first `{` and ends at the last `}`. */
  lemma BraceSpanIsGreedyMatch(text: string)
    ensures BraceSpan(text).Some? <==> exists i, j :: 0 <= i < j < |text| && text[i] == '{' && text[j] == '}'
    ensures BraceSpan(text).Some? ==>
              exists a, b :: 0 <= a < b <= |text| && BraceSpan(text).value == text[a..b]
                && text[a] == '{' && text[b - 1] == '}'
                && (forall k :: 0 <= k < a ==> text[k] != '{')
                && (forall k :: b <= k < |text| ==> text[k] != '}')
  {
    var a := IndexOf(text, '{');
    var b := LastIndexOf(text, '}');
    if a < b {
      assert text[a] == '{' && text[b] == '}';
    }
  }

  /** A JSON object wrapped in prose without braces is found exactly. */
  lemma BraceSpanOfWrapped(before: string, body: string, after: string)
    requires forall k :: 0 <= k < |before| ==> before[k] != '{'
    requires forall k :: 0 <= k < |after| ==> after[k] != '}'
    ensures BraceSpan(before + "{" + body + "}" + after) == Some("{" + body + "}")
  {
    var text := before + "{" + body + "}" + after;
    var a := IndexOf(text, '{');
    var b := LastIndexOf(text, '}');
    assert text[|before|] == '{';
    assert text[|before| + 1 + |body|] == '}';
    assert a == |before| by {
      forall k | 0 <= k < |before| ensures text[k] != '{' { assert text[k] == before[k]; }
    }
    assert b == |before| + 1 + |body| by {
      forall k | |before| + 1 + |body| < k < |text| ensures text[k] != '}' {
        assert text[k] == after[k - |before| - 2 - |body|];
      }
    }
    assert text[a..b + 1] == "{" + body + "}";
  }

  const Unparsable: string := "Could not parse grader response."
  const InvalidJson: string := "Invalid grader JSON"

  /** `grade_answer`'s result: whether the answer passed, and the grading model's feedback. */
  datatype Verdict = Verdict(passed: bool, feedback: Value)

  /** The object the grading model's reply holds, if its brace span parses to one. */
  function ParsedObject(reply: string, parse: string -> Option<Value>): Option<map<string, Value>> {
    match BraceSpan(reply)
    case None => None
    case Some(span) =>
      match parse(span)
      case Some(Obj(m)) => Some(m)
      case _ => None
  }

  /** `grade_answer` after the grading model has replied, with `json.loads` as `parse`.
      Every failure is a failing verdict, never an exception. */
  function GradeAnswer(reply: string, parse: string -> Option<Value>): Verdict {
    match BraceSpan(reply)
    case None => Verdict(false, Str(Unparsable))
    case Some(span) =>
      match parse(span)
      case Some(Obj(m)) =>
        var grade := Get(m, "grade", Str(""));
        // `.lower()` on a non-string raises, which the source reports as invalid JSON
        if grade.Str? then Verdict(Lower(grade.s) == "pass", Get(m, "feedback", Str("")))
        else Verdict(false, Str(InvalidJson))
      case _ => Verdict(false, Str(InvalidJson))
  }

  /** The verdict fails closed: no span, a span that does not parse to an object, or an
      object whose "grade" is not "pass" in any letter case all fail. A text grade carries
      the object's feedback, pass or fail; any other grade reports invalid JSON. */
  lemma GradeFailsClosed(reply: string, parse: string -> Option<Value>)
    ensures var v := GradeAnswer(reply, parse);
            (BraceSpan(reply).None? ==> v == Verdict(false, Str(Unparsable)))
            && (BraceSpan(reply).Some? && ParsedObject(reply, parse).None? ==> v == Verdict(false, Str(InvalidJson)))
            && (ParsedObject(reply, parse).Some? ==>
                  var m := ParsedObject(reply, parse).value;
                  (v.passed <==> "grade" in m && m["grade"].Str? && Lower(m["grade"].s) == "pass")
                  && v.feedback == if Get(m, "grade", Str("")).Str? then Get(m, "feedback", Str(""))
                                   else Str(InvalidJson))
  {
  }

  /** A grade field without a "grade" key fails, whatever else the object says. */
  lemma MissingGradeFails(reply: string, parse: string -> Option<Value>, m: map<string, Value>)
    requires ParsedObject(reply, parse) == Some(m) && "grade" !in m
    ensures GradeAnswer(reply, parse) == Verdict(false, Get(m, "feedback", Str("")))
  {
    assert Lower("") == "";
  }

  /** "PASS" passes: the comparison is made on the lower-cased grade. */
  lemma UpperCasePassPasses(reply: string, parse: string -> Option<Value>, m: map<string, Value>)
    requires ParsedObject(reply, parse) == Some(m) && "grade" in m && m["grade"] == Str("PASS")
    ensures GradeAnswer(reply, parse).passed
  {
    assert Lower("PASS") == "pass";
  }

  // ================================================================ retrieval

  /** The two flat vector indexes `retrieve_answer` may load. */
  datatype IndexName = ResumeIndex | ProjectIndex

  /** The way the pipeline fails: an exception it lets propagate. */
  datatype Failure =
    | ResumeDataMissing  // data/user_data.json could not be opened
    | ModelFailed        // a model call raised

  /** An external call the pipeline makes, with what it passes. */
  datatype RagCall =
    | RouteCall(query: string)
    | SearchCall(index: IndexName, query: string)
    | AnswerCall(context: string, question: string)
    | GradeCall(question: string, answer: string)
    | CorrectCall(feedback: Value, question: string)
    | NotifyCall(subject: string, body: string)

  /** The pipeline's external world as functions of what it passes them. */
  datatype RagServices = RagServices(
    // the router model's reply text for a query
    router: string -> Option<string>,
    // similarity search of each index, when its `.faiss` file exists
    resumeIndex: Option<string -> seq<string>>,
    projectIndex: Option<string -> seq<string>>,
    // the raw text of data/user_data.json, when it can be opened
    rawResume: Option<string>,
    // the answering model on (context, question)
    answerer: (string, string) -> Option<string>,
    // the grading model's reply text on (question, answer)
    grader: (string, string) -> Option<string>,
    // `json.loads`
    parseJson: string -> Option<Value>,
    // the correcting model on (feedback, question)
    corrector: (Value, string) -> Option<string>)

  /** The passages `similarity_search(query, k=4)` returns. */
  const TopK: nat := 4

  const NoEmbeddings: string := "⚠️ No embeddings found. Please re-upload resume or fetch projects first."
  const NothingRelevant: string := "I found the embeddings, but they didn’t contain relevant information for your query."
  const RawResumeHeader: string := "\n\n[Raw Resume Data]\n"

  predicate UsesResume(source: string) { source == "resume" || source == "both" }
  predicate UsesProjects(source: string) { source == "project" || source == "both" }

  /** The indexes loaded for a source, resume first; an index whose file is missing is
      skipped. */
  function Selected(source: string, sv: RagServices): (dbs: seq<IndexName>)
    ensures |dbs| <= 2
    ensures ResumeIndex in dbs <==> UsesResume(source) && sv.resumeIndex.Some?
    ensures ProjectIndex in dbs <==> UsesProjects(source) && sv.projectIndex.Some?
    ensures |dbs| == 2 ==> dbs == [ResumeIndex, ProjectIndex]
  {
    (if UsesResume(source) && sv.resumeIndex.Some? then [ResumeIndex] else [])
    + (if UsesProjects(source) && sv.projectIndex.Some? then [ProjectIndex] else [])
  }

  /** The top passages one index returns for a query. */
  function TopPassages(db: IndexName, query: string, sv: RagServices): (r: seq<string>)
    ensures |r| <= TopK
  {
    var found := match db
      case ResumeIndex => if sv.resumeIndex.Some? then sv.resumeIndex.value(query) else []
      case ProjectIndex => if sv.projectIndex.Some? then sv.projectIndex.value(query) else [];
    if |found| <= TopK then found else found[..TopK]
  }

  /** All passages of the loaded indexes, index by index. */
  function Passages(dbs: seq<IndexName>, query: string, sv: RagServices): (r: seq<string>)
    ensures |r| <= TopK * |dbs|
  {
    if dbs == [] then []
    else Passages(dbs[..|dbs| - 1], query, sv) + TopPassages(dbs[|dbs| - 1], query, sv)
  }

  function SearchCalls(dbs: seq<IndexName>, query: string): (r: seq<RagCall>)
    ensures |r| == |dbs|
    ensures forall i :: 0 <= i < |dbs| ==> r[i] == SearchCall(dbs[i], query)
  {
    seq(|dbs|, i requires 0 <= i < |dbs| => SearchCall(dbs[i], query))
  }

  /** What a step of the pipeline returns, together with the external calls it made. */
  datatype RagStep = RagStep(result: Result<string, Failure>, calls: seq<RagCall>)

  /** The context the answering model sees: the passages, unless the source involves the
      resume, in which case the raw resume replaces them outright. */
  function AnswerContext(source: string, passages: seq<string>, raw: Option<string>): (r: Option<string>)
    ensures !UsesResume(source) ==> r == Some(Join(passages, "\n\n"))
    ensures UsesResume(source) ==> r == if raw.Some? then Some(RawResumeHeader + raw.value) else None
  {
    if UsesResume(source) then
      if raw.Some? then Some(RawResumeHeader + raw.value) else None
    else Some(Join(passages, "\n\n"))
  }

  /** `retrieve_answer` for a query and a routed source. */
  function RetrieveSpec(query: string, source: string, sv: RagServices): RagStep {
    var dbs := Selected(source, sv);
    if dbs == [] then RagStep(Ok(NoEmbeddings), [])
    else
      var passages := Passages(dbs, query, sv);
      AfterSearch(SearchCalls(dbs, query), passages, AnswerContext(source, passages, sv.rawResume), query, sv.answerer)
  }

  /** The rest of `retrieve_answer` once the searches are done. */
  function AfterSearch(searched: seq<RagCall>, passages: seq<string>, context: Option<string>, query: string,
                       answerer: (string, string) -> Option<string>): RagStep
  {
    if passages == [] then RagStep(Ok(NothingRelevant), searched)
    else
      match context
      case None => RagStep(Err(ResumeDataMissing), searched)
      case Some(c) =>
        var calls := searched + [AnswerCall(c, query)];
        match answerer(c, query)
        case None => RagStep(Err(ModelFailed), calls)
        case Some(answer) => RagStep(Ok(answer), calls)
  }

  /** What `retrieve_answer` does in each world: the fixed message, with no search at all,
      exactly when no selected index exists; otherwise one search per loaded index, in
      order, then at most one answering call, on the context `AnswerContext` builds from
      all the passages. */
  lemma RetrievalShape(query: string, source: string, sv: RagServices)
    ensures var r, dbs := RetrieveSpec(query, source, sv), Selected(source, sv);
            var context := AnswerContext(source, Passages(dbs, query, sv), sv.rawResume);
            (r.result == Ok(NoEmbeddings) && r.calls == [] <==> dbs == [])
            && |r.calls| >= |dbs| && r.calls[..|dbs|] == SearchCalls(dbs, query)
            && (|r.calls| == |dbs|
                || (|r.calls| == |dbs| + 1 && context.Some? && r.calls[|dbs|] == AnswerCall(context.value, query)))
  {
    var dbs := Selected(source, sv);
    if dbs != [] {
      var searched := SearchCalls(dbs, query);
      var passages := Passages(dbs, query, sv);
      var context := AnswerContext(source, passages, sv.rawResume);
      var r := AfterSearch(searched, passages, context, query, sv.answerer);
      assert r.calls == searched || r.calls == searched + [AnswerCall(context.value, query)];
      assert r.calls[..|dbs|] == searched;
    }
  }

  /** `retrieve_answer` only searches and answers. */
  lemma RetrievalCallKinds(query: string, source: string, sv: RagServices)
    ensures var calls := RetrieveSpec(query, source, sv).calls;
            forall i :: 0 <= i < |calls| ==> calls[i].SearchCall? || calls[i].AnswerCall?
  {
    var dbs := Selected(source, sv);
    if dbs != [] {
      var searched := SearchCalls(dbs, query);
      var passages := Passages(dbs, query, sv);
      var context := AnswerContext(source, passages, sv.rawResume);
      var calls := AfterSearch(searched, passages, context, query, sv.answerer).calls;
      assert calls == searched || (context.Some? && calls == searched + [AnswerCall(context.value, query)]);
    }
  }

  /** At most four passages come from each index, so at most eight in all. */
  lemma AtMostFourPerIndex(query: string, source: string, sv: RagServices)
    ensures |Passages(Selected(source, sv), query, sv)| <= TopK * |Selected(source, sv)| <= 8
  {
  }

  /** With a resume source the retrieved passages never reach the answering model: two
      worlds that differ only in their search results ask it the same thing. */
  lemma {:induction false} ResumeContextDiscardsPassages(query: string, source: string, sv: RagServices, sv': RagServices)
    requires UsesResume(source)
    requires sv' == sv.(resumeIndex := sv'.resumeIndex, projectIndex := sv'.projectIndex)
    requires sv.resumeIndex.Some? <==> sv'.resumeIndex.Some?
    requires sv.projectIndex.Some? <==> sv'.projectIndex.Some?
    requires Passages(Selected(source, sv), query, sv) != [] && Passages(Selected(source, sv'), query, sv') != []
    ensures RetrieveSpec(query, source, sv) == RetrieveSpec(query, source, sv')
  {
    assert Selected(source, sv) == Selected(source, sv');
  }

  /** The loop of `retrieve_answer` that extends the passage list index by index. */
  method SearchAll(dbs: seq<IndexName>, query: string, sv: RagServices) returns (allDocs: seq<string>, calls: seq<RagCall>)
    ensures allDocs == Passages(dbs, query, sv)
    ensures calls == SearchCalls(dbs, query)
  {
    allDocs, calls := [], [];
    for i := 0 to |dbs|
      invariant allDocs == Passages(dbs[..i], query, sv)
      invariant calls == SearchCalls(dbs[..i], query)
    {
      assert dbs[..i + 1][..i] == dbs[..i];
      allDocs := allDocs + TopPassages(dbs[i], query, sv);
      calls := calls + [SearchCall(dbs[i], query)];
    }
    assert dbs[..|dbs|] == dbs;
  }

  /** `retrieve_answer`: load the selected indexes, collect up to four passages from each,
      build the context and ask the answering model. */
  method RetrieveAnswer(query: string, source: string, sv: RagServices) returns (result: Result<string, Failure>, calls: seq<RagCall>)
    ensures RagStep(result, calls) == RetrieveSpec(query, source, sv)
  {
    var dbs: seq<IndexName> := [];
    if UsesResume(source) && sv.resumeIndex.Some? {
      dbs := dbs + [ResumeIndex];
    }
    if UsesProjects(source) && sv.projectIndex.Some? {
      dbs := dbs + [ProjectIndex];
    }
    assert dbs == Selected(source, sv);
    if dbs == [] {
      return Ok(NoEmbeddings), [];
    }
    var allDocs;
    allDocs, calls := SearchAll(dbs, query, sv);
    result, calls := AnswerFrom(calls, allDocs, source, sv.rawResume, query, sv.answerer);
  }

  /** The part of `retrieve_answer` after the searches: build the context and ask the model. */
  method AnswerFrom(searched: seq<RagCall>, allDocs: seq<string>, source: string, raw: Option<string>, query: string,
                    answerer: (string, string) -> Option<string>)
    returns (result: Result<string, Failure>, calls: seq<RagCall>)
    ensures RagStep(result, calls) == AfterSearch(searched, allDocs, AnswerContext(source, allDocs, raw), query, answerer)
  {
    calls := searched;
    if allDocs == [] {
      return Ok(NothingRelevant), calls;
    }
    var context := Join(allDocs, "\n\n");
    if UsesResume(source) {
      if raw.None? {
        return Err(ResumeDataMissing), calls;
      }
      context := RawResumeHeader + raw.value;
    }
    calls := calls + [AnswerCall(context, query)];
    var reply := answerer(context, query);
    if reply.None? {
      return Err(ModelFailed), calls;
    }
    return Ok(reply.value), calls;
  }

  // ================================================================ pipeline

  const MeetingSubject: string := "\U{1F4C5} Congrats Meeting Scheduled Notification"
  const MeetingBody: string :=
    "Hello,\n\nA meeting has been successfully scheduled as per your request.\n\n"
    + "Details will follow shortly.\n\nBest,\nAgentic RAG Bot \U{1F916}"
  const MeetingScheduled: string := "✅ Meeting scheduled! Email notification sent."

  /** `meeting_scheduler_node`: the one notification it sends. */
  function MeetingNotice(): (c: RagCall)
    ensures c.NotifyCall? && c.subject == MeetingSubject && c.body == MeetingBody
  {
    NotifyCall(MeetingSubject, MeetingBody)
  }

  /** The three decisions the pipeline composes: decoding the router's reply, retrieving
      and answering for a routed source, and reading the grading model's reply. */
  datatype Agents = Agents(route: string -> string, retrieve: (string, string) -> RagStep, grade: string -> Verdict)

  function AgentsOf(sv: RagServices): Agents {
    Agents(RouteQuery, (query, source) => RetrieveSpec(query, source, sv), reply => GradeAnswer(reply, sv.parseJson))
  }

  /** `agentic_rag_pipeline`: route, then either schedule a meeting or retrieve, grade and
      correct once. */
  function Pipeline(query: string, sv: RagServices): RagStep {
    PipelineWith(query, sv, AgentsOf(sv))
  }

  function PipelineWith(query: string, sv: RagServices, ag: Agents): RagStep {
    match sv.router(query)
    case None => RagStep(Err(ModelFailed), [RouteCall(query)])
    case Some(reply) =>
      var source := ag.route(reply);
      if source == "meeting" then RagStep(Ok(MeetingScheduled), [RouteCall(query), MeetingNotice()])
      else
        var retrieved := ag.retrieve(query, source);
        var before := [RouteCall(query)] + retrieved.calls;
        match retrieved.result
        case Err(e) => RagStep(Err(e), before)
        case Ok(answer) => Review(query, answer, sv, ag.grade, before)
  }

  /** Grading a retrieved answer after the calls `before`, and correcting it once when the
      verdict fails. */
  function Review(query: string, answer: string, sv: RagServices, grade: string -> Verdict,
                  before: seq<RagCall>): RagStep
  {
    var graded := before + [GradeCall(query, answer)];
    match sv.grader(query, answer)
    case None => RagStep(Err(ModelFailed), graded)
    case Some(g) =>
      var verdict := grade(g);
      if verdict.passed then RagStep(Ok(answer), graded)
      else
        var corrected := graded + [CorrectCall(verdict.feedback, query)];
        match sv.corrector(verdict.feedback, query)
        case None => RagStep(Err(ModelFailed), corrected)
        case Some(c) => RagStep(Ok(c), corrected)
  }

  /** The pipeline with the answer reassigned on a failed grade. */
  method AgenticRagPipeline(query: string, sv: RagServices) returns (result: Result<string, Failure>, calls: seq<RagCall>)
    ensures RagStep(result, calls) == Pipeline(query, sv)
  {
    calls := [RouteCall(query)];
    var reply := sv.router(query);
    if reply.None? {
      return Err(ModelFailed), calls;
    }
    var source := RouteQuery(reply.value);
    if source == "meeting" {
      calls := calls + [MeetingNotice()];
      return Ok(MeetingScheduled), calls;
    }
    var retrieved, searchCalls := RetrieveAnswer(query, source, sv);
    assert AgentsOf(sv).retrieve(query, source) == RagStep(retrieved, searchCalls);
    calls := calls + searchCalls;
    if retrieved.Err? {
      return retrieved, calls;
    }
    result, calls := ReviewAnswer(query, retrieved.value, sv, AgentsOf(sv).grade, calls);
  }

  /** The grading and the single correction, with the answer reassigned when the verdict
      fails. */
  method ReviewAnswer(query: string, answer: string, sv: RagServices, grade: string -> Verdict,
                      before: seq<RagCall>)
    returns (result: Result<string, Failure>, calls: seq<RagCall>)
    ensures RagStep(result, calls) == Review(query, answer, sv, grade, before)
  {
    calls := before + [GradeCall(query, answer)];
    var g := sv.grader(query, answer);
    if g.None? {
      return Err(ModelFailed), calls;
    }
    var verdict := grade(g.value);
    var reply := answer;
    if !verdict.passed {
      calls := calls + [CorrectCall(verdict.feedback, query)];
      var c := sv.corrector(verdict.feedback, query);
      if c.None? {
        return Err(ModelFailed), calls;
      }
      reply := c.value;
    }
    return Ok(reply), calls;
  }

  /** A meeting request sends exactly one notification and neither searches, answers nor
      grades. */
  lemma MeetingShortCircuit(query: string, sv: RagServices)
    requires sv.router(query).Some? && RouteQuery(sv.router(query).value) == "meeting"
    ensures Pipeline(query, sv) == RagStep(Ok(MeetingScheduled), [RouteCall(query), MeetingNotice()])
  {
  }

  /** A passing grade returns the retrieved answer unchanged; the calls end with the one
      grading call, so nothing is corrected. */
  lemma PassingAnswerUnchanged(query: string, sv: RagServices)
    requires sv.router(query).Some?
    requires var source := RouteQuery(sv.router(query).value);
             var retrieved := RetrieveSpec(query, source, sv);
             source != "meeting" && retrieved.result.Ok?
             && sv.grader(query, retrieved.result.value).Some?
             && GradeAnswer(sv.grader(query, retrieved.result.value).value, sv.parseJson).passed
    ensures var retrieved := RetrieveSpec(query, RouteQuery(sv.router(query).value), sv);
            Pipeline(query, sv)
              == RagStep(retrieved.result, [RouteCall(query)] + retrieved.calls + [GradeCall(query, retrieved.result.value)])
  {
  }

  /** A failing grade makes exactly one correction call, passing the grading model's feedback,
      and returns its reply without grading again. */
  lemma FailingAnswerCorrected(query: string, sv: RagServices)
    requires sv.router(query).Some?
    requires var source := RouteQuery(sv.router(query).value);
             var retrieved := RetrieveSpec(query, source, sv);
             source != "meeting" && retrieved.result.Ok?
             && sv.grader(query, retrieved.result.value).Some?
             && !GradeAnswer(sv.grader(query, retrieved.result.value).value, sv.parseJson).passed
    ensures var retrieved := RetrieveSpec(query, RouteQuery(sv.router(query).value), sv);
            var answer := retrieved.result.value;
            var feedback := GradeAnswer(sv.grader(query, answer).value, sv.parseJson).feedback;
            Pipeline(query, sv).calls
              == [RouteCall(query)] + retrieved.calls + [GradeCall(query, answer), CorrectCall(feedback, query)]
            && Pipeline(query, sv).result
              == match sv.corrector(feedback, query) case Some(c) => Ok(c) case None => Err(ModelFailed)
  {
  }

  /** In every run a grading call is followed by nothing but possibly one correction: at
      most one grade and at most one correction, never a second grade. */
  lemma RetryAtMostOnce(query: string, sv: RagServices)
    ensures GradedAtMostOnce(Pipeline(query, sv).calls)
  {
    var ag := RealAgents(query, sv);
    RetryAtMostOnceWith(query, sv, ag);
  }

  /** After a grading call there is at most one more call, and it is a correction: a
      second grade, or anything else, never follows. */
  predicate GradedAtMostOnce(calls: seq<RagCall>) {
    forall i, j :: 0 <= i < j < |calls| && calls[i].GradeCall? ==> j == i + 1 && calls[j].CorrectCall?
  }

  /** A correction comes last, right after a grading call whose verdict failed. */
  lemma CorrectionFollowsFailedGrade(query: string, sv: RagServices)
    ensures var calls := Pipeline(query, sv).calls;
            forall i :: 0 <= i < |calls| && calls[i].CorrectCall? ==>
              i == |calls| - 1 && i >= 1 && calls[i - 1].GradeCall?
              && sv.grader(query, calls[i - 1].answer).Some?
              && !GradeAnswer(sv.grader(query, calls[i - 1].answer).value, sv.parseJson).passed
  {
    var ag := RealAgents(query, sv);
    RetryAtMostOnceWith(query, sv, ag);
    assert forall x :: ag.grade(x) == GradeAnswer(x, sv.parseJson);
  }

  /** The agents of the real pipeline meet the hypothesis of `RetryAtMostOnceWith`. */
  lemma RealAgents(query: string, sv: RagServices) returns (ag: Agents)
    ensures ag == AgentsOf(sv)
    ensures Pipeline(query, sv) == PipelineWith(query, sv, ag)
    ensures sv.router(query).Some? ==> SearchesAndAnswers(ag.retrieve(query, ag.route(sv.router(query).value)).calls)
  {
    ag := AgentsOf(sv);
    if sv.router(query).Some? {
      var source := RouteQuery(sv.router(query).value);
      RetrievalCallKinds(query, source, sv);
      assert ag.retrieve(query, ag.route(sv.router(query).value)) == RetrieveSpec(query, source, sv);
    }
  }

  predicate SearchesAndAnswers(calls: seq<RagCall>) {
    forall i :: 0 <= i < |calls| ==> calls[i].SearchCall? || calls[i].AnswerCall?
  }

  /** The retry rule holds whatever the agents decide, as long as retrieval itself never
      grades or corrects. */
  lemma {:induction false} RetryAtMostOnceWith(query: string, sv: RagServices, ag: Agents)
    requires sv.router(query).Some? ==> SearchesAndAnswers(ag.retrieve(query, ag.route(sv.router(query).value)).calls)
    ensures GradedAtMostOnce(PipelineWith(query, sv, ag).calls)
    ensures var calls := PipelineWith(query, sv, ag).calls;
            forall i :: 0 <= i < |calls| && calls[i].CorrectCall? ==>
              i == |calls| - 1 && i >= 1 && calls[i - 1].GradeCall?
              && sv.grader(query, calls[i - 1].answer).Some?
              && !ag.grade(sv.grader(query, calls[i - 1].answer).value).passed
  {
    var r := PipelineWith(query, sv, ag);
    if sv.router(query).None? || ag.route(sv.router(query).value) == "meeting" {
      TailShape(r.calls, []);
      assert r.calls + [] == r.calls;
    } else {
      var retrieved := ag.retrieve(query, ag.route(sv.router(query).value));
      var before := [RouteCall(query)] + retrieved.calls;
      assert forall i :: 0 < i < |before| ==> before[i] == retrieved.calls[i - 1];
      if retrieved.result.Err? {
        TailShape(before, []);
        assert r.calls == before + [];
      } else {
        var answer := retrieved.result.value;
        var g := sv.grader(query, answer);
        if g.None? || ag.grade(g.value).passed {
          TailShape(before, [GradeCall(query, answer)]);
          assert r.calls == before + [GradeCall(query, answer)];
        } else {
          var tail := [GradeCall(query, answer), CorrectCall(ag.grade(g.value).feedback, query)];
          TailShape(before, tail);
          assert r.calls == before + tail;
        }
      }
    }
  }

  /** Calls free of grading and correction, followed by at most a grading call and then at
      most a correction. */
  lemma TailShape(before: seq<RagCall>, tail: seq<RagCall>)
    requires forall i :: 0 <= i < |before| ==> !before[i].GradeCall? && !before[i].CorrectCall?
    requires tail == [] || (|tail| == 1 && tail[0].GradeCall?)
             || (|tail| == 2 && tail[0].GradeCall? && tail[1].CorrectCall?)
    ensures GradedAtMostOnce(before + tail)
    ensures var calls := before + tail;
            forall i :: 0 <= i < |calls| && calls[i].CorrectCall? ==>
              i == |calls| - 1 && i >= 1 && calls[i - 1] == tail[0]
  {
  }

  // ================================================================ resume text

  /** One education entry of the stored resume; an absent key is `None`. */
  datatype Education = Education(degree: Option<string>, institution: Option<string>,
                                 period: Option<string>, cgpa: Option<string>)

  /** One experience entry, with its bullet items (`[]` when absent). */
  datatype Experience = Experience(role: Option<string>, company: Option<string>,
                                   start: Option<string>, end: Option<string>, items: seq<string>)

  /** One achievement, with the items joined by spaces. */
  datatype Achievement = Achievement(title: Option<string>, items: seq<string>)

  /** The stored resume (data/user_data.json) as `load_user_resume_json` reads it. */
  datatype ResumeData = ResumeData(name: Option<string>, email: Option<string>, phone: Option<string>,
                                   education: seq<Education>, experience: seq<Experience>,
                                   achievements: seq<Achievement>)

  const EducationHeading: string := "\nEducation:"
  const ExperienceHeading: string := "\nExperience:"
  const AchievementsHeading: string := "\nAchievements:"

  function ContactLines(d: ResumeData): seq<string> {
    ["Name: " + d.name.GetOr("N/A"), "Email: " + d.email.GetOr("N/A"), "Phone: " + d.phone.GetOr("N/A")]
  }

  function EducationLine(e: Education): string {
    "- " + e.degree.GetOr("") + " from " + e.institution.GetOr("") + " (" + e.period.GetOr("")
    + "), CGPA: " + e.cgpa.GetOr("")
  }

  function ExperienceLine(x: Experience): string {
    "- " + x.role.GetOr("") + " at " + x.company.GetOr("") + " (" + x.start.GetOr("") + " - "
    + x.end.GetOr("") + ")"
  }

  function ItemLine(item: string): string {
    "  • " + item
  }

  function AchievementLine(a: Achievement): string {
    "- " + a.title.GetOr("") + ": " + Join(a.items, " ")
  }

  function EducationLines(es: seq<Education>): seq<string> {
    if es == [] then [] else EducationLines(es[..|es| - 1]) + [EducationLine(es[|es| - 1])]
  }

  function ItemLines(items: seq<string>): seq<string> {
    if items == [] then [] else ItemLines(items[..|items| - 1]) + [ItemLine(items[|items| - 1])]
  }

  function ExperienceBlock(x: Experience): seq<string> {
    [ExperienceLine(x)] + ItemLines(x.items)
  }

  function ExperienceLines(xs: seq<Experience>): seq<string> {
    if xs == [] then [] else ExperienceLines(xs[..|xs| - 1]) + ExperienceBlock(xs[|xs| - 1])
  }

  function AchievementLines(achs: seq<Achievement>): seq<string> {
    if achs == [] then [] else AchievementLines(achs[..|achs| - 1]) + [AchievementLine(achs[|achs| - 1])]
  }

  /** The lines `load_user_resume_json` collects before joining them. */
  function ResumeSections(d: ResumeData): seq<string> {
    ContactLines(d) + [EducationHeading] + EducationLines(d.education)
    + [ExperienceHeading] + ExperienceLines(d.experience)
    + [AchievementsHeading] + AchievementLines(d.achievements)
  }

  /** The number of lines the experience part takes: one per entry and one per item. */
  function ExperienceLineCount(xs: seq<Experience>): nat {
    if xs == [] then 0 else ExperienceLineCount(xs[..|xs| - 1]) + 1 + |xs[|xs| - 1].items|
  }

  lemma {:induction false} EducationLinesAt(es: seq<Education>)
    ensures |EducationLines(es)| == |es|
    ensures forall i :: 0 <= i < |es| ==> EducationLines(es)[i] == EducationLine(es[i])
  {
    if es != [] {
      EducationLinesAt(es[..|es| - 1]);
    }
  }

  lemma {:induction false} ItemLinesAt(items: seq<string>)
    ensures |ItemLines(items)| == |items|
    ensures forall i :: 0 <= i < |items| ==> ItemLines(items)[i] == ItemLine(items[i])
  {
    if items != [] {
      ItemLinesAt(items[..|items| - 1]);
    }
  }

  lemma {:induction false} ExperienceLinesCount(xs: seq<Experience>)
    ensures |ExperienceLines(xs)| == ExperienceLineCount(xs)
  {
    if xs != [] {
      ExperienceLinesCount(xs[..|xs| - 1]);
      ItemLinesAt(xs[|xs| - 1].items);
    }
  }

  /** The lines of the first `k` entries begin the lines of all of them. */
  lemma {:induction false} ExperienceLinesPrefix(xs: seq<Experience>, k: int)
    requires 0 <= k <= |xs|
    ensures ExperienceLines(xs[..k]) <= ExperienceLines(xs)
    decreases |xs|
  {
    if k == |xs| {
      assert xs[..k] == xs;
    } else {
      var init := xs[..|xs| - 1];
      ExperienceLinesPrefix(init, k);
      assert init[..k] == xs[..k];
    }
  }

  /** Entry `i` of the experience list starts right after the lines of the entries before
      it, with its block: its own line, then one line per item. */
  lemma ExperienceEntryAt(xs: seq<Experience>, i: int)
    requires 0 <= i < |xs|
    ensures var e, off := ExperienceLines(xs), ExperienceLineCount(xs[..i]);
            && off + |ExperienceBlock(xs[i])| <= |e|
            && e[off..off + |ExperienceBlock(xs[i])|] == ExperienceBlock(xs[i])
  {
    var upto := xs[..i + 1];
    assert upto[..i] == xs[..i] && upto[i] == xs[i];
    ExperienceLinesPrefix(xs, i + 1);
    ExperienceLinesCount(xs[..i]);
    SliceAfterPrefix(ExperienceLines(xs), ExperienceLines(xs[..i]), ExperienceBlock(xs[i]));
  }

  lemma {:induction false} AchievementLinesAt(achs: seq<Achievement>)
    ensures |AchievementLines(achs)| == |achs|
    ensures forall i :: 0 <= i < |achs| ==> AchievementLines(achs)[i] == AchievementLine(achs[i])
  {
    if achs != [] {
      AchievementLinesAt(achs[..|achs| - 1]);
    }
  }

  /** The rendered resume is its front part (contacts and education) followed by its back
      part (experience and achievements). */
  lemma ResumeLayout(d: ResumeData)
    ensures ResumeSections(d) == ResumeFront(d) + ResumeBack(d)
    ensures |ResumeSections(d)| == 6 + |d.education| + ExperienceLineCount(d.experience) + |d.achievements|
  {
    EducationLinesAt(d.education);
    ExperienceLinesCount(d.experience);
    AchievementLinesAt(d.achievements);
  }

  function ResumeFront(d: ResumeData): seq<string> {
    ContactLines(d) + [EducationHeading] + EducationLines(d.education)
  }

  function ResumeBack(d: ResumeData): seq<string> {
    [ExperienceHeading] + ExperienceLines(d.experience) + [AchievementsHeading] + AchievementLines(d.achievements)
  }

  /** Three contact lines, with "N/A" for a missing one, then the education heading and
      one line per education entry. */
  lemma ResumeFrontLines(d: ResumeData)
    ensures var s := ResumeFront(d);
            |s| == 4 + |d.education|
            && s[0] == "Name: " + d.name.GetOr("N/A")
            && s[1] == "Email: " + d.email.GetOr("N/A")
            && s[2] == "Phone: " + d.phone.GetOr("N/A")
            && s[3] == EducationHeading
            && (forall i :: 0 <= i < |d.education| ==> s[4 + i] == EducationLine(d.education[i]))
  {
    EducationLinesAt(d.education);
  }

  /** The experience heading, the experience lines (each entry followed by its items),
      then the achievements heading and one line per achievement. */
  lemma ResumeBackLines(d: ResumeData)
    ensures var s, x := ResumeBack(d), ExperienceLineCount(d.experience);
            |s| == 2 + x + |d.achievements|
            && s[0] == ExperienceHeading
            && s[1..1 + x] == ExperienceLines(d.experience)
            && s[1 + x] == AchievementsHeading
            && (forall i :: 0 <= i < |d.achievements| ==> s[2 + x + i] == AchievementLine(d.achievements[i]))
  {
    ExperienceLinesCount(d.experience);
    AchievementLinesAt(d.achievements);
  }

  /** `load_user_resume_json`, given the file's contents when it exists: "" when it does
      not, else the collected lines joined by newlines. */
  method LoadUserResumeJson(data: Option<ResumeData>) returns (text: string)
    ensures data.None? ==> text == ""
    ensures data.Some? ==> text == Join(ResumeSections(data.value), "\n")
  {
    if data.None? {
      return "";
    }
    var d := data.value;
    var sections: seq<string> := [];
    sections := sections + ["Name: " + d.name.GetOr("N/A")];
    sections := sections + ["Email: " + d.email.GetOr("N/A")];
    sections := sections + ["Phone: " + d.phone.GetOr("N/A")];
    sections := sections + [EducationHeading];
    assert sections == ContactLines(d) + [EducationHeading];
    sections := AppendEducation(sections, d.education);
    sections := sections + [ExperienceHeading];
    sections := AppendExperience(sections, d.experience);
    sections := sections + [AchievementsHeading];
    sections := AppendAchievements(sections, d.achievements);
    assert sections == ResumeSections(d);
    return Join(sections, "\n");
  }

  /** The education loop of `load_user_resume_json`. */
  method AppendEducation(sections: seq<string>, es: seq<Education>) returns (out: seq<string>)
    ensures out == sections + EducationLines(es)
  {
    out := sections;
    for i := 0 to |es|
      invariant out == sections + EducationLines(es[..i])
    {
      assert es[..i + 1][..i] == es[..i];
      out := out + [EducationLine(es[i])];
    }
    assert es[..|es|] == es;
  }

  /** The experience loop of `load_user_resume_json`, with its inner loop over items. */
  method AppendExperience(sections: seq<string>, xs: seq<Experience>) returns (out: seq<string>)
    ensures out == sections + ExperienceLines(xs)
  {
    out := sections;
    for i := 0 to |xs|
      invariant out == sections + ExperienceLines(xs[..i])
    {
      assert xs[..i + 1][..i] == xs[..i];
      out := out + [ExperienceLine(xs[i])];
      out := AppendItems(out, xs[i].items);
    }
    assert xs[..|xs|] == xs;
  }

  method AppendItems(sections: seq<string>, items: seq<string>) returns (out: seq<string>)
    ensures out == sections + ItemLines(items)
  {
    out := sections;
    for j := 0 to |items|
      invariant out == sections + ItemLines(items[..j])
    {
      assert items[..j + 1][..j] == items[..j];
      out := out + [ItemLine(items[j])];
    }
    assert items[..|items|] == items;
  }

  /** The achievements loop of `load_user_resume_json`. */
  method AppendAchievements(sections: seq<string>, achs: seq<Achievement>) returns (out: seq<string>)
    ensures out == sections + AchievementLines(achs)
  {
    out := sections;
    for i := 0 to |achs|
      invariant out == sections + AchievementLines(achs[..i])
    {
      assert achs[..i + 1][..i] == achs[..i];
      out := out + [AchievementLine(achs[i])];
    }
    assert achs[..|achs|] == achs;
  }
}
