/** The record threaded through the document question-answering graph, the external
    services its nodes call, and the calls they make. */
module GraphState {
  import opened Wrappers
  import opened Json

  /** `GraphState` (a `TypedDict` with `total=False`): every field may be absent.
      `email` and `message` are not declared there but `send_email_node` reads them. */
  datatype State = State(
    question: Option<string>,
    documents: Option<seq<string>>,
    solution: Option<string>,
    phoneNumber: Option<string>,
    emailId: Option<string>,
    linkedin: Option<string>,
    github: Option<string>,
    otherLinks: Option<seq<string>>,
    ugCgpa: Option<real>,
    projects: Option<seq<Value>>,
    route: Option<string>,
    latexCode: Option<string>,
    email: Option<string>,
    message: Option<string>)

  /** The input a run starts from: `{"question": question}`. */
  function Initial(question: string): State {
    State(Some(question), None, None, None, None, None, None, None, None, None, None, None, None, None)
  }

  /** `state.get("question", "")`. */
  function Question(s: State): string {
    s.question.GetOr("")
  }

  /** `state.get("documents", [])`. */
  function Documents(s: State): seq<string> {
    s.documents.GetOr([])
  }

  /** What the contact-extraction chain returns when it succeeds: each key may be absent. */
  datatype Contact = Contact(
    phoneNumber: Option<string>,
    emailId: Option<string>,
    linkedin: Option<string>,
    github: Option<string>,
    otherLinks: Option<seq<string>>)

  /** The external services, as functions of what the nodes pass them. A `None` reply
      means the call raised an exception. */
  datatype Services = Services(
    // `[doc.page_content for doc in retriever.invoke(question)]`
    retriever: string -> seq<string>,
    // relevance grader chain on (question, document)
    grader: (string, string) -> Option<string>,
    // contact extraction chain on the joined documents
    contactExtractor: string -> Option<Contact>,
    // CGPA extraction chain on the joined documents
    cgpaExtractor: string -> Option<string>,
    // Python's `float(text)`; `None` when it raises
    parseFloat: string -> Option<real>,
    // `fetch_and_analyze_github(username)`
    fetchProjects: string -> seq<Value>,
    // answer chain on (context, question)
    generator: (string, string) -> Option<string>)

  /** An external call a node makes, with the arguments it passes. */
  datatype Call =
    | RetrieverCall(query: string)
    | GraderCall(question: string, document: string)
    | ContactExtractorCall(text: string)
    | CgpaExtractorCall(text: string)
    | FetchCall(username: string)
    | MailCall(recipient: string, subject: string, body: string)
    | GeneratorCall(context: string, question: string)

  /** What a node returns, together with the external calls it made, in order. */
  datatype Step = Step(state: State, calls: seq<Call>)

  const NotMentioned: string := "Not mentioned"

  /** Python's `a or b or ""` on two optional strings. */
  function OrString(a: Option<string>, b: Option<string>): (r: string)
    ensures r == "" <==> (a.None? || a.value == "") && (b.None? || b.value == "")
    ensures a.Some? && a.value != "" ==> r == a.value
  {
    if a.Some? && a.value != "" then a.value
    else if b.Some? && b.value != "" then b.value
    else ""
  }
}
