/** `retrieve_docs`: fetch passages for the question, or none for an empty question. */
module Retrieval {
  import opened Wrappers
  import opened GraphState

  function RetrieveNode(s: State, sv: Services): (r: Step)
    ensures r.state.(documents := s.documents) == s
    ensures r.state.documents.Some?
    ensures Question(s) == "" ==> r.state.documents == Some([]) && r.calls == []
    ensures Question(s) != "" ==> r.calls == [RetrieverCall(Question(s))]
    ensures Question(s) != "" ==> r.state.documents == Some(sv.retriever(Question(s)))
  {
    var q := Question(s);
    if q == "" then Step(s.(documents := Some([])), [])
    else Step(s.(documents := Some(sv.retriever(q))), [RetrieverCall(q)])
  }
}

/** `grade_documents`: ask the grading model about each passage and keep the ones it affirms. */
module Grading {
  import opened Wrappers
  import opened Seqs
  import opened Text
  import opened GraphState

  /** A grader reply keeps its document when, lower-cased, it contains "yes"; a grader
      that raised keeps nothing. */
  predicate Affirms(reply: Option<string>) {
    reply.Some? && Contains(Lower(reply.value), "yes")
  }

  function Relevant(q: string, docs: seq<string>, sv: Services): seq<string> {
    Filter(docs, d => Affirms(sv.grader(q, d)))
  }

  /** One grader call per document, in order, each with the same question. */
  function GraderCalls(q: string, docs: seq<string>): (r: seq<Call>)
    ensures |r| == |docs|
    ensures forall i :: 0 <= i < |docs| ==> r[i] == GraderCall(q, docs[i])
  {
    seq(|docs|, i requires 0 <= i < |docs| => GraderCall(q, docs[i]))
  }

  /** The node as a state transformer. */
  function GradeNode(s: State, sv: Services): (r: Step)
    ensures r.calls == GraderCalls(Question(s), Documents(s))
    ensures r.state.(documents := s.documents, route := s.route) == s
    ensures r.state.route == Some("retrieve") || r.state.route == Some("generate")
    ensures r.state.route == Some("retrieve") <==> Relevant(Question(s), Documents(s), sv) == []
    ensures r.state.route == Some("retrieve") ==> r.state.documents == s.documents
    ensures r.state.route == Some("generate") ==>
              r.state.documents == Some(Relevant(Question(s), Documents(s), sv)) && Documents(r.state) != []
  {
    var q := Question(s);
    var docs := Documents(s);
    var relevant := Relevant(q, docs, sv);
    if relevant == [] then Step(s.(route := Some("retrieve")), GraderCalls(q, docs))
    else Step(s.(documents := Some(relevant), route := Some("generate")), GraderCalls(q, docs))
  }

  /** The loop as the source writes it: one grader call per document, appending each
      affirmed document to `relevant_docs`; an exception drops that document only. */
  method GradeDocuments(s: State, sv: Services) returns (r: Step)
    ensures r == GradeNode(s, sv)
  {
    var q := Question(s);
    var docs := Documents(s);
    var relevant: seq<string> := [];
    var calls: seq<Call> := [];
    for i := 0 to |docs|
      invariant relevant == Relevant(q, docs[..i], sv)
      invariant calls == GraderCalls(q, docs[..i])
    {
      var d := docs[i];
      calls := calls + [GraderCall(q, d)];
      var score := sv.grader(q, d);
      if score.Some? && Contains(Lower(score.value), "yes") {
        relevant := relevant + [d];
      }
      assert docs[..i + 1] == docs[..i] + [d];
      FilterConcat(docs[..i], [d], d => Affirms(sv.grader(q, d)));
    }
    assert docs[..|docs|] == docs;
    if relevant == [] {
      r := Step(s.(route := Some("retrieve")), calls);
    } else {
      r := Step(s.(documents := Some(relevant), route := Some("generate")), calls);
    }
  }

  /** A document is kept exactly when the grading model affirms it, the kept documents appear in
      their original order, and each kept value keeps all its copies. */
  lemma {:induction false} RelevantIsAffirmedSubsequence(q: string, docs: seq<string>, sv: Services)
    ensures forall d :: d in Relevant(q, docs, sv) <==> d in docs && Affirms(sv.grader(q, d))
    ensures IsSubsequence(Relevant(q, docs, sv), docs)
    ensures forall d :: multiset(Relevant(q, docs, sv))[d] ==
                        if Affirms(sv.grader(q, d)) then multiset(docs)[d] else 0
  {
    var keep := d => Affirms(sv.grader(q, d));
    FilterIsSubsequence(docs, keep);
    forall d ensures multiset(Relevant(q, docs, sv))[d] == if keep(d) then multiset(docs)[d] else 0 {
      FilterCount(docs, keep, d);
    }
    forall d ensures d in Relevant(q, docs, sv) <==> d in docs && keep(d) {
      FilterCount(docs, keep, d);
    }
  }

  /** Unlike a "no relevant documents clears the context" reading, a failed grading keeps
      the irrelevant passages in `documents` while routing back to retrieval. */
  lemma GradeKeepsIrrelevantDocuments(s: State, sv: Services)
    requires Documents(s) != [] && Relevant(Question(s), Documents(s), sv) == []
    ensures GradeNode(s, sv).state.route == Some("retrieve")
    ensures Documents(GradeNode(s, sv).state) != []
  {
  }
}

/** `extract_contact_details` and `extract_ug_cgpa`: structured facts from the joined
    passages, with sentinels instead of exceptions. */
module Extraction {
  import opened Wrappers
  import opened Seqs
  import opened Text
  import opened GraphState

  /** `"\n".join(state.get("documents", []))`. */
  function ResumeText(s: State): string {
    Join(Documents(s), "\n")
  }

  function ExtractContactNode(s: State, sv: Services): (r: Step)
    ensures r.calls == [ContactExtractorCall(ResumeText(s))]
    ensures r.state.(phoneNumber := s.phoneNumber, emailId := s.emailId, linkedin := s.linkedin,
                     github := s.github, otherLinks := s.otherLinks) == s
    ensures sv.contactExtractor(ResumeText(s)).None? ==>
              r.state.phoneNumber == r.state.emailId == r.state.linkedin == r.state.github == Some(NotMentioned)
              && r.state.otherLinks == Some([])
    ensures sv.contactExtractor(ResumeText(s)).Some? ==>
              var c := sv.contactExtractor(ResumeText(s)).value;
              && r.state.phoneNumber == Some(if c.phoneNumber.Some? then c.phoneNumber.value else NotMentioned)
              && r.state.emailId == Some(if c.emailId.Some? then c.emailId.value else NotMentioned)
              && r.state.linkedin == Some(if c.linkedin.Some? then c.linkedin.value else NotMentioned)
              && r.state.github == Some(if c.github.Some? then c.github.value else NotMentioned)
              && r.state.otherLinks == Some(if c.otherLinks.Some? then c.otherLinks.value else [])
  {
    var text := ResumeText(s);
    var c := sv.contactExtractor(text).GetOr(Contact(None, None, None, None, None));
    Step(s.(phoneNumber := Some(c.phoneNumber.GetOr(NotMentioned)),
            emailId := Some(c.emailId.GetOr(NotMentioned)),
            linkedin := Some(c.linkedin.GetOr(NotMentioned)),
            github := Some(c.github.GetOr(NotMentioned)),
            otherLinks := Some(c.otherLinks.GetOr([]))),
         [ContactExtractorCall(text)])
  }

  /** The CGPA the chain's reply denotes: the reply is stripped and parsed as a float, and
      a failing chain or an unparsable reply gives 0.0. */
  function CgpaValue(s: State, sv: Services): (v: real)
    ensures sv.cgpaExtractor(ResumeText(s)).None? ==> v == 0.0
    ensures sv.cgpaExtractor(ResumeText(s)).Some? ==>
              var parsed := sv.parseFloat(Strip(sv.cgpaExtractor(ResumeText(s)).value));
              v == if parsed.Some? then parsed.value else 0.0
  {
    match sv.cgpaExtractor(ResumeText(s))
    case None => 0.0
    case Some(reply) => sv.parseFloat(Strip(reply)).GetOr(0.0)
  }

  function ExtractCgpaNode(s: State, sv: Services): (r: Step)
    ensures r.calls == [CgpaExtractorCall(ResumeText(s))]
    ensures r.state == s.(ugCgpa := Some(CgpaValue(s, sv)))
  {
    Step(s.(ugCgpa := Some(CgpaValue(s, sv))), [CgpaExtractorCall(ResumeText(s))])
  }
}

/** `analyze_github_node`: pick a profile URL and fetch the user's repositories. */
module GithubAnalysis {
  import opened Wrappers
  import opened Text
  import opened GraphState

  /** `state.get("github") or state.get("linkedin") or ""`. */
  function ProfileUrl(s: State): string {
    OrString(s.github, s.linkedin)
  }

  /** `url.rstrip("/").split("/")[-1]`: the last path segment, ignoring trailing slashes. */
  function Username(url: string): (u: string)
    ensures '/' !in u
    ensures var t := TrimRight(url, {'/'}); |u| <= |t| && u == t[|t| - |u|..] && (|u| == |t| || t[|t| - |u| - 1] == '/')
  {
    LastSegment(TrimRight(url, {'/'}), '/')
  }

  /** The username is empty exactly when the URL is nothing but slashes. */
  lemma UsernameEmpty(url: string)
    ensures Username(url) == [] <==> forall i :: 0 <= i < |url| ==> url[i] == '/'
  {
    var t := TrimRight(url, {'/'});
    var u := Username(url);
    if t == [] {
      assert forall i :: 0 <= i < |url| ==> url[i] in {'/'};
    }
  }

  /** The node skips the fetch when the URL is empty or the "Not mentioned" sentinel. */
  predicate Skips(s: State) {
    ProfileUrl(s) == "" || ProfileUrl(s) == NotMentioned
  }

  function AnalyzeGithubNode(s: State, sv: Services): (r: Step)
    ensures r.state.(projects := s.projects) == s
    ensures Skips(s) ==> r.state.projects == Some([]) && r.calls == []
    ensures !Skips(s) ==> r.calls == [FetchCall(Username(ProfileUrl(s)))]
                          && r.state.projects == Some(sv.fetchProjects(Username(ProfileUrl(s))))
  {
    var url := ProfileUrl(s);
    if url == "" || url == NotMentioned then Step(s.(projects := Some([])), [])
    else
      var username := Username(url);
      Step(s.(projects := Some(sv.fetchProjects(username))), [FetchCall(username)])
  }

  /** A GitHub field holding the sentinel is non-empty, so the LinkedIn URL is never
      consulted and the node skips, whatever LinkedIn holds. */
  lemma SentinelGithubSkips(s: State, sv: Services)
    requires s.github == Some(NotMentioned)
    ensures ProfileUrl(s) == NotMentioned
    ensures AnalyzeGithubNode(s, sv) == Step(s.(projects := Some([])), [])
  {
  }
}

/** `check_cgpa`: the threshold router. */
module Routing {
  import opened Wrappers
  import opened GraphState

  const Threshold: real := 9.0

  function CheckCgpaNode(s: State): (r: State)
    ensures r.(route := s.route) == s
    ensures r.route == Some("send_email") || r.route == Some("generate")
    ensures r.route == Some("send_email") <==> s.ugCgpa.Some? && s.ugCgpa.value > Threshold
  {
    if s.ugCgpa.GetOr(0.0) > Threshold then s.(route := Some("send_email"))
    else s.(route := Some("generate"))
  }

  /** The cut-off is exclusive: 9.0 itself does not alert, anything above does. */
  lemma ThresholdIsStrict(s: State)
    ensures CheckCgpaNode(s.(ugCgpa := Some(9.0))).route == Some("generate")
    ensures CheckCgpaNode(s.(ugCgpa := Some(9.5))).route == Some("send_email")
    ensures CheckCgpaNode(s.(ugCgpa := Some(8.9))).route == Some("generate")
    ensures CheckCgpaNode(s.(ugCgpa := None)).route == Some("generate")
  {
  }
}

/** `send_email_node`: alert a recipient taken from the state, and pass the state on. */
module EmailNode {
  import opened Wrappers
  import opened GraphState

  const Subject: string := "Automated Agentic Update"

  /** `f"Candidate {state.get('phone_number')} passed thresholds."`; an absent number
      renders as Python's `None`. */
  function DefaultBody(s: State): string {
    "Candidate " + s.phoneNumber.GetOr("None") + " passed thresholds."
  }

  function SendEmailNode(s: State): (r: Step)
    ensures r.state == s
    ensures r.calls == [] <==> OrString(s.emailId, s.email) == ""
    ensures r.calls != [] ==> r.calls == [MailCall(OrString(s.emailId, s.email), Subject,
                                                   s.message.GetOr(DefaultBody(s)))]
    ensures s.emailId.Some? && s.emailId.value != "" ==> r.calls == [MailCall(s.emailId.value, Subject,
                                                   s.message.GetOr(DefaultBody(s)))]
  {
    var recipient := OrString(s.emailId, s.email);
    var body := s.message.GetOr(DefaultBody(s));
    if recipient != "" then Step(s, [MailCall(recipient, Subject, body)]) else Step(s, [])
  }
}

/** `generate_answer`: the final answer from the joined passages. */
module Answer {
  import opened Wrappers
  import opened Seqs
  import opened GraphState

  const Fallback: string := "Could not generate answer."

  function Context(s: State): (c: string)
    ensures Documents(s) == [] ==> c == ""
  {
    Join(Documents(s), "\n")
  }

  function GenerateNode(s: State, sv: Services): (r: Step)
    ensures r.state.(solution := s.solution) == s
    ensures r.state.solution.Some?
    ensures r.calls == [GeneratorCall(Context(s), Question(s))]
    ensures sv.generator(Context(s), Question(s)).None? ==> r.state.solution == Some(Fallback)
    ensures sv.generator(Context(s), Question(s)).Some? ==> r.state.solution == sv.generator(Context(s), Question(s))
  {
    var context := Context(s);
    var q := Question(s);
    Step(s.(solution := Some(sv.generator(context, q).GetOr(Fallback))), [GeneratorCall(context, q)])
  }
}
