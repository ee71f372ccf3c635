/** The fallback rules of the project-summary helpers (backend/app/services/llm_service.py).
    Each helper asks the language model once; the model's reply, or `None` when
    `llm.invoke` raised, is a parameter, and so is `json.loads` (`None` when it raises). */
module LlmService {
  import opened Wrappers
  import opened Json
  import opened Seqs
  import opened Text

  /** What `llm.invoke` hands back: a chat message with a `content` attribute, a plain
      string, or a dict (with `repr` standing for `str(response)`). */
  datatype Reply =
    | Message(content: string)
    | Plain(text: string)
    | Dict(fields: map<string, Value>, repr: string)

  /** `getattr(response, "content", str(response))`. A dict's keys are not attributes. */
  function ReplyText(rep: Reply): string {
    match rep
    case Message(c) => c
    case Plain(t) => t
    case Dict(_, repr) => repr
  }

  // ---------------------------------------------------------------- project title

  /** `generate_project_title`: the model's text, stripped, with every `"` removed; when the
      call raises, the repository name with `_` read as a space, title-cased. */
  function GenerateProjectTitle(repoName: string, reply: Option<Reply>): (r: string)
    ensures reply.Some? ==> '"' !in r && r == Filter(Strip(ReplyText(reply.value)), NotQuote)
    ensures reply.None? ==>
              && |r| == |repoName|
              && '_' !in r
              && (forall i :: 0 <= i < |r| ==>
                    LowerChar(r[i]) == LowerChar(if repoName[i] == '_' then ' ' else repoName[i]))
              && forall i :: 0 <= i < |r| && IsLetter(repoName[i]) ==>
                   (IsUpper(r[i]) <==> (i == 0 || !IsLetter(repoName[i - 1])))
  {
    match reply
    case Some(rep) =>
      ReplaceRemovesChar(Strip(ReplyText(rep)), '"', "");
      RemoveQuotes(Strip(ReplyText(rep)));
      Replace(Strip(ReplyText(rep)), "\"", "")
    case None =>
      ReplaceChar(repoName, '_', ' ');
      Title(Replace(repoName, "_", " "))
  }

  // ---------------------------------------------------------------- technologies

  /** `extract_technologies`: the parsed reply when it is a JSON array, and `[]` otherwise. */
  function ExtractTechnologies(reply: Option<Reply>, parse: string -> Option<Value>): (r: seq<Value>)
    ensures (reply.Some? && parse(ReplyText(reply.value)).Some? && parse(ReplyText(reply.value)).value.Arr?)
            ==> r == parse(ReplyText(reply.value)).value.items
    ensures r != [] ==> reply.Some? && parse(ReplyText(reply.value)) == Some(Arr(r))
  {
    if reply.None? then []
    else match parse(ReplyText(reply.value))
      case Some(Arr(xs)) => xs
      case _ => []
  }

  // ---------------------------------------------------------------- features

  const FallbackFeatures: seq<Value> := [
    Str("Developed a software project using modern technologies."),
    Str("Implemented multiple functionalities inferred from repository structure."),
    Str("Generated fallback summary due to LLM output issue.")]

  /** `generate_project_features`: `parsed["features"]` when the reply parses to an object
      holding that key (whatever its type), else the three fixed bullets. */
  function GenerateProjectFeatures(reply: Option<Reply>, parse: string -> Option<Value>): (r: Value)
    ensures var parsed := if reply.Some? then parse(ReplyText(reply.value)) else None;
            if parsed.Some? && parsed.value.Obj? && "features" in parsed.value.fields
            then r == parsed.value.fields["features"]
            else r == Arr(FallbackFeatures)
  {
    if reply.None? then Arr(FallbackFeatures)
    else match parse(ReplyText(reply.value))
      case Some(Obj(m)) => if "features" in m then m["features"] else Arr(FallbackFeatures)
      case _ => Arr(FallbackFeatures)
  }

  // ---------------------------------------------------------------- summary

  /** The summary `summarize_project` returns, a dict with exactly these four keys, and
      the file name (without `.json`) it saves the summary under. */
  datatype Summary = Summary(title: string, technologies: seq<Value>, date: string, features: Value,
                             safeName: string)

  /** `summarize_project`: a repository name that is not text makes the call raise
      (`None`). Otherwise the title of the title call (free of `"` when the call answered),
      the technologies and features of the other two calls, an empty date, and a file
      name made of name characters only, taken in order from the repository name. When the
      title call fails, the title is the name title-cased: a letter is a capital exactly
      when it starts a word. */
  function SummarizeProject(repo: map<string, Value>, titleReply: Option<Reply>, techReply: Option<Reply>,
                            featureReply: Option<Reply>, parse: string -> Option<Value>): (r: Option<Summary>)
    ensures r.Some? <==> RepoName(repo, "UnnamedRepo").Str?
    ensures r.Some? ==>
              && r.value.date == ""
              && r.value.title == GenerateProjectTitle(RepoName(repo, "UnnamedRepo").s, titleReply)
              && (titleReply.Some? ==> '"' !in r.value.title)
              && (titleReply.None? ==> |r.value.title| == |RepoName(repo, "UnnamedRepo").s| && '_' !in r.value.title)
              && (titleReply.None? ==>
                    var name := RepoName(repo, "UnnamedRepo").s;
                    forall i :: 0 <= i < |r.value.title| && IsLetter(name[i]) ==>
                      (IsUpper(r.value.title[i]) <==> (i == 0 || !IsLetter(name[i - 1]))))
              && r.value.technologies == ExtractTechnologies(techReply, parse)
              && r.value.features == GenerateProjectFeatures(featureReply, parse)
              && r.value.safeName == Filter(RepoName(repo, "UnnamedRepo").s, IsNameChar)
              && (forall i :: 0 <= i < |r.value.safeName| ==> IsNameChar(r.value.safeName[i]))
              && IsSubsequence(r.value.safeName, RepoName(repo, "UnnamedRepo").s)
              && forall c :: multiset(r.value.safeName)[c] ==
                   if IsNameChar(c) then multiset(RepoName(repo, "UnnamedRepo").s)[c] else 0
  {
    var name := RepoName(repo, "UnnamedRepo");
    if !name.Str? then None
    else
      SafeNameKeeps(name.s);
      Some(Summary(GenerateProjectTitle(name.s, titleReply), ExtractTechnologies(techReply, parse), "",
           GenerateProjectFeatures(featureReply, parse), SafeName(name.s)))
  }

  // ---------------------------------------------------------------- refining features

  /** `refine_project`: the model is called outside the `try`, so a failing call raises
      (`None`). Otherwise the reply's `content` parsed as a JSON list, or the original
      features when it has no `content`, does not parse, or is not a list. */
  function RefineProject(features: seq<Value>, reply: Option<Reply>, parse: string -> Option<Value>): (r: Option<seq<Value>>)
    ensures r.Some? <==> reply.Some?
    ensures r.Some? ==>
              if reply.value.Message? && parse(reply.value.content).Some? && parse(reply.value.content).value.Arr?
              then r.value == parse(reply.value.content).value.items
              else r.value == features
  {
    match reply
    case None => None
    case Some(Message(c)) =>
      (match parse(c)
       case Some(Arr(xs)) => Some(xs)
       case _ => Some(features))
    case Some(_) => Some(features)
  }

  // ---------------------------------------------------------------- LaTeX fences

  /** The text `fix_latex_syntax_with_llm` takes from a reply: `content` of a message, the
      `"content"` and then the `"text"` entry of a dict, else `str(response)`. `None` when
      the entry taken is not a string, since `.strip()` then raises. */
  function CorrectedText(rep: Reply): Option<string> {
    match rep
    case Message(c) => Some(c)
    case Plain(t) => Some(t)
    case Dict(m, repr) =>
      var v := if "content" in m then Some(m["content"]) else if "text" in m then Some(m["text"]) else None;
      if v.None? then Some(repr)
      else if v.value.Str? then Some(v.value.s)
      else None
  }

  /** `corrected.strip().strip("`")`, then both fence spellings replaced by nothing, then
      `.strip()`. The cleaned text holds no fence and has no whitespace at either end. */
  function RemoveFences(corrected: string): (r: string)
    ensures !Contains(r, Fence)
    ensures r == [] || (r[0] !in Whitespace && r[|r| - 1] !in Whitespace)
  {
    var unfenced := Replace(Replace(Trim(Strip(corrected), {'`'}), "```latex", ""), Fence, "");
    RemoveFencesLeavesNone(Replace(Trim(Strip(corrected), {'`'}), "```latex", ""));
    StripKeepsNoFence(unfenced);
    Strip(unfenced)
  }

  /** `fix_latex_syntax_with_llm`: the input unchanged when the call or the extraction
      raises; otherwise the model's text with fences and surrounding whitespace removed. */
  function FixLatexSyntax(latex: string, reply: Option<Reply>): (r: string)
    ensures reply.None? ==> r == latex
    ensures reply.Some? && CorrectedText(reply.value).None? ==> r == latex
    ensures reply.Some? && CorrectedText(reply.value).Some? ==>
              && !Contains(r, Fence)
              && (r == [] || (r[0] !in Whitespace && r[|r| - 1] !in Whitespace))
  {
    if reply.None? || CorrectedText(reply.value).None? then latex
    else RemoveFences(CorrectedText(reply.value).value)
  }

  /** A reply wrapped in a fenced block comes back without the fence. */
  lemma FencedReplyUnwrapped(body: string)
    requires body != [] && body[0] !in Whitespace && body[|body| - 1] !in Whitespace
    requires body[0] != '`' && body[|body| - 1] != '`'
    requires !Contains(body, Fence)
    requires !Contains(body, "```latex")
    ensures FixLatexSyntax("", Some(Message(Fence + body + Fence))) == body
  {
    RemoveFencesOfFenced(body);
    FixLatexOfMessage("", Fence + body + Fence);
  }

  lemma RemoveFencesOfFenced(body: string)
    requires body != [] && body[0] !in Whitespace && body[|body| - 1] !in Whitespace
    requires body[0] != '`' && body[|body| - 1] != '`'
    requires !Contains(body, Fence)
    requires !Contains(body, "```latex")
    ensures RemoveFences(Fence + body + Fence) == body
  {
    var c := Fence + body + Fence;
    StripNoop(c);
    TrimTicks(body);
    ReplaceAbsent(body, "```latex", "");
    ReplaceAbsent(body, Fence, "");
    StripNoop(body);
  }

  /** The back-ticks are stripped before the tagged fence is looked for, so a block opened
      with "```latex" loses its back-ticks but keeps its language tag. */
  lemma TaggedFenceKeepsTag()
    ensures FixLatexSyntax("", Some(Message("```latex\nx\n```"))) == "latex\nx"
  {
    var body := "latex\nx";
    assert "```latex\nx\n```" == Fence + (body + "\n") + Fence;
    assert body[0] == 'l' && body[|body| - 1] == 'x';
    assert forall i :: 0 <= i < |body| ==> body[i] != '`';
    RemoveFencesOfTickless(body);
    FixLatexOfMessage("", Fence + (body + "\n") + Fence);
  }

  /** A fenced block whose body has no back-tick comes back with only the fence lines'
      back-ticks and the trailing newline removed. */
  lemma RemoveFencesOfTickless(body: string)
    requires body != [] && body[0] !in Whitespace && body[|body| - 1] !in Whitespace
    requires forall i :: 0 <= i < |body| ==> body[i] != '`'
    ensures RemoveFences(Fence + (body + "\n") + Fence) == body
  {
    var inner := body + "\n";
    UnfenceTickless(inner);
    CleanTickless(body);
  }

  lemma UnfenceTickless(inner: string)
    requires inner != [] && inner[0] != '`' && inner[|inner| - 1] == '\n'
    ensures Trim(Strip(Fence + inner + Fence), {'`'}) == inner
  {
    var c := Fence + inner + Fence;
    assert c[0] == '`' && c[|c| - 1] == '`';
    StripNoop(c);
    TrimTicks(inner);
  }

  lemma CleanTickless(body: string)
    requires body != [] && body[0] !in Whitespace && body[|body| - 1] !in Whitespace
    requires forall i :: 0 <= i < |body| ==> body[i] != '`'
    ensures Strip(Replace(Replace(body + "\n", "```latex", ""), Fence, "")) == body
  {
    var inner := body + "\n";
    assert forall i :: 0 <= i < |inner| ==> inner[i] != '`' by {
      assert forall i :: 0 <= i < |body| ==> inner[i] == body[i];
    }
    NoFencesToReplace(inner);
    StripNewline(body);
  }

  /** Neither fence spelling occurs in a text without back-ticks. */
  lemma NoFencesToReplace(s: string)
    requires forall i :: 0 <= i < |s| ==> s[i] != '`'
    ensures Replace(Replace(s, "```latex", ""), Fence, "") == s
  {
    NoTickNoMatch(s, "```latex");
    NoTickNoMatch(s, Fence);
    ReplaceAbsent(s, "```latex", "");
    ReplaceAbsent(s, Fence, "");
  }

  /** `strip()` drops one trailing newline from text that has no whitespace at its ends. */
  lemma StripNewline(t: string)
    requires t != [] && t[0] !in Whitespace && t[|t| - 1] !in Whitespace
    ensures Strip(t + "\n") == t
  {
    assert TrimLeft(t + "\n", Whitespace) == t + "\n";
    assert (t + "\n")[..|t|] == t;
  }

  /** A reply without back-ticks, the form the prompt asks for, comes back only stripped. */
  lemma TicklessReplyStripped(t: string)
    requires '`' !in t
    ensures RemoveFences(t) == Strip(t)
  {
    var u := Strip(t);
    TrimKeepsOut(t, Whitespace, '`');
    assert forall i :: 0 <= i < |u| ==> u[i] != '`';
    assert TrimLeft(u, {'`'}) == u;
    assert TrimRight(u, {'`'}) == u;
    NoFencesToReplace(u);
    if u != [] {
      StripNoop(u);
    }
  }

  /** A text without back-ticks holds no pattern that starts with one. */
  lemma NoTickNoMatch(s: string, pat: string)
    requires pat != [] && pat[0] == '`'
    requires forall i :: 0 <= i < |s| ==> s[i] != '`'
    ensures !Contains(s, pat)
  {
    forall i | 0 <= i <= |s| - |pat|
      ensures !OccursAt(s, pat, i)
    {
      assert s[i..i + |pat|][0] == s[i];
    }
  }

  lemma FixLatexOfMessage(latex: string, c: string)
    ensures FixLatexSyntax(latex, Some(Message(c))) == RemoveFences(c)
  {
  }

  /** Stripping back-ticks from a fenced block leaves its body when the body has none at
      its ends. */
  lemma TrimTicks(body: string)
    requires body != [] && body[0] != '`' && body[|body| - 1] != '`'
    ensures Trim(Fence + body + Fence, {'`'}) == body
  {
    var tail := body + Fence;
    assert Fence + body + Fence == Fence + tail;
    assert tail[0] == body[0];
    TrimLeftPrefix(Fence, tail, {'`'});
    TrimRightSuffix(body, Fence, {'`'});
    assert Trim(Fence + tail, {'`'}) == TrimRight(TrimLeft(Fence + tail, {'`'}), {'`'});
  }

  /** Replacing a pattern that does not occur changes nothing. */
  lemma {:induction false} ReplaceAbsent(s: string, pat: string, rep: string)
    requires pat != []
    requires !Contains(s, pat)
    ensures Replace(s, pat, rep) == s
    decreases |s|
  {
    if |s| >= |pat| {
      assert !OccursAt(s, pat, 0);
      assert !Contains(s[1..], pat) by {
        forall i | 0 <= i <= |s[1..]| - |pat|
          ensures !OccursAt(s[1..], pat, i)
        {
          assert s[1..][i..i + |pat|] == s[i + 1..i + 1 + |pat|];
          assert !OccursAt(s, pat, i + 1);
        }
      }
      ReplaceAbsent(s[1..], pat, rep);
    }
  }

  // ---------------------------------------------------------------- refining any data

  /** `refine_text` as written: only a plain-string reply is parsed; any other reply is
      taken as it is, so a chat message (not a dict) always gives back `data`, while any
      dict is returned whatever its keys, since both branches of the key check return it.
      The key check itself calls `data.keys()`, which raises when `data` is not an object,
      and the handler then gives back `data`. */
  function RefineTextAsWritten(data: Value, reply: Option<Reply>, parse: string -> Option<Value>): (r: Value)
    ensures r == data || (r.Obj? && data.Obj?)
    ensures !data.Obj? ==> r == data
  {
    match reply
    case None => data
    case Some(Plain(t)) =>
      (match parse(t)
       case None => data
       case Some(v) => if v.Obj? && data.Obj? then v else data)
    case Some(Dict(m, _)) => if data.Obj? then Obj(m) else data
    case Some(Message(_)) => data
  }

  /** The model's chat message is never used: whatever it says, `data` comes back. */
  lemma RefinementDiscarded(data: Value, content: string, parse: string -> Option<Value>)
    ensures RefineTextAsWritten(data, Some(Message(content)), parse) == data
  {
  }

  /** The same reply as a message and as a dict: a refinement the dict form would return is
      lost in the message form the model actually produces. */
  lemma MessageLosesRefinement(content: string)
    ensures var parse := (t: string) => if t == content then Some(Obj(map["title" := Str("Refined")])) else None;
            var data := Obj(map["title" := Str("Draft")]);
            RefineTextAsWritten(data, Some(Message(content)), parse) == data
            && RefineText(data, Some(Message(content)), parse) == Obj(map["title" := Str("Refined")])
  {
  }

  /** `refine_text` with the reply's text parsed: when `data` is an object, a reply that
      parses to a JSON object is the refined data; anything else, including a failed call
      or a `data` without keys, leaves `data`. */
  function RefineText(data: Value, reply: Option<Reply>, parse: string -> Option<Value>): (r: Value)
    ensures data.Obj? && reply.Some? && parse(ReplyText(reply.value)).Some?
            && parse(ReplyText(reply.value)).value.Obj?
            ==> r == parse(ReplyText(reply.value)).value
    ensures r != data ==> data.Obj? && reply.Some? && parse(ReplyText(reply.value)) == Some(r) && r.Obj?
  {
    if reply.None? || !data.Obj? then data
    else match parse(ReplyText(reply.value))
      case Some(Obj(m)) => Obj(m)
      case _ => data
  }
}
