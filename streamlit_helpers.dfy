/** The data helpers of the Streamlit front end (frontend/streamlit_app.py): merging selected
    projects into the stored ones, naming saved repository files, normalising parsed
    resume lists, updating a project's features in the session, reading the GitHub user
    name, and picking the manually entered projects to keep. */
module StreamlitHelpers {
  import opened Wrappers
  import opened Json
  import opened Seqs
  import opened Text
  import GithubAnalysis

  type Project = map<string, Value>

  // ---------------------------------------------------------------- merging projects

  /** `p.get("title", "").strip().lower()`; `None` when the title is not a string, since
      `.strip()` then raises. */
  function TitleKey(p: Project): Option<string> {
    match Get(p, "title", Str(""))
    case Str(t) => Some(Lower(Strip(t)))
    case _ => None
  }

  predicate HasTextTitles(ps: seq<Project>) {
    forall i :: 0 <= i < |ps| ==> TitleKey(ps[i]).Some?
  }

  /** `{p.get("title", "").strip().lower() for p in ps}`. */
  function TitleKeys(ps: seq<Project>): set<string>
    requires HasTextTitles(ps)
  {
    set i | 0 <= i < |ps| :: TitleKey(ps[i]).value
  }

  /** The key of each project is in the set. */
  lemma KeyInTitleKeys(ps: seq<Project>, i: int)
    requires HasTextTitles(ps) && 0 <= i < |ps|
    ensures TitleKey(ps[i]).value in TitleKeys(ps)
  {
  }

  /** Every key in the set is the key of some project. */
  lemma KeyOfTitleKeys(ps: seq<Project>, k: string) returns (i: int)
    requires HasTextTitles(ps) && k in TitleKeys(ps)
    ensures 0 <= i < |ps| && TitleKey(ps[i]) == Some(k)
  {
    i :| 0 <= i < |ps| && TitleKey(ps[i]).value == k;
  }

  /** The projects of `selected` whose title key is not in `taken`. */
  function Fresh(selected: seq<Project>, taken: set<string>): seq<Project> {
    Filter(selected, p => TitleKey(p).Some? && TitleKey(p).value !in taken)
  }

  /** The merge in `save_user_projects_to_disk`: the stored projects, then every selected
      project whose stripped, lower-cased title is not among the stored ones. A title that
      is not a string makes the comprehensions raise (`None`). */
  function MergeProjects(existing: seq<Project>, selected: seq<Project>): (r: Option<seq<Project>>)
    ensures r.Some? <==> HasTextTitles(existing) && HasTextTitles(selected)
  {
    if !HasTextTitles(existing) || !HasTextTitles(selected) then None
    else Some(existing + Fresh(selected, TitleKeys(existing)))
  }

  /** The stored projects come first, unchanged and in order; after them come exactly the
      selected projects with a new title key, in their order and with every copy: two
      selected projects with the same new title are both added. */
  lemma MergeShape(existing: seq<Project>, selected: seq<Project>)
    requires HasTextTitles(existing) && HasTextTitles(selected)
    ensures var r := MergeProjects(existing, selected).value;
            && |existing| <= |r|
            && r[..|existing|] == existing
            && IsSubsequence(r[|existing|..], selected)
            && forall p :: multiset(r[|existing|..])[p]
                 == if TitleKey(p).Some? && TitleKey(p).value !in TitleKeys(existing) then multiset(selected)[p] else 0
  {
    var keep := (p: Project) => TitleKey(p).Some? && TitleKey(p).value !in TitleKeys(existing);
    var r := MergeProjects(existing, selected).value;
    assert r[|existing|..] == Filter(selected, keep);
    FilterIsSubsequence(selected, keep);
    forall p
      ensures multiset(r[|existing|..])[p] == if keep(p) then multiset(selected)[p] else 0
    {
      FilterCount(selected, keep, p);
    }
  }

  /** Nothing is kept when every element is dropped. */
  lemma {:induction false} FilterNone<T>(s: seq<T>, keep: T -> bool)
    requires forall i :: 0 <= i < |s| ==> !keep(s[i])
    ensures Filter(s, keep) == []
  {
    if s != [] {
      FilterNone(s[1..], keep);
    }
  }

  /** Saving the same selection twice adds nothing the second time. */
  lemma MergeIdempotent(existing: seq<Project>, selected: seq<Project>)
    requires HasTextTitles(existing) && HasTextTitles(selected)
    ensures var once := MergeProjects(existing, selected).value;
            MergeProjects(once, selected) == Some(once)
  {
    var added := Fresh(selected, TitleKeys(existing));
    var once := existing + added;
    MergedTitles(existing, added);
    SelectedTitlesTaken(existing, selected);
    var taken := TitleKeys(once);
    FilterNone(selected, p => TitleKey(p).Some? && TitleKey(p).value !in taken);
    assert once + [] == once;
  }

  /** The merged list has text titles, and its title keys are those of both parts. */
  lemma MergedTitles(existing: seq<Project>, added: seq<Project>)
    requires HasTextTitles(existing) && HasTextTitles(added)
    ensures HasTextTitles(existing + added)
    ensures TitleKeys(existing + added) == TitleKeys(existing) + TitleKeys(added)
  {
    var once := existing + added;
    assert HasTextTitles(once) by {
      forall j | 0 <= j < |once|
        ensures TitleKey(once[j]).Some?
      {
        if j < |existing| {
          assert once[j] == existing[j];
        } else {
          assert once[j] == added[j - |existing|];
        }
      }
    }
    forall k | k in TitleKeys(existing)
      ensures k in TitleKeys(once)
    {
      var j := KeyOfTitleKeys(existing, k);
      assert once[j] == existing[j];
      KeyInTitleKeys(once, j);
    }
    forall k | k in TitleKeys(added)
      ensures k in TitleKeys(once)
    {
      var j := KeyOfTitleKeys(added, k);
      assert once[|existing| + j] == added[j];
      KeyInTitleKeys(once, |existing| + j);
    }
    forall k | k in TitleKeys(once)
      ensures k in TitleKeys(existing) + TitleKeys(added)
    {
      var j := KeyOfTitleKeys(once, k);
      if j >= |existing| {
        assert once[j] == added[j - |existing|];
        KeyInTitleKeys(added, j - |existing|);
      } else {
        assert once[j] == existing[j];
        KeyInTitleKeys(existing, j);
      }
    }
  }

  /** Every selected title key is among the stored ones or among those added. */
  lemma SelectedTitlesTaken(existing: seq<Project>, selected: seq<Project>)
    requires HasTextTitles(existing) && HasTextTitles(selected)
    ensures var added := Fresh(selected, TitleKeys(existing));
            HasTextTitles(added)
            && forall i :: 0 <= i < |selected| ==> TitleKey(selected[i]).value in TitleKeys(existing) + TitleKeys(added)
  {
    var taken := TitleKeys(existing);
    FreshHasTextTitles(selected, taken);
    forall i | 0 <= i < |selected| && TitleKey(selected[i]).value !in taken
      ensures TitleKey(selected[i]).value in TitleKeys(Fresh(selected, taken))
    {
      FreshKeyIn(selected, taken, i);
    }
  }

  lemma FreshHasTextTitles(selected: seq<Project>, taken: set<string>)
    ensures HasTextTitles(Fresh(selected, taken))
  {
    var added := Fresh(selected, taken);
    forall j | 0 <= j < |added|
      ensures TitleKey(added[j]).Some?
    {
    }
  }

  /** A selected project whose key is not taken passes its key on to the added ones. */
  lemma FreshKeyIn(selected: seq<Project>, taken: set<string>, i: int)
    requires 0 <= i < |selected| && TitleKey(selected[i]).Some? && TitleKey(selected[i]).value !in taken
    ensures HasTextTitles(Fresh(selected, taken))
    ensures TitleKey(selected[i]).value in TitleKeys(Fresh(selected, taken))
  {
    var added := Fresh(selected, taken);
    FreshHasTextTitles(selected, taken);
    assert selected[i] in added;
    var j :| 0 <= j < |added| && added[j] == selected[i];
    KeyInTitleKeys(added, j);
  }

  // ---------------------------------------------------------------- saved file names

  /** The sanitised name `save_projects_to_disk` gives a repository file (without
      `.json`): the name characters of `name`, or "repo" when none is left. */
  function SafeFileName(name: string): (r: string)
    ensures r != ""
    ensures forall i :: 0 <= i < |r| ==> IsNameChar(r[i])
    ensures (forall i :: 0 <= i < |name| ==> !IsNameChar(name[i])) ==> r == "repo"
    ensures (exists i :: 0 <= i < |name| && IsNameChar(name[i])) ==>
              r == Filter(name, IsNameChar) && IsSubsequence(r, name)
    ensures (exists i :: 0 <= i < |name| && IsNameChar(name[i])) ==>
              forall c :: multiset(r)[c] == if IsNameChar(c) then multiset(name)[c] else 0
  {
    var safe := SafeName(name);
    SafeNameKeeps(name);
    if safe == "" then "repo"
    else
      assert safe[0] in name;
      safe
  }

  /** Sanitising a sanitised name changes nothing. */
  lemma SafeFileNameIdempotent(name: string)
    ensures SafeFileName(SafeFileName(name)) == SafeFileName(name)
  {
    var r := SafeFileName(name);
    SafeNameOfSafe(r);
  }

  /** The file name of a repository record, named by `repository`, `repo`, `name` or
      "unknown_repo"; a name that is not a string cannot be filtered (`None`). */
  function ProjectFileName(p: Project): (r: Option<string>)
    ensures r.Some? <==> RepoName(p, "unknown_repo").Str?
  {
    match RepoName(p, "unknown_repo")
    case Str(name) => Some(SafeFileName(name))
    case _ => None
  }

  // ---------------------------------------------------------------- resume lists

  const ListKeys: seq<string> := ["education", "experience", "projects", "achievements"]

  /** What the normalisation leaves under one list key: a dict wrapped in a list, `[]` for
      a missing key, anything else as it was. */
  function NormalizedEntry(data: map<string, Value>, k: string): Value {
    if k in data && data[k].Obj? then Arr([data[k]])
    else if k !in data then Arr([])
    else data[k]
  }

  /** The parsed resume after the list normalisation. */
  function NormalizedLists(data: map<string, Value>): (r: map<string, Value>)
    ensures forall k :: k in r <==> k in data || k in ListKeys
  {
    map k | k in data.Keys + (set j | j in ListKeys) :: if k in ListKeys then NormalizedEntry(data, k) else data[k]
  }

  /** After normalisation the four list keys are present and hold no dict; a list is left as
      it was, and every other key is untouched. */
  lemma NormalizedListsShape(data: map<string, Value>)
    ensures var r := NormalizedLists(data);
            && (forall k :: k in ListKeys ==> k in r && !r[k].Obj?)
            && (forall k :: k in ListKeys && k in data && data[k].Arr? ==> r[k] == data[k])
            && (forall k :: k in ListKeys && k in data && data[k].Obj? ==> r[k] == Arr([data[k]]))
            && (forall k :: k in ListKeys && k !in data ==> r[k] == Arr([]))
            && (forall k :: k in data && k !in ListKeys ==> r[k] == data[k])
  {
  }

  /** Normalising twice is normalising once. */
  lemma NormalizedListsIdempotent(data: map<string, Value>)
    ensures NormalizedLists(NormalizedLists(data)) == NormalizedLists(data)
  {
    var r := NormalizedLists(data);
    NormalizedListsShape(data);
    assert forall k :: k in ListKeys ==> NormalizedEntry(r, k) == r[k];
  }

  /** The `for key in [...]` loop rewriting the parsed resume in place. */
  method NormalizeLists(data: map<string, Value>) returns (parsed: map<string, Value>)
    ensures parsed == NormalizedLists(data)
  {
    parsed := data;
    ListKeysDistinct();
    for i := 0 to |ListKeys|
      invariant forall k :: k in parsed <==> k in data || k in ListKeys[..i]
      invariant forall k :: k in parsed ==> parsed[k] == if k in ListKeys[..i] then NormalizedEntry(data, k) else data[k]
    {
      var key := ListKeys[i];
      PrefixStep(ListKeys, i);
      if key in parsed && parsed[key].Obj? {
        parsed := parsed[key := Arr([parsed[key]])];
      } else if key !in parsed {
        parsed := parsed[key := Arr([])];
      }
    }
    assert ListKeys[..|ListKeys|] == ListKeys;
  }

  lemma ListKeysDistinct()
    ensures forall a, b :: 0 <= a < b < |ListKeys| ==> ListKeys[a] != ListKeys[b]
  {
  }

  /** Extending a prefix of a list without repeats by one element adds a new element. */
  lemma PrefixStep<T>(xs: seq<T>, i: int)
    requires forall a, b :: 0 <= a < b < |xs| ==> xs[a] != xs[b]
    requires 0 <= i < |xs|
    ensures xs[i] !in xs[..i]
    ensures forall x :: x in xs[..i + 1] <==> x in xs[..i] || x == xs[i]
  {
    assert xs[..i + 1] == xs[..i] + [xs[i]];
  }

  // ---------------------------------------------------------------- session update

  /** `proj.get("title") == title`. */
  predicate Matches(p: Project, title: string) {
    Get(p, "title", Null) == Str(title)
  }

  /** The summaries after the features of the first project titled `title` are replaced. */
  function UpdatedSummaries(s: seq<Project>, title: string, refined: seq<Value>): (r: seq<Project>)
    ensures |r| == |s|
  {
    if s == [] then []
    else if Matches(s[0], title) then [s[0]["features" := Arr(refined)]] + s[1..]
    else [s[0]] + UpdatedSummaries(s[1..], title, refined)
  }

  /** Only the first matching summary changes, and only its features; with no match the
      summaries are unchanged. */
  lemma {:induction false} UpdatedSummariesShape(s: seq<Project>, title: string, refined: seq<Value>, i: nat)
    requires i <= |s|
    requires forall j :: 0 <= j < i ==> !Matches(s[j], title)
    ensures i == |s| ==> UpdatedSummaries(s, title, refined) == s
    ensures i < |s| && Matches(s[i], title) ==>
              UpdatedSummaries(s, title, refined) == s[i := s[i]["features" := Arr(refined)]]
    decreases i
  {
    if i > 0 {
      UpdatedSummariesShape(s[1..], title, refined, i - 1);
      assert [s[0]] + s[1..] == s;
      if i < |s| {
        assert [s[0]] + s[1..][i - 1 := s[i]["features" := Arr(refined)]] == s[i := s[i]["features" := Arr(refined)]];
      }
    }
  }

  /** Updating again with the same features changes nothing more. */
  lemma {:induction false} UpdatedSummariesIdempotent(s: seq<Project>, title: string, refined: seq<Value>)
    ensures UpdatedSummaries(UpdatedSummaries(s, title, refined), title, refined) == UpdatedSummaries(s, title, refined)
  {
    if s != [] {
      var u := UpdatedSummaries(s, title, refined);
      if Matches(s[0], title) {
        assert Matches(u[0], title);
        assert u[0]["features" := Arr(refined)] == u[0];
        assert u[1..] == s[1..];
      } else {
        UpdatedSummariesIdempotent(s[1..], title, refined);
        assert u[1..] == UpdatedSummaries(s[1..], title, refined);
      }
    }
  }

  /** `update_project_in_session`: the session's summaries, changed in place. */
  method UpdateProjectInSession(summaries: array<Project>, title: string, refined: seq<Value>)
    modifies summaries
    ensures summaries[..] == UpdatedSummaries(old(summaries[..]), title, refined)
  {
    var i := 0;
    while i < summaries.Length
      invariant 0 <= i <= summaries.Length
      invariant summaries[..] == old(summaries[..])
      invariant forall j :: 0 <= j < i ==> !Matches(summaries[j], title)
    {
      if Matches(summaries[i], title) {
        UpdatedSummariesShape(summaries[..], title, refined, i);
        summaries[i] := summaries[i]["features" := Arr(refined)];
        return;
      }
      i := i + 1;
    }
    UpdatedSummariesShape(summaries[..], title, refined, i);
  }

  // ---------------------------------------------------------------- GitHub user name

  /** `github.strip().rstrip("/").split("/")[-1] if github else ""`; a true value that is not
      a string has no `strip` (`None`). */
  function GithubUsername(github: Value): (r: Option<string>)
    ensures r.Some? <==> !Truthy(github) || github.Str?
    ensures !Truthy(github) ==> r == Some("")
    ensures github.Str? && Truthy(github) ==> r == Some(GithubAnalysis.Username(Strip(github.s)))
    ensures r.Some? ==> '/' !in r.value
  {
    if !Truthy(github) then Some("")
    else if github.Str? then Some(GithubAnalysis.Username(Strip(github.s)))
    else None
  }

  const GithubHost: string := "https://github.com"

  /** A profile URL, with or without a trailing slash, gives back the user name. */
  lemma UsernameOfProfileUrl(user: string, trailing: string)
    requires user != [] && '/' !in user
    requires user[|user| - 1] !in Whitespace
    requires trailing == "" || trailing == "/"
    ensures GithubUsername(Str(GithubHost + "/" + user + trailing)) == Some(user)
  {
    assert GithubHost[0] == 'h';
    UsernameAfterSlash(GithubHost, user, trailing);
  }

  lemma UsernameAfterSlash(host: string, user: string, trailing: string)
    requires host != [] && host[0] !in Whitespace
    requires user != [] && '/' !in user
    requires user[|user| - 1] !in Whitespace
    requires trailing == "" || trailing == "/"
    ensures GithubUsername(Str(host + "/" + user + trailing)) == Some(user)
  {
    UrlIsStripped(host, user, trailing);
    UrlLastSegment(host, user, trailing);
  }

  /** The URL has no surrounding whitespace, so only the slash handling applies. */
  lemma UrlIsStripped(host: string, user: string, trailing: string)
    requires host != [] && host[0] !in Whitespace
    requires user != [] && user[|user| - 1] !in Whitespace
    requires trailing == "" || trailing == "/"
    ensures GithubUsername(Str(host + "/" + user + trailing))
            == Some(GithubAnalysis.Username(host + "/" + user + trailing))
  {
    var url := host + "/" + user + trailing;
    assert url[0] == host[0];
    assert url[|url| - 1] == if trailing == "" then user[|user| - 1] else '/';
    StripNoop(url);
  }

  lemma UrlLastSegment(host: string, user: string, trailing: string)
    requires user != [] && '/' !in user
    requires trailing == "" || trailing == "/"
    ensures GithubAnalysis.Username(host + "/" + user + trailing) == user
  {
    var t := host + "/" + user;
    assert host + "/" + user + trailing == t + trailing;
    assert TrimRight(t + trailing, {'/'}) == t by {
      assert t[|t| - 1] == user[|user| - 1];
      TrimRightSuffix(t, trailing, {'/'});
    }
    LastSegmentAfter(host, '/', user);
  }

  // ---------------------------------------------------------------- manual projects

  /** A project typed in by hand: its title, technologies, date, feature bullets, and
      whether its checkbox is ticked. */
  datatype ManualProject = ManualProject(title: string, technologies: seq<string>, date: string,
                                         features: seq<string>, selected: bool)

  /** `[p for p in manual_projects if p["selected"] and p["title"]]`. */
  function ManualSelection(projects: seq<ManualProject>): seq<ManualProject> {
    Filter(projects, (p: ManualProject) => p.selected && p.title != "")
  }

  /** A manual project is kept, with all its copies and in order, exactly when it is ticked
      and has a title. */
  lemma ManualSelectionExact(projects: seq<ManualProject>)
    ensures forall p :: multiset(ManualSelection(projects))[p]
              == if p.selected && p.title != "" then multiset(projects)[p] else 0
    ensures IsSubsequence(ManualSelection(projects), projects)
  {
    var keep := (p: ManualProject) => p.selected && p.title != "";
    forall p
      ensures multiset(ManualSelection(projects))[p] == if keep(p) then multiset(projects)[p] else 0
    {
      FilterCount(projects, keep, p);
    }
    FilterIsSubsequence(projects, keep);
  }
}
