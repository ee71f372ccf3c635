/** The helper that turns the resume form into the context of the LaTeX template
    (backend/app/services/resume_parser.py). */
module ResumeParser {
  import opened Wrappers
  import opened Json
  import opened Seqs
  import opened Text

  /** A list item as the comma-list parser leaves it: not empty, no comma, and no
      whitespace at either end. */
  predicate CleanItem(x: string) {
    x != [] && ',' !in x && x[0] !in Whitespace && x[|x| - 1] !in Whitespace
  }

  predicate CleanItems(xs: seq<Value>) {
    forall i :: 0 <= i < |xs| ==> xs[i].Str? && CleanItem(xs[i].s)
  }

  /** `[x.strip() for x in parts if x.strip()]`, for pieces that hold no comma. */
  function CsvItems(parts: seq<string>): (r: seq<Value>)
    requires forall k :: 0 <= k < |parts| ==> ',' !in parts[k]
    ensures |r| <= |parts|
    ensures CleanItems(r)
  {
    if parts == [] then []
    else
      var x := Strip(parts[0]);
      TrimKeepsOut(parts[0], Whitespace, ',');
      (if x != [] then [Str(x)] else []) + CsvItems(parts[1..])
  }

  /** `csv_to_list(s)`: a false value gives `[]`, a list is returned as it is, and a string
      is split at commas into its stripped non-empty pieces. Any other true value has no
      `split` method, so the call raises; that is `None`. */
  function CsvToList(v: Value): (r: Option<Value>)
    ensures r.Some? <==> !Truthy(v) || v.Arr? || v.Str?
    ensures r.Some? ==> r.value.Arr?
    ensures !Truthy(v) ==> r == Some(Arr([]))
    ensures v.Arr? ==> r == Some(v)
    ensures v.Str? ==> CleanItems(r.value.items)
  {
    if !Truthy(v) then Some(Arr([]))
    else if v.Arr? then Some(v)
    else if v.Str? then Some(Arr(CsvItems(Split(v.s, ','))))
    else None
  }

  /** A string is parsed into exactly its comma-separated pieces, stripped, with the empty
      ones dropped, in input order. */
  lemma CsvToListPieces(s: string)
    ensures CsvToList(Str(s)).Some?
    ensures Texts(CsvToList(Str(s)).value.items) == Filter(StripAll(Split(s, ',')), NonEmpty)
  {
    if s == "" {
      assert Split(s, ',') == [""];
      assert StripAll([""]) == [""];
    } else {
      CsvItemsArePieces(Split(s, ','));
    }
  }

  predicate NonEmpty(x: string) { x != "" }

  /** Every piece, stripped. */
  function StripAll(parts: seq<string>): seq<string> {
    if parts == [] then [] else [Strip(parts[0])] + StripAll(parts[1..])
  }

  /** The items are the stripped pieces that are not empty, in the order of the pieces. */
  lemma {:induction false} CsvItemsArePieces(parts: seq<string>)
    requires forall k :: 0 <= k < |parts| ==> ',' !in parts[k]
    ensures Texts(CsvItems(parts)) == Filter(StripAll(parts), NonEmpty)
  {
    if parts != [] {
      CsvItemsArePieces(parts[1..]);
      var x := Strip(parts[0]);
      var head: seq<Value> := if x != [] then [Str(x)] else [];
      assert CsvItems(parts) == head + CsvItems(parts[1..]);
      TextsConcat(head, CsvItems(parts[1..]));
      assert StripAll(parts) == [x] + StripAll(parts[1..]);
    }
  }

  lemma TextsConcat(a: seq<Value>, b: seq<Value>)
    requires forall i :: 0 <= i < |a| ==> a[i].Str?
    requires forall i :: 0 <= i < |b| ==> b[i].Str?
    ensures Texts(a + b) == Texts(a) + Texts(b)
  {
    assert forall i :: 0 <= i < |a + b| ==> (a + b)[i].Str?;
  }

  /** The texts of string values. */
  function Texts(xs: seq<Value>): (r: seq<string>)
    requires forall i :: 0 <= i < |xs| ==> xs[i].Str?
    ensures |r| == |xs| && forall i :: 0 <= i < |xs| ==> r[i] == xs[i].s
  {
    if xs == [] then [] else [xs[0].s] + Texts(xs[1..])
  }

  lemma {:induction false} CsvItemsOfClean(xs: seq<Value>)
    requires CleanItems(xs)
    ensures forall k :: 0 <= k < |Texts(xs)| ==> ',' !in Texts(xs)[k]
    ensures CsvItems(Texts(xs)) == xs
  {
    if xs != [] {
      StripNoop(xs[0].s);
      CsvItemsOfClean(xs[1..]);
      assert Texts(xs)[1..] == Texts(xs[1..]);
    }
  }

  /** Joining clean items with commas and parsing the text again gives the same items. */
  lemma CsvRoundTrip(xs: seq<Value>)
    requires CleanItems(xs)
    ensures CsvToList(Str(Join(Texts(xs), ","))) == Some(Arr(xs))
  {
    CsvItemsOfClean(xs);
    if xs != [] {
      SplitJoin(Texts(xs), ',');
      assert Join(Texts(xs), ",") != [] by {
        JoinHasFirst(Texts(xs), ",");
      }
    }
  }

  /** The first piece is a prefix of the joined text. */
  lemma JoinHasFirst(parts: seq<string>, sep: string)
    requires parts != []
    ensures |Join(parts, sep)| >= |parts[0]|
    ensures Join(parts, sep)[..|parts[0]|] == parts[0]
  {
  }

  /** Parsing what the parser produced, once it has been written back as a comma list, gives
      the same list: the parser's output is a fixed point of format-then-parse. */
  lemma CsvReparse(s: string)
    ensures var r := CsvToList(Str(s)).value.items;
            CsvToList(Str(Join(Texts(r), ","))) == CsvToList(Str(s))
  {
    CsvRoundTrip(CsvToList(Str(s)).value.items);
  }

  const ScalarKeys: seq<string> := ["name", "phone", "email", "linkedin", "github"]
  const ListKeys: seq<string> := ["education", "coursework", "projects", "experience", "achievements"]
  const CsvKeys: seq<string> := ["languages", "tools"]

  /** `{k: form_data.get(k, default) for k in keys}`. */
  function Defaulted(form: map<string, Value>, keys: seq<string>, default: Value): (r: map<string, Value>)
    ensures forall k :: k in r <==> k in keys
  {
    map k | k in keys :: Get(form, k, default)
  }

  /** No key belongs to two of the three groups. */
  lemma KeyGroupsDisjoint()
    ensures forall k :: k in ScalarKeys ==> k !in ListKeys && k !in CsvKeys
    ensures forall k :: k in ListKeys ==> k !in CsvKeys
  {
  }

  /** `normalize_form_to_context(form_data)`: the twelve template keys. Contact fields
      default to `""`, list fields to `[]`, and only `languages` and `tools` go through
      `csv_to_list`; when either of those raises, so does the whole call (`None`). */
  function NormalizeFormToContext(form: map<string, Value>): Option<map<string, Value>>
  {
    var languages := CsvToList(Get(form, "languages", Str("")));
    var tools := CsvToList(Get(form, "tools", Str("")));
    if languages.None? || tools.None? then None
    else Some(Defaulted(form, ScalarKeys, Str("")) + Defaulted(form, ListKeys, Arr([]))
              + map["languages" := languages.value, "tools" := tools.value])
  }

  /** The call fails exactly when `languages` or `tools` is a true value that is neither a
      string nor a list. */
  lemma ContextFailure(form: map<string, Value>)
    ensures NormalizeFormToContext(form).None?
            <==> exists k :: k in CsvKeys && k in form && Truthy(form[k]) && !form[k].Arr? && !form[k].Str?
  {
    assert forall k :: k in CsvKeys <==> k == "languages" || k == "tools";
  }

  /** A successful context has exactly the twelve keys; the contact and list fields are
      copied (or defaulted), and `languages` and `tools` are lists: empty when missing or
      false, copied when already lists, of clean items when the form held text. */
  lemma ContextShape(form: map<string, Value>)
    ensures var r := NormalizeFormToContext(form);
            r.Some? ==>
              && (forall k :: k in r.value <==> k in ScalarKeys || k in ListKeys || k in CsvKeys)
              && (forall k :: k in ScalarKeys ==> r.value[k] == Get(form, k, Str("")))
              && (forall k :: k in ListKeys ==> r.value[k] == Get(form, k, Arr([])))
              && (forall k :: k in CsvKeys ==>
                    && r.value[k].Arr?
                    && r.value[k] == CsvToList(Get(form, k, Str(""))).value
                    && (k !in form || !Truthy(form[k]) ==> r.value[k] == Arr([]))
                    && (k in form && form[k].Arr? ==> r.value[k] == form[k])
                    && (k in form && form[k].Str? ==> CleanItems(r.value[k].items)))
  {
    KeyGroupsDisjoint();
    if NormalizeFormToContext(form).Some? {
      var c := NormalizeFormToContext(form).value;
      var scalars, lists := Defaulted(form, ScalarKeys, Str("")), Defaulted(form, ListKeys, Arr([]));
      var languages := CsvToList(Get(form, "languages", Str(""))).value;
      var tools := CsvToList(Get(form, "tools", Str(""))).value;
      assert c == scalars + lists + map["languages" := languages, "tools" := tools];
      forall k | k in ScalarKeys
        ensures c[k] == Get(form, k, Str(""))
      {
        assert k in scalars && k !in lists && k != "languages" && k != "tools";
      }
      forall k | k in ListKeys
        ensures c[k] == Get(form, k, Arr([]))
      {
        assert k in lists && k != "languages" && k != "tools";
      }
      forall k | k in CsvKeys
        ensures c[k] == CsvToList(Get(form, k, Str(""))).value
      {
        assert k == "languages" || k == "tools";
      }
    }
  }

  /** Normalising a context again changes nothing. */
  lemma NormalizeIdempotent(form: map<string, Value>)
    requires NormalizeFormToContext(form).Some?
    ensures NormalizeFormToContext(NormalizeFormToContext(form).value) == NormalizeFormToContext(form)
  {
    var c := NormalizeFormToContext(form).value;
    var scalars, lists := Defaulted(form, ScalarKeys, Str("")), Defaulted(form, ListKeys, Arr([]));
    var languages := CsvToList(Get(form, "languages", Str(""))).value;
    var tools := CsvToList(Get(form, "tools", Str(""))).value;
    assert c == scalars + lists + map["languages" := languages, "tools" := tools];
    KeyGroupsDisjoint();
    assert CsvToList(Get(c, "languages", Str(""))) == Some(languages);
    assert CsvToList(Get(c, "tools", Str(""))) == Some(tools);
    DefaultedAgain(form, c, ScalarKeys, Str(""));
    DefaultedAgain(form, c, ListKeys, Arr([]));
  }

  /** Defaulting again over keys whose values were already defaulted from `form` gives the
      same map. */
  lemma DefaultedAgain(form: map<string, Value>, c: map<string, Value>, keys: seq<string>, default: Value)
    requires forall k :: k in keys ==> k in c && c[k] == Get(form, k, default)
    ensures Defaulted(c, keys, default) == Defaulted(form, keys, default)
  {
  }
}
