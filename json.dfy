/** JSON-like values as Python holds them after `json.loads`, and the parts of Python's
    truthiness and `dict.get` that the core relies on. */
module Json {

  datatype Value =
    | Null
    | Bool(b: bool)
    | Int(i: int)
    | Float(r: real)
    | Str(s: string)
    | Arr(items: seq<Value>)
    | Obj(fields: map<string, Value>)

  /** Python's truth value of a JSON value: `None`, `False`, zero, and empty strings,
      lists and dicts are false. */
  predicate Truthy(v: Value) {
    match v
    case Null => false
    case Bool(b) => b
    case Int(i) => i != 0
    case Float(r) => r != 0.0
    case Str(s) => s != []
    case Arr(xs) => xs != []
    case Obj(m) => |m| != 0
  }

  /** `d.get(key, default)`. */
  function Get(d: map<string, Value>, key: string, default: Value): Value {
    if key in d then d[key] else default
  }

  predicate AllFalsy(vs: seq<Value>) {
    forall i :: 0 <= i < |vs| ==> !Truthy(vs[i])
  }

  /** Python's `vs[0] or vs[1] or ... or last`: the first truthy operand, else `last`. */
  function FirstTruthy(vs: seq<Value>, last: Value): (r: Value)
    ensures r in vs + [last]
    ensures r != last ==> Truthy(r)
    ensures (exists i :: 0 <= i < |vs| && Truthy(vs[i])) ==> Truthy(r) && r in vs
    ensures exists j :: 0 <= j <= |vs| && AllFalsy(vs[..j]) && r == (vs + [last])[j]
  {
    if vs == [] then last
    else if Truthy(vs[0]) then assert AllFalsy(vs[..0]); vs[0]
    else
      var r := FirstTruthy(vs[1..], last);
      FalsyHeadShift(vs, last, r);
      r
  }

  /** A falsy first operand moves the position of the chosen operand up by one. */
  lemma FalsyHeadShift(vs: seq<Value>, last: Value, r: Value)
    requires vs != [] && !Truthy(vs[0])
    requires exists j :: 0 <= j <= |vs[1..]| && AllFalsy(vs[1..][..j]) && r == (vs[1..] + [last])[j]
    ensures exists j :: 0 <= j <= |vs| && AllFalsy(vs[..j]) && r == (vs + [last])[j]
  {
    var j :| 0 <= j <= |vs[1..]| && AllFalsy(vs[1..][..j]) && r == (vs[1..] + [last])[j];
    assert vs[..j + 1] == [vs[0]] + vs[1..][..j];
    assert (vs + [last])[j + 1] == (vs[1..] + [last])[j];
  }

  /** `d.get("repository") or d.get("repo") or d.get("name") or default`: how a repository
      record is named, both when it is summarised and when it is saved. */
  function RepoName(d: map<string, Value>, default: string): Value {
    FirstTruthy([Get(d, "repository", Null), Get(d, "repo", Null), Get(d, "name", Null)], Str(default))
  }

  /** The name is the first of `repository`, `repo` and `name` that is set to a true value,
      and the default when none is. */
  lemma RepoNamePrecedence(d: map<string, Value>, default: string)
    ensures "repository" in d && Truthy(d["repository"]) ==> RepoName(d, default) == d["repository"]
    ensures !("repository" in d && Truthy(d["repository"])) && "repo" in d && Truthy(d["repo"])
            ==> RepoName(d, default) == d["repo"]
    ensures !("repository" in d && Truthy(d["repository"])) && !("repo" in d && Truthy(d["repo"]))
            && "name" in d && Truthy(d["name"])
            ==> RepoName(d, default) == d["name"]
    ensures (forall k :: k in ["repository", "repo", "name"] && k in d ==> !Truthy(d[k]))
            ==> RepoName(d, default) == Str(default)
  {
    var vs := [Get(d, "repository", Null), Get(d, "repo", Null), Get(d, "name", Null)];
    assert vs[1..] == [vs[1], vs[2]] && vs[1..][1..] == [vs[2]] && vs[1..][1..][1..] == [];
  }
}
