/**
 * The Python values the core passes around (configuration loaded from YAML, user requests,
 * plan data) and the exceptions it raises or lets escape.
 */
module Values {
  import opened Wrappers
  import opened Strings

  /** A YAML-loaded value: dictionaries are keyed by strings. */
  datatype Value =
    | Null
    | Bool(b: bool)
    | Int(i: int)
    | Str(s: string)
    | List(items: seq<Value>)
    | Dict(entries: map<string, Value>)

  /**
   * Exception kinds: the Python built-ins the code lets escape, and dcluster's own.
   * `FormatFieldError` stands for the failure of a nested replacement field inside a
   * format specification, which `str.format` looks up among its own arguments.
   */
  datatype Error =
    | KeyError(key: string)
    | ScalarKeyError(scalar: Value)
    | TypeError
    | AttributeError
    | NameError
    | IndexError
    | ValueError
    | FormatFieldError
    | RecursionError
    | NetworkSubnetTooSmall
    | NameExists
    | NoNetworkSubnetsAvailable
    | NetworkSubnetTaken
    | NotFromDcluster

  type Dict = map<string, Value>

  /** `v[key]` on a value that should be a dictionary. */
  function Lookup(v: Value, key: string): (r: Result<Value, Error>)
    ensures r.Ok? <==> v.Dict? && key in v.entries
    ensures r.Ok? ==> r.value == v.entries[key]
    ensures r.Err? && v.Dict? ==> r.error == KeyError(key)
  {
    if !v.Dict? then Err(TypeError)
    else if key in v.entries then Ok(v.entries[key])
    else Err(KeyError(key))
  }

  /** `v[k1][k2]...`: successive lookups along a path of keys. */
  function At(v: Value, path: seq<string>): (r: Result<Value, Error>)
    ensures path == [] ==> r == Ok(v)
    ensures path != [] && r.Ok? ==> Lookup(v, path[0]).Ok? && r == At(Lookup(v, path[0]).value, path[1..])
  {
    if path == [] then Ok(v)
    else
      var child :- Lookup(v, path[0]);
      At(child, path[1..])
  }

  /** A path of one key is one lookup. */
  lemma AtOne(v: Value, a: string)
    ensures At(v, [a]) == Lookup(v, a)
  {
    assert [a][1..] == [];
  }

  /** A path of two keys is two lookups. */
  lemma AtTwo(v: Value, a: string, b: string)
    ensures At(v, [a, b]) == (if Lookup(v, a).Ok? then Lookup(Lookup(v, a).value, b) else Err(Lookup(v, a).error))
  {
    assert [a, b][1..] == [b];
    if Lookup(v, a).Ok? {
      AtOne(Lookup(v, a).value, b);
    }
  }

  /** A path of three keys is three lookups. */
  lemma AtThree(v: Value, a: string, b: string, c: string)
    ensures At(v, [a, b, c]) == (if Lookup(v, a).Ok? then At(Lookup(v, a).value, [b, c]) else Err(Lookup(v, a).error))
  {
    assert [a, b, c][1..] == [b, c];
  }

  /** `key in v` on a value that should be a dictionary. */
  function Contains(v: Value, key: string): Result<bool, Error>
  {
    if v.Dict? then Ok(key in v.entries) else Err(TypeError)
  }

  /** `d.get(key, default)`. */
  function GetOr(d: Dict, key: string, default: Value): Value
  {
    if key in d then d[key] else default
  }

  /** A value used where Python needs a `str`. */
  function AsString(v: Value): (r: Result<string, Error>)
    ensures r.Ok? <==> v.Str?
  {
    if v.Str? then Ok(v.s) else Err(TypeError)
  }

  /** Python truthiness. */
  predicate Truthy(v: Value)
  {
    match v
    case Null => false
    case Bool(b) => b
    case Int(i) => i != 0
    case Str(s) => s != []
    case List(xs) => xs != []
    case Dict(m) => m != map[]
  }

  /**
   * The elements `list.extend(v)` appends (and `for x in v` visits): a list's items, a
   * string's characters, a mapping's keys. A mapping's keys come in ascending order here.
   */
  function Elements(v: Value): (r: Result<seq<Value>, Error>)
    ensures v.List? ==> r == Ok(v.items)
    ensures v.Str? ==> r.Ok? && |r.value| == |v.s| && forall i :: 0 <= i < |v.s| ==> r.value[i] == Str([v.s[i]])
    ensures v.Dict? ==> r.Ok? && |r.value| == |v.entries| && forall x :: x in r.value <==> x.Str? && x.s in v.entries
    ensures r.Ok? <==> v.List? || v.Str? || v.Dict?
  {
    match v
    case List(xs) => Ok(xs)
    case Str(s) => Ok(seq(|s|, i requires 0 <= i < |s| => Str([s[i]])))
    case Dict(m) => Ok(KeyValues(SortedSet(m.Keys)))
    case _ => Err(TypeError)
  }

  /** Keys as string values, in the same order. */
  function KeyValues(ks: seq<string>): (r: seq<Value>)
    ensures |r| == |ks| && forall i :: 0 <= i < |ks| ==> r[i] == Str(ks[i])
    ensures forall x :: x in r <==> x.Str? && x.s in ks
  {
    seq(|ks|, i requires 0 <= i < |ks| => Str(ks[i]))
  }
}
