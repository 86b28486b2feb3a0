/** The JSON-shaped Python values the API layer passes around (place search
    results, Mongo documents, GeoJSON properties), with Python's truthiness,
    `or`, `dict.get` and iteration written out. */
module PyValue {
  import opened Wrappers

  /** A Python value built from JSON. Numbers are integers: the code under
      study only tests them against zero or passes them through. */
  datatype Value =
    | Null
    | Bool(b: bool)
    | Num(n: int)
    | Str(s: string)
    | List(items: seq<Value>)
    | Dict(fields: map<string, Value>)

  /** The exceptions the modelled code can raise or catch. */
  datatype PyError =
    | AttributeError   // a method such as `.get` or `.strip` called on the wrong type
    | TypeError        // iterating a non-iterable, hashing a list or dict
    | KeyError         // `d[k]` with `k` absent
    | ValidationError  // a pydantic model rejected its input
    | DuplicateKeyError
    | InvalidId        // `ObjectId(s)` with a malformed `s`
    | ExternalError    // a failure raised by a collaborator outside the model

  /** Python's `bool(v)`. */
  predicate Truthy(v: Value) {
    match v
    case Null => false
    case Bool(b) => b
    case Num(n) => n != 0
    case Str(s) => |s| > 0
    case List(xs) => |xs| > 0
    case Dict(m) => |m| > 0
  }

  /** Python's `a or b`: the first operand when it is truthy, else the second. */
  function Or(a: Value, b: Value): Value {
    if Truthy(a) then a else b
  }

  /** `d.get(k, default)` on a dict. */
  function Get(d: map<string, Value>, k: string, default: Value): Value {
    if k in d then d[k] else default
  }

  /** `v[k]` with a string key: a dict without `k` raises KeyError, and
      lists, strings and scalars reject a string index with TypeError. */
  function Subscript(v: Value, k: string): (r: Result<Value, PyError>)
    ensures r.Ok? <==> v.Dict? && k in v.fields
    ensures r.Ok? ==> r.value == v.fields[k]
    ensures r.Err? ==> r.error == (if v.Dict? then KeyError else TypeError)
  {
    if !v.Dict? then Err(TypeError)
    else if k in v.fields then Ok(v.fields[k])
    else Err(KeyError)
  }

  /** `v.get(k, default)` where `v` may not be a dict: anything else has no
      `.get` attribute. */
  function GetOn(v: Value, k: string, default: Value): Result<Value, PyError> {
    if v.Dict? then Ok(Get(v.fields, k, default)) else Err(AttributeError)
  }

  /** The elements `for x in v` visits. A string yields its characters and a
      dict its keys; the only code that iterates here immediately calls `.get`
      on each element, so a non-empty dict is reported as the AttributeError
      its first key would raise. */
  function Iterate(v: Value): Result<seq<Value>, PyError> {
    match v
    case List(xs) => Ok(xs)
    case Str(s) => Ok(seq(|s|, i requires 0 <= i < |s| => Str([s[i]])))
    case Dict(m) => if |m| == 0 then Ok([]) else Err(AttributeError)
    case _ => Err(TypeError)
  }

  /** Python's `hash(v)` succeeds: lists and dicts are unhashable. */
  predicate Hashable(v: Value) {
    !v.List? && !v.Dict?
  }
}
