/**
 * The values of parsed model output and of Python dictionaries, with the
 * few Python operations the modelled code applies to them.
 */
module PyValues {
  import opened Wrappers
  import opened Text

  datatype Value =
    | Str(s: string)
    | Int(i: int)
    | Bool(b: bool)
    | Null
    | List(items: seq<Value>)
    | Dict(fields: map<string, Value>)

  type Dict = map<string, Value>

  /** Python truthiness: empty strings, zero, `False`, `None` and empty containers are false. */
  predicate Truthy(v: Value)
  {
    match v
    case Str(s) => s != []
    case Int(i) => i != 0
    case Bool(b) => b
    case Null => false
    case List(items) => items != []
    case Dict(fields) => fields != map[]
  }

  /** `d.get(key)`, `None` standing for a missing key. */
  function Get(d: Dict, key: string): Value
  {
    if key in d then d[key] else Null
  }

  /** `d.get(key, dflt)`. */
  function GetOr(d: Dict, key: string, dflt: Value): Value
  {
    if key in d then d[key] else dflt
  }

  /** Python's `x in v` for a text `x`: a substring, a list element or a key; other values raise `TypeError`. */
  function PyIn(x: string, v: Value): (r: Result<bool>)
    ensures r.Err? <==> !(v.Str? || v.List? || v.Dict?)
    ensures v.Str? ==> r == Ok(Contains(v.s, x))
  {
    match v
    case Str(s) => Ok(Contains(s, x))
    case List(items) => Ok(Str(x) in items)
    case Dict(fields) => Ok(x in fields)
    case _ => Err(TypeError)
  }

  /** Python's `int(v)`: integers, booleans as 0/1, and decimal text; other values raise. */
  function PyInt(v: Value): (r: Result<int>)
    ensures v.Int? ==> r == Ok(v.i)
    ensures v.Str? ==> (r.Ok? <==> ParseInt(v.s).Some?)
  {
    match v
    case Int(i) => Ok(i)
    case Bool(b) => Ok(if b then 1 else 0)
    case Str(s) => (if ParseInt(s).Some? then Ok(ParseInt(s).value) else Err(ValueError("invalid literal for int()")))
    case _ => Err(TypeError)
  }

  /** Python's `str(v)`; lists and dictionaries go through `repr`, given here as a parameter. */
  function PyStr(v: Value, repr: Value -> string): string
  {
    match v
    case Str(s) => s
    case Int(i) => IntToString(i)
    case Bool(b) => if b then "True" else "False"
    case Null => "None"
    case _ => repr(v)
  }
}
