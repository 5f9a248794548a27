/** The dynamically typed values the pipeline passes around: the results of
    `json.loads` and the dictionaries the agents build from them. Floating
    point numbers are not part of the model. */
module Json {
  import opened Text

  datatype Value =
    | Null
    | Bool(b: bool)
    | Int(i: int)
    | Str(s: string)
    | Arr(items: seq<Value>)
    | Obj(fields: map<string, Value>)

  /** A Python dictionary with string keys. */
  type Record = map<string, Value>

  /** Python truthiness (`if v:`). */
  predicate Truthy(v: Value) {
    match v
    case Null => false
    case Bool(b) => b
    case Int(i) => i != 0
    case Str(s) => |s| > 0
    case Arr(xs) => |xs| > 0
    case Obj(m) => m != map[]
  }

  /** `r.get(key, default)`. */
  function Field(r: Record, key: string, default: Value): Value {
    if key in r then r[key] else default
  }

  /** Lists and dictionaries cannot be dictionary keys or set members. */
  predicate Hashable(v: Value) {
    !v.Arr? && !v.Obj?
  }

  /** The `TypeError` raised when an unhashable value is used as a key. */
  const UnhashableMessage: string := "unhashable type"

  /** Values that `sum` accepts (bool counts as int). */
  predicate Numeric(v: Value) {
    v.Int? || v.Bool?
  }

  /** `str(v)` for the values that can be dictionary keys; the rendering of
      lists and dictionaries is not modelled, as they are never keys. */
  function Display(v: Value): (r: string)
    ensures v.Str? ==> r == v.s
  {
    match v
    case Null => "None"
    case Bool(b) => if b then "True" else "False"
    case Int(i) => IntToString(i)
    case Str(s) => s
    case Arr(_) => "[...]"
    case Obj(_) => "{...}"
  }
}
