/** The JSON values the Graph API and the token endpoint exchange, as Python
    sees them after `json.loads`: objects are dictionaries. */
module Json {
  import opened Base

  datatype Value =
    | Null
    | Bool(b: bool)
    | Num(n: int)
    | Str(s: string)
    | Arr(items: seq<Value>)
    | Obj(fields: map<string, Value>)

  /** `v.get(key, default)`: `None` when `v` is not a dictionary, which in
      Python raises `AttributeError`. */
  function Get(v: Value, key: string, default: Value): Option<Value> {
    match v
    case Obj(fields) => Some(if key in fields then fields[key] else default)
    case _ => None
  }

  /** The elements of a list value; any other value iterates as nothing here. */
  function Items(v: Value): seq<Value> {
    if v.Arr? then v.items else []
  }

  /** The value of `key` in `v` when `v` is an object holding it, else `default`. */
  function FieldOr(v: Value, key: string, default: Value): Value {
    if v.Obj? && key in v.fields then v.fields[key] else default
  }

  /** Python's `None` for an optional result. */
  function OrNull(v: Option<Value>): Value {
    v.GetOr(Null)
  }
}
