/**
 The value `json.loads` produces: Python's `None`, `bool`, `int`, `float`,
 `str`, `list` and `dict`. Objects are dicts, so a key occurs at most once.
 */
module JsonValue {

  datatype Json =
    | Null
    | Bool(b: bool)
    | Int(i: int)
    | Float(f: real)
    | String(s: string)
    | Array(items: seq<Json>)
    | Object(fields: map<string, Json>)

  /** The Python type name an exception message reports for a value. */
  function TypeName(j: Json): string
  {
    match j
    case Null => "NoneType"
    case Bool(_) => "bool"
    case Int(_) => "int"
    case Float(_) => "float"
    case String(_) => "str"
    case Array(_) => "list"
    case Object(_) => "dict"
  }

  /** `dict.get(key)`: the value stored under `key`, or `None` when it is absent. */
  function Get(fields: map<string, Json>, key: string): Json
  {
    if key in fields then fields[key] else Null
  }
}
