/** Option values, shared by every module. */
module Common {
  datatype Option<+T> = None | Some(value: T)
}

/**
 * The values Python's `json.loads` produces, with the few Python operations
 * the models apply to them: `type(v).__name__`, truthiness, `dict.get` and
 * `isinstance`.
 */
module Json {

  datatype Json =
    | JNull
    | JBool(b: bool)
    | JInt(i: int)
    | JFloat(f: real)
    | JStr(s: string)
    | JArray(items: seq<Json>)
    | JObject(fields: map<string, Json>)

  /** `json.loads`, which the models receive as a parameter. */
  datatype Decoded = Decoded(value: Json) | Malformed(message: string)

  /** `type(v).__name__` of the Python value. */
  function TypeName(v: Json): string {
    match v
    case JNull => "NoneType"
    case JBool(_) => "bool"
    case JInt(_) => "int"
    case JFloat(_) => "float"
    case JStr(_) => "str"
    case JArray(_) => "list"
    case JObject(_) => "dict"
  }

  /** `bool(v)`: None, False, zero and empty containers are false. */
  predicate Truthy(v: Json) {
    match v
    case JNull => false
    case JBool(b) => b
    case JInt(i) => i != 0
    case JFloat(f) => f != 0.0
    case JStr(s) => s != ""
    case JArray(items) => items != []
    case JObject(fields) => fields != map[]
  }

  /** `d.get(key, default)` on a dict. */
  function Get(fields: map<string, Json>, key: string, default: Json): (r: Json)
    ensures key in fields ==> r == fields[key]
    ensures key !in fields ==> r == default
  {
    if key in fields then fields[key] else default
  }

  /** The Python classes that decoded JSON values are checked against. */
  datatype PyType = StrType | IntType | BoolType | ListType | DictType

  function PyTypeName(t: PyType): string {
    match t
    case StrType => "str"
    case IntType => "int"
    case BoolType => "bool"
    case ListType => "list"
    case DictType => "dict"
  }

  /** `isinstance(v, t)`; `bool` is a subclass of `int`, so a boolean is an int. */
  predicate IsInstance(v: Json, t: PyType) {
    match t
    case StrType => v.JStr?
    case IntType => v.JInt? || v.JBool?
    case BoolType => v.JBool?
    case ListType => v.JArray?
    case DictType => v.JObject?
  }
}
