/** The JSON values that `json.loads` can produce, as the Python objects they
    become. Objects are maps: the intake code only looks keys up, and the
    replies it builds from them are serialised with sorted keys. */
module JsonValues {

  datatype Json =
    | JNull
    | JBool(b: bool)
    | JInt(i: int)
    | JFloat(literal: string)
    | JStr(s: string)
    | JArr(items: seq<Json>)
    | JObj(fields: map<string, Json>)

  /** The name of the Python type a JSON value is loaded as, which Python
      puts into the message of a `TypeError` or an `AttributeError`. */
  function TypeName(j: Json): (name: string)
    ensures name == "dict" <==> j.JObj?
    ensures name == "list" <==> j.JArr?
    ensures name == "str" <==> j.JStr?
  {
    match j
    case JNull => "NoneType"
    case JBool(_) => "bool"
    case JInt(_) => "int"
    case JFloat(_) => "float"
    case JStr(_) => "str"
    case JArr(_) => "list"
    case JObj(_) => "dict"
  }

  /** Whether Python's `len()` accepts the loaded value. */
  predicate Sized(j: Json) {
    j.JStr? || j.JArr? || j.JObj?
  }

  /** Python's `d.get(key, default)` on a loaded object. */
  function Get(fields: map<string, Json>, key: string, default: Json): (v: Json)
    ensures key in fields ==> v == fields[key]
    ensures key !in fields ==> v == default
  {
    if key in fields then fields[key] else default
  }
}
