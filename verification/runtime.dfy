/**
 * How a Python Lambda handler ends, and the dictionary operations the handlers
 * apply to their decoded events. A handler either returns a JSON value or
 * raises an exception of some type with a message; Step Functions reports the
 * latter as a task failure whose error name is the exception type.
 */
module Runtime {
  import opened Json

  datatype Exit = Return(value: Json) | Raise(errorType: string, message: string)

  /** The Python type name of a decoded JSON value. */
  function TypeName(j: Json): string {
    match j
    case JNull => "NoneType"
    case JBool(_) => "bool"
    case JNum(_) => "int"
    case JStr(_) => "str"
    case JArr(_) => "list"
    case JObj(_) => "dict"
  }

  /** `j[key]`: the value, a KeyError naming the key, or a TypeError when `j` is not a dict. */
  function Subscript(j: Json, key: string): (r: Exit)
    ensures r.Return? <==> j.JObj? && key in j.fields
    ensures r.Return? ==> r.value == j.fields[key]
    ensures j.JObj? && key !in j.fields ==> r == Raise("KeyError", "'" + key + "'")
    ensures !j.JObj? ==> r.Raise? && r.errorType == "TypeError"
  {
    match j
    case JObj(fields) => if key in fields then Return(fields[key]) else Raise("KeyError", "'" + key + "'")
    case JArr(_) => Raise("TypeError", "list indices must be integers or slices, not str")
    case JStr(_) => Raise("TypeError", "string indices must be integers, not 'str'")
    case _ => Raise("TypeError", "'" + TypeName(j) + "' object is not subscriptable")
  }

  /** `j.get(key, default)`: never raises on a dict; an AttributeError on anything else. */
  function GetOr(j: Json, key: string, default: Json): (r: Exit)
    ensures r.Return? <==> j.JObj?
    ensures j.JObj? ==> r.value == (if key in j.fields then j.fields[key] else default)
  {
    match j
    case JObj(fields) => Return(if key in fields then fields[key] else default)
    case _ => Raise("AttributeError", "'" + TypeName(j) + "' object has no attribute 'get'")
  }

  /** `raise Exception(f"{prefix}: {str(e)}")`, the handlers' error classification. */
  function Wrap(prefix: string, message: string): (r: Exit)
    ensures r.Raise? && r.errorType == "Exception"
    ensures |r.message| == |prefix| + 2 + |message|
    ensures r.message[..|prefix|] == prefix && r.message[|prefix|..] == ": " + message
  {
    Raise("Exception", prefix + ": " + message)
  }
}
