/**
 * The JSON documents that flow between the pipeline's stages: Lambda events,
 * stage results, the company submissions file and queue message bodies, together
 * with the handful of Python operations the handlers apply to them.
 */
module Json {
  import opened Wrappers
  import Text

  /** A decoded JSON value. Numbers are integers; floating-point values are not modelled. */
  datatype Json =
    | JNull
    | JBool(b: bool)
    | JNum(n: int)
    | JStr(s: string)
    | JArr(items: seq<Json>)
    | JObj(fields: map<string, Json>)

  /** `d.get(key)` on a JSON object: `None` when the key is absent. */
  function Get(fields: map<string, Json>, key: string): (r: Option<Json>)
    ensures r.Some? <==> key in fields
    ensures r.Some? ==> r.value == fields[key]
  {
    if key in fields then Some(fields[key]) else None
  }

  /** Python truthiness of a decoded JSON value (`if not x`, `x or []`). */
  predicate Truthy(j: Json) {
    match j
    case JNull => false
    case JBool(b) => b
    case JNum(n) => n != 0
    case JStr(s) => |s| > 0
    case JArr(items) => |items| > 0
    case JObj(fields) => |fields| > 0
  }

  /**
   * The elements a Python `for` loop (or `zip`) visits when iterating over a
   * decoded JSON value: the items of a list, the one-character strings of a
   * string. `None` stands for the TypeError Python raises for null, booleans and
   * numbers; iterating over an object is modelled as a TypeError too.
   */
  function Iterate(j: Json): (r: Option<seq<Json>>)
    ensures j.JArr? ==> r == Some(j.items)
    ensures j.JStr? ==> r.Some? && |r.value| == |j.s|
    ensures j.JStr? ==> forall i :: 0 <= i < |j.s| ==> r.value[i] == JStr([j.s[i]])
    ensures r.None? <==> !(j.JArr? || j.JStr?)
  {
    match j
    case JArr(items) => Some(items)
    case JStr(s) => Some(seq(|s|, i requires 0 <= i < |s| => JStr([s[i]])))
    case _ => None
  }

  /**
   * `str(v)` / f-string rendering of a scalar JSON value as Python prints it
   * after `json.loads`; `None` for lists and objects, whose repr is not modelled.
   */
  function PyStr(j: Json): (r: Option<string>)
    ensures j.JStr? ==> r == Some(j.s)
    ensures r.Some? <==> !(j.JArr? || j.JObj?)
  {
    match j
    case JNull => Some("None")
    case JBool(b) => Some(if b then "True" else "False")
    case JNum(n) => Some(if n < 0 then "-" + Text.NatToString(-n) else Text.NatToString(n))
    case JStr(s) => Some(s)
    case _ => None
  }
}
