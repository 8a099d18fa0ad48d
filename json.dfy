/**
 * The values JSON.parse produces, as far as the game looks at them, and the
 * text a template literal makes of them.
 */
module JsonValue {

  import opened Wrappers

  /**
   * A parsed JSON value. A number keeps the text it was parsed from;
   * an object keeps its members by name (a repeated key keeps its last value,
   * as JSON.parse does).
   */
  datatype Json =
    | JNull
    | JBool(b: bool)
    | JNumber(text: string)
    | JString(s: string)
    | JArray(items: seq<Json>)
    | JObject(members: map<string, Json>)

  /**
   * `v.name` on a parsed value, or on an object spread from it: only an object
   * has named members; anything else yields `undefined` (None).
   */
  function Member(v: Json, name: string): Option<Json>
  {
    if v.JObject? && name in v.members then Some(v.members[name]) else None
  }

  /** `${v}`: the string conversion JavaScript applies to a value inside a template literal. */
  function Display(v: Option<Json>): string
  {
    match v
    case None => "undefined"
    case Some(j) => ToText(j)
  }

  /**
   * ToString of a parsed value. Every object becomes "[object Object]":
   * this assumes no object has its own `toString` member, for which
   * JavaScript throws a TypeError instead (a parsed member is never
   * callable), as it does for an array holding such an object.
   */
  function ToText(j: Json): string
    decreases j
  {
    match j
    case JNull => "null"
    case JBool(b) => if b then "true" else "false"
    case JNumber(t) => t
    case JString(s) => s
    // Array.prototype.toString joins the elements with "," and prints null as ""
    case JArray(items) =>
      Join(seq(|items|, k requires 0 <= k < |items| => if items[k].JNull? then "" else ToText(items[k])), ",")
    case JObject(_) => "[object Object]"
  }

  function Join(parts: seq<string>, sep: string): string
  {
    if |parts| == 0 then ""
    else if |parts| == 1 then parts[0]
    else parts[0] + sep + Join(parts[1..], sep)
  }

}
