/** JSON values as the client posts them and the backend's JSONField stores them, with the
    object accessors the core relies on: JavaScript's `hasOwnProperty` and property read, and
    Python's `dict.get` and `str()`. */
module JsonValues {
  import opened Basics

  /** A JSON document. Object members keep their textual order; numbers are integers. */
  datatype Json =
    | JNull
    | JBool(b: bool)
    | JInt(i: int)
    | JStr(s: string)
    | JArr(elems: seq<Json>)
    | JObj(fields: seq<(string, Json)>)

  /** The value bound to `key` among an object's members. When a key is repeated the last
      member wins, as it does in both JSON.parse and json.loads. */
  function Lookup(fields: seq<(string, Json)>, key: string): (r: Option<Json>)
    ensures r.None? <==> forall i :: 0 <= i < |fields| ==> fields[i].0 != key
    ensures r.Some? ==> exists i :: 0 <= i < |fields| && fields[i] == (key, r.value)
                          && forall j :: i < j < |fields| ==> fields[j].0 != key
  {
    if |fields| == 0 then None
    else if fields[|fields| - 1].0 == key then Some(fields[|fields| - 1].1)
    else Lookup(fields[..|fields| - 1], key)
  }

  /** `v?.hasOwnProperty(key)` in JavaScript, for the keys "value" and "values": only objects
      have such own properties. */
  predicate HasOwn(v: Json, key: string) {
    v.JObj? && Lookup(v.fields, key).Some?
  }

  /** The single-key object `{key: v}`. */
  function Singleton(key: string, v: Json): (r: Json)
    ensures HasOwn(r, key) && Lookup(r.fields, key) == Some(v)
  {
    JObj([(key, v)])
  }

  // ---------------------------------------------------------------------------
  // Python's str() and repr()

  function Join(parts: seq<string>, sep: string): string {
    if |parts| == 0 then ""
    else if |parts| == 1 then parts[0]
    else Join(parts[..|parts| - 1], sep) + sep + parts[|parts| - 1]
  }

  /** Python's repr() of a decoded JSON value. Strings are shown between single quotes
      without Python's escaping rules. */
  function PyRepr(v: Json): string {
    match v
    case JNull => "None"
    case JBool(b) => if b then "True" else "False"
    case JInt(i) => IntToDecimal(i)
    case JStr(s) => "'" + s + "'"
    case JArr(elems) =>
      "[" + Join(seq(|elems|, k requires 0 <= k < |elems| => PyRepr(elems[k])), ", ") + "]"
    case JObj(fields) =>
      "{" + Join(seq(|fields|, k requires 0 <= k < |fields| =>
                       "'" + fields[k].0 + "': " + PyRepr(fields[k].1)), ", ") + "}"
  }

  /** Python's str(): a string is itself, anything else is its repr(). */
  function PyStr(v: Json): (r: string)
    ensures v.JStr? ==> r == v.s
    ensures v.JInt? ==> r == IntToDecimal(v.i)
    ensures v.JNull? ==> r == "None"
  {
    if v.JStr? then v.s else PyRepr(v)
  }
}
