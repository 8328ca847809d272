/**
 * The values `json.loads` produces, and the two Python text conversions the
 * core applies to them (`str(v)`, and `repr(v)` inside containers).
 * Parsing itself is an oracle: a `Loads` function given by the caller.
 */
module Json {
  import opened Wrappers
  import Text

  /**
   * A parsed JSON value. A number carries the text Python prints for it;
   * an object carries its entries in the dictionary's order, one per key.
   */
  datatype Json =
    | JNull
    | JBool(b: bool)
    | JNumber(text: string)
    | JString(s: string)
    | JArray(items: seq<Json>)
    | JObject(entries: seq<(string, Json)>)

  /** `json.loads`: the parsed value, or `None` where it raises. */
  type Loads = string -> Option<Json>

  /** `d.get(key)` on an object's entries (a later duplicate wins, as in `json.loads`). */
  function Get(entries: seq<(string, Json)>, key: string): (r: Option<Json>)
    ensures r.Some? <==> exists i :: 0 <= i < |entries| && entries[i].0 == key
  {
    if entries == [] then None
    else if entries[|entries| - 1].0 == key then Some(entries[|entries| - 1].1)
    else
      var r := Get(entries[..|entries| - 1], key);
      assert forall i :: 0 <= i < |entries| - 1 ==> entries[..|entries| - 1][i] == entries[i];
      r
  }

  /** The object as a mapping from keys to values. */
  function ToMap(entries: seq<(string, Json)>): (m: map<string, Json>)
    ensures forall k :: k in m <==> Get(entries, k).Some?
    ensures forall k :: k in m ==> Some(m[k]) == Get(entries, k)
  {
    map k | k in (set i | 0 <= i < |entries| :: entries[i].0) :: Get(entries, k).value
  }

  /** Python's `repr` of a parsed value (strings quoted with `'`, without escaping). */
  function Repr(v: Json): string
    decreases v
  {
    match v
    case JNull => "None"
    case JBool(b) => if b then "True" else "False"
    case JNumber(text) => text
    case JString(s) => "'" + s + "'"
    case JArray(items) =>
      "[" + Text.Join(seq(|items|, i requires 0 <= i < |items| => Repr(items[i])), ", ") + "]"
    case JObject(entries) =>
      "{" + Text.Join(seq(|entries|, i requires 0 <= i < |entries| =>
                            "'" + entries[i].0 + "': " + Repr(entries[i].1)), ", ") + "}"
  }

  /** Python's `str` of a parsed value: a string is itself, anything else its `repr`. */
  function Str(v: Json): (r: string)
    ensures v.JString? ==> r == v.s
  {
    if v.JString? then v.s else Repr(v)
  }
}
