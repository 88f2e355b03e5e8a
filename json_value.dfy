/**
 * A decoded JSON document, as Python's `json.loads` returns it. Decoding text
 * into this value is not modelled: callers receive it from a decoder passed in
 * as a parameter.
 */
module JsonValue {
  import opened Wrappers

  datatype Json =
    | JNull
    | JBool(b: bool)
    | JNumber(n: real)
    | JString(s: string)
    | JArray(items: seq<Json>)
    | JObject(members: seq<(string, Json)>)

  /** A text decoder: `None` is a `JSONDecodeError`. */
  type Decoder = string -> Option<Json>

  /** The value of `key` in an object's members; a repeated key keeps its last value, as `json.loads` does. */
  function Lookup(members: seq<(string, Json)>, key: string): (r: Option<Json>)
    ensures r.None? <==> forall i :: 0 <= i < |members| ==> members[i].0 != key
    ensures r.Some? ==> exists i :: 0 <= i < |members| && members[i] == (key, r.value)
  {
    if members == [] then None
    else if members[|members| - 1].0 == key then Some(members[|members| - 1].1)
    else Lookup(members[..|members| - 1], key)
  }

  /** `data[key]`: `None` stands for the exception (a missing key, or `data` not an object). */
  function Index(data: Json, key: string): Option<Json> {
    if data.JObject? then Lookup(data.members, key) else None
  }

  /** The last occurrence of a key decides its value. */
  lemma LookupLast(members: seq<(string, Json)>, key: string, v: Json)
    ensures Lookup(members + [(key, v)], key) == Some(v)
  {
  }

  /** A later member under another key does not affect a lookup. */
  lemma LookupSkip(members: seq<(string, Json)>, other: string, v: Json, key: string)
    requires other != key
    ensures Lookup(members + [(other, v)], key) == Lookup(members, key)
  {
    assert (members + [(other, v)])[..|members|] == members;
  }
}
