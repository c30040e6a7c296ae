/**
 * Parsed JSON values, as Python's `json.loads` returns them. Objects keep their keys in document
 * order, like the `dict` Python builds. Parsing itself is not modelled: where the source calls
 * `json.loads`, the model takes a `string -> Option<Json>` parameter (None for text that is not JSON).
 */
module Json {
  import opened Wrappers
  import opened Entries

  datatype Json = JNull | JBool(b: bool) | JNum(n: int) | JStr(s: string) | JArr(items: seq<Json>) | JObj(fields: Table<string, Json>)

  /** `isinstance(v, dict) and k in v`. */
  predicate HasField(v: Json, k: string)
  {
    v.JObj? && HasKey(v.fields, k)
  }

  /** `v.get(k)` on a dict. */
  function Field(v: Json, k: string): (r: Option<Json>)
    ensures r.Some? <==> HasField(v, k)
  {
    if v.JObj? then Get(v.fields, k) else None
  }

  /** Python truthiness of a parsed value: null, false, 0, "", [] and {} are falsy. */
  predicate Truthy(v: Json)
  {
    match v
    case JNull => false
    case JBool(b) => b
    case JNum(n) => n != 0
    case JStr(s) => s != ""
    case JArr(items) => items != []
    case JObj(fields) => fields != []
  }

  /** A dict with both `client_email` and `private_key`: what a service-account key file holds. */
  predicate HasKeyPair(v: Json)
  {
    HasField(v, "client_email") && HasField(v, "private_key")
  }

  /** A dict that is non-empty is truthy. */
  lemma KeyPairTruthy(v: Json)
    requires HasKeyPair(v)
    ensures Truthy(v)
  {
    assert Keys(v.fields) != [];
  }
}
