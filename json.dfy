/** The values `json.load` produces, as far as the loader and the endpoint look at them. */
module Json {
  import opened Results

  /** The scalar kinds other than strings: Python `int`, `float`, `bool` and `None`. */
  datatype Scalar = Int | Float | Bool | Null

  /** A parsed JSON value. An object keeps its entries in dictionary order with distinct keys,
      as `json.load` builds the `dict`. */
  datatype Json =
    | JObject(entries: seq<(string, Json)>)
    | JList(items: seq<Json>)
    | JString(s: string)
    | JScalar(kind: Scalar)

  /** `type(v).__name__`, used in the messages of the exceptions Python raises. */
  function TypeName(v: Json): string
  {
    match v
    case JObject(_) => "dict"
    case JList(_) => "list"
    case JString(_) => "str"
    case JScalar(Int) => "int"
    case JScalar(Float) => "float"
    case JScalar(Bool) => "bool"
    case JScalar(Null) => "NoneType"
  }

  /** `d.get(key)` on a dictionary: the value stored under `key`, if any. */
  function Get(entries: seq<(string, Json)>, key: string): (r: Option<Json>)
    ensures r.None? <==> forall i :: 0 <= i < |entries| ==> entries[i].0 != key
    ensures r.Some? ==> (key, r.value) in entries
  {
    if entries == [] then None
    else if entries[0].0 == key then Some(entries[0].1)
    else
      var r := Get(entries[1..], key);
      assert r.Some? ==> (key, r.value) in entries[1..];
      r
  }

  /** All elements are dictionaries: `all(isinstance(d, dict) for d in items)`. */
  predicate AllObjects(items: seq<Json>)
  {
    forall i :: 0 <= i < |items| ==> items[i].JObject?
  }

  /** All elements are strings. */
  predicate AllStrings(items: seq<Json>)
  {
    forall i :: 0 <= i < |items| ==> items[i].JString?
  }
}
