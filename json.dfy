/** Decoded JSON values as Python's `json.loads` hands them to the handlers,
    and the parts of Python's object protocol the handlers rely on:
    truthiness, `dict.get`, iteration and `str()`. */
module Json {
  import opened Wrappers
  import opened Text

  /** A decoded JSON value. An object is a Python dict: its entries in insertion
      order, keys looked up by their first occurrence. Numbers are integers. */
  datatype Json =
    | JNull
    | JBool(boolean: bool)
    | JInt(number: int)
    | JString(text: string)
    | JArray(items: seq<Json>)
    | JObject(fields: seq<(string, Json)>)

  /** The outcome of `json.loads`: a value, or a `JSONDecodeError` with its message. */
  datatype Decoded = DecodeError(detail: string) | Parsed(value: Json)

  /** Python's `bool()` of a decoded value. */
  predicate Truthy(j: Json) {
    match j
    case JNull => false
    case JBool(b) => b
    case JInt(n) => n != 0
    case JString(s) => s != ""
    case JArray(items) => items != []
    case JObject(fields) => fields != []
  }

  /** The value stored under `key` in a dict, if any. */
  function Lookup(fields: seq<(string, Json)>, key: string): (r: Option<Json>)
    ensures r.None? <==> forall k :: 0 <= k < |fields| ==> fields[k].0 != key
    ensures r.Some? ==> exists k :: 0 <= k < |fields| && fields[k] == (key, r.value)
  {
    if fields == [] then None
    else if fields[0].0 == key then Some(fields[0].1)
    else
      var r := Lookup(fields[1..], key);
      assert forall k :: 1 <= k < |fields| ==> fields[k] == fields[1..][k - 1];
      r
  }

  /** Python's `d.get(key, default)` on a dict. */
  function GetOr(fields: seq<(string, Json)>, key: string, default: Json): Json {
    match Lookup(fields, key)
    case Some(v) => v
    case None => default
  }

  /** The keys of a dict in insertion order (what iterating over it yields). */
  function Keys(fields: seq<(string, Json)>): (keys: seq<string>)
    ensures |keys| == |fields|
  {
    seq(|fields|, k requires 0 <= k < |fields| => fields[k].0)
  }

  /** Python's `repr()` of a decoded value. */
  function PyRepr(j: Json): string
    decreases j
  {
    match j
    case JNull => "None"
    case JBool(b) => if b then "True" else "False"
    case JInt(n) => IntToDecimal(n)
    case JString(s) => "'" + s + "'"
    case JArray(items) =>
      "[" + Join(seq(|items|, k requires 0 <= k < |items| => PyRepr(items[k])), ", ") + "]"
    case JObject(fields) =>
      "{" + Join(seq(|fields|, k requires 0 <= k < |fields| =>
                   "'" + fields[k].0 + "': " + PyRepr(fields[k].1)), ", ") + "}"
  }

  /** Python's `str()` of a decoded value, which an f-string inserts. */
  function PyStr(j: Json): string
  {
    if j.JString? then j.text else PyRepr(j)
  }
}
