/** Values produced by `JSON.parse`, with the JavaScript operations the modelled code applies to
    them: truthiness, property reads, `String(...)`, object spread and `+`. Parsing and
    serialising themselves are not modelled; they are passed in as functions. */
module JsValue {
  import opened Wrappers
  import opened Strings

  /** A parsed JSON value; numbers are integers in this model. */
  datatype Json =
    | JNull
    | JBool(b: bool)
    | JNumber(n: int)
    | JString(s: string)
    | JArray(items: seq<Json>)
    | JObject(fields: map<string, Json>)

  /** JavaScript truthiness of a value. */
  predicate Truthy(j: Json) {
    match j
    case JNull => false
    case JBool(b) => b
    case JNumber(n) => n != 0
    case JString(s) => s != []
    case _ => true
  }

  /** Truthiness of a property read; `undefined` (None) is falsy. */
  predicate TruthyOpt(o: Option<Json>) {
    o.Some? && Truthy(o.value)
  }

  /** `j.key` on a non-null value, for a key that is neither `length` nor an index: only an
      object has such a property. */
  function Get(j: Json, key: string): (r: Option<Json>)
    ensures r.Some? <==> j.JObject? && key in j.fields
  {
    if j.JObject? && key in j.fields then Some(j.fields[key]) else None
  }

  /** `x || fallback`. */
  function Or(x: Option<Json>, fallback: Json): (r: Json)
    ensures TruthyOpt(x) ==> r == x.value
    ensures !TruthyOpt(x) ==> r == fallback
  {
    if TruthyOpt(x) then x.value else fallback
  }

  /** `String(j)`: what `new Error(j)` and string concatenation turn a value into. */
  function ToJsString(j: Json): (r: string)
    ensures j.JString? ==> r == j.s
    ensures !j.JString? && !j.JArray? ==> r != []
    decreases j
  {
    match j
    case JNull => "null"
    case JBool(b) => if b then "true" else "false"
    case JNumber(n) => IntToString(n)
    case JString(s) => s
    case JArray(xs) => JoinItems(xs)
    case JObject(_) => "[object Object]"
  }

  /** `Array.prototype.join(',')`: a null element contributes the empty string. */
  function JoinItems(xs: seq<Json>): string
    decreases xs
  {
    if xs == [] then ""
    else
      var last := if xs[|xs| - 1].JNull? then "" else ToJsString(xs[|xs| - 1]);
      if |xs| == 1 then last else JoinItems(xs[..|xs| - 1]) + "," + last
  }

  /** The own properties that `{...x}` copies from a truthy `x`. Only an object contributes
      fields here; the index keys an array or string would contribute are not modelled. */
  function Spread(j: Json): (r: map<string, Json>)
    ensures forall k :: k in r ==> j.JObject? && k in j.fields && r[k] == j.fields[k]
    ensures j.JObject? ==> r.Keys == j.fields.Keys
  {
    if j.JObject? then j.fields else map[]
  }

  /** `(x || 0) + n`: numeric addition, or string concatenation when the stored value is a
      non-empty string, an array or an object. */
  function AddNumber(x: Option<Json>, n: int): (r: Json)
    ensures !TruthyOpt(x) ==> r == JNumber(n)
    ensures x.Some? && x.value.JNumber? ==> r == JNumber(x.value.n + n)
  {
    match x
    case None => JNumber(n)
    case Some(v) =>
      if !Truthy(v) then JNumber(n)
      else if v.JNumber? then JNumber(v.n + n)
      else if v.JBool? then JNumber(1 + n)
      else JString(ToJsString(v) + IntToString(n))
  }

  /** A number read from a stored field the way `field || 0` is used by the typed records:
      a JSON number gives its value, anything else gives 0. */
  function NumberOr0(x: Option<Json>): (r: int)
    ensures !TruthyOpt(x) ==> r == 0
    ensures x.Some? && x.value.JNumber? ==> r == x.value.n
  {
    if x.Some? && x.value.JNumber? then x.value.n else 0
  }
}
