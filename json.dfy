/** Parsed JSON values, property lookup on them and the string a JavaScript template
    literal `${v}` makes of them. Parsing itself (`JSON.parse`) is a library call and is
    given to the model as a function. */
module Json {
  import opened Wrappers

  /** A value `JSON.parse` can return. Numbers are integers (see README, Left out). */
  datatype Json =
    | JNull
    | JBool(b: bool)
    | JNumber(n: int)
    | JString(s: string)
    | JArray(items: seq<Json>)
    | JObject(fields: map<string, Json>)

  /** `v[name]` on a value that is not `null`: an object's own property, otherwise `undefined`
      (strings, numbers, booleans and arrays have no `id` or `cert` property). */
  function Property(v: Json, name: string): Option<Json>
    requires v != JNull
  {
    if v.JObject? && name in v.fields then Some(v.fields[name]) else None
  }

  function DigitChar(d: nat): (c: char)
    requires d < 10
    ensures '0' <= c <= '9'
  {
    ('0' as int + d) as char
  }

  /** Decimal digits of a natural number, most significant first, no leading zero. */
  function NatText(n: nat): (r: string)
    ensures |r| >= 1
    ensures forall i | 0 <= i < |r| :: '0' <= r[i] <= '9'
    ensures |r| > 1 ==> r[0] != '0'
  {
    if n < 10 then [DigitChar(n)] else NatText(n / 10) + [DigitChar(n % 10)]
  }

  /** `String(n)` for an integer of magnitude below 10^21. */
  function IntText(n: int): string {
    if n < 0 then "-" + NatText(-n) else NatText(n)
  }

  /** `String(v)` for a JSON value, which is what `${v}` inserts. */
  function Text(v: Json): string
    decreases v
  {
    match v
    case JNull => "null"
    case JBool(b) => if b then "true" else "false"
    case JNumber(n) => IntText(n)
    case JString(s) => s
    case JArray(items) => ItemsText(items)
    case JObject(_) => "[object Object]"
  }

  /** `items.join(',')`, where a `null` element contributes the empty string. */
  function ItemsText(items: seq<Json>): string
    decreases items
  {
    if items == [] then ""
    else
      var first := if items[0] == JNull then "" else Text(items[0]);
      if |items| == 1 then first else first + "," + ItemsText(items[1..])
  }

  /** `${v}` where `v` may be `undefined`. */
  function TemplateText(v: Option<Json>): string {
    match v
    case None => "undefined"
    case Some(j) => Text(j)
  }
}
