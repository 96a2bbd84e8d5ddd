/**
 JavaScript values as they come out of `JSON.parse`, with the three things the
 application does to them: read a property (`v?.key`), test truthiness, and turn
 them into text (`String(v)` / `"" + v`, and `JSON.stringify(v)`).

 Numbers are integers in this model; an object lists its own properties in
 enumeration order, with distinct keys.
 */
module Json {
  import opened Optional
  import opened Text

  datatype Json =
    | JNull
    | JBool(b: bool)
    | JNum(n: int)
    | JStr(s: string)
    | JArr(items: seq<Json>)
    | JObj(props: seq<Prop>)

  datatype Prop = Prop(key: string, value: Json)

  /** The value bound to `key` in a property list, if any. */
  function Lookup(props: seq<Prop>, key: string): (r: Option<Json>)
    ensures r.Some? <==> exists k :: 0 <= k < |props| && props[k].key == key
    ensures r.Some? ==> Prop(key, r.value) in props
  {
    if |props| == 0 then None
    else if props[0].key == key then Some(props[0].value)
    else
      var r := Lookup(props[1..], key);
      assert forall k :: 1 <= k < |props| ==> props[k] == props[1..][k - 1];
      r
  }

  /** `v?.key`: `undefined` (None) unless `v` is an object that has the property.
      Arrays, strings, numbers, booleans and `null` have none of the keys the
      application reads. */
  function Get(v: Json, key: string): (r: Option<Json>)
    ensures r.Some? ==> v.JObj? && Prop(key, r.value) in v.props
    ensures v.JObj? && (exists k :: 0 <= k < |v.props| && v.props[k].key == key) ==> r.Some?
  {
    match v
    case JObj(props) => Lookup(props, key)
    case _ => None
  }

  /** `Get` lifted to a possibly-undefined value: `v?.a?.b`. */
  function GetPath(v: Option<Json>, key: string): (r: Option<Json>)
    ensures v.None? ==> r.None?
  {
    match v
    case None => None
    case Some(j) => Get(j, key)
  }

  /** JavaScript truthiness: `undefined`, `null`, `false`, `0` and `""` are falsy. */
  predicate Truthy(v: Option<Json>) {
    match v
    case None => false
    case Some(JNull) => false
    case Some(JBool(b)) => b
    case Some(JNum(n)) => n != 0
    case Some(JStr(s)) => s != ""
    case Some(JArr(_)) => true
    case Some(JObj(_)) => true
  }

  /** `typeof v === "string"`. */
  predicate IsString(v: Option<Json>) {
    v.Some? && v.value.JStr?
  }

  /** `String(v)`, which is also what `v + ""` gives: arrays join their elements
      with commas (null elements as empty text), objects print as `[object Object]`. */
  function ToText(v: Json): (r: string)
    ensures v.JStr? ==> r == v.s
    ensures v.JObj? ==> r == "[object Object]"
  {
    match v
    case JNull => "null"
    case JBool(b) => if b then "true" else "false"
    case JNum(n) => IntToDecimal(n)
    case JStr(s) => s
    case JArr(items) =>
      Join(seq(|items|, i requires 0 <= i < |items| => if items[i].JNull? then "" else ToText(items[i])), ",")
    case JObj(_) => "[object Object]"
  }

  /** Four lower-case hexadecimal digits of a code point below 0x10000. */
  function Hex4(n: nat): string
    requires n < 0x10000
  {
    ["0123456789abcdef"[n / 0x1000], "0123456789abcdef"[(n / 0x100) % 16],
     "0123456789abcdef"[(n / 0x10) % 16], "0123456789abcdef"[n % 16]]
  }

  /** How `JSON.stringify` writes one character inside a string literal. */
  function EscapeChar(c: char): (r: string)
    ensures |r| > 0
  {
    if c == '"' then "\\\""
    else if c == '\\' then "\\\\"
    else if c == '\U{8}' then "\\b"
    else if c == '\U{C}' then "\\f"
    else if c == '\n' then "\\n"
    else if c == '\r' then "\\r"
    else if c == '\t' then "\\t"
    else if c < ' ' then "\\u" + Hex4(c as nat)
    else [c]
  }

  function Escape(s: string): string {
    if |s| == 0 then "" else EscapeChar(s[0]) + Escape(s[1..])
  }

  /** A JSON string literal. */
  function Quote(s: string): (r: string)
    ensures |r| >= 2 && r[0] == '"' && r[|r| - 1] == '"'
  {
    "\"" + Escape(s) + "\""
  }

  /** `JSON.stringify(v)`: never empty, and its first character tells the kind of value. */
  function Stringify(v: Json): (r: string)
    ensures |r| > 0
    ensures v.JStr? <==> r[0] == '"'
    ensures v.JArr? <==> r[0] == '['
    ensures v.JObj? <==> r[0] == '{'
  {
    match v
    case JNull => "null"
    case JBool(b) => if b then "true" else "false"
    case JNum(n) =>
      var d := IntToDecimal(n);
      assert d[0] == '-' || '0' <= d[0] <= '9';
      d
    case JStr(s) => Quote(s)
    case JArr(items) =>
      "[" + Join(seq(|items|, i requires 0 <= i < |items| => Stringify(items[i])), ",") + "]"
    case JObj(props) =>
      "{" + Join(seq(|props|, i requires 0 <= i < |props| =>
                   assert props[i] in props;
                   Quote(props[i].key) + ":" + Stringify(props[i].value)), ",") + "}"
  }
}
