/**
 What the two API routes share: the reply they build, what reading the inbound
 body and calling the upstream service can produce, the environment they read,
 and the defensive parse of an upstream text body.
 */
module Http {
  import opened Optional
  import opened Text
  import opened Json

  /** A route's reply: the HTTP status and the JSON body sent back. */
  datatype Response = Response(status: int, body: Json)

  /** What `await req.json()` produced: the parsed body, or `String(e)` of the
      error it threw (a body that is not JSON), such as `"SyntaxError: ..."`. */
  datatype Inbound = Parsed(body: Json) | Unparsable(thrown: string)

  /** What the single outbound call produced: the upstream status (`res.ok`) and
      its text body, or `String(e)` of the error `fetch` threw, such as
      `"TypeError: fetch failed"`. */
  datatype Upstream = Answer(ok: bool, raw: string) | Unreachable(thrown: string)

  /** The environment variables the routes read, each possibly unset. */
  datatype Env = Env(
    mockEmail: Option<string>,
    resendApiKey: Option<string>,
    resendFrom: Option<string>,
    geminiApiKey: Option<string>)

  /** `process.env.X` is truthy: set, and not to the empty string. */
  predicate IsSet(v: Option<string>) {
    v.Some? && v.value != ""
  }

  /** `{ error }` with the given status. */
  function Failure(status: int, error: string): (r: Response)
    ensures r.status == status && Get(r.body, "error") == Some(JStr(error))
    ensures Get(r.body, "details").None?
  {
    Response(status, JObj([Prop("error", JStr(error))]))
  }

  /** `{ error, details }` with the given status. */
  function FailureWithDetails(status: int, error: string, details: Json): (r: Response)
    ensures r.status == status && Get(r.body, "error") == Some(JStr(error))
    ensures Get(r.body, "details") == Some(details)
  {
    var props := [Prop("error", JStr(error)), Prop("details", details)];
    assert props[1..] == [Prop("details", details)];
    assert "error"[0] != "details"[0];
    assert Lookup(props[1..], "details") == Some(details);
    assert Lookup(props, "details") == Lookup(props[1..], "details");
    Response(status, JObj(props))
  }

  /** The top-level `catch`: 500 "Unexpected error" with `String(e)` as details. */
  function Unexpected(message: string): (r: Response)
    ensures r.status == 500
    ensures Get(r.body, "error") == Some(JStr("Unexpected error"))
    ensures Get(r.body, "details") == Some(JStr(message))
  {
    FailureWithDetails(500, "Unexpected error", JStr(message))
  }

  /** `String(e)` for the TypeError thrown when the body to destructure is `null`;
      `first` is the first name in the destructuring pattern. */
  function NullBodyError(first: string): string {
    "TypeError: Cannot destructure property '" + first + "' of '(intermediate value)' as it is null."
  }

  /** `safeJson(text)`: the parsed value when `text` parses (`parse` stands for
      `JSON.parse`), otherwise `{ raw: text }`. It never fails. */
  function SafeJson(parse: string -> Option<Json>, text: string): (r: Json)
    ensures parse(text).Some? ==> r == parse(text).value
    ensures parse(text).None? ==> Get(r, "raw") == Some(JStr(text))
  {
    match parse(text)
    case Some(v) => v
    case None => JObj([Prop("raw", JStr(text))])
  }

  /** When the text does not parse, the fallback prints as `{"raw":"<text>"}`. */
  lemma SafeJsonFallbackText(parse: string -> Option<Json>, text: string)
    requires parse(text).None?
    ensures Stringify(SafeJson(parse, text)) == "{\"raw\":" + Quote(text) + "}"
  {
    assert SafeJson(parse, text) == JObj([Prop("raw", JStr(text))]);
    StringifySingleProp("raw", JStr(text));
    QuoteRaw();
    assert "{" + Quote("raw") + ":" == "{\"raw\":";
  }

  /** The key of the fallback object prints as `"raw"`. */
  lemma QuoteRaw()
    ensures Quote("raw") == "\"raw\""
  {
    assert Escape("raw") == EscapeChar('r') + Escape("aw");
    assert Escape("aw") == EscapeChar('a') + Escape("w");
    assert Escape("w") == EscapeChar('w') + Escape("");
  }

  /** An object with one property prints as `{"key":value}`. */
  lemma StringifySingleProp(key: string, v: Json)
    ensures Stringify(JObj([Prop(key, v)])) == "{" + Quote(key) + ":" + Stringify(v) + "}"
  {
    var props := [Prop(key, v)];
    var entries := seq(|props|, i requires 0 <= i < |props| =>
                     Quote(props[i].key) + ":" + Stringify(props[i].value));
    assert entries == [Quote(key) + ":" + Stringify(v)];
    assert Join(entries, ",") == Quote(key) + ":" + Stringify(v);
    assert Stringify(JObj(props)) == "{" + Join(entries, ",") + "}";
  }
}
