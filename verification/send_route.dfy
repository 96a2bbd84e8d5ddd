/**
 The email route (`POST /api/send`): validate the summary, normalise the
 recipients, then either answer from mock mode, report missing configuration,
 or build the Resend payload and turn Resend's answer into the reply.
 */
module SendRoute {
  import opened Optional
  import opened Text
  import opened Json
  import opened Http
  import opened RecipientList

  const DefaultSubject: string := "Meeting Summary"
  const MockId: string := "mock-id"

  /** The outbound email: the bearer key and the JSON payload `{from, to, subject, text}`. */
  datatype Payload = Payload(apiKey: string, from: string, to: seq<Json>, subject: Json, text: string)

  /** What the route does before any I/O: answer at once, or deliver a payload. */
  datatype Step = Reply(response: Response) | Deliver(payload: Payload)

  /** The summary guard: `!summary || typeof summary !== "string" || !summary.trim()`.
      It rejects exactly the values that are not a string with a non-whitespace character. */
  predicate RejectsSummary(summary: Option<Json>): (r: bool)
    ensures r <==> !(IsString(summary) && !Blank(summary.value.s))
  {
    !Truthy(summary) || !IsString(summary) || Trim(summary.value.s) == ""
  }

  /** Lines 13-21: an array is used as it is, a string is split into entries,
      anything else gives no recipients. */
  function Recipients(recipients: Option<Json>): (to: seq<Json>)
    ensures recipients.Some? && recipients.value.JArr? ==> to == recipients.value.items
    ensures IsString(recipients) ==>
      var entries := SplitRecipients(recipients.value.s);
      |to| == |entries| && forall k :: 0 <= k < |to| ==> to[k] == JStr(entries[k])
    ensures !(recipients.Some? && (recipients.value.JArr? || recipients.value.JStr?)) ==> to == []
  {
    match recipients
    case Some(JArr(items)) => items
    case Some(JStr(s)) =>
      var entries := SplitRecipients(s);
      seq(|entries|, k requires 0 <= k < |entries| => JStr(entries[k]))
    case _ => []
  }

  /** `subject || "Meeting Summary"`: the subject when it is truthy, otherwise the
      default; the result is always truthy. */
  function SubjectOrDefault(subject: Option<Json>): (r: Json)
    ensures Truthy(Some(r))
    ensures Truthy(subject) ==> Some(r) == subject
    ensures !Truthy(subject) ==> r == JStr(DefaultSubject)
  {
    if Truthy(subject) then subject.value else JStr(DefaultSubject)
  }

  /** `MOCK_EMAIL === "true"`. */
  predicate MockOn(env: Env) {
    env.mockEmail == Some("true")
  }

  /** The mock-mode success reply. */
  function MockReply(to: seq<Json>, subject: Option<Json>): (r: Response)
    ensures r.status == 200
    ensures Get(r.body, "ok") == Some(JBool(true))
    ensures Get(r.body, "id") == Some(JStr(MockId))
    ensures r.body.JObj? && Prop("to", JArr(to)) in r.body.props
    ensures r.body.JObj? && Prop("subject", SubjectOrDefault(subject)) in r.body.props
  {
    var props := [Prop("ok", JBool(true)), Prop("id", JStr(MockId)),
                  Prop("to", JArr(to)), Prop("subject", SubjectOrDefault(subject))];
    assert "ok"[0] != "id"[0];
    assert Lookup(props[1..], "id") == Some(JStr(MockId));
    Response(200, JObj(props))
  }

  /** The part of the route that runs before any I/O, on a body that is not `null`. */
  function Prepare(body: Json, env: Env): (s: Step)
    ensures RejectsSummary(Get(body, "summary")) ==> s == Reply(Failure(400, "Summary is required"))
    ensures !RejectsSummary(Get(body, "summary")) && Recipients(Get(body, "recipients")) == [] ==>
      s == Reply(Failure(400, "At least one recipient is required"))
    ensures !RejectsSummary(Get(body, "summary")) && Recipients(Get(body, "recipients")) != [] && MockOn(env) ==>
      s == Reply(MockReply(Recipients(Get(body, "recipients")), Get(body, "subject")))
    ensures s.Deliver? <==>
      && !RejectsSummary(Get(body, "summary")) && Recipients(Get(body, "recipients")) != []
      && !MockOn(env) && IsSet(env.resendApiKey) && IsSet(env.resendFrom)
    ensures s.Reply? && s.response.status == 400 <==>
      RejectsSummary(Get(body, "summary")) || Recipients(Get(body, "recipients")) == []
    ensures s.Reply? && s.response.status == 500 <==>
      !RejectsSummary(Get(body, "summary")) && Recipients(Get(body, "recipients")) != [] && !MockOn(env)
      && !(IsSet(env.resendApiKey) && IsSet(env.resendFrom))
    ensures s.Reply? && s.response.status == 500 && !IsSet(env.resendApiKey) ==>
      s.response == Failure(500, "Missing RESEND_API_KEY")
    ensures s.Reply? && s.response.status == 500 && IsSet(env.resendApiKey) ==>
      s.response == Failure(500, "Missing RESEND_FROM")
    ensures s.Deliver? ==>
      && s.payload.apiKey == env.resendApiKey.value
      && s.payload.from == env.resendFrom.value
      && s.payload.to == Recipients(Get(body, "recipients")) && |s.payload.to| > 0
      && s.payload.subject == SubjectOrDefault(Get(body, "subject"))
      && Some(JStr(s.payload.text)) == Get(body, "summary")
  {
    var summary := Get(body, "summary");
    var subject := Get(body, "subject");
    if RejectsSummary(summary) then
      Reply(Failure(400, "Summary is required"))
    else
      var to := Recipients(Get(body, "recipients"));
      if |to| == 0 then
        Reply(Failure(400, "At least one recipient is required"))
      else if MockOn(env) then
        Reply(MockReply(to, subject))
      else if !IsSet(env.resendApiKey) then
        Reply(Failure(500, "Missing RESEND_API_KEY"))
      else if !IsSet(env.resendFrom) then
        Reply(Failure(500, "Missing RESEND_FROM"))
      else
        Deliver(Payload(env.resendApiKey.value, env.resendFrom.value, to, SubjectOrDefault(subject), summary.value.s))
  }

  /** `body?.id || body`: the delivery id when it is truthy, otherwise the whole body. */
  function DeliveryId(body: Json): (r: Json)
    ensures Truthy(Get(body, "id")) ==> Some(r) == Get(body, "id")
    ensures !Truthy(Get(body, "id")) ==> r == body
  {
    var id := Get(body, "id");
    if Truthy(id) then id.value else body
  }

  /** Lines 66-84: Resend's answer as the route's reply. */
  function Complete(answer: Upstream, parse: string -> Option<Json>): (r: Response)
    ensures answer.Unreachable? ==> r == Unexpected(answer.thrown)
    ensures answer.Answer? && !answer.ok ==>
      r == FailureWithDetails(502, "Email send failed", SafeJson(parse, answer.raw))
    ensures answer.Answer? && answer.ok ==>
      && r.status == 200
      && Get(r.body, "ok") == Some(JBool(true))
      && Get(r.body, "id") == Some(DeliveryId(SafeJson(parse, answer.raw)))
  {
    match answer
    case Unreachable(message) => Unexpected(message)
    case Answer(ok, raw) =>
      var body := SafeJson(parse, raw);
      if !ok then
        FailureWithDetails(502, "Email send failed", body)
      else
        var props := [Prop("ok", JBool(true)), Prop("id", DeliveryId(body))];
        assert "ok"[0] != "id"[0];
        assert Lookup(props[1..], "id") == Some(DeliveryId(body));
        Response(200, JObj(props))
  }

  /** The id reported for an accepted email: a Resend answer that is not JSON
      becomes `{ raw }`, which has no `id`, so that object itself is the id; an
      answer whose `id` is a non-empty string reports that string. */
  lemma ReceiptId(raw: string, parse: string -> Option<Json>)
    ensures parse(raw).None? ==>
      Get(Complete(Answer(true, raw), parse).body, "id") == Some(JObj([Prop("raw", JStr(raw))]))
    ensures parse(raw).Some? && Get(parse(raw).value, "id").Some? ==>
      var id := Get(parse(raw).value, "id").value;
      id.JStr? && id.s != "" ==> Get(Complete(Answer(true, raw), parse).body, "id") == Some(id)
  {
    if parse(raw).None? {
      var body := SafeJson(parse, raw);
      assert body == JObj([Prop("raw", JStr(raw))]);
      assert Get(body, "id") == None by { assert "raw"[0] != "id"[0]; }
    }
  }

  /** The whole route. `upstream` stands for the Resend call; it is consulted only
      when a payload is built. */
  function Post(request: Inbound, env: Env, parse: string -> Option<Json>, upstream: Payload -> Upstream): (r: Response)
    ensures r.status in {200, 400, 500, 502}
    ensures r.status == 200 ==> Get(r.body, "ok") == Some(JBool(true))
    ensures r.status == 400 <==>
      request.Parsed? && request.body != JNull &&
      (RejectsSummary(Get(request.body, "summary")) || Recipients(Get(request.body, "recipients")) == [])
    ensures request.Unparsable? ==> r == Unexpected(request.thrown)
    ensures request == Parsed(JNull) ==> r == Unexpected(NullBodyError("summary"))
  {
    match request
    case Unparsable(message) => Unexpected(message)
    case Parsed(body) =>
      if body == JNull then Unexpected(NullBodyError("summary"))
      else
        match Prepare(body, env)
        case Reply(response) => response
        case Deliver(payload) => Complete(upstream(payload), parse)
  }

  /** In mock mode a valid request gets the mock reply, whatever the credentials,
      the parser and the upstream service are, so repeating it gives the same reply. */
  lemma MockIgnoresConfiguration(request: Inbound, env1: Env, env2: Env,
                                 parse1: string -> Option<Json>, parse2: string -> Option<Json>,
                                 upstream1: Payload -> Upstream, upstream2: Payload -> Upstream)
    requires MockOn(env1) && MockOn(env2)
    ensures Post(request, env1, parse1, upstream1) == Post(request, env2, parse2, upstream2)
  {
  }

  /** A valid request in mock mode: 200 with id "mock-id" and `to` the normalised list. */
  lemma MockReplyShape(request: Inbound, env: Env, parse: string -> Option<Json>, upstream: Payload -> Upstream)
    requires MockOn(env)
    requires request.Parsed? && request.body != JNull
    requires !RejectsSummary(Get(request.body, "summary"))
    requires Recipients(Get(request.body, "recipients")) != []
    ensures var r := Post(request, env, parse, upstream);
      && r.status == 200
      && Get(r.body, "id") == Some(JStr(MockId))
      && r.body.JObj? && Prop("to", JArr(Recipients(Get(request.body, "recipients")))) in r.body.props
  {
  }
}
