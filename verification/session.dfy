/**
 The page and the two routes together: what the page posts, what the route
 answers, and what the page then shows. These lemmas connect the button
 predicates of the page with the validation of the routes.
 */
module Session {
  import opened Optional
  import opened Text
  import opened Json
  import opened Http
  import opened Editor
  import RecipientList
  import SendRoute
  import SummarizeRoute

  /** The summarisation route rejects what the page posts exactly when the
      transcript is blank, which is what keeps the Generate button disabled. */
  lemma GenerateAgreesWithRoute(st: State, env: Env, parse: string -> Option<Json>,
                                upstream: SummarizeRoute.LlmRequest -> Upstream)
    ensures SummarizeRoute.Post(Parsed(GenerateRequest(st)), env, parse, upstream).status == 400
        <==> Blank(st.transcript)
    ensures CanGenerate(st) ==> SummarizeRoute.Post(Parsed(GenerateRequest(st)), env, parse, upstream).status != 400
  {
  }

  /** Whatever the page posts and whatever Gemini answers, a successful reply of the
      summarisation route carries a string summary, so the page's expectation holds,
      and the page then shows a non-blank summary with its notice. */
  lemma GenerateReplyUsable(st: State, env: Env, parse: string -> Option<Json>,
                            upstream: SummarizeRoute.LlmRequest -> Upstream)
    ensures var r := SummarizeRoute.Post(Parsed(GenerateRequest(st)), env, parse, upstream);
      IsOk(r.status) ==> IsString(Get(r.body, "summary"))
    ensures var r := SummarizeRoute.Post(Parsed(GenerateRequest(st)), env, parse, upstream);
      IsOk(r.status) ==>
        var after := GenerateFinish(GenerateStart(st), Answered(r.status, r.body));
        !Blank(after.summary) && after.notice == SummaryNotice && after.error == ""
  {
    var r := SummarizeRoute.Post(Parsed(GenerateRequest(st)), env, parse, upstream);
    if IsOk(r.status) {
      assert r.status == 200;
      var s :| Get(r.body, "summary") == Some(JStr(s)) && !Blank(s);
      assert r.body != JNull;
      var after := GenerateFinish(GenerateStart(st), Answered(r.status, r.body));
      assert after.summary == s && after.notice == SummaryNotice;
    }
  }

  /** A route's own `{ error }` reply is shown as its error text, and
      `{ error, details }` with string details as the error, the label and the details. */
  lemma RouteErrorShown(status: int, error: string, details: string, fallback: string)
    requires error != ""
    ensures FailureMessage(Failure(status, error).body, fallback) == error
    ensures details != "" ==>
      FailureMessage(FailureWithDetails(status, error, JStr(details)).body, fallback) == error + DetailsLabel + details
  {
  }

  /** The email route rejects what the page posts exactly when the summary is blank
      or the recipient string holds nothing but commas and whitespace. */
  lemma SendAgreesWithRoute(st: State, env: Env, parse: string -> Option<Json>,
                            upstream: SendRoute.Payload -> Upstream)
    ensures SendRoute.Post(Parsed(SendRequest(st)), env, parse, upstream).status == 400
        <==> Blank(st.summary) || OnlySeparatorsAndWhitespace(st.recipients, ',')
  {
    var to := SendRoute.Recipients(Some(JStr(st.recipients)));
    assert to == [] <==> RecipientList.SplitRecipients(st.recipients) == [];
  }

  /** The Send button is enabled for the recipient string ",", yet the route answers
      400 and the page shows "At least one recipient is required". */
  lemma CommaOnlyRecipients(st: State, env: Env, parse: string -> Option<Json>,
                            upstream: SendRoute.Payload -> Upstream)
    requires st.recipients == "," && !st.sending && !Blank(st.summary)
    ensures CanSend(st)
    ensures var r := SendRoute.Post(Parsed(SendRequest(st)), env, parse, upstream);
      && r.status == 400
      && SendFinish(SendStart(st), Answered(r.status, r.body)).error == "At least one recipient is required"
  {
    assert !IsWhitespace(st.recipients[0]);
    SendAgreesWithRoute(st, env, parse, upstream);
    var r := SendRoute.Post(Parsed(SendRequest(st)), env, parse, upstream);
    var body := SendRequest(st);
    assert !SendRoute.RejectsSummary(Get(body, "summary"));
    assert r == Failure(400, "At least one recipient is required");
    RouteErrorShown(400, "At least one recipient is required", "", SendFallback);
  }

  /** In mock mode an enabled Send whose recipients name at least one address ends
      with the success notice and no error. */
  lemma MockSendSucceeds(st: State, env: Env, parse: string -> Option<Json>,
                         upstream: SendRoute.Payload -> Upstream)
    requires SendRoute.MockOn(env) && CanSend(st) && !OnlySeparatorsAndWhitespace(st.recipients, ',')
    ensures var r := SendRoute.Post(Parsed(SendRequest(st)), env, parse, upstream);
      var after := SendFinish(SendStart(st), Answered(r.status, r.body));
      after.notice == SentNotice && after.error == "" && !after.sending
  {
    SendAgreesWithRoute(st, env, parse, upstream);
    var body := SendRequest(st);
    assert !SendRoute.RejectsSummary(Get(body, "summary"));
    assert SendRoute.Recipients(Get(body, "recipients")) != [];
  }

  /** When the upstream service fails with a body that is not JSON, either route
      reports it as `{"raw": ...}`, and the page shows the route's error followed by
      at most 500 characters of that object's JSON: reporting the failure never
      breaks down. */
  lemma UnparsableUpstreamFailureShown(raw: string, parse: string -> Option<Json>)
    requires parse(raw).None?
    ensures FailureMessage(SendRoute.Complete(Answer(false, raw), parse).body, SendFallback)
         == "Email send failed" + DetailsLabel + Clip("{\"raw\":" + Quote(raw) + "}", DetailsLimit)
    ensures FailureMessage(SummarizeRoute.Complete(Answer(false, raw), parse).body, GenerateFallback)
         == "LLM request failed" + DetailsLabel + Clip("{\"raw\":" + Quote(raw) + "}", DetailsLimit)
  {
    assert SendRoute.Complete(Answer(false, raw), parse)
        == FailureWithDetails(502, "Email send failed", SafeJson(parse, raw));
    RawDetailsShown("Email send failed", raw, parse, SendFallback);
    assert SummarizeRoute.Complete(Answer(false, raw), parse)
        == FailureWithDetails(502, "LLM request failed", SafeJson(parse, raw));
    RawDetailsShown("LLM request failed", raw, parse, GenerateFallback);
  }

  /** A failure reply whose details are the fallback object for unparsable text is
      shown as its error, the label and the clipped JSON of that object. */
  lemma RawDetailsShown(error: string, raw: string, parse: string -> Option<Json>, fallback: string)
    requires error != "" && parse(raw).None?
    ensures FailureMessage(FailureWithDetails(502, error, SafeJson(parse, raw)).body, fallback)
         == error + DetailsLabel + Clip("{\"raw\":" + Quote(raw) + "}", DetailsLimit)
  {
    SafeJsonFallbackText(parse, raw);
    var details := SafeJson(parse, raw);
    assert details == JObj([Prop("raw", JStr(raw))]);
    assert DetailsSuffix(FailureWithDetails(502, error, details).body)
        == DetailsLabel + Clip(Stringify(details), DetailsLimit);
  }

  /** In live mode, with both credentials set and Resend accepting the email, an
      enabled Send whose recipients name an address gets 200 and ends with the
      success notice and no error. */
  lemma LiveSendSucceeds(st: State, env: Env, parse: string -> Option<Json>,
                         upstream: SendRoute.Payload -> Upstream)
    requires !SendRoute.MockOn(env) && IsSet(env.resendApiKey) && IsSet(env.resendFrom)
    requires CanSend(st) && !OnlySeparatorsAndWhitespace(st.recipients, ',')
    requires forall p :: upstream(p).Answer? && upstream(p).ok
    ensures var r := SendRoute.Post(Parsed(SendRequest(st)), env, parse, upstream);
      && r.status == 200
      && Get(r.body, "ok") == Some(JBool(true))
      && var after := SendFinish(SendStart(st), Answered(r.status, r.body));
         after.notice == SentNotice && after.error == "" && !after.sending
  {
    SendAgreesWithRoute(st, env, parse, upstream);
    var body := SendRequest(st);
    assert !SendRoute.RejectsSummary(Get(body, "summary"));
    assert SendRoute.Recipients(Get(body, "recipients")) != [];
    var step := SendRoute.Prepare(body, env);
    assert step.Deliver?;
    assert upstream(step.payload).Answer? && upstream(step.payload).ok;
  }
}
