/**
 The summarisation route (`POST /api/summarize`): validate the transcript, pick
 the instruction, clip the transcript, build the prompt, and turn Gemini's
 answer into a summary or an error reply.
 */
module SummarizeRoute {
  import opened Optional
  import opened Text
  import opened Json
  import opened Http

  /** The transcript is clipped to this many characters before it goes into the prompt. */
  const MaxChars: nat := 20000

  const DefaultInstruction: string :=
    "Summarize the transcript into "
    + "concise sections: Overview, Key Points (bullets), Action Items (who, what, when), "
    + "Decisions, Risks, and Next Steps."

  /** `String(e)` for the TypeError a truthy non-string `prompt` raises at `prompt.trim()`. */
  const PromptTrimError: string := "TypeError: prompt.trim is not a function"

  /** The fixed lines that open every prompt, the last one empty. */
  const RuleLines: seq<string> := [
    "You are an assistant that writes crisp, structured summaries of meeting transcripts.",
    "Follow these rules:",
    "- Be faithful to the transcript.",
    "- Use clear headings and bullets.",
    "- Include Action Items with owners and due dates if present.",
    "- Keep it concise.",
    ""]

  /** The rule lines joined by newlines: the fixed head of every prompt. */
  const Preamble: string := Join(RuleLines, "\n")

  /** The outbound call to Gemini: the API key and the single user prompt. */
  datatype LlmRequest = LlmRequest(apiKey: string, prompt: string)

  /** What the route does before any I/O: answer at once, or call the model. */
  datatype Step = Reply(response: Response) | Generate(request: LlmRequest)

  /** The transcript guard: `!transcript || typeof transcript !== "string" || !transcript.trim()`.
      It rejects exactly the values that are not a string with a non-whitespace character. */
  predicate RejectsTranscript(transcript: Option<Json>): (r: bool)
    ensures r <==> !(IsString(transcript) && !Blank(transcript.value.s))
  {
    !Truthy(transcript) || !IsString(transcript) || Trim(transcript.value.s) == ""
  }

  /** `(prompt && prompt.trim()) || DefaultInstruction`. A falsy prompt, and a string
      prompt that is blank, give the default; a string prompt gives its trimmed text;
      any other truthy value has no `trim` and throws. */
  function Instruction(prompt: Option<Json>): (r: Result<string>)
    ensures r.Thrown? <==> Truthy(prompt) && !IsString(prompt)
    ensures r.Thrown? ==> r.message == PromptTrimError
    ensures r.Ok? ==> r.value != "" && IsTrimmed(r.value)
    ensures IsString(prompt) && !Blank(prompt.value.s) ==> r == Ok(Trim(prompt.value.s))
    ensures !Truthy(prompt) || (IsString(prompt) && Blank(prompt.value.s)) ==> r == Ok(DefaultInstruction)
  {
    DefaultInstructionTrimmed(DefaultInstruction);
    if !Truthy(prompt) then Ok(DefaultInstruction)
    else if !IsString(prompt) then Thrown(PromptTrimError)
    else
      var t := Trim(prompt.value.s);
      if t != "" then Ok(t) else Ok(DefaultInstruction)
  }

  lemma DefaultInstructionTrimmed(d: string)
    requires d == DefaultInstruction
    ensures d != "" && IsTrimmed(d)
  {
  }

  /** The three separators around the empty line and the `Transcript:` line. */
  lemma TranscriptHeading(x: string, clipped: string)
    ensures x + "\n" + "" + "\n" + "Transcript:" + "\n" + clipped == x + "\n\nTranscript:\n" + clipped
  {
    var nl, title := "\n", "Transcript:";
    var mid := nl + "" + nl + title + nl;
    assert mid == "\n\nTranscript:\n";
    assert x + nl + "" + nl + title + nl == x + mid;
  }
  /** Joining the rule lines, the instruction line, an empty line, `Transcript:` and
      the transcript puts each at a fixed place, with the transcript as the tail. */
  lemma PromptLayout(rules: seq<string>, instruction: string, clipped: string)
    requires |rules| > 0
    ensures var p := Join(rules + ["User instruction: " + instruction, "", "Transcript:", clipped], "\n");
      && p == Join(rules, "\n") + "\nUser instruction: " + instruction + "\n\nTranscript:\n" + clipped
      && |p| >= |clipped| && p[|p| - |clipped|..] == clipped
  {
    var line := "User instruction: " + instruction;
    JoinAppendFour(rules, line, "", "Transcript:", clipped, "\n");
    var j := Join(rules, "\n");
    TranscriptHeading(j + "\n" + line, clipped);
    InstructionLine(j, instruction);
  }

  /** The newline before the instruction line and its label. */
  lemma InstructionLine(j: string, instruction: string)
    ensures j + "\n" + ("User instruction: " + instruction) == j + "\nUser instruction: " + instruction
  {
    var nl, tag := "\n", "User instruction: ";
    assert nl + tag == "\nUser instruction: ";
    assert j + nl + (tag + instruction) == j + (nl + tag) + instruction;
  }

  /** The prompt: the rule lines, the instruction line, an empty line, the
      `Transcript:` line and the clipped transcript, joined by newlines. Laid out
      flat, the instruction and the transcript appear verbatim at fixed places,
      and the transcript is the tail. */
  function UserPrompt(instruction: string, clipped: string): (r: string)
    ensures r == Preamble + "\nUser instruction: " + instruction + "\n\nTranscript:\n" + clipped
    ensures |r| >= |clipped| && r[|r| - |clipped|..] == clipped
  {
    PromptLayout(RuleLines, instruction, clipped);
    Join(RuleLines + ["User instruction: " + instruction, "", "Transcript:", clipped], "\n")
  }

  /** A transcript longer than the limit reaches the model as exactly its first
      `MaxChars` characters; a shorter one reaches it whole. */
  lemma PromptCarriesClippedTranscript(instruction: string, transcript: string)
    ensures var p := UserPrompt(instruction, Clip(transcript, MaxChars));
      var tail := if |transcript| <= MaxChars then transcript else transcript[..MaxChars];
      |p| == |Preamble| + |"\nUser instruction: "| + |instruction| + |"\n\nTranscript:\n"| + |tail| && p[|p| - |tail|..] == tail
  {
  }

  /** The part of the route that runs before any I/O, on a body that is not `null`. */
  function Prepare(body: Json, env: Env): (s: Step)
    ensures RejectsTranscript(Get(body, "transcript")) ==> s == Reply(Failure(400, "Transcript is required"))
    ensures !RejectsTranscript(Get(body, "transcript")) && !IsSet(env.geminiApiKey) ==>
      s == Reply(Failure(500, "Missing GEMINI_API_KEY"))
    ensures !RejectsTranscript(Get(body, "transcript")) && IsSet(env.geminiApiKey) && Instruction(Get(body, "prompt")).Thrown? ==>
      s == Reply(Unexpected(PromptTrimError))
    ensures s.Reply? && s.response.status == 400 <==> RejectsTranscript(Get(body, "transcript"))
    ensures s.Generate? <==>
      !RejectsTranscript(Get(body, "transcript")) && IsSet(env.geminiApiKey) && Instruction(Get(body, "prompt")).Ok?
    ensures s.Generate? ==>
      && s.request.apiKey == env.geminiApiKey.value
      && s.request.prompt == UserPrompt(Instruction(Get(body, "prompt")).value,
                                        Clip(Get(body, "transcript").value.s, MaxChars))
  {
    var transcript := Get(body, "transcript");
    if RejectsTranscript(transcript) then
      Reply(Failure(400, "Transcript is required"))
    else if !IsSet(env.geminiApiKey) then
      Reply(Failure(500, "Missing GEMINI_API_KEY"))
    else
      match Instruction(Get(body, "prompt"))
      case Thrown(message) => Reply(Unexpected(message))
      case Ok(instruction) =>
        var clipped := Clip(transcript.value.s, MaxChars);
        Generate(LlmRequest(env.geminiApiKey.value, UserPrompt(instruction, clipped)))
  }

  /** `Array.isArray(data?.candidates) ? data.candidates[0] : undefined`. */
  function FirstCandidate(data: Json): Option<Json> {
    match Get(data, "candidates")
    case Some(JArr(items)) => if |items| > 0 then Some(items[0]) else None
    case _ => None
  }

  /** `typeof p?.text === "string" ? p.text : ""`. */
  function PartText(part: Json): string {
    match Get(part, "text")
    case Some(JStr(t)) => t
    case _ => ""
  }

  /** The non-empty texts of the parts, in order: the reference for what the
      summary pipeline keeps. */
  function TextsOf(parts: seq<Json>): (r: seq<string>)
    ensures forall k :: 0 <= k < |r| ==> r[k] != ""
  {
    if |parts| == 0 then []
    else if PartText(parts[0]) == "" then TextsOf(parts[1..])
    else [PartText(parts[0])] + TextsOf(parts[1..])
  }

  /** `parts.map(PartText).filter(Boolean).join("\n")`. */
  function PartsSummary(parts: seq<Json>): string {
    Join(DropEmpty(seq(|parts|, i requires 0 <= i < |parts| => PartText(parts[i]))), "\n")
  }

  /** The map/filter pipeline keeps exactly the non-empty texts, in order. */
  lemma {:induction false} PartsPipeline(parts: seq<Json>)
    ensures DropEmpty(seq(|parts|, i requires 0 <= i < |parts| => PartText(parts[i]))) == TextsOf(parts)
  {
    var texts := seq(|parts|, i requires 0 <= i < |parts| => PartText(parts[i]));
    if |parts| > 0 {
      var rest := seq(|parts| - 1, i requires 0 <= i < |parts| - 1 => PartText(parts[1..][i]));
      assert texts == [texts[0]] + rest;
      DropEmptyAppend([texts[0]], rest);
      PartsPipeline(parts[1..]);
    }
  }

  /** The summary built from the parts is empty exactly when no part has a
      non-empty string `text`, and splitting it on newlines gives the texts back
      when none of them contains a newline. */
  lemma PartsSummaryMeaning(parts: seq<Json>)
    ensures PartsSummary(parts) == "" <==> TextsOf(parts) == []
    ensures TextsOf(parts) != [] && (forall k :: 0 <= k < |TextsOf(parts)| ==> '\n' !in TextsOf(parts)[k]) ==>
      Split(PartsSummary(parts), '\n') == TextsOf(parts)
  {
    PartsPipeline(parts);
    var t := TextsOf(parts);
    if t != [] {
      JoinStartsWithHead(t, "\n");
      assert "\n" == ['\n'];
      if forall k :: 0 <= k < |t| ==> '\n' !in t[k] {
        SplitJoin(t, '\n');
      }
    }
  }

  /** The summary read from Gemini's answer: the joined texts of the first
      candidate's parts, or, when that is empty, `content.text` if it is a string. */
  function ExtractSummary(data: Json): (r: string)
    ensures var content := GetPath(FirstCandidate(data), "content");
      var parts := GetPath(content, "parts");
      var fromParts := if parts.Some? && parts.value.JArr? then PartsSummary(parts.value.items) else "";
      && (fromParts != "" ==> r == fromParts)
      && (fromParts == "" && IsString(GetPath(content, "text")) ==> r == GetPath(content, "text").value.s)
      && (fromParts == "" && !IsString(GetPath(content, "text")) ==> r == "")
  {
    var content := GetPath(FirstCandidate(data), "content");
    var summary :=
      match GetPath(content, "parts")
      case Some(JArr(parts)) => PartsSummary(parts)
      case _ => "";
    if summary == "" && IsString(GetPath(content, "text")) then GetPath(content, "text").value.s
    else summary
  }

  /** Lines 63-95: Gemini's answer as the route's reply. */
  function Complete(answer: Upstream, parse: string -> Option<Json>): (r: Response)
    ensures answer.Unreachable? ==> r == Unexpected(answer.thrown)
    ensures answer.Answer? && !answer.ok ==>
      r == FailureWithDetails(502, "LLM request failed", SafeJson(parse, answer.raw))
    ensures answer.Answer? && answer.ok && Blank(ExtractSummary(SafeJson(parse, answer.raw))) ==>
      r == FailureWithDetails(500, "No summary generated", SafeJson(parse, answer.raw))
    ensures answer.Answer? && answer.ok && !Blank(ExtractSummary(SafeJson(parse, answer.raw))) ==>
      r.status == 200 && Get(r.body, "summary") == Some(JStr(ExtractSummary(SafeJson(parse, answer.raw))))
    ensures r.status == 200 <==> answer.Answer? && answer.ok && !Blank(ExtractSummary(SafeJson(parse, answer.raw)))
  {
    match answer
    case Unreachable(message) => Unexpected(message)
    case Answer(ok, raw) =>
      var data := SafeJson(parse, raw);
      if !ok then
        FailureWithDetails(502, "LLM request failed", data)
      else
        var summary := ExtractSummary(data);
        if summary == "" || Trim(summary) == "" then
          FailureWithDetails(500, "No summary generated", data)
        else
          Response(200, JObj([Prop("summary", JStr(summary))]))
  }

  /** The whole route. `upstream` stands for the Gemini call; it is consulted only
      when a prompt is built. */
  function Post(request: Inbound, env: Env, parse: string -> Option<Json>, upstream: LlmRequest -> Upstream): (r: Response)
    ensures r.status in {200, 400, 500, 502}
    ensures r.status == 200 ==> exists s :: Get(r.body, "summary") == Some(JStr(s)) && !Blank(s)
    ensures r.status == 400 <==>
      request.Parsed? && request.body != JNull && RejectsTranscript(Get(request.body, "transcript"))
    ensures r.status == 502 ==> Get(r.body, "error") == Some(JStr("LLM request failed"))
    ensures request.Unparsable? ==> r == Unexpected(request.thrown)
    ensures request == Parsed(JNull) ==> r == Unexpected(NullBodyError("transcript"))
  {
    match request
    case Unparsable(message) => Unexpected(message)
    case Parsed(body) =>
      if body == JNull then Unexpected(NullBodyError("transcript"))
      else
        match Prepare(body, env)
        case Reply(response) => response
        case Generate(call) =>
          var r := Complete(upstream(call), parse);
          assert r.status == 200 ==> var s := ExtractSummary(SafeJson(parse, upstream(call).raw));
            Get(r.body, "summary") == Some(JStr(s)) && !Blank(s);
          r
  }

  /** A part whose text is only whitespace makes the joined summary truthy, so
      `content.text` is not consulted, and the route then reports that no summary
      was generated. */
  lemma BlankPartHidesContentText(data: Json, w: string, fallback: string)
    requires w != "" && Blank(w) && !Blank(fallback)
    requires data == JObj([Prop("candidates", JArr([JObj([Prop("content",
      JObj([Prop("parts", JArr([JObj([Prop("text", JStr(w))])])), Prop("text", JStr(fallback))]))])]))])
    ensures ExtractSummary(data) == w
  {
    var part := JObj([Prop("text", JStr(w))]);
    assert PartText(part) == w;
    assert TextsOf([part]) == [w];
    PartsPipeline([part]);
  }
}
