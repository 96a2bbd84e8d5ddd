/**
 The decision logic of the single page (`app/page.js`): the form state, the
 file allow-list, when the two buttons are enabled, how a failed reply becomes
 the error line, and the state changes of every user action and of every reply.
 Each transition states which fields it may change; `SameExcept` says the others
 keep their values.
 */
module Editor {
  import opened Optional
  import opened Text
  import opened Json

  const DefaultSubject: string := "Meeting Summary"
  const RejectedFile: string :=
    "Please upload a text-based file (.txt, .md, .srt, .vtt, .csv) "
    + "or paste text below."
  const SummaryNotice: string := "Summary generated. You can edit before sending."
  const SentNotice: string := "Email sent successfully."
  const GenerateFallback: string := "Failed to generate summary"
  const SendFallback: string := "Failed to send email"
  /** The message of the TypeError raised by reading `summary` of a `null` body. */
  const NullSummaryRead: string := "Cannot read properties of null (reading 'summary')"
  /** How the details of a failure are introduced in the error line. */
  const DetailsLabel: string := "\nDetails: "
  /** Non-string details are cut to this many characters of their JSON text. */
  const DetailsLimit: nat := 500

  /** The suffixes (lower case) of the file names the page reads. */
  const AllowedExtensions: seq<string> := [".txt", ".md", ".markdown", ".srt", ".vtt", ".csv"]

  /** The page's state; the drag-highlight flag is left out. */
  datatype State = State(
    transcript: string,
    prompt: string,
    summary: string,
    recipients: string,
    subject: string,
    loading: bool,
    sending: bool,
    error: string,
    notice: string,
    fileName: string)

  /** The state when the page opens. */
  const Initial: State := State("", "", "", "", DefaultSubject, false, false, "", "", "")

  datatype Field = Transcript | Prompt | Summary | Recipients | Subject | Loading | Sending | ErrorLine | NoticeLine | FileName

  /** Every field outside `changed` has the same value in `a` and `b`. */
  predicate SameExcept(a: State, b: State, changed: set<Field>) {
    && (Transcript !in changed ==> a.transcript == b.transcript)
    && (Prompt !in changed ==> a.prompt == b.prompt)
    && (Summary !in changed ==> a.summary == b.summary)
    && (Recipients !in changed ==> a.recipients == b.recipients)
    && (Subject !in changed ==> a.subject == b.subject)
    && (Loading !in changed ==> a.loading == b.loading)
    && (Sending !in changed ==> a.sending == b.sending)
    && (ErrorLine !in changed ==> a.error == b.error)
    && (NoticeLine !in changed ==> a.notice == b.notice)
    && (FileName !in changed ==> a.fileName == b.fileName)
  }

  /** A picked or dropped file: its name and its text content. */
  datatype File = File(name: string, text: string)

  /** How a `fetch` to one of the routes ended: the status and the parsed JSON
      body, or the message of the error thrown on the way (the network failed, or
      the body was not JSON). */
  datatype Reply = Answered(status: int, data: Json) | Faulted(message: string)

  /** `res.ok`. */
  predicate IsOk(status: int) {
    200 <= status <= 299
  }

  /** The lower-cased name ends with one of the allowed suffixes. */
  predicate IsAllowedFile(name: string) {
    exists k :: 0 <= k < |AllowedExtensions| && EndsWith(LowerAscii(name), AllowedExtensions[k])
  }

  /** Lines 19-33. Any call first clears the error and the notice; no file changes
      nothing else; a file whose name is not allowed sets the error and keeps the
      transcript; an allowed one replaces the transcript with its text and records
      its name as given. */
  function HandleFile(st: State, file: Option<File>): (r: State)
    ensures r.error == (if file.Some? && !IsAllowedFile(file.value.name) then RejectedFile else "")
    ensures r.notice == ""
    ensures file.None? ==> SameExcept(st, r, {ErrorLine, NoticeLine})
    ensures file.Some? && !IsAllowedFile(file.value.name) ==> SameExcept(st, r, {ErrorLine, NoticeLine})
    ensures file.Some? && IsAllowedFile(file.value.name) ==>
      && r.transcript == file.value.text && r.fileName == file.value.name
      && SameExcept(st, r, {ErrorLine, NoticeLine, Transcript, FileName})
  {
    var cleared := st.(error := "", notice := "");
    match file
    case None => cleared
    case Some(f) =>
      if !IsAllowedFile(f.name) then cleared.(error := RejectedFile)
      else cleared.(transcript := f.text, fileName := f.name)
  }

  /** Line 166: the Generate button is enabled. */
  predicate CanGenerate(st: State): (r: bool)
    ensures r <==> !st.loading && !Blank(st.transcript)
  {
    !st.loading && Trim(st.transcript) != ""
  }

  /** Line 214: the Send button is enabled. */
  predicate CanSend(st: State): (r: bool)
    ensures r <==> !st.sending && !Blank(st.summary) && !Blank(st.recipients)
  {
    !st.sending && Trim(st.summary) != "" && Trim(st.recipients) != ""
  }

  /** `String(e.message || e)` for an `Error` built from `message`: an empty message
      prints as the error's name. */
  function ErrorText(message: string): (r: string)
    ensures r != ""
    ensures message != "" ==> r == message
  {
    if message == "" then "Error" else message
  }

  /** The details part of the error line: nothing when `data.details` is falsy, the
      whole text when it is a string, otherwise at most 500 characters of its JSON. */
  function DetailsSuffix(data: Json): (r: string)
    ensures !Truthy(Get(data, "details")) ==> r == ""
    ensures Truthy(Get(data, "details")) && IsString(Get(data, "details")) ==>
      r == DetailsLabel + Get(data, "details").value.s
    ensures Truthy(Get(data, "details")) && !IsString(Get(data, "details")) ==>
      var text := Stringify(Get(data, "details").value);
      && |DetailsLabel| <= |r| <= |DetailsLabel| + DetailsLimit
      && r[..|DetailsLabel|] == DetailsLabel
      && |r| - |DetailsLabel| <= |text|
      && r[|DetailsLabel|..] == text[..|r| - |DetailsLabel|]
      && (|text| <= DetailsLimit ==> r == DetailsLabel + text)
      && (|text| > DetailsLimit ==> |r| == |DetailsLabel| + DetailsLimit)
  {
    var details := Get(data, "details");
    if !Truthy(details) then ""
    else if IsString(details) then DetailsLabel + details.value.s
    else DetailsLabel + Clip(Stringify(details.value), DetailsLimit)
  }

  /** Lines 67-68 and 91-92: the error field of the body (as text), or the
      fallback when it is falsy, followed by the details. */
  function FailureMessage(data: Json, fallback: string): (r: string)
    ensures r != ""
    ensures var head := if Truthy(Get(data, "error")) then ToText(Get(data, "error").value) else fallback;
      head + DetailsSuffix(data) != "" ==> r == head + DetailsSuffix(data)
  {
    var error := Get(data, "error");
    var head := if Truthy(error) then ToText(error.value) else fallback;
    ErrorText(head + DetailsSuffix(data))
  }

  /** The body the page posts to the summarisation route. */
  function GenerateRequest(st: State): (body: Json)
    ensures Get(body, "transcript") == Some(JStr(st.transcript))
    ensures Get(body, "prompt") == Some(JStr(st.prompt))
  {
    var props := [Prop("transcript", JStr(st.transcript)), Prop("prompt", JStr(st.prompt))];
    assert "transcript"[0] != "prompt"[0];
    assert Lookup(props[1..], "prompt") == Some(JStr(st.prompt));
    JObj(props)
  }

  /** Lines 56-58: clear both alert lines and mark a summary as in flight. */
  function GenerateStart(st: State): (r: State)
    ensures r.loading && r.error == "" && r.notice == ""
    ensures SameExcept(st, r, {Loading, ErrorLine, NoticeLine})
  {
    st.(error := "", notice := "", loading := true)
  }

  /** Lines 65-76: the reply of the summarisation route. Success stores the summary
      and the notice; a failure stores the error line; either way the in-flight flag
      drops. A successful reply whose body is `null` makes `data.summary` throw
      inside the `try`, so it is reported like a failure. Any other successful
      reply is expected to carry a string `summary`. */
  function GenerateFinish(st: State, reply: Reply): (r: State)
    requires reply.Answered? && IsOk(reply.status) && reply.data != JNull ==> IsString(Get(reply.data, "summary"))
    ensures !r.loading
    ensures reply.Answered? && IsOk(reply.status) && reply.data == JNull ==>
      r.error == NullSummaryRead && SameExcept(st, r, {Loading, ErrorLine})
    ensures reply.Answered? && IsOk(reply.status) && reply.data != JNull ==>
      && r.summary == Get(reply.data, "summary").value.s && r.notice == SummaryNotice
      && SameExcept(st, r, {Loading, Summary, NoticeLine})
    ensures reply.Answered? && !IsOk(reply.status) ==>
      r.error == FailureMessage(reply.data, GenerateFallback) && SameExcept(st, r, {Loading, ErrorLine})
    ensures reply.Faulted? ==> r.error == ErrorText(reply.message) && SameExcept(st, r, {Loading, ErrorLine})
  {
    match reply
    case Faulted(message) => st.(error := ErrorText(message), loading := false)
    case Answered(status, data) =>
      if !IsOk(status) then st.(error := FailureMessage(data, GenerateFallback), loading := false)
      else if data == JNull then st.(error := NullSummaryRead, loading := false)
      else st.(summary := Get(data, "summary").value.s, notice := SummaryNotice, loading := false)
  }

  /** The body the page posts to the email route. */
  function SendRequest(st: State): (body: Json)
    ensures Get(body, "summary") == Some(JStr(st.summary))
    ensures Get(body, "recipients") == Some(JStr(st.recipients))
    ensures Get(body, "subject") == Some(JStr(st.subject))
  {
    var props := [Prop("summary", JStr(st.summary)), Prop("recipients", JStr(st.recipients)),
                  Prop("subject", JStr(st.subject))];
    assert "summary"[0] != "recipients"[0] && "summary"[2] != "subject"[2] && "recipients"[0] != "subject"[0];
    assert Lookup(props[2..], "subject") == Some(JStr(st.subject));
    assert Lookup(props[1..], "subject") == Some(JStr(st.subject));
    assert Lookup(props[1..], "recipients") == Some(JStr(st.recipients));
    JObj(props)
  }

  /** Lines 80-82: clear both alert lines and mark an email as in flight. */
  function SendStart(st: State): (r: State)
    ensures r.sending && r.error == "" && r.notice == ""
    ensures SameExcept(st, r, {Sending, ErrorLine, NoticeLine})
  {
    st.(error := "", notice := "", sending := true)
  }

  /** Lines 89-99: the reply of the email route. Success sets the notice, a failure
      the error line; either way the in-flight flag drops. */
  function SendFinish(st: State, reply: Reply): (r: State)
    ensures !r.sending
    ensures reply.Answered? && IsOk(reply.status) ==>
      r.notice == SentNotice && SameExcept(st, r, {Sending, NoticeLine})
    ensures reply.Answered? && !IsOk(reply.status) ==>
      r.error == FailureMessage(reply.data, SendFallback) && SameExcept(st, r, {Sending, ErrorLine})
    ensures reply.Faulted? ==> r.error == ErrorText(reply.message) && SameExcept(st, r, {Sending, ErrorLine})
  {
    match reply
    case Faulted(message) => st.(error := ErrorText(message), sending := false)
    case Answered(status, data) =>
      if !IsOk(status) then st.(error := FailureMessage(data, SendFallback), sending := false)
      else st.(notice := SentNotice, sending := false)
  }

  /** Line 174: Clear Transcript empties the transcript and nothing else. */
  function ClearTranscript(st: State): (r: State)
    ensures r.transcript == "" && SameExcept(st, r, {Transcript})
    ensures !CanGenerate(r)
  {
    st.(transcript := "")
  }

  /** Line 222: Clear Summary empties the summary and nothing else. */
  function ClearSummary(st: State): (r: State)
    ensures r.summary == "" && SameExcept(st, r, {Summary})
    ensures !CanSend(r)
  {
    st.(summary := "")
  }

  /** The five text inputs of the page (lines 147, 159, 189, 201, 207). */
  datatype Input = TranscriptBox | PromptBox | SummaryBox | RecipientsBox | SubjectBox

  /** The field an input is bound to. */
  function Bound(input: Input): Field {
    match input
    case TranscriptBox => Transcript
    case PromptBox => Prompt
    case SummaryBox => Summary
    case RecipientsBox => Recipients
    case SubjectBox => Subject
  }

  /** Typing into an input replaces its field and nothing else. */
  function Edit(st: State, input: Input, value: string): (r: State)
    ensures SameExcept(st, r, {Bound(input)})
    ensures input == TranscriptBox ==> r.transcript == value
    ensures input == PromptBox ==> r.prompt == value
    ensures input == SummaryBox ==> r.summary == value
    ensures input == RecipientsBox ==> r.recipients == value
    ensures input == SubjectBox ==> r.subject == value
  {
    match input
    case TranscriptBox => st.(transcript := value)
    case PromptBox => st.(prompt := value)
    case SummaryBox => st.(summary := value)
    case RecipientsBox => st.(recipients := value)
    case SubjectBox => st.(subject := value)
  }

  /** Lower-casing twice is lower-casing once. */
  lemma LowerAsciiIdempotent(s: string)
    ensures LowerAscii(LowerAscii(s)) == LowerAscii(s)
  {
    var once := LowerAscii(s);
    assert forall i :: 0 <= i < |s| ==> LowerChar(once[i]) == once[i];
  }

  /** The allow-list ignores case: a name is accepted exactly when its lower-cased
      form is. */
  lemma AllowedIgnoresCase(name: string)
    ensures IsAllowedFile(name) <==> IsAllowedFile(LowerAscii(name))
  {
    LowerAsciiIdempotent(name);
  }

  /** A transcript in upper case is accepted, a PDF is not, and `.markdown` is
      accepted although the rejection message does not list it. */
  lemma AllowedFileExamples(upper: string, pdf: string, markdown: string)
    requires upper == "Notes.TXT" && pdf == "notes.pdf" && markdown == "a.markdown"
    ensures IsAllowedFile(upper) && !IsAllowedFile(pdf) && IsAllowedFile(markdown)
  {
    assert EndsWith(LowerAscii(upper), AllowedExtensions[0]);
    assert EndsWith(LowerAscii(markdown), AllowedExtensions[2]);
    var lower := LowerAscii(pdf);
    assert lower[|lower| - 1] == 'f';
    forall k | 0 <= k < |AllowedExtensions|
      ensures !EndsWith(lower, AllowedExtensions[k])
    {
      var ext := AllowedExtensions[k];
      assert ext[|ext| - 1] != 'f';
    }
  }

  /** A whole generate round trip: it starts from a state where Generate is enabled,
      and afterwards the button's flag is down, exactly one of the two alert lines
      is shown, and only the summary and the alert lines may differ from before. */
  lemma GenerateCycle(st: State, reply: Reply)
    requires CanGenerate(st)
    requires reply.Answered? && IsOk(reply.status) && reply.data != JNull ==> IsString(Get(reply.data, "summary"))
    ensures var r := GenerateFinish(GenerateStart(st), reply);
      && !r.loading && CanGenerate(r)
      && (r.error == "" <==> r.notice != "")
      && SameExcept(st, r, {Summary, ErrorLine, NoticeLine})
  {
  }

  /** A whole send round trip: afterwards the flag is down, exactly one alert line
      is shown, and no field the user typed has changed. */
  lemma SendCycle(st: State, reply: Reply)
    ensures var r := SendFinish(SendStart(st), reply);
      && !r.sending
      && (r.error == "" <==> r.notice != "")
      && SameExcept(st, r, {Sending, ErrorLine, NoticeLine})
      && (!st.sending ==> r.sending == st.sending)
  {
  }
}
