/** The chat component's session state and its `uploadFile` / `sendQuery`
    transitions. The two network calls are replaced by abstract replies, so
    one call of `sendQuery` is a pure function of the state and those replies. */
module RagChat {
  import opened Wrappers
  import opened Text

  /** Who wrote a transcript entry. */
  datatype Role = User | Bot

  /** One transcript entry. */
  datatype Message = Message(role: Role, content: string)

  /** A file the user picked or dropped; only its name is visible to the component. */
  datatype PdfFile = PdfFile(name: string)

  /** An entry of the language selector: the code sent to the service and the name shown. */
  datatype Language = Language(code: string, name: string)

  /** The languages the selector offers, in display order. */
  const Languages: seq<Language> := [
    Language("english", "English"),
    Language("hindi", "Hindi"),
    Language("malayalam", "Malayalam"),
    Language("tamil", "Tamil"),
    Language("french", "French")
  ]

  /** `code` is the code of one of the selector's entries. */
  predicate Offered(code: string) {
    exists l :: l in Languages && l.code == code
  }

  /** The component's state: the draft question, the transcript, the busy
      flag, the selected language code and the attached file, if any. */
  datatype Session = Session(
    query: string,
    messages: seq<Message>,
    loading: bool,
    language: string,
    file: Option<PdfFile>)

  /** Transcript text of the user's entry when the question box was blank. */
  const UserPlaceholder := "Ask something about the uploaded PDF"
  /** Question sent to the service when the question box was blank. */
  const DefaultQuestion := "Summarize the uploaded PDF"
  /** Bot entry after a failed upload. */
  const UploadFailedText := "File upload failed."
  /** Bot entry when the service answered with a falsy `answer`. */
  const NoResponseText := "No response from API"
  /** Bot entry when the question request failed. */
  const FetchFailedText := "Something went wrong while fetching response."

  /** What the ingestion request came to: a successful reply with a JSON body,
      or anything else (a non-2xx status, a transport error, a body that is not JSON). */
  datatype IngestReply = Ingested | IngestFailed

  /** What the question request came to: a successful reply whose `answer`
      field is a string or absent, or a failure (status, transport or JSON error). */
  datatype QueryReply = Answered(answer: Option<string>) | QueryFailed

  /** JavaScript truthiness of the `answer` field: absent and `""` are falsy. */
  predicate Truthy(answer: Option<string>) {
    answer.Some? && answer.value != ""
  }

  /** The text of the user's transcript entry for a trimmed question. */
  function UserText(trimmed: string): (text: string)
    ensures text != []
    ensures trimmed != [] ==> text == trimmed
    ensures trimmed == [] ==> text == UserPlaceholder
  {
    if trimmed == [] then UserPlaceholder else trimmed
  }

  /** The text of the bot's transcript entry for a reply of the question request. */
  function BotText(reply: QueryReply): (text: string)
    ensures text != []
    ensures reply.Answered? && Truthy(reply.answer) ==> text == reply.answer.value
    ensures reply.Answered? && !Truthy(reply.answer) ==> text == NoResponseText
    ensures reply.QueryFailed? ==> text == FetchFailedText
  {
    match reply
    case Answered(answer) => if Truthy(answer) then answer.value else NoResponseText
    case QueryFailed => FetchFailedText
  }

  /** The outcome of `uploadFile`: the state after it, whether it reports
      success, and whether an ingestion request was made at all. */
  datatype Upload = Upload(after: Session, ok: bool, posted: bool)

  /** `uploadFile`: with no file attached it succeeds without a request;
      otherwise it posts the file and, on failure, appends one bot entry. */
  function UploadFile(s: Session, reply: IngestReply): (u: Upload)
    ensures u.posted <==> s.file.Some?
    ensures u.ok <==> s.file.None? || reply == Ingested
    ensures u.after.(messages := s.messages) == s
    ensures u.ok ==> u.after.messages == s.messages
    ensures !u.ok ==> u.after.messages == s.messages + [Message(Bot, UploadFailedText)]
  {
    if s.file.None? then Upload(s, true, false)
    else if reply == Ingested then Upload(s, true, true)
    else Upload(s.(messages := s.messages + [Message(Bot, UploadFailedText)]), false, true)
  }

  /** The state once validation has passed: the user's entry is on the
      transcript, the question box is cleared and the component is busy. */
  function Begin(s: Session, trimmed: string): (t: Session)
    ensures s.messages <= t.messages && |t.messages| == |s.messages| + 1
    ensures t.messages[|s.messages|] == Message(User, UserText(trimmed))
    ensures t.query == [] && t.loading
    ensures t.language == s.language && t.file == s.file
  {
    s.(messages := s.messages + [Message(User, UserText(trimmed))], loading := true, query := "")
  }

  /** The question string sent to the service: the instruction
      `Respond in <language>: ` followed by the trimmed question, or by the
      default question when it is blank. The language is used verbatim. */
  function QuestionFor(language: string, trimmed: string): (q: string)
    ensures "Respond in " + language + ": " <= q
    ensures trimmed != [] ==> q[|"Respond in " + language + ": "|..] == trimmed
    ensures trimmed == [] ==> q[|"Respond in " + language + ": "|..] == DefaultQuestion
  {
    "Respond in " + language + ": " + (if trimmed == [] then DefaultQuestion else trimmed)
  }

  /** The question request and its cleanup: exactly one bot entry is
      appended, then the component is idle again and the file is detached. */
  function QueryStep(s: Session, reply: QueryReply): (t: Session)
    ensures s.messages <= t.messages && |t.messages| == |s.messages| + 1
    ensures t.messages[|s.messages|] == Message(Bot, BotText(reply))
    ensures !t.loading && t.file.None?
    ensures t.query == s.query && t.language == s.language
  {
    var answered := s.(messages := s.messages + [Message(Bot, BotText(reply))]);
    answered.(loading := false, file := None)
  }

  /** The record of one `sendQuery` call: the final state, the state at the
      moment the upload step began (absent when validation stopped the call),
      whether an ingestion request was made, and the question sent (absent
      when the question request was never made). */
  datatype Run = Run(final: Session, atUpload: Option<Session>, posted: bool, question: Option<string>)

  /** `sendQuery` for the given replies of the two requests. */
  function SendQuery(s: Session, ingest: IngestReply, reply: QueryReply): (run: Run)
    // Validation: a blank question with no file attached does nothing at all.
    ensures run.atUpload.None? <==> Blank(s.query) && s.file.None?
    ensures run.atUpload.None? ==> run.final == s && !run.posted && run.question.None?
    // Before the upload step: the user's entry is appended, the box cleared, the component busy.
    ensures run.atUpload.Some? ==>
      run.atUpload.value ==
        s.(messages := s.messages + [Message(User, UserText(Trim(s.query)))], query := "", loading := true)
    // Requests made.
    ensures run.posted <==> run.atUpload.Some? && s.file.Some?
    ensures run.question.Some? <==> run.atUpload.Some? && (s.file.None? || ingest == Ingested)
    ensures run.question.Some? ==> run.question.value == QuestionFor(s.language, Trim(s.query))
    // The transcript only grows: by nothing, or by the user's entry followed by one bot entry.
    ensures s.messages <= run.final.messages
    ensures run.atUpload.Some? ==>
      && |run.final.messages| == |s.messages| + 2
      && run.final.messages[|s.messages|] == Message(User, UserText(Trim(s.query)))
      && run.final.messages[|s.messages| + 1].role == Bot
    ensures run.atUpload.Some? && run.question.None? ==>
      run.final.messages[|s.messages| + 1].content == UploadFailedText
    ensures run.question.Some? ==>
      run.final.messages[|s.messages| + 1].content == BotText(reply)
    // Cleanup: idle again on every path past validation; the file is detached
    // only when the question request was reached.
    ensures run.atUpload.Some? ==> !run.final.loading && run.final.query == []
    ensures run.question.Some? ==> run.final.file.None?
    ensures run.question.None? ==> run.final.file == s.file
    ensures run.final.language == s.language
  {
    var trimmed := Trim(s.query);
    if trimmed == [] && s.file.None? then
      Run(s, None, false, None)
    else
      var started := Begin(s, trimmed);
      var up := UploadFile(started, ingest);
      if !up.ok then
        Run(up.after.(loading := false), Some(started), up.posted, None)
      else
        var question := QuestionFor(s.language, trimmed);
        Run(QueryStep(up.after, reply), Some(started), up.posted, Some(question))
  }

  /** A complete exchange with no file attached: a question with no
      surrounding whitespace goes out verbatim after the language
      instruction (for instance `Respond in french: Summarize this`), no
      ingestion request is made, and the transcript gains the question and
      then the bot's entry for the reply. */
  lemma PlainExchange(s: Session, ingest: IngestReply, reply: QueryReply)
    requires s.file.None? && s.query != []
    requires !IsWhitespace(s.query[0]) && !IsWhitespace(s.query[|s.query| - 1])
    ensures var run := SendQuery(s, ingest, reply);
      && !run.posted
      && run.question == Some("Respond in " + s.language + ": " + s.query)
      && run.final.messages == s.messages + [Message(User, s.query), Message(Bot, BotText(reply))]
      && run.final == s.(messages := run.final.messages, query := "", loading := false)
  {
    assert s.query[0..|s.query|] == s.query;
    TrimUnique(s.query, s.query, 0);
    var run := SendQuery(s, ingest, reply);
    var m := run.final.messages;
    assert m == s.messages + [Message(User, s.query), Message(Bot, BotText(reply))] by {
      assert m[..|s.messages|] == s.messages;
    }
  }
}
