/**
 * The per-session state of the page (`st.session_state`) and the handlers that
 * change it: the reset on a new upload, the start of the chat with the first
 * analysis, and the chat turns.  The external language-model service is not
 * modelled; each call to it is represented by its outcome, passed in.
 */
module Session {
  import opened Wrappers
  import opened Matching
  import opened Statement
  import opened Liquidity

  datatype Role = User | Assistant

  datatype Message = Message(role: Role, content: string)

  /** Outcome of starting the chat and asking for the first analysis. */
  datatype StartOutcome =
    | Started(reply: string)
    | ApiFailure(detail: string)
    | KeyFailure
    | OtherFailure(detail: string)

  /** Outcome of sending one chat message. */
  datatype SendOutcome = Replied(reply: string) | SendFailure(detail: string)

  const ApiFailurePrefix: string := "Lỗi gọi Gemini API: Vui lòng kiểm tra Khóa API hoặc giới hạn sử dụng. Chi tiết lỗi: "
  const KeyFailureText: string := "Lỗi: Không tìm thấy Khóa API 'GEMINI_API_KEY'."
  const OtherFailurePrefix: string := "Đã xảy ra lỗi không xác định: "
  const MissingKeyText: string := "Lỗi: Không tìm thấy Khóa API. Vui lòng cấu hình Khóa 'GEMINI_API_KEY' trong Streamlit Secrets."
  const ChatFailurePrefix: string := "Lỗi trong quá trình trò chuyện: "
  const ChatFailureSuffix: string := ". Vui lòng thử lại."

  /** What `initialize_gemini_chat_and_analysis` returns: the reply, or the message of the error it caught. */
  function StartResultText(o: StartOutcome): (t: string)
    ensures o.Started? ==> t == o.reply
    ensures o.ApiFailure? ==> ApiFailurePrefix <= t && t[|ApiFailurePrefix|..] == o.detail
    ensures o.OtherFailure? ==> OtherFailurePrefix <= t && t[|OtherFailurePrefix|..] == o.detail
    ensures o.KeyFailure? ==> t == KeyFailureText
    ensures !o.Started? ==> t != ""
  {
    match o
    case Started(reply) => reply
    case ApiFailure(detail) => ApiFailurePrefix + detail
    case KeyFailure => KeyFailureText
    case OtherFailure(detail) => OtherFailurePrefix + detail
  }

  /** The assistant's turn after a chat message: the reply, or the error text. */
  function SendResultText(o: SendOutcome): (t: string)
    ensures o.Replied? ==> t == o.reply
    ensures o.SendFailure? ==> ChatFailurePrefix <= t && t[|t| - |ChatFailureSuffix|..] == ChatFailureSuffix
  {
    match o
    case Replied(reply) => reply
    case SendFailure(detail) => ChatFailurePrefix + detail + ChatFailureSuffix
  }

  /** A failed call is reported with a message that starts with the failure's own prefix and carries its details. */
  lemma FailureTextsCarryDetail(o: SendOutcome)
    requires o.SendFailure?
    ensures SendResultText(o)[..|ChatFailurePrefix|] == ChatFailurePrefix
    ensures SendResultText(o)[|ChatFailurePrefix|..|ChatFailurePrefix| + |o.detail|] == o.detail
  {
  }

  /** The transcript's roles alternate: the assistant's first analysis, then user and assistant in turn. */
  predicate Alternating(ms: seq<Message>)
  {
    forall i :: 0 <= i < |ms| ==> ms[i].role == (if i % 2 == 0 then Assistant else User)
  }

  /**
   * The shape the handlers keep the transcript in: empty until the chat is
   * started, and from then on the first analysis followed by complete
   * question-and-answer pairs.
   */
  predicate TranscriptShape(initialized: bool, ms: seq<Message>)
  {
    if initialized then |ms| % 2 == 1 && Alternating(ms) else ms == []
  }

  /** Appending a question and its answer keeps the shape of a started transcript. */
  lemma TurnKeepsShape(ms: seq<Message>, prompt: string, answer: string)
    requires TranscriptShape(true, ms)
    ensures TranscriptShape(true, ms + [Message(User, prompt), Message(Assistant, answer)])
  {
  }

  /** In a started transcript every user message is answered by the very next message. */
  lemma EveryPromptAnswered(ms: seq<Message>, i: int)
    requires TranscriptShape(true, ms)
    requires 0 <= i < |ms| && ms[i].role == User
    ensures i + 1 < |ms| && ms[i + 1].role == Assistant
  {
  }

  /** A sheet as the page reads it. */
  datatype Sheet =
    | Table(rows: seq<RawRow>)
    | MalformedSheet   // reading or relabelling raised ValueError (e.g. not exactly three columns)
    | UnreadableFile   // reading raised any other error

  datatype Upload = Upload(name: string, sheet: Sheet)

  /** What the page shows below the uploader. */
  datatype Page =
    | Waiting          // no file: the prompt to upload one
    | StructureError   // the data-structure message
    | ReadError        // the generic reading message
    | Shown(report: Report)

  /**
   * The page for an upload.  Processing errors surface through the handlers of
   * lines 266-269: a missing total-assets row raises ValueError and gets the
   * structure message, while the string accessor's rejection of a label column
   * without text is an AttributeError and gets the generic message.
   */
  function PageFor(file: Option<Upload>): (p: Page)
    ensures p.Waiting? <==> file.None?
    ensures p.Shown? ==> file.Some? && file.value.sheet.Table? && Analyze(file.value.sheet.rows) == Success(p.report)
  {
    match file
    case None => Waiting
    case Some(u) =>
      match u.sheet
      case UnreadableFile => ReadError
      case MalformedSheet => StructureError
      case Table(raw) =>
        match Analyze(raw)
        case Failure(MissingTotalAssets) => StructureError
        case Failure(LabelsNotText) => ReadError
        case Success(report) => Shown(report)
  }

  /**
   * A readable table is shown exactly when it has a total-assets row.
   * Otherwise the generic message appears when the table has rows but not one
   * text line item, and the structure message in every other case.
   */
  lemma PageForTable(name: string, raw: seq<RawRow>)
    ensures PageFor(Some(Upload(name, Table(raw)))).Shown? <==>
      exists i :: 0 <= i < |raw| && Matches(raw[i].item, TotalAssetsMarker)
    ensures !PageFor(Some(Upload(name, Table(raw)))).Shown? ==>
      PageFor(Some(Upload(name, Table(raw)))) ==
        (if |raw| > 0 && forall i :: 0 <= i < |raw| ==> raw[i].item.NotText? then ReadError else StructureError)
  {
    AnalyzeFailsIffNoTotalAssets(raw);
  }

  /**
   * The narrative box as the page decides it (lines 224-226): it is shown only
   * once the chat has started, whatever the stored narrative is.
   */
  function NarrativeShownAsWritten(initialized: bool, text: string): (shown: Option<string>)
    ensures shown.Some? <==> initialized
    ensures shown.Some? ==> shown.value == text
  {
    if initialized then Some(text) else None
  }

  /** A failed start stores its error text as the narrative, yet the page never shows it. */
  lemma FailedStartIsHidden(o: StartOutcome)
    requires !o.Started?
    ensures StartResultText(o) != ""
    ensures NarrativeShownAsWritten(o.Started?, StartResultText(o)) == None
  {
  }

  /** The narrative box as intended: a stored narrative is shown, whether it is the analysis or the error of a failed start. */
  function NarrativeShown(initialized: bool, text: string): (shown: Option<string>)
    ensures shown.Some? <==> initialized || text != ""
    ensures shown.Some? ==> shown.value == text
  {
    if initialized || text != "" then Some(text) else None
  }

  /** Every start the analyze button makes, successful or not, leaves its text on show. */
  lemma EveryStartIsShown(o: StartOutcome)
    ensures NarrativeShown(o.Started?, StartResultText(o)) == Some(StartResultText(o))
  {
  }

  /** The page's session state. */
  class SessionState {
    var chatInitialized: bool
    var messages: seq<Message>
    var initialAnalysisText: string
    var lastUploadedFile: Option<string>

    ghost predicate Valid()
      reads this
    {
      TranscriptShape(chatInitialized, messages)
    }

    /** The defaults a new session starts from. */
    constructor ()
      ensures Valid()
      ensures !chatInitialized && messages == [] && initialAnalysisText == ""
      ensures lastUploadedFile == None
    {
      chatInitialized := false;
      messages := [];
      initialAnalysisText := "";
      lastUploadedFile := None;
    }

    /** An upload whose name differs from the last one recorded clears the chat and the narrative. */
    method OnUpload(file: Option<string>) returns (reset: bool)
      requires Valid()
      modifies this
      ensures Valid()
      ensures reset <==> file.Some? && old(lastUploadedFile) != file
      ensures reset ==> && !chatInitialized && messages == [] && initialAnalysisText == ""
                        && lastUploadedFile == file
      ensures !reset ==> && chatInitialized == old(chatInitialized) && messages == old(messages)
                         && initialAnalysisText == old(initialAnalysisText)
                         && lastUploadedFile == old(lastUploadedFile)
    {
      reset := file.Some? && lastUploadedFile != file;
      if reset {
        chatInitialized := false;
        messages := [];
        initialAnalysisText := "";
        lastUploadedFile := file;
      }
    }

    /**
     * Starts the chat: on success the first analysis becomes the transcript's
     * one assistant message and the chat is marked started; on failure nothing
     * changes.  Either way the text to show is returned.
     */
    method InitializeChat(outcome: StartOutcome) returns (text: string)
      requires Valid() && !chatInitialized
      modifies this`chatInitialized, this`messages
      ensures Valid()
      ensures text == StartResultText(outcome)
      ensures outcome.Started? ==> chatInitialized && messages == old(messages) + [Message(Assistant, outcome.reply)]
      ensures !outcome.Started? ==> !chatInitialized && messages == old(messages)
    {
      if outcome.Started? {
        messages := messages + [Message(Assistant, outcome.reply)];
        chatInitialized := true;
      }
      text := StartResultText(outcome);
    }

    /**
     * The analyze button, shown only while the chat is not started: with an API
     * key the chat is started and its text, reply or error, becomes the
     * narrative; without one only the missing-key message is returned.
     */
    method RequestAnalysis(apiKey: Option<string>, outcome: StartOutcome) returns (error: Option<string>)
      requires Valid()
      modifies this`chatInitialized, this`messages, this`initialAnalysisText
      ensures Valid()
      ensures var attempted := !old(chatInitialized) && apiKey.Some? && apiKey.value != "";
        && (attempted ==> && initialAnalysisText == StartResultText(outcome)
                          && NarrativeShown(chatInitialized, initialAnalysisText) == Some(StartResultText(outcome))
                          && (!outcome.Started? ==> && NarrativeShownAsWritten(chatInitialized, initialAnalysisText) == None
                                                    && initialAnalysisText != "")
                          && chatInitialized == outcome.Started?
                          && messages == old(messages) + (if outcome.Started? then [Message(Assistant, outcome.reply)] else []))
        && (!attempted ==> && initialAnalysisText == old(initialAnalysisText)
                           && chatInitialized == old(chatInitialized) && messages == old(messages))
      ensures error.Some? <==> !old(chatInitialized) && (apiKey.None? || apiKey.value == "")
      ensures error.Some? ==> error.value == MissingKeyText
    {
      error := None;
      if !chatInitialized {
        if apiKey.Some? && apiKey.value != "" {
          var text := InitializeChat(outcome);
          initialAnalysisText := text;
        } else {
          error := Some(MissingKeyText);
        }
      }
    }

    /**
     * A chat turn, taken when the chat is started and a nonempty prompt was
     * entered: the prompt and then exactly one assistant message, the reply or
     * the error text, are appended, and nothing earlier changes.
     */
    method SubmitChat(input: Option<string>, outcome: SendOutcome) returns (taken: bool)
      requires Valid()
      modifies this`messages
      ensures Valid()
      ensures taken <==> chatInitialized && input.Some? && input.value != ""
      ensures taken ==> messages == old(messages) + [Message(User, input.value), Message(Assistant, SendResultText(outcome))]
      ensures !taken ==> messages == old(messages)
    {
      taken := chatInitialized && input.Some? && input.value != "";
      if taken {
        TurnKeepsShape(messages, input.value, SendResultText(outcome));
        messages := messages + [Message(User, input.value)];
        messages := messages + [Message(Assistant, SendResultText(outcome))];
      }
    }

    /**
     * One run of the page script: the upload check, the analysis, then the
     * analyze button (which reruns the page whenever it calls the service) or
     * else the chat input.  Chat state can only advance on a page that shows an analysis.
     */
    method Rerun(file: Option<Upload>, analyzePressed: bool, apiKey: Option<string>,
                 start: StartOutcome, input: Option<string>, send: SendOutcome)
      returns (page: Page)
      requires Valid()
      modifies this
      ensures Valid()
      ensures page == PageFor(file)
      ensures lastUploadedFile == if file.Some? then Some(file.value.name) else old(lastUploadedFile)
      ensures var reset := file.Some? && old(lastUploadedFile) != Some(file.value.name);
        var base := if reset then [] else old(messages);
        && (!page.Shown? ==> && messages == base
                             && chatInitialized == (!reset && old(chatInitialized))
                             && initialAnalysisText == (if reset then "" else old(initialAnalysisText)))
        && |base| <= |messages| && messages[..|base|] == base
    {
      var name := if file.Some? then Some(file.value.name) else None;
      var _ := OnUpload(name);
      page := PageFor(file);
      if page.Shown? {
        if !chatInitialized && analyzePressed {
          var error := RequestAnalysis(apiKey, start);
          if error.None? {
            return;  // st.rerun(): the rest of this run is skipped
          }
        }
        var _ := SubmitChat(input, send);
      }
    }
  }
}
