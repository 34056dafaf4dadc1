/**
 * The three record kinds of the persistence gateway (`NoteSession`, `ChatMessage`,
 * `Quiz`) and the partial updates the pages write to a session.
 *
 * Optional text fields of a session or a message use "" for "absent": every test the
 * pages make on them (`!session.extracted_text`, `summary || ...`) treats `undefined`
 * and "" alike. A question's correct answer is an `Option`, because the quiz component
 * compares it with `===`, under which a missing answer equals a missing correct answer.
 */
module Entities {
  import opened Wrappers

  datatype Status = Processing | Ready | Error

  datatype MessageType = User | Assistant

  datatype Difficulty = Easy | Medium | Hard

  /** A `NoteSession` record; `id` is assigned by the gateway. */
  datatype Session = Session(
    id: nat,
    title: string,
    originalFilename: string,
    fileUrl: Option<string>,
    extractedText: string,
    textSummary: string,
    voiceSummaryUrl: string,
    status: Status)

  /** A `ChatMessage` record. */
  datatype ChatMessage = ChatMessage(
    id: nat,
    sessionId: nat,
    message: string,
    messageType: MessageType,
    contextUsed: string,
    voiceInput: bool)

  /** One multiple-choice question of a quiz. */
  datatype Question = Question(
    question: string,
    options: seq<string>,
    correctAnswer: Option<string>,
    explanation: string)

  /** A `Quiz` record. */
  datatype Quiz = Quiz(
    id: nat,
    sessionId: nat,
    title: string,
    questions: seq<Question>,
    difficulty: Difficulty)

  /** The partial records the pages pass to `NoteSession.update`. */
  datatype SessionChange =
    | MarkReady(fileUrl: string, text: string)
    | MarkError
    | SetText(text: string)
    | SetSummary(summary: string)
    | SetVoiceUrl(url: string)

  /** The record after `NoteSession.update(id, change)`: only the named fields are written. */
  function Apply(s: Session, c: SessionChange): (r: Session)
    ensures r.id == s.id && r.title == s.title && r.originalFilename == s.originalFilename
    ensures c.MarkReady? ==> r.status == Ready && r.extractedText == c.text && r.fileUrl == Some(c.fileUrl)
    ensures !c.MarkReady? ==> r.fileUrl == s.fileUrl
    ensures c.MarkError? ==> r.status == Error && r.extractedText == s.extractedText
    ensures !c.MarkReady? && !c.MarkError? ==> r.status == s.status
    ensures c.SetText? ==> r.extractedText == c.text
    ensures !c.MarkReady? && !c.SetText? ==> r.extractedText == s.extractedText
    ensures r.textSummary == if c.SetSummary? then c.summary else s.textSummary
    ensures r.voiceSummaryUrl == if c.SetVoiceUrl? then c.url else s.voiceSummaryUrl
  {
    match c
    case MarkReady(url, text) => s.(fileUrl := Some(url), extractedText := text, status := Ready)
    case MarkError => s.(status := Error)
    case SetText(text) => s.(extractedText := text)
    case SetSummary(summary) => s.(textSummary := summary)
    case SetVoiceUrl(url) => s.(voiceSummaryUrl := url)
  }

  /** A session marked ready holds recognised text. */
  predicate ReadyHasText(s: Session)
  {
    s.status == Ready ==> s.extractedText != ""
  }

  /** The user-facing error a page shows; the gateway's own message text is not modelled. */
  datatype Fault =
    | ProcessingFile
    | GeneratingSummary
    | GeneratingVoice
    | SendingMessage
    | LoadingSessions
    | GeneratingQuiz

  /** Marking a session ready with recognised text gives a record that keeps the invariant. */
  lemma MarkReadyKeepsInvariant(s: Session, url: string, text: string)
    requires text != ""
    ensures ReadyHasText(Apply(s, MarkReady(url, text)))
  {
  }

  /**
   * A text edit is written unconditionally, so it can leave a ready session
   * without text: the invariant "ready implies text" is not kept by the code.
   */
  lemma TextEditCanBreakInvariant(s: Session)
    requires s.status == Ready
    ensures !ReadyHasText(Apply(s, SetText("")))
  {
  }
}
