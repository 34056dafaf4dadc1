/**
 * The dashboard page (dashboard.jsx): upload a file, create a `processing` session,
 * recognise its text and mark it `ready`; edit the text; generate a summary and a
 * voice summary; chat about the notes. Each handler runs to completion in one step,
 * and the result of each gateway call it awaits is a parameter.
 */
module Dashboard {
  import opened Wrappers
  import opened Seqs
  import opened Entities
  import opened Persistence
  import opened Conversation

  // ---------------------------------------------------------------------
  // The session title: `file.name.replace(/\.[^/.]+$/, '')`
  // ---------------------------------------------------------------------

  /**
   * The pattern `\.[^/.]+$` matches at position `k`: a '.', then at least one
   * character, and neither '.' nor '/' up to the end of the name.
   */
  predicate ExtensionAt(name: string, k: int)
  {
    && 0 <= k < |name| - 1
    && name[k] == '.'
    && forall j :: k < j < |name| ==> name[j] != '.' && name[j] != '/'
  }

  /**
   * Scanning `name[..j]` backwards over characters that are neither '.' nor '/':
   * the position of the '.' that stops the scan, or -1 when a '/' or the start stops it.
   */
  function ExtensionStart(name: string, j: nat): int
    requires j <= |name|
  {
    if j == 0 then -1
    else if name[j - 1] == '.' then j - 1
    else if name[j - 1] == '/' then -1
    else ExtensionStart(name, j - 1)
  }

  /** Neither '.' nor '/' strictly between `k` and `j`. */
  predicate PlainBetween(name: string, k: int, j: int)
    requires j <= |name|
  {
    forall i :: 0 <= i < j && k < i ==> name[i] != '.' && name[i] != '/'
  }

  /** The title: the name without its extension, or the name itself when the pattern does not match. */
  function TitleFromFilename(name: string): (title: string)
    ensures title <= name
    ensures |title| < |name| ==> name[|title|] == '.' && |name| - |title| >= 2
  {
    ExtensionStartFindsDot(name, |name|);
    var k := ExtensionStart(name, |name|);
    if 0 <= k < |name| - 1 then name[..k] else name
  }

  /** The scan stops at the one '.' that has only plain characters after it, if there is one. */
  lemma {:induction false} ExtensionStartFindsDot(name: string, j: nat)
    requires j <= |name|
    ensures var r := ExtensionStart(name, j);
            r >= 0 ==> r < j && name[r] == '.' && PlainBetween(name, r, j)
    ensures var r := ExtensionStart(name, j);
            r < 0 ==> forall k :: 0 <= k < j && name[k] == '.' ==> !PlainBetween(name, k, j)
  {
    if j > 0 && name[j - 1] != '.' {
      if name[j - 1] == '/' {
        forall k | 0 <= k < j && name[k] == '.' ensures !PlainBetween(name, k, j) {
          assert k < j - 1;
        }
      } else {
        ExtensionStartFindsDot(name, j - 1);
        var r := ExtensionStart(name, j - 1);
        if r < 0 {
          forall k | 0 <= k < j && name[k] == '.' ensures !PlainBetween(name, k, j) {
            assert !PlainBetween(name, k, j - 1);
            var i :| 0 <= i < j - 1 && k < i && (name[i] == '.' || name[i] == '/');
          }
        }
      }
    }
  }

  /** The title is the name cut where the pattern matches, or the whole name when it matches nowhere. */
  lemma TitleDropsExtension(name: string)
    ensures forall k :: ExtensionAt(name, k) ==> TitleFromFilename(name) == name[..k]
    ensures (forall k :: !ExtensionAt(name, k)) ==> TitleFromFilename(name) == name
  {
    ExtensionStartFindsDot(name, |name|);
    var r := ExtensionStart(name, |name|);
    forall k | ExtensionAt(name, k) ensures r == k {
      assert PlainBetween(name, k, |name|);
    }
    if 0 <= r < |name| - 1 {
      assert ExtensionAt(name, r);
    }
  }

  /** The pattern matches at one position at most. */
  lemma ExtensionUnique(name: string, k: int)
    requires ExtensionAt(name, k)
    ensures forall k' :: ExtensionAt(name, k') ==> k' == k
  {
  }

  /** `lecture1.pdf` gives `lecture1`, `a.b.c` gives `a.b`, `noext` and `dir.v2/file` are kept. */
  lemma TitleExamples()
    ensures TitleFromFilename("lecture1.pdf") == "lecture1"
    ensures TitleFromFilename("a.b.c") == "a.b"
    ensures TitleFromFilename("noext") == "noext"
    ensures TitleFromFilename("dir.v2/file") == "dir.v2/file"
  {
    TitleDropsExtension("lecture1.pdf");
    TitleDropsExtension("a.b.c");
    TitleDropsExtension("noext");
    TitleDropsExtension("dir.v2/file");
    assert ExtensionAt("lecture1.pdf", 8);
    assert ExtensionAt("a.b.c", 3);
    var d := "dir.v2/file";
    assert forall k :: 0 <= k < |d| ==> !ExtensionAt(d, k) by {
      forall k | 0 <= k < |d| ensures !ExtensionAt(d, k) {
        if k != 3 {
          assert d[k] != '.';
        } else {
          assert d[6] == '/';
        }
      }
    }
  }

  // ---------------------------------------------------------------------
  // The upload pipeline, as a function of the gateway outcomes
  // ---------------------------------------------------------------------

  /** What `ExtractDataFromUploadedFile` returns: a status and the recognised text. */
  datatype Extraction = Extraction(status: string, extractedText: string)

  /** `extractionResult.status === 'success' && extractionResult.output?.extracted_text`. */
  predicate ExtractionSucceeded(e: Outcome<Extraction>)
  {
    e.Ok? && e.value.status == "success" && e.value.extractedText != ""
  }

  /** How far the upload handler got before it finished or threw. */
  datatype UploadStage =
    | CreateFailed       // `NoteSession.create` threw
    | UploadFailed       // `UploadFile` threw
    | ExtractionFailed   // extraction threw or returned no text
    | ReadyWriteFailed   // the `ready` update threw
    | Done

  function Stage(created: bool, uploaded: Outcome<string>, extraction: Outcome<Extraction>, readyWritten: bool): UploadStage
  {
    if !created then CreateFailed
    else if uploaded.Fail? then UploadFailed
    else if !ExtractionSucceeded(extraction) then ExtractionFailed
    else if !readyWritten then ReadyWriteFailed
    else Done
  }

  function UrlOf(uploaded: Outcome<string>): string
  {
    if uploaded.Ok? then uploaded.value else ""
  }

  function TextOf(extraction: Outcome<Extraction>): string
  {
    if extraction.Ok? then extraction.value.extractedText else ""
  }

  /** The record `NoteSession.create` returns for an upload of `fileName`. */
  function NewSession(id: nat, fileName: string): Session
  {
    Session(id, TitleFromFilename(fileName), fileName, None, "", "", "", Processing)
  }

  /** The catch branch's write: `status: 'error'` on the session captured when the handler was made. */
  function ErrorWrite(ss: seq<Session>, captured: Option<Session>, written: bool): seq<Session>
  {
    if captured.Some? && written then UpdateSession(ss, captured.value.id, MarkError) else ss
  }

  /** The stored sessions after the `try` block: the new record, marked ready if every step succeeded. */
  function SessionsAfterTry(ss: seq<Session>, fileName: string, stage: UploadStage, url: string, text: string): seq<Session>
  {
    if stage == CreateFailed then ss
    else
      var created := ss + [NewSession(|ss|, fileName)];
      if stage == Done then UpdateSession(created, |ss|, MarkReady(url, text)) else created
  }

  /** The stored sessions after the upload handler: a failure adds the `catch` block's write. */
  function SessionsAfterUpload(ss: seq<Session>, captured: Option<Session>, fileName: string, stage: UploadStage,
                               url: string, text: string, errorWritten: bool): seq<Session>
  {
    var tried := SessionsAfterTry(ss, fileName, stage, url, text);
    if stage == Done then tried else ErrorWrite(tried, captured, errorWritten)
  }

  /** The page's current session after the `try` block. */
  function SessionAfterTry(n: nat, fileName: string, stage: UploadStage, url: string, text: string): Option<Session>
  {
    if stage == CreateFailed then None
    else if stage == Done then Some(Apply(NewSession(n, fileName), MarkReady(url, text)))
    else Some(NewSession(n, fileName))
  }

  /** A completed upload stores one new, ready session holding the recognised text and the file's URL. */
  lemma UploadDoneStoresReadySession(ss: seq<Session>, captured: Option<Session>, fileName: string,
                                     created: bool, uploaded: Outcome<string>, extraction: Outcome<Extraction>,
                                     readyWritten: bool, errorWritten: bool)
    requires Stage(created, uploaded, extraction, readyWritten) == Done
    ensures var r := SessionsAfterUpload(ss, captured, fileName, Done, UrlOf(uploaded), TextOf(extraction), errorWritten);
            && |r| == |ss| + 1 && r[..|ss|] == ss
            && r[|ss|] == Session(|ss|, TitleFromFilename(fileName), fileName, Some(uploaded.value),
                                  extraction.value.extractedText, "", "", Ready)
            && ReadyHasText(r[|ss|])
  {
    var r := SessionsAfterUpload(ss, captured, fileName, Done, UrlOf(uploaded), TextOf(extraction), errorWritten);
    assert r[..|ss|] == ss;
  }

  /**
   * A failed upload never marks the session it created as failed: the error write
   * goes to the session that was current before the upload began, if any, and the new
   * record stays `processing` with no text.
   */
  lemma FailedUploadLeavesNewSessionProcessing(ss: seq<Session>, captured: Option<Session>, fileName: string,
                                               stage: UploadStage, url: string, text: string, errorWritten: bool)
    requires SessionsIndexed(ss)
    requires captured.Some? ==> captured.value.id < |ss|
    requires stage != Done && stage != CreateFailed
    ensures var r := SessionsAfterUpload(ss, captured, fileName, stage, url, text, errorWritten);
            && |r| == |ss| + 1
            && r[|ss|] == NewSession(|ss|, fileName)
            && (captured.Some? && errorWritten ==> r[captured.value.id].status == Error)
            && (forall i :: 0 <= i < |ss| && (captured.None? || i != captured.value.id || !errorWritten) ==> r[i] == ss[i])
  {
  }

  /**
   * The upload zone is rendered only while there is no current session, so the handler
   * it calls always captures none: a failed upload leaves every earlier session as it
   * was, and the record it may have created stays `processing`. The `catch` block's
   * error write never happens.
   */
  lemma UploadFromZoneMarksNoError(ss: seq<Session>, fileName: string, stage: UploadStage,
                                   url: string, text: string, errorWritten: bool)
    requires stage != Done
    ensures var r := SessionsAfterUpload(ss, None, fileName, stage, url, text, errorWritten);
            && r[..|ss|] == ss
            && |r| == (if stage == CreateFailed then |ss| else |ss| + 1)
            && (forall i :: |ss| <= i < |r| ==> r[i] == NewSession(|ss|, fileName) && r[i].status == Processing)
  {
    var r := SessionsAfterUpload(ss, None, fileName, stage, url, text, errorWritten);
    assert r[..|ss|] == ss;
  }

  /** No failed upload writes text to any stored session. */
  lemma FailedUploadStoresNoText(ss: seq<Session>, captured: Option<Session>, fileName: string,
                                 stage: UploadStage, url: string, text: string, errorWritten: bool)
    requires stage != Done
    ensures var r := SessionsAfterUpload(ss, captured, fileName, stage, url, text, errorWritten);
            forall i :: 0 <= i < |ss| ==> r[i].extractedText == ss[i].extractedText && r[i].fileUrl == ss[i].fileUrl
    ensures var r := SessionsAfterUpload(ss, captured, fileName, stage, url, text, errorWritten);
            |r| > |ss| ==> r[|ss|].extractedText == "" && r[|ss|].fileUrl == None
  {
  }

  // ---------------------------------------------------------------------
  // The page
  // ---------------------------------------------------------------------

  /** The mock voice summary: `data:audio/mp3;base64,` followed by `btoa('mock-audio-data')`. */
  const MockAudioUrl: string := "data:audio/mp3;base64,bW9jay1hdWRpby1kYXRh"

  /** The shown messages belong to the current session; none are shown without one. */
  predicate ShownFor(ms: seq<ChatMessage>, current: Option<Session>)
  {
    if current.None? then ms == [] else forall i :: 0 <= i < |ms| ==> ms[i].sessionId == current.value.id
  }

  /** The dashboard's state. */
  class Dashboard {
    const store: Store
    var currentSession: Option<Session>
    var extractedText: string
    var summary: string
    var voiceSummaryUrl: string
    var messages: seq<ChatMessage>
    var isProcessing: bool
    var isGeneratingSummary: bool
    var isGeneratingVoice: bool
    var isChatLoading: bool
    var error: Option<Fault>

    /**
     * Between handlers: the store is well numbered, the current session is one of its
     * records, the shown messages belong to the current session, and nothing is busy.
     */
    ghost predicate Valid()
      reads this, store
    {
      && store.Valid()
      && (currentSession.Some? ==> currentSession.value.id < |store.sessions|)
      && ShownFor(messages, currentSession)
      && !isProcessing && !isGeneratingSummary && !isGeneratingVoice && !isChatLoading
    }

    constructor (store: Store)
      requires store.Valid()
      ensures Valid()
      ensures this.store == store
      ensures currentSession == None && extractedText == "" && summary == "" && voiceSummaryUrl == ""
      ensures messages == [] && error == None
    {
      this.store := store;
      currentSession, extractedText, summary, voiceSummaryUrl := None, "", "", "";
      messages := [];
      isProcessing, isGeneratingSummary, isGeneratingVoice, isChatLoading := false, false, false, false;
      error := None;
    }

    /**
     * The upload zone, and so `HandleFileUpload`, is shown only while there is no current
     * session; see `UploadFromZoneMarksNoError`.
     */
    predicate ShowsUploadZone()
      reads this
    {
      currentSession.None?
    }

    /** The chat panel is shown when there is a session with text: exactly the send guard. */
    predicate ShowsChat()
      reads this
    {
      currentSession.Some? && extractedText != ""
    }

    /**
     * `handleFileUpload(file)`. `created`, `uploaded`, `extraction`, `readyWritten` and
     * `errorWritten` are the outcomes of the five gateway calls it may make; the
     * `status: 'error'` write tests `currentSession` as it was when the handler began.
     */
    method HandleFileUpload(fileName: string, created: bool, uploaded: Outcome<string>,
                            extraction: Outcome<Extraction>, readyWritten: bool, errorWritten: bool)
      requires Valid()
      modifies this, store
      ensures Valid()
      ensures var stage := Stage(created, uploaded, extraction, readyWritten);
              store.sessions == SessionsAfterUpload(old(store.sessions), old(currentSession), fileName, stage,
                                                    UrlOf(uploaded), TextOf(extraction), errorWritten)
      ensures store.messages == old(store.messages) && store.quizzes == old(store.quizzes)
      ensures messages == [] && summary == "" && voiceSummaryUrl == ""
      ensures var stage := Stage(created, uploaded, extraction, readyWritten);
              currentSession == SessionAfterTry(old(|store.sessions|), fileName, stage, UrlOf(uploaded), TextOf(extraction))
      ensures var stage := Stage(created, uploaded, extraction, readyWritten);
              extractedText == if stage == Done || stage == ReadyWriteFailed then TextOf(extraction) else ""
      ensures error == if Stage(created, uploaded, extraction, readyWritten) == Done then None else Some(ProcessingFile)
    {
      var captured := currentSession;
      error := None;
      isProcessing := true;
      messages := [];
      summary := "";
      voiceSummaryUrl := "";
      extractedText := "";
      currentSession := None;

      var stage := TryUpload(fileName, created, uploaded, extraction, readyWritten);
      if stage != Done {
        error := Some(ProcessingFile);
        if captured.Some? && errorWritten {
          store.Update(captured.value.id, MarkError);
        }
      }
      isProcessing := false;
    }

    /**
     * The `try` block of `handleFileUpload`: create the session, upload, extract, and
     * mark the session ready. `stage` says how far it got before it threw or found no text.
     */
    method TryUpload(fileName: string, created: bool, uploaded: Outcome<string>,
                     extraction: Outcome<Extraction>, readyWritten: bool) returns (stage: UploadStage)
      requires store.Valid() && currentSession == None
      modifies this, store
      ensures store.Valid()
      ensures stage == Stage(created, uploaded, extraction, readyWritten)
      ensures store.sessions == SessionsAfterTry(old(store.sessions), fileName, stage, UrlOf(uploaded), TextOf(extraction))
      ensures currentSession == SessionAfterTry(old(|store.sessions|), fileName, stage, UrlOf(uploaded), TextOf(extraction))
      ensures |store.sessions| >= old(|store.sessions|)
      ensures currentSession.Some? ==> currentSession.value.id < |store.sessions|
      ensures store.messages == old(store.messages) && store.quizzes == old(store.quizzes)
      ensures extractedText == if stage == Done || stage == ReadyWriteFailed then TextOf(extraction) else old(extractedText)
      ensures messages == old(messages) && summary == old(summary) && voiceSummaryUrl == old(voiceSummaryUrl)
      ensures error == old(error) && isProcessing == old(isProcessing)
      ensures isGeneratingSummary == old(isGeneratingSummary) && isGeneratingVoice == old(isGeneratingVoice)
      ensures isChatLoading == old(isChatLoading)
    {
      if !created {
        return CreateFailed;
      }
      var session := store.CreateSession(TitleFromFilename(fileName), fileName);
      currentSession := Some(session);
      if uploaded.Fail? {
        return UploadFailed;
      }
      if !ExtractionSucceeded(extraction) {
        return ExtractionFailed;
      }
      var text := extraction.value.extractedText;
      extractedText := text;
      if !readyWritten {
        return ReadyWriteFailed;
      }
      store.Update(session.id, MarkReady(uploaded.value, text));
      currentSession := Some(Apply(session, MarkReady(uploaded.value, text)));
      return Done;
    }

    /** `handleTextUpdate(newText)`: the shown text always changes; it is stored only for a current session. */
    method HandleTextUpdate(newText: string, persisted: bool)
      requires Valid()
      modifies this, store
      ensures Valid()
      ensures extractedText == newText
      ensures store.sessions == if old(currentSession).Some? && persisted
                                then UpdateSession(old(store.sessions), old(currentSession).value.id, SetText(newText))
                                else old(store.sessions)
      ensures store.messages == old(store.messages) && store.quizzes == old(store.quizzes)
      ensures currentSession == old(currentSession) && summary == old(summary) && voiceSummaryUrl == old(voiceSummaryUrl)
      ensures messages == old(messages) && error == old(error)
    {
      extractedText := newText;
      if currentSession.Some? && persisted {
        store.Update(currentSession.value.id, SetText(newText));
      }
    }

    /**
     * `generateSummary`: nothing without text; otherwise the answer becomes the summary
     * and is stored for a current session. A failed call leaves the summary as it was.
     */
    method GenerateSummary(response: Outcome<string>, persisted: bool)
      requires Valid()
      modifies this, store
      ensures Valid()
      ensures old(extractedText) == "" ==> summary == old(summary) && error == old(error) && store.sessions == old(store.sessions)
      ensures old(extractedText) != "" && response.Fail? ==>
                summary == old(summary) && error == Some(GeneratingSummary) && store.sessions == old(store.sessions)
      ensures old(extractedText) != "" && response.Ok? ==> summary == response.value
      ensures old(extractedText) != "" && response.Ok? ==>
                store.sessions == if old(currentSession).Some? && persisted
                                  then UpdateSession(old(store.sessions), old(currentSession).value.id, SetSummary(response.value))
                                  else old(store.sessions)
      ensures old(extractedText) != "" && response.Ok? ==>
                error == if old(currentSession).Some? && !persisted then Some(GeneratingSummary) else old(error)
      ensures store.messages == old(store.messages) && store.quizzes == old(store.quizzes)
      ensures currentSession == old(currentSession) && extractedText == old(extractedText)
      ensures voiceSummaryUrl == old(voiceSummaryUrl) && messages == old(messages)
    {
      if extractedText == "" {
        return;
      }
      isGeneratingSummary := true;
      if response.Fail? {
        error := Some(GeneratingSummary);
      } else {
        summary := response.value;
        if currentSession.Some? {
          if persisted {
            store.Update(currentSession.value.id, SetSummary(response.value));
          } else {
            error := Some(GeneratingSummary);
          }
        }
      }
      isGeneratingSummary := false;
    }

    /**
     * `generateVoiceSummary`: nothing without a summary; otherwise, once the model has
     * answered, the mock audio URL is shown and stored. A failed call leaves the URL as it was.
     */
    method GenerateVoiceSummary(answered: bool, persisted: bool)
      requires Valid()
      modifies this, store
      ensures Valid()
      ensures old(summary) == "" ==> voiceSummaryUrl == old(voiceSummaryUrl) && error == old(error) && store.sessions == old(store.sessions)
      ensures old(summary) != "" && !answered ==>
                voiceSummaryUrl == old(voiceSummaryUrl) && error == Some(GeneratingVoice) && store.sessions == old(store.sessions)
      ensures old(summary) != "" && answered ==> voiceSummaryUrl == MockAudioUrl
      ensures old(summary) != "" && answered ==>
                store.sessions == if old(currentSession).Some? && persisted
                                  then UpdateSession(old(store.sessions), old(currentSession).value.id, SetVoiceUrl(MockAudioUrl))
                                  else old(store.sessions)
      ensures old(summary) != "" && answered ==>
                error == if old(currentSession).Some? && !persisted then Some(GeneratingVoice) else old(error)
      ensures store.messages == old(store.messages) && store.quizzes == old(store.quizzes)
      ensures currentSession == old(currentSession) && extractedText == old(extractedText)
      ensures summary == old(summary) && messages == old(messages)
    {
      if summary == "" {
        return;
      }
      isGeneratingVoice := true;
      if !answered {
        error := Some(GeneratingVoice);
      } else {
        voiceSummaryUrl := MockAudioUrl;
        if currentSession.Some? {
          if persisted {
            store.Update(currentSession.value.id, SetVoiceUrl(MockAudioUrl));
          } else {
            error := Some(GeneratingVoice);
          }
        }
      }
      isGeneratingVoice := false;
    }

    /**
     * `handleSendMessage(message, isRegeneration)`: nothing without text and a session.
     * A normal send stores and shows the question, then the answer; a regeneration
     * stores the answer and puts it in place of the last shown answer.
     */
    method HandleSendMessage(message: string, isRegeneration: bool, userCreated: bool,
                             response: Outcome<Reply>, aiCreated: bool)
      requires Valid()
      modifies this, store
      ensures Valid()
      ensures !old(ShowsChat()) ==>
                messages == old(messages) && store.messages == old(store.messages) && error == old(error)
      ensures old(ShowsChat()) ==>
                var sid := old(currentSession).value.id;
                var n := old(|store.messages|);
                var question := UserMessage(n, sid, message);
                var asked := isRegeneration || userCreated;
                var stored := if isRegeneration || !userCreated then old(store.messages) else old(store.messages) + [question];
                var shown := if isRegeneration || !userCreated then old(messages) else old(messages) + [question];
                var answered := asked && response.Ok? && aiCreated;
                var reply := AssistantMessage(|stored|, sid, response);
                && store.messages == (if answered then stored + [reply] else stored)
                && messages == (if answered then WithReply(shown, reply, isRegeneration) else shown)
                && error == (if answered then old(error) else Some(SendingMessage))
      ensures store.sessions == old(store.sessions) && store.quizzes == old(store.quizzes)
      ensures currentSession == old(currentSession) && extractedText == old(extractedText)
      ensures summary == old(summary) && voiceSummaryUrl == old(voiceSummaryUrl)
    {
      if extractedText == "" || currentSession.None? {
        return;
      }
      var sid := currentSession.value.id;
      isChatLoading := true;
      var failed := false;
      if !isRegeneration {
        if userCreated {
          var userMessage := store.CreateMessage(sid, message, User, "", false);
          messages := messages + [userMessage];
        } else {
          failed := true;
        }
      }
      if !failed && response.Ok? && aiCreated {
        var aiMessage := store.CreateMessage(sid, response.value.answer, Assistant, response.value.contextUsed, false);
        messages := WithReply(messages, aiMessage, isRegeneration);
      } else {
        error := Some(SendingMessage);
      }
      isChatLoading := false;
    }

    /** The effect on a change of session: show the session's stored messages in creation order. */
    method ReloadMessages(loaded: bool)
      requires Valid()
      modifies this
      ensures Valid()
      ensures messages == if old(currentSession).Some? && loaded then MessagesOf(store.messages, old(currentSession).value.id)
                          else old(messages)
      ensures currentSession == old(currentSession) && extractedText == old(extractedText)
      ensures summary == old(summary) && voiceSummaryUrl == old(voiceSummaryUrl) && error == old(error)
    {
      if currentSession.Some? && loaded {
        MessagesOfSession(store.messages, currentSession.value.id);
        messages := MessagesOf(store.messages, currentSession.value.id);
      }
    }
  }
}
