# NotesAI front end, modelled in Dafny

NotesAI lets a student upload a photo or PDF of handwritten notes. The page creates a
`processing` session record, uploads the file, has the text recognised and marks the
session `ready`. The student can then edit the text, ask for a summary and a (mock)
voice summary, chat with a language model about the notes, browse earlier sessions,
and generate and take a multiple-choice quiz.

This project models the React pages and components that do this:

- the dashboard (`Pages/dashboard.jsx`);
- the history page (`Pages/history.jsx`);
- the quiz page (`Pages/quiz.jsx`);
- the quiz component (`QuizDisplay.jsx`);
- the chat component (`ChatInterface.jsx`);
- the text panel (`ExtractedTextDisplay.jsx`);
- the upload zone (`FileUploadZone.jsx`).

Each component is a `class` that holds its `useState` fields. Each event handler is a
`method` that runs to completion in one step.

The handlers call out to the persistence gateway (`NoteSession`, `ChatMessage`, `Quiz`),
the file upload, text extraction and the language model. Each such call's outcome is a
parameter of the handler: a `bool` for "the call succeeded", or an `Outcome<T>` carrying
its answer. The gateway itself is the class `Persistence.Store`. It holds three
sequences in creation order, and a record's id is its position. The queries the pages
issue are functions over those sequences: a filter by session, a listing newest first,
and the latest quiz of a session.

Modules:

| module | file | models |
|---|---|---|
| `Wrappers` | wrappers.dfy | `Option`, `Outcome` |
| `Seqs` | seqs.dfy | `find`, `lastIndexOf`, `filter`, `reverse` on sequences |
| `Text` | text.dfy | `trim`, `includes`, `startsWith`, ASCII `toLowerCase`, `replace(/\s+/g, '-')` |
| `Entities` | entities.dfy | the records and the partial updates written to a session |
| `Persistence` | store.dfy | the gateway and its queries |
| `SessionSearch` | session_search.dfy | the search filter shared by the history and quiz pages |
| `Conversation` | conversation.dfy | the message list after a send or a regeneration, shared by dashboard and history |
| `QuizDisplay` | quiz_display.dfy | the quiz component |
| `Dashboard` | dashboard.dfy | the dashboard |
| `History` | history.dfy | the history page |
| `QuizPage` | quiz_page.dfy | the quiz page |
| `ChatInterface` | chat_interface.dfy | the chat component |
| `ExtractedTextDisplay` | extracted_text_display.dfy | the text panel |
| `FileUploadZone` | file_upload_zone.dfy | the upload zone |

Behaviour the code has, modelled as written:

- **The upload's error write never happens.** `handleFileUpload` tests `currentSession`
  in its `catch` block. That is the value the handler closed over when it was rendered,
  not the session it has just created. The page renders the upload zone only while there
  is no current session (`Pages/dashboard.jsx:246-253`), so that value is always null.
  A failed upload therefore marks no session as `error`, and the record it created stays
  `processing` (`Dashboard.UploadFromZoneMarksNoError`). The model keeps the test as
  written (`Dashboard.FailedUploadLeavesNewSessionProcessing`).
- **The file URL is written only with the text.** It is stored only when extraction
  succeeds, in the same update that marks the session ready.
- **"Ready implies text" is not an invariant.** The upload marks a session ready only
  together with non-empty text (`Entities.MarkReadyKeepsInvariant`). The dashboard's text
  edit writes `extracted_text` without a check, so saving an empty text later leaves a
  ready session without text (`Entities.TextEditCanBreakInvariant`).
- **A question without a correct answer.** The quiz component compares with `===`, so a
  question whose `correct_answer` is missing counts as correct while it is unanswered.
  Submit is enabled only once every question is answered, so such a question is always
  scored wrong (`QuizDisplay.KeylessQuestionWrongOnSubmit`).
- **A failed summary write still shows the summary.** When storing the summary fails,
  the summary has already been set, and the page also shows an error. The voice summary
  behaves the same way.
- **The history page's chat failures are only logged.** The history page has no error
  field.

## Model

| member | source | states |
|---|---|---|
| Entities.Apply | Front-end_Logic/Pages/dashboard.jsx:66-70 | an update writes exactly the fields it names; id, title and file name never change |
| Entities.MarkReadyKeepsInvariant | Front-end_Logic/Pages/dashboard.jsx:61-70 | marking a session ready with non-empty recognised text gives a ready session that holds text |
| Entities.TextEditCanBreakInvariant | Front-end_Logic/Pages/dashboard.jsx:86-90 | writing an empty text to a ready session leaves it ready without text |
| Persistence.UpdateSession | Front-end_Logic/Pages/dashboard.jsx:66-70 | `NoteSession.update` rewrites only the record with that id, keeps the length and the numbering, and an unknown id changes nothing |
| Persistence.MessagesOfSession | Front-end_Logic/Pages/dashboard.jsx:224-227 | the session's message query returns exactly the stored messages of that session, in creation order |
| Persistence.LatestQuizIsNewest | Front-end_Logic/Pages/quiz.jsx:40-45 | the newest-first, limit-one quiz query gives the session's last stored quiz; it gives none exactly when the session has no quiz |
| Persistence.ReadySessionsListed | Front-end_Logic/Pages/quiz.jsx:29 | the quiz page lists exactly the ready sessions, newest first (strictly decreasing ids) |
| Persistence.SessionsListedNewestFirst | Front-end_Logic/Pages/history.jsx:33 | the history page lists every session, newest first |
| Persistence.Store.constructor | Front-end_Logic/Pages/dashboard.jsx:36-40 | the gateway starts empty and well numbered |
| Persistence.Store.CreateSession | Front-end_Logic/Pages/dashboard.jsx:36-40 | a new `processing` record with the next id, no URL and no text is appended; nothing else changes |
| Persistence.Store.Update | Front-end_Logic/Pages/dashboard.jsx:66-70 | the sessions become `UpdateSession` of the old ones; messages and quizzes are kept |
| Persistence.Store.CreateMessage | Front-end_Logic/Pages/dashboard.jsx:157-162 | the message is appended with the next id; nothing else changes |
| Persistence.Store.CreateQuiz | Front-end_Logic/Pages/quiz.jsx:89-94 | the quiz is appended with the next id; nothing else changes |
| Text.TrimEmptyIffBlank | Front-end_Logic/components/chat/ChatInterface.jsx:54 | `trim()` is empty exactly when the input is all white space |
| Text.TrimIsInnerSlice | Front-end_Logic/components/chat/ChatInterface.jsx:55 | the trimmed text is a contiguous slice of the input with only white space cut off either side, and it starts and ends with non-white space |
| Text.TrimIdempotent | Front-end_Logic/components/chat/ChatInterface.jsx:55 | trimming twice is trimming once |
| Text.LowerIdempotent | Front-end_Logic/Pages/history.jsx:121-124 | lower-casing twice is lower-casing once |
| Text.IncludesEmpty | Front-end_Logic/Pages/history.jsx:121-124 | every text includes the empty string |
| Text.IncludesLower | Front-end_Logic/Pages/history.jsx:121-124 | an exact occurrence is still an occurrence after both sides are lower-cased |
| Text.ReplaceRunsAppend | Front-end_Logic/components/quiz/QuizDisplay.jsx:66 | replacing white-space runs in a concatenation is the replacement of each part, the second continuing the first's run |
| Text.ReplaceRunsChars | Front-end_Logic/components/quiz/QuizDisplay.jsx:66 | the replacement leaves no white space, and every character it yields is a '-' or a character of the input |
| Text.ReplaceRunsBlank | Front-end_Logic/components/quiz/QuizDisplay.jsx:66 | a whole run of white space becomes a single '-' |
| Text.ReplaceRunsNoWhitespace | Front-end_Logic/components/quiz/QuizDisplay.jsx:66 | text without white space is left unchanged |
| Text.ReplaceRunsSplit | Front-end_Logic/components/quiz/QuizDisplay.jsx:66 | a maximal run of white space between two parts becomes exactly one '-' |
| Seqs.FindFirstOfReverse | Front-end_Logic/components/chat/ChatInterface.jsx:80-83 | finding the first match in the reversed list gives the last match of the list, or none when nothing matches |
| SessionSearch.FilterSessionsKeepsMatches | Front-end_Logic/Pages/history.jsx:121-124 | a session is listed exactly when its lower-cased title or file name includes the lower-cased term, and the listing keeps the original order |
| SessionSearch.EmptyTermKeepsAll | Front-end_Logic/Pages/history.jsx:121-124 | an empty search term lists every session |
| SessionSearch.ExactOccurrenceMatches | Front-end_Logic/Pages/quiz.jsx:104-107 | a title or file name that contains the term exactly is found |
| SessionSearch.SearchIgnoresTermCase | Front-end_Logic/Pages/quiz.jsx:104-107 | lower-casing the term first lists the same sessions |
| Conversation.ReplaceLastAssistant | Front-end_Logic/Pages/dashboard.jsx:200-209 | a regeneration overwrites the last assistant message and nothing else, and leaves a list without assistant messages as it is |
| Conversation.RegenerationKeepsUserMessages | Front-end_Logic/Pages/dashboard.jsx:200-209 | a regeneration changes neither the number of user messages nor the number of assistant messages |
| Conversation.SendAppendsUserThenAssistant | Front-end_Logic/Pages/dashboard.jsx:156-212 | a normal send keeps the earlier messages and appends the question and then the answer |
| Conversation.RegenerateExample | Front-end_Logic/Pages/history.jsx:102-110 | regenerating on [Q1, A1] gives [Q1, A2] |
| QuizDisplay.CorrectUpTo | Front-end_Logic/components/quiz/QuizDisplay.jsx:31-36 | the count over the first k questions is at most k |
| QuizDisplay.CorrectUpToExtremes | Front-end_Logic/components/quiz/QuizDisplay.jsx:31-36 | the count over the first k questions equals k exactly when all of them are correct, and is 0 exactly when none is |
| QuizDisplay.Score | Front-end_Logic/components/quiz/QuizDisplay.jsx:30-37 | the score never exceeds the number of questions |
| QuizDisplay.CorrectUpToCountsIndices | Front-end_Logic/components/quiz/QuizDisplay.jsx:31-36 | the running count is the size of the set of correctly answered indices |
| QuizDisplay.ScoreCountsCorrectQuestions | Front-end_Logic/components/quiz/QuizDisplay.jsx:30-37 | the score is the number of correctly answered questions, and it is full exactly when every answer is correct |
| QuizDisplay.ScoreIgnoresOtherKeys | Front-end_Logic/components/quiz/QuizDisplay.jsx:32-33 | answers stored under keys that are not question indices do not change the score |
| QuizDisplay.SelectChangesScoreByOne | Front-end_Logic/components/quiz/QuizDisplay.jsx:21-28 | changing one answer moves the score by at most one, and not at all for a question outside the range counted |
| QuizDisplay.SelectLaterKeepsCount | Front-end_Logic/components/quiz/QuizDisplay.jsx:21-36 | an answer to a question at or after k leaves the count over the first k questions as it was |
| QuizDisplay.RowsAgreeWithScoreUpTo | Front-end_Logic/components/quiz/QuizDisplay.jsx:54 | among the first k rows, the number marked correct is the running score |
| QuizDisplay.RowsAgreeWithScore | Front-end_Logic/components/quiz/QuizDisplay.jsx:50-56 | the number of rows marked correct equals the score `submitQuiz` computes |
| QuizDisplay.CorrectRowShowsAnswer | Front-end_Logic/components/quiz/QuizDisplay.jsx:52-54 | a correctly answered question's row shows the correct answer as the given answer, and is marked correct |
| QuizDisplay.UnansweredRow | Front-end_Logic/components/quiz/QuizDisplay.jsx:52-54 | an unanswered question's row reads "Not answered", and it is marked correct exactly when the question has no correct answer (`undefined === undefined`) |
| QuizDisplay.TitleSlug | Front-end_Logic/components/quiz/QuizDisplay.jsx:66 | the title part of the file name has no white space and no capitals, and is no longer than the title |
| QuizDisplay.ExportFilename | Front-end_Logic/components/quiz/QuizDisplay.jsx:66 | the file name starts with `quiz-results-`, ends in `.txt` and holds no white space |
| QuizDisplay.PlainTitleKept | Front-end_Logic/components/quiz/QuizDisplay.jsx:66 | a title with no white space and no capitals appears in the file name unchanged |
| QuizDisplay.TwoWordTitle | Front-end_Logic/components/quiz/QuizDisplay.jsx:66 | two words separated by any run of white space become the lower-cased words joined by one '-' |
| QuizDisplay.SubmitEnabledIffAllAnswered | Front-end_Logic/components/quiz/QuizDisplay.jsx:261 | with answers stored only under question indices, Submit is enabled exactly when every question is answered |
| QuizDisplay.KeylessQuestionWrongOnSubmit | Front-end_Logic/components/quiz/QuizDisplay.jsx:30-36 | once Submit is enabled, a question without a correct answer is scored wrong, so a full score needs every question to have one |
| QuizDisplay.PartialAnswersDisableSubmit | Front-end_Logic/components/quiz/QuizDisplay.jsx:261 | with one of two questions answered, Submit is disabled |
| QuizDisplay.ScoreExample | Front-end_Logic/components/quiz/QuizDisplay.jsx:30-37 | one right and one wrong answer score 1 |
| QuizDisplay.QuizView.constructor | Front-end_Logic/components/quiz/QuizDisplay.jsx:16-19 | the component starts on the first question, with no answers, no results and score 0 |
| QuizDisplay.QuizView.SelectAnswer | Front-end_Logic/components/quiz/QuizDisplay.jsx:21-28 | once the results are shown the answers are frozen; otherwise only the given question's answer changes |
| QuizDisplay.QuizView.Submit | Front-end_Logic/components/quiz/QuizDisplay.jsx:30-39 | the loop's count is the score of the chosen answers, the results are shown, and the answers and cursor are kept |
| QuizDisplay.QuizView.Restart | Front-end_Logic/components/quiz/QuizDisplay.jsx:41-47 | everything goes back to the initial state, and `onRestart` is called exactly when it was given |
| QuizDisplay.QuizView.Previous | Front-end_Logic/components/quiz/QuizDisplay.jsx:252 | the cursor moves back one and stops at the first question |
| QuizDisplay.QuizView.Next | Front-end_Logic/components/quiz/QuizDisplay.jsx:258-268 | the cursor moves on one and stops at the last question; wherever the Next button is shown instead of Submit, it moves on one |
| QuizDisplay.QuizView.Results | Front-end_Logic/components/quiz/QuizDisplay.jsx:50-58 | the downloaded results have one row per question; the number marked correct is the score of the chosen answers, and while the results are shown it is the `score` the header prints |
| Dashboard.TitleFromFilename | Front-end_Logic/Pages/dashboard.jsx:37 | the title is a prefix of the file name; when it is shorter, the name continues with a '.' and at least one more character |
| Dashboard.ExtensionStartFindsDot | Front-end_Logic/Pages/dashboard.jsx:37 | the backward scan stops at the one '.' that has only characters other than '.' and '/' after it, or finds none |
| Dashboard.TitleDropsExtension | Front-end_Logic/Pages/dashboard.jsx:37 | the title is the file name cut where `\.[^/.]+$` matches, or the whole name when it matches nowhere |
| Dashboard.ExtensionUnique | Front-end_Logic/Pages/dashboard.jsx:37 | the pattern matches at one position at most |
| Dashboard.TitleExamples | Front-end_Logic/Pages/dashboard.jsx:37 | `lecture1.pdf` gives `lecture1`, `a.b.c` gives `a.b`, and `noext` and `dir.v2/file` are kept |
| Dashboard.UploadDoneStoresReadySession | Front-end_Logic/Pages/dashboard.jsx:36-72 | a completed upload adds one ready session holding the file's URL and the recognised text, and changes nothing else |
| Dashboard.FailedUploadLeavesNewSessionProcessing | Front-end_Logic/Pages/dashboard.jsx:76-80 | after a failed upload the new record stays `processing`; only the session captured before the upload may be marked `error` |
| Dashboard.UploadFromZoneMarksNoError | Front-end_Logic/Pages/dashboard.jsx:76-80 | with no session captured, as whenever the upload zone is shown, a failed upload keeps every earlier session, and the record it may have created stays `processing` |
| Dashboard.FailedUploadStoresNoText | Front-end_Logic/Pages/dashboard.jsx:61-80 | a failed upload writes no text and no URL to any session |
| Dashboard.Dashboard.constructor | Front-end_Logic/Pages/dashboard.jsx:14-23 | the page starts with no session, no text, no summary, no messages and no error |
| Dashboard.Dashboard.HandleFileUpload | Front-end_Logic/Pages/dashboard.jsx:25-84 | the stored sessions, the current session, the shown text and the error are those of the upload pipeline for the given outcomes, including the `catch` block's test of the captured session; messages and summaries are cleared |
| Dashboard.Dashboard.TryUpload | Front-end_Logic/Pages/dashboard.jsx:34-75 | the try block stops at the first failing step and returns that stage; it creates the session and marks it ready only when every step succeeds; the shown text is set once extraction succeeds |
| Dashboard.Dashboard.HandleTextUpdate | Front-end_Logic/Pages/dashboard.jsx:86-91 | the shown text always changes; it is stored only for a current session |
| Dashboard.Dashboard.GenerateSummary | Front-end_Logic/Pages/dashboard.jsx:93-122 | nothing happens without text; a failed model call sets the error; otherwise the summary is shown, then stored for a current session, and a failed write sets the error as well |
| Dashboard.Dashboard.GenerateVoiceSummary | Front-end_Logic/Pages/dashboard.jsx:124-147 | nothing happens without a summary; once the model answers, the mock audio URL is shown and stored; failures set the error |
| Dashboard.Dashboard.HandleSendMessage | Front-end_Logic/Pages/dashboard.jsx:149-218 | without text or a session, that is whenever the chat panel is hidden, nothing happens; a normal send stores and shows the question, then the answer; a regeneration replaces the last shown answer; a failure at any step keeps what was shown so far and sets the error |
| Dashboard.Dashboard.ReloadMessages | Front-end_Logic/Pages/dashboard.jsx:221-232 | for a current session, the shown messages become that session's stored messages in creation order |
| History.History.constructor | Front-end_Logic/Pages/history.jsx:21-25 | the page starts with no sessions, no selection, no messages and an empty search |
| History.History.FilteredSessions | Front-end_Logic/Pages/history.jsx:121-124 | the shown list is exactly the loaded sessions that match the search term, in list order |
| History.History.LoadSessions | Front-end_Logic/Pages/history.jsx:31-38 | on success the list is every stored session, newest first; a failure keeps the list |
| History.History.SetSearchTerm | Front-end_Logic/Pages/history.jsx:164 | only the search term changes |
| History.History.HandleSelectSession | Front-end_Logic/Pages/history.jsx:40-49 | the session is selected, and its stored messages are shown in creation order once they load |
| History.History.BackToSessions | Front-end_Logic/Pages/history.jsx:138 | the selection is cleared; the list, the search and the messages are kept |
| History.History.HandleSendMessage | Front-end_Logic/Pages/history.jsx:51-119 | without a selected session with text nothing happens; otherwise the same send and regeneration as the dashboard, and a failure leaves what was shown so far |
| QuizPage.CreatedQuizIsLatest | Front-end_Logic/Pages/quiz.jsx:89-96 | a quiz just stored is its session's latest quiz, and no other session's latest quiz changes |
| QuizPage.QuizPage.constructor | Front-end_Logic/Pages/quiz.jsx:16-21 | the page starts with no sessions, no selection, no quiz and no error |
| QuizPage.QuizPage.FilteredSessions | Front-end_Logic/Pages/quiz.jsx:104-107 | the shown list is exactly the loaded sessions that match the search term, in list order |
| QuizPage.QuizPage.LoadSessions | Front-end_Logic/Pages/quiz.jsx:27-34 | on success the list is the ready sessions, newest first; a failure sets the error |
| QuizPage.QuizPage.SetSearchTerm | Front-end_Logic/Pages/quiz.jsx:174 | only the search term changes |
| QuizPage.QuizPage.HandleSelectSession | Front-end_Logic/Pages/quiz.jsx:36-46 | the session is selected and the error is cleared; once the query answers, the shown quiz is the session's latest quiz, or none, and the Generate Quiz Now button shows exactly when the session has no stored quiz |
| QuizPage.QuizPage.GenerateQuiz | Front-end_Logic/Pages/quiz.jsx:48-102 | without a selected session with text nothing happens; on success a `medium` quiz is stored and shown in place of the Generate Quiz Now button, and it is the session's latest quiz; a failure sets the error and keeps the shown quiz |
| QuizPage.QuizPage.ChangeSession | Front-end_Logic/Pages/quiz.jsx:123-126 | the selection and the shown quiz are cleared, and with them the Generate Quiz Now button |
| ChatInterface.RegenerateResendsLastQuestion | Front-end_Logic/components/chat/ChatInterface.jsx:79-88 | Regenerate resends the text of the last user message, flagged as a regeneration; it sends nothing exactly when there is no user message |
| ChatInterface.RegenerationKeepsItsQuestion | Front-end_Logic/components/chat/ChatInterface.jsx:80-86 | after a regeneration's answer replaces the last answer, Regenerate would resend the same question |
| ChatInterface.SentTextIsTrimmed | Front-end_Logic/components/chat/ChatInterface.jsx:54-55 | a sent text begins and ends with a character other than white space |
| ChatInterface.ChatInput.constructor | Front-end_Logic/components/chat/ChatInterface.jsx:20-21 | the input starts empty and not listening |
| ChatInterface.ChatInput.Edit | Front-end_Logic/components/chat/ChatInterface.jsx:170 | only the input text changes |
| ChatInterface.ChatInput.HandleSendMessage | Front-end_Logic/components/chat/ChatInterface.jsx:53-58 | when the trimmed input is not empty and no answer is pending, the trimmed text is sent as a normal message and the box is cleared; otherwise nothing is sent and nothing changes |
| ChatInterface.ChatInput.HandleKeyPress | Front-end_Logic/components/chat/ChatInterface.jsx:60-65 | Enter without Shift sends as the send button does; any other key sends nothing and changes nothing |
| ChatInterface.ChatInput.ToggleListening | Front-end_Logic/components/chat/ChatInterface.jsx:67-77 | listening stops when on, and starts when off only if speech recognition is available |
| ChatInterface.ChatInput.HandleTranscript | Front-end_Logic/components/chat/ChatInterface.jsx:37-41 | the transcript replaces the input and listening stops |
| ChatInterface.ChatInput.HandleRecognitionEnd | Front-end_Logic/components/chat/ChatInterface.jsx:43-49 | listening stops and the input is kept |
| ExtractedTextDisplay.SummaryCardOrButton | Front-end_Logic/components/upload/ExtractedTextDisplay.jsx:131-195 | the summary card and the Generate Summary button are never both shown, and with text exactly one of them is |
| ExtractedTextDisplay.VoiceButtonInsideCard | Front-end_Logic/components/upload/ExtractedTextDisplay.jsx:131-139 | the Generate Voice button appears only inside the summary card, and only when there is a summary |
| ExtractedTextDisplay.TextEditor.constructor | Front-end_Logic/components/upload/ExtractedTextDisplay.jsx:29-30 | the panel starts out of edit mode with the text in the buffer |
| ExtractedTextDisplay.TextEditor.Edit | Front-end_Logic/components/upload/ExtractedTextDisplay.jsx:106 | only the buffer changes |
| ExtractedTextDisplay.TextEditor.HandleSave | Front-end_Logic/components/upload/ExtractedTextDisplay.jsx:34-37 | the buffer is handed to `onTextUpdate` and edit mode ends |
| ExtractedTextDisplay.TextEditor.HandleCancel | Front-end_Logic/components/upload/ExtractedTextDisplay.jsx:39-42 | the buffer goes back to the shown text and edit mode ends, without an update |
| ExtractedTextDisplay.TextEditor.Toggle | Front-end_Logic/components/upload/ExtractedTextDisplay.jsx:94 | while editing it cancels; otherwise it enters edit mode and keeps the buffer |
| FileUploadZone.DroppedFileChoice | Front-end_Logic/components/upload/FileUploadZone.jsx:25-28 | the chosen file is the first PDF or image of the drop; there is none exactly when no dropped file is accepted |
| FileUploadZone.PickerAndDrop | Front-end_Logic/components/upload/FileUploadZone.jsx:25-40 | the picker passes a file exactly when one was picked, so whenever a drop of the same files would; the two pass the same file exactly when the first file is accepted |
| FileUploadZone.AcceptedTypes | Front-end_Logic/components/upload/FileUploadZone.jsx:26-28 | PDF and every `image/` type are accepted; `image`, `application/pdfx` and `text/plain` are not |
| FileUploadZone.DropExamples | Front-end_Logic/components/upload/FileUploadZone.jsx:26-38 | a plain-text drop selects nothing, while the picker passes a plain-text file on; a PDF is found before or after a refused file |
| FileUploadZone.UploadZone.constructor | Front-end_Logic/components/upload/FileUploadZone.jsx:8 | the zone starts without the drag highlight |
| FileUploadZone.UploadZone.HandleDrag | Front-end_Logic/components/upload/FileUploadZone.jsx:10-18 | enter and over set the highlight, leave clears it, and any other event keeps it |
| FileUploadZone.UploadZone.HandleDrop | Front-end_Logic/components/upload/FileUploadZone.jsx:20-33 | the highlight is cleared and the chosen file is the drop's first accepted file |

## Left out

- Asynchrony: each handler runs to completion before the next one starts. Interleaved
  handlers, React's batching of `setState` calls, and the loading flags seen while a call
  is pending are not modelled. The `isProcessing`-style flags are only shown to be false
  again between handlers.
- The dashboard's message-loading effect runs whenever the session id changes. Here it is
  the separate step `Dashboard.Dashboard.ReloadMessages`, not something triggered
  automatically after the upload.
- A call into the gateway, the file upload, text extraction or the language model is
  represented only by its outcome. Prompts, JSON schemas and what the model answers are
  not modelled.
- The gateway's error message text (`err.message`) is not modelled: each page's error is
  the kind in `Entities.Fault`.
- Status strings and message types are enumerations. A session's or a message's text
  fields that may be `undefined` are `""`, since every test the pages make on them treats
  the two alike. A question's `correct_answer` is an `Option`, because the quiz component
  compares it with `===`. The question's text and explanation are only shown, and are
  strings.
- The quiz percentage (`Math.round(score/length*100)`) is floating point and is not
  modelled. Neither is the rest of the downloaded text beyond its rows, nor the Blob,
  link and download.
- `MockAudioUrl` is the evaluated `btoa('mock-audio-data')`, written out as a constant;
  base64 is not modelled.
- Browser services are not modelled: the clipboard copy, audio playback, scrolling and
  the speech recogniser's internals. Speech recognition appears only as "available" and
  as its result, error and end callbacks.
- `toLowerCase` is modelled for ASCII letters only. Unicode case mapping is not modelled.
- `ChatInterface`: when the Regenerate button is shown (there are messages and no answer
  is pending) is not modelled; what a press sends is `ChatInterface.RegenerateRequest`.
- `QuizDisplay.QuizView.SelectAnswer`: requires the question to be the current one and
  the quiz to have questions, which is how the component's only caller uses it.
- `QuizDisplay.QuizView`: the `quiz` the component was mounted with is a constant. A new
  quiz prop, which in React would keep the old state, is not modelled. `onRestart` is
  reported as a boolean, rather than as the quiz page's `generateQuiz` it calls.
- `ExtractedTextDisplay.TextEditor`: the history page passes a text-update callback that
  does nothing. The Generate Summary and Generate Voice buttons it shows there have no
  handler behind them.
- The session list component (`SessionsList`) only renders the list and calls back with
  the chosen session. That callback is the pages' `HandleSelectSession`.
- The Python back end (OCR, text-to-speech, retrieval and chat) is not part of this
  model.
