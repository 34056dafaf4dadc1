/**
 * The quiz page (quiz.jsx): the ready sessions, newest first, narrowed by a search
 * term; selecting one shows its most recent quiz, and a new quiz can be generated
 * from the session's text.
 */
module QuizPage {
  import opened Wrappers
  import opened Seqs
  import opened Entities
  import opened Persistence
  import opened SessionSearch

  /** The fields of the model's answer that become the stored quiz. */
  datatype GeneratedQuiz = GeneratedQuiz(title: string, questions: seq<Question>)

  /** A quiz just stored is the most recent quiz of its session, and no other session's latest quiz changes. */
  lemma CreatedQuizIsLatest(qs: seq<Quiz>, q: Quiz)
    ensures LatestQuiz(qs + [q], q.sessionId) == Some(q)
    ensures forall sid :: sid != q.sessionId ==> LatestQuiz(qs + [q], sid) == LatestQuiz(qs, sid)
  {
    forall sid | sid != q.sessionId ensures LatestQuiz(qs + [q], sid) == LatestQuiz(qs, sid) {
      assert (qs + [q])[..|qs|] == qs;
    }
  }

  class QuizPage {
    const store: Store
    var sessions: seq<Session>
    var selectedSession: Option<Session>
    var currentQuiz: Option<Quiz>
    var isGeneratingQuiz: bool
    var searchTerm: string
    var error: Option<Fault>

    /**
     * Between handlers: the store is well numbered, the shown quiz is a stored quiz and
     * is shown only with a selected session, and no quiz is being generated.
     */
    ghost predicate Valid()
      reads this, store
    {
      && store.Valid()
      && (currentQuiz.Some? ==> currentQuiz.value in store.quizzes)
      && (selectedSession.None? ==> currentQuiz.None?)
      && !isGeneratingQuiz
    }

    constructor (store: Store)
      requires store.Valid()
      ensures Valid()
      ensures this.store == store
      ensures sessions == [] && selectedSession == None && currentQuiz == None && searchTerm == "" && error == None
    {
      this.store := store;
      sessions, selectedSession, currentQuiz := [], None, None;
      isGeneratingQuiz, searchTerm, error := false, "", None;
    }

    /** `filteredSessions`: the listed sessions that match the search term, in list order. */
    function FilteredSessions(): (r: seq<Session>)
      reads this
      ensures forall i :: 0 <= i < |r| ==> r[i] in sessions && Matches(searchTerm, r[i])
      ensures forall j :: 0 <= j < |sessions| && Matches(searchTerm, sessions[j]) ==> sessions[j] in r
      ensures Subsequence(r, sessions)
    {
      FilterSessionsKeepsMatches(sessions, searchTerm);
      FilterSessions(sessions, searchTerm)
    }

    /** `loadSessions`: `NoteSession.filter({ status: 'ready' }, '-created_date')`, or an error. */
    method LoadSessions(ok: bool)
      requires Valid()
      modifies this
      ensures Valid()
      ensures sessions == if ok then ReadySessionsNewestFirst(store.sessions) else old(sessions)
      ensures error == if ok then old(error) else Some(LoadingSessions)
      ensures selectedSession == old(selectedSession) && currentQuiz == old(currentQuiz) && searchTerm == old(searchTerm)
    {
      if ok {
        sessions := ReadySessionsNewestFirst(store.sessions);
      } else {
        error := Some(LoadingSessions);
      }
    }

    /** The search box. */
    method SetSearchTerm(term: string)
      requires Valid()
      modifies this
      ensures Valid()
      ensures searchTerm == term
      ensures sessions == old(sessions) && selectedSession == old(selectedSession)
      ensures currentQuiz == old(currentQuiz) && error == old(error)
    {
      searchTerm := term;
    }

    /**
     * `handleSelectSession(session)`: select it, clear the error, and show its most
     * recent quiz, or none, once `Quiz.filter` answers.
     */
    method HandleSelectSession(session: Session, loaded: bool)
      requires Valid()
      modifies this
      ensures Valid()
      ensures selectedSession == Some(session) && error == None
      ensures currentQuiz == if loaded then LatestQuiz(store.quizzes, session.id) else old(currentQuiz)
      ensures loaded ==> (ShowsGenerateButton() <==> forall j :: 0 <= j < |store.quizzes| ==> store.quizzes[j].sessionId != session.id)
      ensures sessions == old(sessions) && searchTerm == old(searchTerm)
    {
      selectedSession := Some(session);
      error := None;
      if loaded {
        LatestQuizIsNewest(store.quizzes, session.id);
        currentQuiz := LatestQuiz(store.quizzes, session.id);
      }
    }

    /**
     * `generateQuiz`: nothing without a selected session that has text. Otherwise the
     * error is cleared and, when the model answers and the record is stored, the new
     * `medium` quiz of the session is shown; a failure shows an error and keeps the
     * shown quiz.
     */
    method GenerateQuiz(response: Outcome<GeneratedQuiz>, created: bool)
      requires Valid()
      modifies this, store
      ensures Valid()
      ensures old(selectedSession).None? || old(selectedSession).value.extractedText == "" ==>
                currentQuiz == old(currentQuiz) && error == old(error) && store.quizzes == old(store.quizzes)
      ensures old(selectedSession).Some? && old(selectedSession).value.extractedText != "" && response.Ok? && created ==>
                var q := Quiz(old(|store.quizzes|), old(selectedSession).value.id, response.value.title,
                              response.value.questions, Medium);
                && store.quizzes == old(store.quizzes) + [q]
                && currentQuiz == Some(q)
                && currentQuiz == LatestQuiz(store.quizzes, old(selectedSession).value.id)
                && error == None
                && !ShowsGenerateButton()
      ensures old(selectedSession).Some? && old(selectedSession).value.extractedText != "" && !(response.Ok? && created) ==>
                currentQuiz == old(currentQuiz) && error == Some(GeneratingQuiz) && store.quizzes == old(store.quizzes)
      ensures store.sessions == old(store.sessions) && store.messages == old(store.messages)
      ensures sessions == old(sessions) && selectedSession == old(selectedSession) && searchTerm == old(searchTerm)
    {
      if selectedSession.None? || selectedSession.value.extractedText == "" {
        return;
      }
      isGeneratingQuiz := true;
      error := None;
      if response.Ok? && created {
        var quiz := store.CreateQuiz(selectedSession.value.id, response.value.title, response.value.questions, Medium);
        CreatedQuizIsLatest(old(store.quizzes), quiz);
        currentQuiz := Some(quiz);
      } else {
        error := Some(GeneratingQuiz);
      }
      isGeneratingQuiz := false;
    }

    /** Change Session: back to the list, with no session and no quiz. */
    method ChangeSession()
      requires Valid()
      modifies this
      ensures Valid()
      ensures selectedSession == None && currentQuiz == None && !ShowsGenerateButton()
      ensures sessions == old(sessions) && searchTerm == old(searchTerm) && error == old(error)
    {
      selectedSession := None;
      currentQuiz := None;
    }

    /**
     * The Generate Quiz Now button: a session is selected, no quiz is shown and none is
     * being generated. Selecting a session shows it exactly when the session has no
     * stored quiz, and a generated quiz replaces it.
     */
    predicate ShowsGenerateButton()
      reads this
    {
      selectedSession.Some? && currentQuiz.None? && !isGeneratingQuiz
    }
  }
}
