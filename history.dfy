/**
 * The history page (history.jsx): every stored session, newest first, narrowed by
 * a search term; selecting one shows its messages, and the chat continues it.
 * Failures here are only logged.
 */
module History {
  import opened Wrappers
  import opened Seqs
  import opened Entities
  import opened Persistence
  import opened SessionSearch
  import opened Conversation

  class History {
    const store: Store
    var sessions: seq<Session>
    var selectedSession: Option<Session>
    var messages: seq<ChatMessage>
    var searchTerm: string
    var isChatLoading: bool

    /** Between handlers the store is well numbered and the chat is idle. */
    ghost predicate Valid()
      reads this, store
    {
      store.Valid() && !isChatLoading
    }

    constructor (store: Store)
      requires store.Valid()
      ensures Valid()
      ensures this.store == store
      ensures sessions == [] && selectedSession == None && messages == [] && searchTerm == ""
    {
      this.store := store;
      sessions, selectedSession, messages, searchTerm := [], None, [], "";
      isChatLoading := false;
    }

    /** `filteredSessions`: the listed sessions that match the search term, in list order. */
    function FilteredSessions(): (r: seq<Session>)
      reads this
      ensures forall i :: 0 <= i < |r| ==> r[i] in sessions && Matches(searchTerm, r[i])
      ensures forall j :: 0 <= j < |sessions| && Matches(searchTerm, sessions[j]) ==> sessions[j] in r
      ensures Subsequence(r, sessions)
    {
      FilterSessionsKeepsMatches(sessions, searchTerm);
      FilterSessions(sessions, searchTerm)
    }

    /** `loadSessions`: `NoteSession.list('-created_date')`; a failure leaves the list as it was. */
    method LoadSessions(ok: bool)
      requires Valid()
      modifies this
      ensures Valid()
      ensures sessions == if ok then SessionsNewestFirst(store.sessions) else old(sessions)
      ensures selectedSession == old(selectedSession) && messages == old(messages) && searchTerm == old(searchTerm)
    {
      if ok {
        sessions := SessionsNewestFirst(store.sessions);
      }
    }

    /** The search box. */
    method SetSearchTerm(term: string)
      requires Valid()
      modifies this
      ensures Valid()
      ensures searchTerm == term
      ensures sessions == old(sessions) && selectedSession == old(selectedSession) && messages == old(messages)
    {
      searchTerm := term;
    }

    /**
     * `handleSelectSession(session)`: select it, then show its stored messages in
     * creation order once `ChatMessage.filter` answers.
     */
    method HandleSelectSession(session: Session, loaded: bool)
      requires Valid()
      modifies this
      ensures Valid()
      ensures selectedSession == Some(session)
      ensures messages == if loaded then MessagesOf(store.messages, session.id) else old(messages)
      ensures sessions == old(sessions) && searchTerm == old(searchTerm)
    {
      selectedSession := Some(session);
      if loaded {
        messages := MessagesOf(store.messages, session.id);
      }
    }

    /** Back to Sessions: the list is shown again; the messages are kept until the next selection. */
    method BackToSessions()
      requires Valid()
      modifies this
      ensures Valid()
      ensures selectedSession == None
      ensures sessions == old(sessions) && messages == old(messages) && searchTerm == old(searchTerm)
    {
      selectedSession := None;
    }

    /**
     * `handleSendMessage(message, isRegeneration)`: nothing unless a session with text is
     * selected. As on the dashboard, a normal send shows the question and then the answer,
     * and a regeneration puts the answer in place of the last shown answer; a failed call
     * stops the handler with nothing shown beyond what was already shown.
     */
    method HandleSendMessage(message: string, isRegeneration: bool, userCreated: bool,
                             response: Outcome<Reply>, aiCreated: bool)
      requires Valid()
      modifies this, store
      ensures Valid()
      ensures old(selectedSession).None? || old(selectedSession).value.extractedText == "" ==>
                messages == old(messages) && store.messages == old(store.messages)
      ensures old(selectedSession).Some? && old(selectedSession).value.extractedText != "" ==>
                var sid := old(selectedSession).value.id;
                var question := UserMessage(old(|store.messages|), sid, message);
                var asked := isRegeneration || userCreated;
                var stored := if isRegeneration || !userCreated then old(store.messages) else old(store.messages) + [question];
                var shown := if isRegeneration || !userCreated then old(messages) else old(messages) + [question];
                var answered := asked && response.Ok? && aiCreated;
                var reply := AssistantMessage(|stored|, sid, response);
                && store.messages == (if answered then stored + [reply] else stored)
                && messages == (if answered then WithReply(shown, reply, isRegeneration) else shown)
      ensures store.sessions == old(store.sessions) && store.quizzes == old(store.quizzes)
      ensures sessions == old(sessions) && selectedSession == old(selectedSession) && searchTerm == old(searchTerm)
    {
      if selectedSession.None? || selectedSession.value.extractedText == "" {
        return;
      }
      var sid := selectedSession.value.id;
      isChatLoading := true;
      var failed := false;
      if !isRegeneration {
        if userCreated {
          var userMessage := store.CreateMessage(sid, message, User, "", false);
          messages := messages + [userMessage];
        } else {
          failed := true;
        }
      }
      if !failed && response.Ok? && aiCreated {
        var aiMessage := store.CreateMessage(sid, response.value.answer, Assistant, response.value.contextUsed, false);
        messages := WithReply(messages, aiMessage, isRegeneration);
      }
      isChatLoading := false;
    }
  }
}
