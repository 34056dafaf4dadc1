/**
 * The persistence gateway (`NoteSession`, `ChatMessage`, `Quiz`) as an abstract store:
 * three sequences in creation order, records numbered by their position. Creation
 * appends, `NoteSession.update` rewrites the named fields of one record, and the
 * queries the pages issue (`filter`, `list` with an order key, a limit of one) are
 * functions of those sequences. Whether a call reaches the store is decided by the
 * caller, which receives the call's outcome as a parameter.
 */
module Persistence {
  import opened Wrappers
  import opened Seqs
  import opened Entities

  predicate SessionsIndexed(ss: seq<Session>)
  {
    forall i :: 0 <= i < |ss| ==> ss[i].id == i
  }

  predicate MessagesIndexed(ms: seq<ChatMessage>)
  {
    forall i :: 0 <= i < |ms| ==> ms[i].id == i
  }

  predicate QuizzesIndexed(qs: seq<Quiz>)
  {
    forall i :: 0 <= i < |qs| ==> qs[i].id == i
  }

  /** The sessions after `NoteSession.update(id, c)`; an unknown id changes nothing. */
  function UpdateSession(ss: seq<Session>, id: nat, c: SessionChange): (r: seq<Session>)
    ensures |r| == |ss|
    ensures forall i :: 0 <= i < |ss| && i != id ==> r[i] == ss[i]
    ensures id < |ss| ==> r[id] == Apply(ss[id], c)
    ensures SessionsIndexed(ss) ==> SessionsIndexed(r)
  {
    if id < |ss| then ss[id := Apply(ss[id], c)] else ss
  }

  predicate InSession(sid: nat, m: ChatMessage)
  {
    m.sessionId == sid
  }

  /** `ChatMessage.filter({ session_id }, 'created_date')`. */
  function MessagesOf(ms: seq<ChatMessage>, sid: nat): seq<ChatMessage>
  {
    Filter(ms, m => InSession(sid, m))
  }

  /** `Quiz.filter({ session_id }, '-created_date', 1)[0]`, if there is one. */
  function LatestQuiz(qs: seq<Quiz>, sid: nat): Option<Quiz>
  {
    var k := LastIndexWhere(qs, (q: Quiz) => q.sessionId == sid);
    if k < 0 then None else Some(qs[k])
  }

  /** `NoteSession.list('-created_date')`. */
  function SessionsNewestFirst(ss: seq<Session>): seq<Session>
  {
    Reverse(ss)
  }

  predicate IsReady(s: Session)
  {
    s.status == Ready
  }

  /** `NoteSession.filter({ status: 'ready' }, '-created_date')`. */
  function ReadySessionsNewestFirst(ss: seq<Session>): seq<Session>
  {
    Filter(Reverse(ss), IsReady)
  }

  function SessionId(s: Session): int
  {
    s.id
  }

  // ---------------------------------------------------------------------
  // What the queries return
  // ---------------------------------------------------------------------

  /** A session's messages: exactly the stored messages of that session, in creation order. */
  lemma MessagesOfSession(ms: seq<ChatMessage>, sid: nat)
    ensures forall i :: 0 <= i < |MessagesOf(ms, sid)| ==>
              MessagesOf(ms, sid)[i] in ms && MessagesOf(ms, sid)[i].sessionId == sid
    ensures forall j :: 0 <= j < |ms| && ms[j].sessionId == sid ==> ms[j] in MessagesOf(ms, sid)
    ensures Subsequence(MessagesOf(ms, sid), ms)
  {
    FilterIsSubsequence(ms, m => InSession(sid, m));
    var r := MessagesOf(ms, sid);
    forall j | 0 <= j < |ms| && ms[j].sessionId == sid ensures ms[j] in r {
      assert InSession(sid, ms[j]);
    }
    forall i | 0 <= i < |r| ensures r[i] in ms && r[i].sessionId == sid {
      assert InSession(sid, r[i]);
    }
  }

  /** The most recent quiz of a session is its last stored quiz; there is none exactly when it has no quiz. */
  lemma LatestQuizIsNewest(qs: seq<Quiz>, sid: nat)
    ensures LatestQuiz(qs, sid).None? <==> forall j :: 0 <= j < |qs| ==> qs[j].sessionId != sid
    ensures LatestQuiz(qs, sid).Some? ==>
              exists k :: 0 <= k < |qs| && qs[k] == LatestQuiz(qs, sid).value && qs[k].sessionId == sid &&
                          forall j :: k < j < |qs| ==> qs[j].sessionId != sid
  {
    var p := (q: Quiz) => q.sessionId == sid;
    var k := LastIndexWhere(qs, p);
    if k >= 0 {
      assert p(qs[k]);
      forall j | k < j < |qs| ensures qs[j].sessionId != sid {
        assert !p(qs[j]);
      }
    } else {
      forall j | 0 <= j < |qs| ensures qs[j].sessionId != sid {
        assert !p(qs[j]);
      }
    }
  }

  /** The quiz page lists exactly the ready sessions, newest (highest id) first. */
  lemma ReadySessionsListed(ss: seq<Session>)
    requires SessionsIndexed(ss)
    ensures forall i :: 0 <= i < |ReadySessionsNewestFirst(ss)| ==>
              ReadySessionsNewestFirst(ss)[i].status == Ready && ReadySessionsNewestFirst(ss)[i] in ss
    ensures forall j :: 0 <= j < |ss| && ss[j].status == Ready ==> ss[j] in ReadySessionsNewestFirst(ss)
    ensures StrictlyDecreasing(ReadySessionsNewestFirst(ss), SessionId)
  {
    var rev := Reverse(ss);
    assert StrictlyDecreasing(rev, SessionId) by {
      forall i, j | 0 <= i < j < |rev| ensures SessionId(rev[i]) > SessionId(rev[j]) {
        assert rev[i] == ss[|ss| - 1 - i] && rev[j] == ss[|ss| - 1 - j];
      }
    }
    FilterKeepsDecreasing(rev, IsReady, SessionId);
    var r := ReadySessionsNewestFirst(ss);
    forall i | 0 <= i < |r| ensures r[i].status == Ready && r[i] in ss {
      assert r[i] in rev && IsReady(r[i]);
      var m :| 0 <= m < |rev| && rev[m] == r[i];
      assert rev[m] == ss[|ss| - 1 - m];
    }
    forall j | 0 <= j < |ss| && ss[j].status == Ready ensures ss[j] in r {
      assert rev[|ss| - 1 - j] == ss[j];
      assert IsReady(rev[|ss| - 1 - j]);
    }
  }

  /** The history page lists every session, newest first. */
  lemma SessionsListedNewestFirst(ss: seq<Session>)
    requires SessionsIndexed(ss)
    ensures |SessionsNewestFirst(ss)| == |ss|
    ensures forall i :: 0 <= i < |ss| ==> SessionsNewestFirst(ss)[i].id == |ss| - 1 - i
  {
  }

  /**
   * The store. A page holds it as `store` and names it in its `modifies` clauses;
   * its three sequences only grow, apart from `UpdateSession`.
   */
  class Store {
    var sessions: seq<Session>
    var messages: seq<ChatMessage>
    var quizzes: seq<Quiz>

    ghost predicate Valid()
      reads this
    {
      SessionsIndexed(sessions) && MessagesIndexed(messages) && QuizzesIndexed(quizzes)
    }

    constructor ()
      ensures Valid()
      ensures sessions == [] && messages == [] && quizzes == []
    {
      sessions, messages, quizzes := [], [], [];
    }

    /** `NoteSession.create({ title, original_filename, status: 'processing' })`. */
    method CreateSession(title: string, originalFilename: string) returns (s: Session)
      requires Valid()
      modifies this
      ensures Valid()
      ensures s == Session(old(|sessions|), title, originalFilename, None, "", "", "", Processing)
      ensures sessions == old(sessions) + [s]
      ensures messages == old(messages) && quizzes == old(quizzes)
    {
      s := Session(|sessions|, title, originalFilename, None, "", "", "", Processing);
      sessions := sessions + [s];
    }

    /** `NoteSession.update(id, change)`. */
    method Update(id: nat, c: SessionChange)
      requires Valid()
      modifies this
      ensures Valid()
      ensures sessions == UpdateSession(old(sessions), id, c)
      ensures messages == old(messages) && quizzes == old(quizzes)
    {
      sessions := UpdateSession(sessions, id, c);
    }

    /** `ChatMessage.create({ session_id, message, message_type, ... })`. */
    method CreateMessage(sessionId: nat, text: string, kind: MessageType, contextUsed: string, voiceInput: bool)
      returns (m: ChatMessage)
      requires Valid()
      modifies this
      ensures Valid()
      ensures m == ChatMessage(old(|messages|), sessionId, text, kind, contextUsed, voiceInput)
      ensures messages == old(messages) + [m]
      ensures sessions == old(sessions) && quizzes == old(quizzes)
    {
      m := ChatMessage(|messages|, sessionId, text, kind, contextUsed, voiceInput);
      messages := messages + [m];
    }

    /** `Quiz.create({ session_id, title, questions, difficulty })`. */
    method CreateQuiz(sessionId: nat, title: string, questions: seq<Question>, difficulty: Difficulty)
      returns (q: Quiz)
      requires Valid()
      modifies this
      ensures Valid()
      ensures q == Quiz(old(|quizzes|), sessionId, title, questions, difficulty)
      ensures quizzes == old(quizzes) + [q]
      ensures sessions == old(sessions) && messages == old(messages)
    {
      q := Quiz(|quizzes|, sessionId, title, questions, difficulty);
      quizzes := quizzes + [q];
    }
  }
}
