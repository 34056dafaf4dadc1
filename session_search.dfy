/**
 * The session search shared by the history page (history.jsx) and the quiz page
 * (quiz.jsx): keep a session when its lower-cased title or lower-cased file name
 * includes the lower-cased search term. Lower-casing is modelled for ASCII letters only.
 */
module SessionSearch {
  import opened Seqs
  import opened Text
  import opened Entities

  predicate Matches(term: string, s: Session)
  {
    || Includes(Lower(s.title), Lower(term))
    || Includes(Lower(s.originalFilename), Lower(term))
  }

  /** `sessions.filter(session => ...)`, the `filteredSessions` of both pages. */
  function FilterSessions(sessions: seq<Session>, term: string): seq<Session>
  {
    Filter(sessions, s => Matches(term, s))
  }

  /** A session is listed exactly when it matches, and the listing keeps the page's order. */
  lemma FilterSessionsKeepsMatches(sessions: seq<Session>, term: string)
    ensures forall i :: 0 <= i < |FilterSessions(sessions, term)| ==>
              Matches(term, FilterSessions(sessions, term)[i]) && FilterSessions(sessions, term)[i] in sessions
    ensures forall j :: 0 <= j < |sessions| && Matches(term, sessions[j]) ==> sessions[j] in FilterSessions(sessions, term)
    ensures Subsequence(FilterSessions(sessions, term), sessions)
  {
    var p := s => Matches(term, s);
    var r := FilterSessions(sessions, term);
    FilterIsSubsequence(sessions, p);
    forall i | 0 <= i < |r| ensures Matches(term, r[i]) && r[i] in sessions {
      assert p(r[i]);
    }
    forall j | 0 <= j < |sessions| && Matches(term, sessions[j]) ensures sessions[j] in r {
      assert p(sessions[j]);
    }
  }

  /** An empty search term lists every session. */
  lemma EmptyTermKeepsAll(sessions: seq<Session>)
    ensures FilterSessions(sessions, "") == sessions
  {
    forall j | 0 <= j < |sessions| ensures Matches("", sessions[j]) {
      IncludesEmpty(Lower(sessions[j].title));
    }
    FilterKeepsAll(sessions, s => Matches("", s));
  }

  /** A title or file name that includes the term exactly is found whatever the case. */
  lemma ExactOccurrenceMatches(term: string, s: Session)
    requires Includes(s.title, term) || Includes(s.originalFilename, term)
    ensures Matches(term, s)
  {
    if Includes(s.title, term) {
      IncludesLower(s.title, term);
    } else {
      IncludesLower(s.originalFilename, term);
    }
  }

  /** Lower-casing the term first lists the same sessions: the search is case-insensitive in the term. */
  lemma SearchIgnoresTermCase(sessions: seq<Session>, term: string)
    ensures FilterSessions(sessions, Lower(term)) == FilterSessions(sessions, term)
  {
    LowerIdempotent(term);
    FilterSamePredicate(sessions, s => Matches(Lower(term), s), s => Matches(term, s));
  }

  /** Two tests that agree on every element select the same elements. */
  lemma {:induction false} FilterSamePredicate(s: seq<Session>, p: Session -> bool, q: Session -> bool)
    requires forall i :: 0 <= i < |s| ==> p(s[i]) == q(s[i])
    ensures Filter(s, p) == Filter(s, q)
  {
    if s != [] {
      FilterSamePredicate(s[1..], p, q);
    }
  }
}
