/**
 * The quiz component (QuizDisplay.jsx): a cursor over the questions, the map of
 * chosen answers keyed by question index, the scoring pass of `submitQuiz`, the
 * rows of the downloaded results and the name of the downloaded file.
 */
module QuizDisplay {
  import opened Wrappers
  import opened Seqs
  import opened Text
  import opened Entities

  /** `selectedAnswers`: question index to the chosen option. */
  type Answers = map<nat, string>

  /** `selectedAnswers[index]`: the chosen option, or `undefined` when there is none. */
  function Chosen(answers: Answers, i: nat): Option<string>
  {
    if i in answers then Some(answers[i]) else None
  }

  /**
   * `selectedAnswers[index] === q.correct_answer`. A chosen answer is always a string,
   * so an unanswered question is correct exactly when the question has no correct
   * answer (`undefined === undefined`).
   */
  predicate IsCorrect(answers: Answers, i: nat, q: Question)
  {
    Chosen(answers, i) == q.correctAnswer
  }

  /** The number of correct answers among the first `k` questions. */
  function CorrectUpTo(qs: seq<Question>, answers: Answers, k: nat): (n: nat)
    requires k <= |qs|
    ensures n <= k
  {
    if k == 0 then 0
    else CorrectUpTo(qs, answers, k - 1) + (if IsCorrect(answers, k - 1, qs[k - 1]) then 1 else 0)
  }

  /** The count is full exactly when every question counted is correct, and zero exactly when none is. */
  lemma {:induction false} CorrectUpToExtremes(qs: seq<Question>, answers: Answers, k: nat)
    requires k <= |qs|
    ensures CorrectUpTo(qs, answers, k) == k <==> forall i :: 0 <= i < k ==> IsCorrect(answers, i, qs[i])
    ensures CorrectUpTo(qs, answers, k) == 0 <==> forall i :: 0 <= i < k ==> !IsCorrect(answers, i, qs[i])
  {
    if k > 0 {
      CorrectUpToExtremes(qs, answers, k - 1);
    }
  }

  /** The score `submitQuiz` computes. */
  function Score(qs: seq<Question>, answers: Answers): (n: nat)
    ensures n <= |qs|
  {
    CorrectUpTo(qs, answers, |qs|)
  }

  /** The indices of the correctly answered questions. */
  function CorrectIndices(qs: seq<Question>, answers: Answers, k: nat): set<nat>
    requires k <= |qs|
  {
    set i: nat | i < k && IsCorrect(answers, i, qs[i])
  }

  /** The score is the number of correctly answered questions. */
  lemma {:induction false} CorrectUpToCountsIndices(qs: seq<Question>, answers: Answers, k: nat)
    requires k <= |qs|
    ensures CorrectUpTo(qs, answers, k) == |CorrectIndices(qs, answers, k)|
  {
    if k > 0 {
      CorrectUpToCountsIndices(qs, answers, k - 1);
      var prev := CorrectIndices(qs, answers, k - 1);
      if IsCorrect(answers, k - 1, qs[k - 1]) {
        assert CorrectIndices(qs, answers, k) == prev + {k - 1};
      } else {
        assert CorrectIndices(qs, answers, k) == prev;
      }
    }
  }

  lemma ScoreCountsCorrectQuestions(qs: seq<Question>, answers: Answers)
    ensures Score(qs, answers) == |CorrectIndices(qs, answers, |qs|)|
    ensures Score(qs, answers) == |qs| <==> forall i :: 0 <= i < |qs| ==> IsCorrect(answers, i, qs[i])
  {
    CorrectUpToCountsIndices(qs, answers, |qs|);
    CorrectUpToExtremes(qs, answers, |qs|);
  }

  /** Answers stored under indices that are not question indices never change the score. */
  lemma {:induction false} ScoreIgnoresOtherKeys(qs: seq<Question>, answers: Answers, extra: Answers, k: nat)
    requires k <= |qs|
    requires forall j :: j in extra ==> j >= |qs|
    ensures CorrectUpTo(qs, answers + extra, k) == CorrectUpTo(qs, answers, k)
  {
    if k > 0 {
      ScoreIgnoresOtherKeys(qs, answers, extra, k - 1);
      assert k - 1 !in extra;
      assert Chosen(answers + extra, k - 1) == Chosen(answers, k - 1);
    }
  }

  /** Choosing a different option for one question changes the score by at most one. */
  lemma {:induction false} SelectChangesScoreByOne(qs: seq<Question>, answers: Answers, i: nat, a: string, k: nat)
    requires k <= |qs|
    ensures CorrectUpTo(qs, answers[i := a], k) <= CorrectUpTo(qs, answers, k) + 1
    ensures CorrectUpTo(qs, answers, k) <= CorrectUpTo(qs, answers[i := a], k) + 1
    ensures i >= k ==> CorrectUpTo(qs, answers[i := a], k) == CorrectUpTo(qs, answers, k)
  {
    if i >= k {
      SelectLaterKeepsCount(qs, answers, i, a, k);
    } else if i == k - 1 {
      SelectLaterKeepsCount(qs, answers, i, a, k - 1);
    } else {
      SelectChangesScoreByOne(qs, answers, i, a, k - 1);
      assert Chosen(answers[i := a], k - 1) == Chosen(answers, k - 1);
    }
  }

  /** Choosing an option for a question at or after `k` leaves the count over the first `k` as it was. */
  lemma {:induction false} SelectLaterKeepsCount(qs: seq<Question>, answers: Answers, i: nat, a: string, k: nat)
    requires k <= |qs| && i >= k
    ensures CorrectUpTo(qs, answers[i := a], k) == CorrectUpTo(qs, answers, k)
  {
    if k > 0 {
      SelectLaterKeepsCount(qs, answers, i, a, k - 1);
      assert Chosen(answers[i := a], k - 1) == Chosen(answers, k - 1);
    }
  }

  // ---------------------------------------------------------------------
  // The downloaded results
  // ---------------------------------------------------------------------

  /** One entry of `results` in `downloadResults`. */
  datatype ResultRow = ResultRow(
    question: string,
    yourAnswer: string,
    correctAnswer: Option<string>,
    isCorrect: bool,
    explanation: string)

  const NotAnswered: string := "Not answered"

  /** `selectedAnswers[index] || 'Not answered'`: a missing or empty answer reads "Not answered". */
  function YourAnswer(answers: Answers, i: nat): string
  {
    if i in answers && answers[i] != "" then answers[i] else NotAnswered
  }

  function Row(qs: seq<Question>, answers: Answers, i: nat): ResultRow
    requires i < |qs|
  {
    ResultRow(qs[i].question, YourAnswer(answers, i), qs[i].correctAnswer,
              IsCorrect(answers, i, qs[i]), qs[i].explanation)
  }

  /** `quiz.questions.map((q, index) => ...)`: one row per question, in order. */
  function ResultRows(qs: seq<Question>, answers: Answers): seq<ResultRow>
  {
    seq(|qs|, i requires 0 <= i < |qs| => Row(qs, answers, i))
  }

  predicate RowCorrect(r: ResultRow)
  {
    r.isCorrect
  }

  /** The rows marked correct are as many as the score the page shows. */
  lemma {:induction false} RowsAgreeWithScoreUpTo(qs: seq<Question>, answers: Answers, k: nat)
    requires k <= |qs|
    ensures Count(ResultRows(qs, answers)[..k], RowCorrect) == CorrectUpTo(qs, answers, k)
  {
    var rows := ResultRows(qs, answers);
    if k > 0 {
      RowsAgreeWithScoreUpTo(qs, answers, k - 1);
      assert rows[..k][..k - 1] == rows[..k - 1];
      assert rows[..k][k - 1] == Row(qs, answers, k - 1);
    }
  }

  lemma RowsAgreeWithScore(qs: seq<Question>, answers: Answers)
    ensures Count(ResultRows(qs, answers), RowCorrect) == Score(qs, answers)
  {
    RowsAgreeWithScoreUpTo(qs, answers, |qs|);
    assert ResultRows(qs, answers)[..|qs|] == ResultRows(qs, answers);
  }

  /** A correctly answered question never reads "Not answered" unless the correct option is itself empty. */
  lemma CorrectRowShowsAnswer(qs: seq<Question>, answers: Answers, i: nat)
    requires i < |qs| && IsCorrect(answers, i, qs[i])
    requires qs[i].correctAnswer.Some? && qs[i].correctAnswer.value != ""
    ensures ResultRows(qs, answers)[i].yourAnswer == qs[i].correctAnswer.value
    ensures ResultRows(qs, answers)[i].correctAnswer == qs[i].correctAnswer
    ensures ResultRows(qs, answers)[i].isCorrect
  {
  }

  /**
   * An unanswered question reads "Not answered", and it is marked correct exactly when
   * the question has no correct answer.
   */
  lemma UnansweredRow(qs: seq<Question>, answers: Answers, i: nat)
    requires i < |qs| && i !in answers
    ensures ResultRows(qs, answers)[i].yourAnswer == NotAnswered
    ensures ResultRows(qs, answers)[i].isCorrect <==> qs[i].correctAnswer.None?
  {
  }

  // ---------------------------------------------------------------------
  // The downloaded file's name
  // ---------------------------------------------------------------------

  /** `quiz.title.toLowerCase().replace(/\s+/g, '-')`. */
  function TitleSlug(title: string): (r: string)
    ensures NoWhitespace(r)
    ensures forall i :: 0 <= i < |r| ==> !('A' <= r[i] <= 'Z')
    ensures |r| <= |title|
  {
    ReplaceRunsChars(Lower(title), false);
    ReplaceWhitespaceRuns(Lower(title))
  }

  /** `quiz-results-${slug}.txt`. */
  function ExportFilename(title: string): (name: string)
    ensures StartsWith(name, "quiz-results-")
    ensures |name| >= 17 && name[|name| - 4..] == ".txt"
    ensures NoWhitespace(name)
  {
    var name := "quiz-results-" + TitleSlug(title) + ".txt";
    assert forall i :: 0 <= i < |name| ==> !IsWhitespace(name[i]) by {
      forall i | 0 <= i < |name| ensures !IsWhitespace(name[i]) {
        if i < 13 {
          assert name[i] == "quiz-results-"[i];
        } else if i < 13 + |TitleSlug(title)| {
          assert name[i] == TitleSlug(title)[i - 13];
        } else {
          assert name[i] == ".txt"[i - 13 - |TitleSlug(title)|];
        }
      }
    }
    name
  }

  /** A title that has no white space and no capitals is used as it is. */
  lemma PlainTitleKept(title: string)
    requires NoWhitespace(title)
    requires forall i :: 0 <= i < |title| ==> !('A' <= title[i] <= 'Z')
    ensures ExportFilename(title) == "quiz-results-" + title + ".txt"
  {
    assert Lower(title) == title;
    ReplaceRunsNoWhitespace(title);
  }

  /** Two words with white space between them are saved as the lower-cased words joined by one '-'. */
  lemma TwoWordTitle(a: string, w: string, b: string)
    requires NoWhitespace(a) && NoWhitespace(b) && w != [] && AllWhitespace(w)
    ensures ExportFilename(a + w + b) == "quiz-results-" + Lower(a) + "-" + Lower(b) + ".txt"
  {
    assert Lower(a + w) == Lower(a) + Lower(w);
    assert Lower(a + w + b) == Lower(a + w) + Lower(b);
    LowerKeepsWhitespace(w);
    LowerKeepsNoWhitespace(a);
    LowerKeepsNoWhitespace(b);
    SlugOfTwoWords(Lower(a), w, Lower(b));
  }

  lemma SlugOfTwoWords(a: string, w: string, b: string)
    requires NoWhitespace(a) && NoWhitespace(b) && w != [] && AllWhitespace(w)
    ensures ReplaceWhitespaceRuns(a + w + b) == a + "-" + b
  {
    ReplaceRunsNoWhitespace(a);
    ReplaceRunsNoWhitespace(b);
    ReplaceRunsSplit(a, w, b);
  }

  lemma LowerKeepsWhitespace(w: string)
    requires AllWhitespace(w)
    ensures Lower(w) == w
  {
    assert forall i :: 0 <= i < |w| ==> LowerChar(w[i]) == w[i];
  }

  lemma LowerKeepsNoWhitespace(a: string)
    requires NoWhitespace(a)
    ensures NoWhitespace(Lower(a))
  {
    assert forall i :: 0 <= i < |a| ==> Lower(a)[i] == a[i] || 'a' <= Lower(a)[i] <= 'z';
  }

  // ---------------------------------------------------------------------
  // The controls
  // ---------------------------------------------------------------------

  /** The Submit button replaces Next on the last question. */
  predicate ShowsSubmit(n: nat, cursor: nat)
  {
    cursor == n - 1
  }

  /** `Object.keys(selectedAnswers).length === quiz.questions.length`. */
  predicate SubmitEnabled(n: nat, answers: Answers)
  {
    |answers.Keys| == n
  }

  /** Answers are only ever stored under question indices. */
  predicate KeysAreQuestions(n: nat, answers: Answers)
  {
    forall j :: j in answers ==> j < n
  }

  /** With answers stored only under question indices, Submit is enabled exactly when every question is answered. */
  lemma SubmitEnabledIffAllAnswered(n: nat, answers: Answers)
    requires KeysAreQuestions(n, answers)
    ensures SubmitEnabled(n, answers) <==> forall i :: 0 <= i < n ==> i in answers
  {
    var all := Indices(n);
    assert answers.Keys <= all;
    if forall i :: 0 <= i < n ==> i in answers {
      assert answers.Keys == all;
    }
    if SubmitEnabled(n, answers) {
      forall i | 0 <= i < n ensures i in answers {
        if i !in answers {
          SubsetSize(answers.Keys, all - {i});
        }
      }
    }
  }

  /** The question indices 0 .. n-1. */
  function Indices(n: nat): (r: set<nat>)
    ensures forall i: nat :: i in r <==> i < n
    ensures |r| == n
  {
    if n == 0 then {} else Indices(n - 1) + {n - 1}
  }

  lemma SubsetSize(a: set<nat>, b: set<nat>)
    requires a <= b
    ensures |a| <= |b|
  {
    assert b == a + (b - a);
  }

  /**
   * Once Submit is enabled every question is answered, so a question the model gave no
   * correct answer counts as wrong, and the score counts only questions that have one.
   */
  lemma KeylessQuestionWrongOnSubmit(qs: seq<Question>, answers: Answers)
    requires KeysAreQuestions(|qs|, answers) && SubmitEnabled(|qs|, answers)
    ensures forall i :: 0 <= i < |qs| && qs[i].correctAnswer.None? ==> !IsCorrect(answers, i, qs[i])
    ensures Score(qs, answers) == |qs| ==> forall i :: 0 <= i < |qs| ==> qs[i].correctAnswer.Some?
  {
    SubmitEnabledIffAllAnswered(|qs|, answers);
    ScoreCountsCorrectQuestions(qs, answers);
  }

  /** Two questions with only the first answered: Submit stays disabled. */
  lemma PartialAnswersDisableSubmit()
    ensures !SubmitEnabled(2, map[0 := "B"])
  {
    assert map[0 := "B"].Keys == {0};
  }

  /** Two questions, the first answered correctly and the second wrongly: the score is 1. */
  lemma ScoreExample()
    ensures var qs := [Question("Q1", ["A", "B"], Some("B"), ""), Question("Q2", ["C", "D"], Some("C"), "")];
            Score(qs, map[0 := "B", 1 := "D"]) == 1
  {
    var qs := [Question("Q1", ["A", "B"], Some("B"), ""), Question("Q2", ["C", "D"], Some("C"), "")];
    var answers := map[0 := "B", 1 := "D"];
    assert IsCorrect(answers, 0, qs[0]);
    assert !IsCorrect(answers, 1, qs[1]);
    assert CorrectUpTo(qs, answers, 1) == 1;
  }

  /**
   * The component's state. `quiz` is the prop it was mounted with; `hasOnRestart`
   * says whether the page passed an `onRestart` callback.
   */
  class QuizView {
    const quiz: Quiz
    const hasOnRestart: bool
    var currentQuestion: nat
    var selectedAnswers: Answers
    var showResults: bool
    var score: nat

    /**
     * The cursor stays on a question, only question indices hold answers, and while the
     * results are shown the shown score is the score of the chosen answers.
     */
    ghost predicate Valid()
      reads this
    {
      && (|quiz.questions| > 0 ==> currentQuestion < |quiz.questions|)
      && (|quiz.questions| == 0 ==> currentQuestion == 0)
      && KeysAreQuestions(|quiz.questions|, selectedAnswers)
      && score <= |quiz.questions|
      && (showResults ==> score == Score(quiz.questions, selectedAnswers))
    }

    constructor (quiz: Quiz, hasOnRestart: bool)
      ensures Valid()
      ensures this.quiz == quiz && this.hasOnRestart == hasOnRestart
      ensures currentQuestion == 0 && selectedAnswers == map[] && !showResults && score == 0
    {
      this.quiz := quiz;
      this.hasOnRestart := hasOnRestart;
      currentQuestion, selectedAnswers, showResults, score := 0, map[], false, 0;
    }

    /**
     * `handleAnswerSelect(questionIndex, answer)`: ignored once the results are shown.
     * The only caller is an option of the current question, rendered only when the quiz has questions.
     */
    method SelectAnswer(questionIndex: nat, answer: string)
      requires Valid()
      requires |quiz.questions| > 0 && questionIndex == currentQuestion
      modifies this
      ensures Valid()
      ensures old(showResults) ==> selectedAnswers == old(selectedAnswers)
      ensures !old(showResults) ==> selectedAnswers == old(selectedAnswers)[questionIndex := answer]
      ensures currentQuestion == old(currentQuestion) && showResults == old(showResults) && score == old(score)
    {
      if showResults {
        return;
      }
      selectedAnswers := selectedAnswers[questionIndex := answer];
    }

    /** `submitQuiz`: count the correct answers and show the results. */
    method Submit()
      requires Valid()
      modifies this
      ensures Valid()
      ensures score == Score(quiz.questions, selectedAnswers)
      ensures showResults
      ensures currentQuestion == old(currentQuestion) && selectedAnswers == old(selectedAnswers)
    {
      var correctCount := 0;
      var index := 0;
      while index < |quiz.questions|
        invariant 0 <= index <= |quiz.questions|
        invariant correctCount == CorrectUpTo(quiz.questions, selectedAnswers, index)
      {
        if Chosen(selectedAnswers, index) == quiz.questions[index].correctAnswer {
          correctCount := correctCount + 1;
        }
        index := index + 1;
      }
      score := correctCount;
      showResults := true;
    }

    /** `restartQuiz`: back to the first question with no answers; returns whether `onRestart` is called. */
    method Restart() returns (restartRequested: bool)
      requires Valid()
      modifies this
      ensures Valid()
      ensures currentQuestion == 0 && selectedAnswers == map[] && !showResults && score == 0
      ensures restartRequested == hasOnRestart
    {
      currentQuestion, selectedAnswers, showResults, score := 0, map[], false, 0;
      restartRequested := hasOnRestart;
    }

    /** Previous: `Math.max(0, currentQuestion - 1)`. */
    method Previous()
      requires Valid()
      modifies this
      ensures Valid()
      ensures currentQuestion == if old(currentQuestion) == 0 then 0 else old(currentQuestion) - 1
      ensures selectedAnswers == old(selectedAnswers) && showResults == old(showResults) && score == old(score)
    {
      currentQuestion := if currentQuestion == 0 then 0 else currentQuestion - 1;
    }

    /**
     * Next: `Math.min(quiz.questions.length - 1, currentQuestion + 1)`; rendered only when
     * there are questions, and in place of Submit, so everywhere but on the last question.
     */
    method Next()
      requires Valid()
      requires |quiz.questions| > 0
      modifies this
      ensures Valid()
      ensures currentQuestion == if old(currentQuestion) + 1 < |quiz.questions| then old(currentQuestion) + 1
                                 else |quiz.questions| - 1
      ensures !ShowsSubmit(|quiz.questions|, old(currentQuestion)) ==> currentQuestion == old(currentQuestion) + 1
      ensures selectedAnswers == old(selectedAnswers) && showResults == old(showResults) && score == old(score)
    {
      var last := |quiz.questions| - 1;
      currentQuestion := if currentQuestion + 1 < last then currentQuestion + 1 else last;
    }

    /** The rows `downloadResults` writes, under the header that prints `score`. */
    function Results(): (rows: seq<ResultRow>)
      reads this
      ensures |rows| == |quiz.questions|
      ensures Count(rows, RowCorrect) == Score(quiz.questions, selectedAnswers)
      ensures Valid() && showResults ==> Count(rows, RowCorrect) == score
    {
      RowsAgreeWithScore(quiz.questions, selectedAnswers);
      ResultRows(quiz.questions, selectedAnswers)
    }
  }
}
