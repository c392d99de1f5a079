/** The pre-test and post-test quiz: a fixed list of questions, the index of
    the question on screen, the answers chosen so far, and the two flags that
    show the results screen and the explanation of the current question. */
module PrePostTest {
  import opened Common
  import opened Schema
  import Seed

  /** `selectedAnswers[index] === question.correctAnswer`; an index that was
      never answered reads as `undefined` and is never correct. */
  predicate Correct(questions: seq<Question>, answers: map<int, int>, index: int)
    requires 0 <= index < |questions|
  {
    index in answers && answers[index] == questions[index].correctAnswer
  }

  /** The score of the first `n` questions, summed left to right as `reduce` does. */
  function ScoreUpTo(questions: seq<Question>, answers: map<int, int>, n: nat): (r: nat)
    requires n <= |questions|
    ensures r <= n
  {
    if n == 0 then 0
    else ScoreUpTo(questions, answers, n - 1) + (if Correct(questions, answers, n - 1) then 1 else 0)
  }

  /** `getScore`. */
  function Score(questions: seq<Question>, answers: map<int, int>): (r: nat)
    ensures r <= |questions|
  {
    ScoreUpTo(questions, answers, |questions|)
  }

  /** The indices among the first `n` whose answer is correct. */
  ghost function CorrectUpTo(questions: seq<Question>, answers: map<int, int>, n: nat): set<int>
    requires n <= |questions|
  {
    set index | 0 <= index < n && Correct(questions, answers, index)
  }

  /** The score is the number of correctly answered questions. */
  lemma {:induction false} ScoreCountsCorrect(questions: seq<Question>, answers: map<int, int>, n: nat)
    requires n <= |questions|
    ensures ScoreUpTo(questions, answers, n) == |CorrectUpTo(questions, answers, n)|
  {
    if n > 0 {
      ScoreCountsCorrect(questions, answers, n - 1);
      var before := CorrectUpTo(questions, answers, n - 1);
      if Correct(questions, answers, n - 1) {
        assert CorrectUpTo(questions, answers, n) == before + {n - 1};
        assert n - 1 !in before;
      } else {
        assert CorrectUpTo(questions, answers, n) == before;
      }
    }
  }

  /** Full marks exactly when every question is answered correctly. */
  lemma {:induction false} FullMarks(questions: seq<Question>, answers: map<int, int>, n: nat)
    requires n <= |questions|
    ensures ScoreUpTo(questions, answers, n) == n <==>
      forall index :: 0 <= index < n ==> Correct(questions, answers, index)
  {
    if n > 0 {
      FullMarks(questions, answers, n - 1);
    }
  }

  /** No marks exactly when no question is answered correctly. */
  lemma {:induction false} NoMarks(questions: seq<Question>, answers: map<int, int>, n: nat)
    requires n <= |questions|
    ensures ScoreUpTo(questions, answers, n) == 0 <==>
      forall index :: 0 <= index < n ==> !Correct(questions, answers, index)
  {
    if n > 0 {
      NoMarks(questions, answers, n - 1);
    }
  }

  /** Changing the answer of question `k` changes the score only by what that
      one question contributes. */
  lemma {:induction false} ScoreAfterAnswer(questions: seq<Question>, answers: map<int, int>, k: int, choice: int, n: nat)
    requires n <= |questions| && 0 <= k < n
    ensures ScoreUpTo(questions, answers[k := choice], n)
      == ScoreUpTo(questions, answers, n)
         - (if Correct(questions, answers, k) then 1 else 0)
         + (if choice == questions[k].correctAnswer then 1 else 0)
  {
    var updated := answers[k := choice];
    if n - 1 == k {
      ScoreUnaffected(questions, answers, k, choice, k);
    } else {
      ScoreAfterAnswer(questions, answers, k, choice, n - 1);
      assert Correct(questions, updated, n - 1) == Correct(questions, answers, n - 1);
    }
  }

  /** Questions before `k` do not see a change of the answer of question `k`. */
  lemma {:induction false} ScoreUnaffected(questions: seq<Question>, answers: map<int, int>, k: int, choice: int, n: nat)
    requires n <= k < |questions|
    ensures ScoreUpTo(questions, answers[k := choice], n) == ScoreUpTo(questions, answers, n)
  {
    if n > 0 {
      ScoreUnaffected(questions, answers, k, choice, n - 1);
      assert Correct(questions, answers[k := choice], n - 1) == Correct(questions, answers, n - 1);
    }
  }

  /** The Show/Hide Explanation button is enabled when the explanation is a
      non-empty string. */
  predicate HasExplanation(q: Question) {
    q.explanation.Some? && q.explanation.value != ""
  }

  /** What the component renders. */
  datatype View =
    | Results(score: int, total: int)
    | AskQuestion(number: int, total: int, difficulty: Difficulty, selected: Option<int>,
                  explanationShown: bool, nextEnabled: bool, isLast: bool)
    | NoQuestions
    | Crash

  /** Rendering as written: the question screen reads `questions[currentQuestion]`
      unguarded, so an empty list throws there. */
  function ViewAsWritten(questions: seq<Question>, current: int, answers: map<int, int>,
                         showResults: bool, showExplanation: bool): (v: View)
    ensures v.Crash? <==> !showResults && !(0 <= current < |questions|)
    ensures !v.NoQuestions?
  {
    if showResults then Results(Score(questions, answers), |questions|)
    else if 0 <= current < |questions| then
      QuestionScreen(questions, current, answers, showExplanation)
    else Crash
  }

  /** The question screen of question `current`. */
  function QuestionScreen(questions: seq<Question>, current: int, answers: map<int, int>,
                          showExplanation: bool): (v: View)
    requires 0 <= current < |questions|
    ensures v.AskQuestion? && v.number == current + 1 && v.total == |questions|
    ensures v.nextEnabled <==> current in answers
    ensures v.explanationShown <==> showExplanation && HasExplanation(questions[current])
    ensures v.isLast <==> current == |questions| - 1
  {
    AskQuestion(current + 1, |questions|, questions[current].difficulty,
                if current in answers then Some(answers[current]) else None,
                showExplanation && HasExplanation(questions[current]),
                current in answers, current == |questions| - 1)
  }

  /** Every seeded experiment but the first has an empty pre-test and post-test,
      and opening either one renders nothing but an exception. */
  lemma EmptySeedTestsCrash(k: int)
    requires 1 <= k < |Seed.Experiments|
    ensures Seed.Experiments[k].preTest == [] && Seed.Experiments[k].postTest == []
    ensures ViewAsWritten(Seed.Experiments[k].preTest, 0, map[], false, false) == Crash
    ensures ViewAsWritten(Seed.Experiments[k].postTest, 0, map[], false, false) == Crash
  {
    if k == 1 {} else if k == 2 {} else if k == 3 {} else if k == 4 {}
    else if k == 5 {} else if k == 6 {} else {}
  }

  /** Rendering with an empty-state screen for an empty list: it never throws
      in a reachable state, and it agrees with the code as written whenever
      that does not throw. */
  function ViewGuarded(questions: seq<Question>, current: int, answers: map<int, int>,
                       showResults: bool, showExplanation: bool): (v: View)
    requires 0 <= current && (current < |questions| || current == 0)
    ensures !v.Crash?
    ensures v.NoQuestions? <==> !showResults && |questions| == 0
    ensures !v.NoQuestions? ==> v == ViewAsWritten(questions, current, answers, showResults, showExplanation)
  {
    if showResults then Results(Score(questions, answers), |questions|)
    else if |questions| == 0 then NoQuestions
    else QuestionScreen(questions, current, answers, showExplanation)
  }

  /** One quiz over a fixed list of questions. */
  class Quiz {
    const questions: seq<Question>
    var currentQuestion: int
    var selectedAnswers: map<int, int>  // the sparse `number[]`: an index is answered iff it is a key
    var showResults: bool
    var showExplanation: bool

    /** The question index stays on a question (or at 0 for an empty list),
        and only questions reached so far have answers. */
    ghost predicate Valid()
      reads this
    {
      && 0 <= currentQuestion
      && (currentQuestion < |questions| || currentQuestion == 0)
      && (forall k :: k in selectedAnswers ==> 0 <= k <= currentQuestion)
    }

    /** The stronger invariant kept when Next/Finish is only clicked while
        enabled: every question before the current one is answered, and so is
        every question once results are shown. */
    ghost predicate AnsweredSoFar()
      reads this
    {
      && (forall k :: 0 <= k < currentQuestion ==> k in selectedAnswers)
      && (showResults ==> forall k :: 0 <= k < |questions| ==> k in selectedAnswers)
    }

    constructor (questions: seq<Question>)
      ensures this.questions == questions
      ensures currentQuestion == 0 && selectedAnswers == map[] && !showResults && !showExplanation
      ensures Valid() && AnsweredSoFar()
    {
      this.questions := questions;
      currentQuestion, selectedAnswers, showResults, showExplanation := 0, map[], false, false;
    }

    /** What is on screen under the corrected rendering: it never throws, shows
        the empty state exactly for an empty list outside the results, and
        otherwise shows what the code as written shows. */
    function Screen(): (v: View)
      reads this
      requires Valid()
      ensures !v.Crash?
      ensures v.NoQuestions? <==> !showResults && |questions| == 0
      ensures !v.NoQuestions? ==> v == ViewAsWritten(questions, currentQuestion, selectedAnswers, showResults, showExplanation)
    {
      ViewGuarded(questions, currentQuestion, selectedAnswers, showResults, showExplanation)
    }

    /** `handleAnswer`: records `answerIndex` for the current question and leaves
        every other answer and the rest of the state as it was. */
    method HandleAnswer(answerIndex: int)
      requires Valid()
      modifies this
      ensures selectedAnswers == old(selectedAnswers)[currentQuestion := answerIndex]
      ensures currentQuestion == old(currentQuestion)
      ensures showResults == old(showResults) && showExplanation == old(showExplanation)
      ensures Valid()
      ensures old(AnsweredSoFar()) ==> AnsweredSoFar()
    {
      selectedAnswers := selectedAnswers[currentQuestion := answerIndex];
    }

    /** `goToNextQuestion`: moves to the next question and hides the explanation
        when there is one, and otherwise shows the results in place. */
    method GoToNextQuestion()
      requires Valid()
      modifies this
      ensures old(currentQuestion) < |questions| - 1 ==>
        currentQuestion == old(currentQuestion) + 1 && !showExplanation && showResults == old(showResults)
      ensures old(currentQuestion) >= |questions| - 1 ==>
        currentQuestion == old(currentQuestion) && showResults && showExplanation == old(showExplanation)
      ensures selectedAnswers == old(selectedAnswers)
      ensures Valid()
    {
      if currentQuestion < |questions| - 1 {
        currentQuestion := currentQuestion + 1;
        showExplanation := false;
      } else {
        showResults := true;
      }
    }

    /** A click on Next/Finish, which is disabled while the current question has
        no answer; it keeps every earlier question answered. */
    method ClickNext()
      requires Valid() && AnsweredSoFar()
      modifies this
      ensures old(currentQuestion) !in old(selectedAnswers) ==>
        currentQuestion == old(currentQuestion) && showResults == old(showResults)
        && showExplanation == old(showExplanation)
      ensures old(currentQuestion) in old(selectedAnswers) && old(currentQuestion) < |questions| - 1 ==>
        currentQuestion == old(currentQuestion) + 1 && !showExplanation && showResults == old(showResults)
      ensures old(currentQuestion) in old(selectedAnswers) && old(currentQuestion) >= |questions| - 1 ==>
        currentQuestion == old(currentQuestion) && showResults && showExplanation == old(showExplanation)
      ensures selectedAnswers == old(selectedAnswers)
      ensures Valid() && AnsweredSoFar()
    {
      if currentQuestion in selectedAnswers {
        GoToNextQuestion();
      }
    }

    /** `resetTest`: back to the state the quiz starts in. */
    method ResetTest()
      modifies this
      ensures currentQuestion == 0 && selectedAnswers == map[] && !showResults && !showExplanation
      ensures Valid() && AnsweredSoFar()
    {
      currentQuestion := 0;
      selectedAnswers := map[];
      showResults := false;
      showExplanation := false;
    }

    /** The Show/Hide Explanation button: flips the flag, and does nothing while
        the current question has no explanation and the button is disabled. */
    method ToggleExplanation()
      requires Valid() && currentQuestion < |questions|
      modifies this`showExplanation
      ensures HasExplanation(questions[currentQuestion]) ==> showExplanation == !old(showExplanation)
      ensures !HasExplanation(questions[currentQuestion]) ==> showExplanation == old(showExplanation)
    {
      if HasExplanation(questions[currentQuestion]) {
        showExplanation := !showExplanation;
      }
    }
  }

  /** Answering every question of a two-question quiz through the enabled
      buttons reaches the results screen with the number of correct answers. */
  method AnswerAll(q: Quiz, first: int, second: int) returns (v: View)
    requires |q.questions| == 2 && q.Valid() && q.AnsweredSoFar()
    requires q.currentQuestion == 0 && q.selectedAnswers == map[] && !q.showResults
    modifies q
    ensures v == Results(
      (if first == q.questions[0].correctAnswer then 1 else 0)
      + (if second == q.questions[1].correctAnswer then 1 else 0), 2)
  {
    q.HandleAnswer(first);
    q.ClickNext();
    q.HandleAnswer(second);
    q.ClickNext();
    assert q.selectedAnswers == map[0 := first, 1 := second];
    assert q.showResults;
    v := q.Screen();
    assert ScoreUpTo(q.questions, q.selectedAnswers, 1) == (if first == q.questions[0].correctAnswer then 1 else 0);
  }
}
