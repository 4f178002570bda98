/**
 * The quiz state machine. `renderQuizStep` binds one handler per rendered control; each
 * handler is a method here, and a control that is not rendered in the current view
 * answers `NotOffered` and changes nothing.
 */
module QuizEngine {
  import opened QuizCatalogue
  import opened QuizScoring

  /** What the quiz container shows: the current question, or the result after submission. */
  datatype View = QuestionStep | ResultView(result: QuizResult)

  /** What a click on a navigation control led to. */
  datatype Outcome =
    | Moved                       // the step changed and the next question is shown
    | NeedsAnswer                 // blocked: the current question has no answer yet
    | NotOffered                  // the control is not rendered in the current view
    | Finished(result: QuizResult) // submitted: the result view is shown

  /** The alert shown when Next or See Results is clicked before answering. */
  const NeedsAnswerMessage: string := "Please select an answer before continuing."

  /** "Previous" is rendered from the second question on. */
  predicate HasPrevious(step: int) {
    step > 0
  }

  /** "Next" is rendered before the last question; at the last one "See Results" is rendered instead. */
  predicate HasNext(step: int, total: int) {
    step < total - 1
  }

  /** `id` is the id of some question of `qs`. */
  ghost predicate IsQuestionId(qs: seq<Question>, id: int) {
    exists j :: 0 <= j < |qs| && qs[j].id == id
  }

  class Quiz {
    var currentStep: int
    var answers: map<int, int>
    var view: View

    /**
     * The step indexes a question; answers are recorded only for catalogue questions and
     * index one of their options; every question before the current one is answered; the
     * result view shows the result of a complete answer set.
     */
    ghost predicate Valid()
      reads this
    {
      && 0 <= currentStep < |QuizData|
      && AnswersInRange(QuizData, answers)
      && (forall id :: id in answers ==> IsQuestionId(QuizData, id))
      && (forall j :: 0 <= j < currentStep ==> QuizData[j].id in answers)
      && (view.ResultView? ==>
            currentStep == |QuizData| - 1 && Complete(QuizData, answers) && view.result == Evaluate(answers))
    }

    /** `initQuiz`: a fresh state at the first question with no answers. */
    constructor ()
      ensures Valid()
      ensures currentStep == 0 && answers == map[] && view == QuestionStep
    {
      currentStep := 0;
      answers := map[];
      view := QuestionStep;
      QuizDataShape();
    }

    /**
     * Click on option `i` of the current question: records `i` under the question's id,
     * replacing any earlier choice for it and leaving every other answer alone.
     */
    method SelectOption(i: int) returns (selected: bool)
      requires Valid()
      modifies this
      ensures Valid()
      ensures selected <==> old(view) == QuestionStep && 0 <= i < |QuizData[old(currentStep)].options|
      ensures answers == if selected then old(answers)[QuizData[old(currentStep)].id := i] else old(answers)
      ensures old(answers).Keys <= answers.Keys
      ensures currentStep == old(currentStep) && view == old(view)
    {
      QuizDataShape();
      var q := QuizData[currentStep];
      selected := view == QuestionStep && 0 <= i < |q.options|;
      if selected {
        answers := answers[q.id := i];
        assert AnswersInRange(QuizData, answers) by {
          forall j | 0 <= j < |QuizData| && QuizData[j].id in answers
            ensures 0 <= answers[QuizData[j].id] < |QuizData[j].options|
          {
            if QuizData[j].id == q.id {
              assert j == currentStep;
            }
          }
        }
        assert IsQuestionId(QuizData, q.id);
      }
    }

    /** Click on "Previous": back one question; answers are kept. */
    method Previous() returns (outcome: Outcome)
      requires Valid()
      modifies this
      ensures Valid()
      ensures outcome == if old(view) == QuestionStep && HasPrevious(old(currentStep)) then Moved else NotOffered
      ensures currentStep == if outcome == Moved then old(currentStep) - 1 else old(currentStep)
      ensures answers == old(answers) && view == old(view)
    {
      if view == QuestionStep && HasPrevious(currentStep) {
        currentStep := currentStep - 1;
        outcome := Moved;
      } else {
        outcome := NotOffered;
      }
    }

    /** Click on "Next": forward one question, but only once the current question is answered. */
    method Next() returns (outcome: Outcome)
      requires Valid()
      modifies this
      ensures Valid()
      ensures outcome ==
        if !(old(view) == QuestionStep && HasNext(old(currentStep), |QuizData|)) then NotOffered
        else if QuizData[old(currentStep)].id !in old(answers) then NeedsAnswer
        else Moved
      ensures currentStep == if outcome == Moved then old(currentStep) + 1 else old(currentStep)
      ensures answers == old(answers) && view == old(view)
    {
      if !(view == QuestionStep && HasNext(currentStep, |QuizData|)) {
        outcome := NotOffered;
      } else if QuizData[currentStep].id !in answers {
        outcome := NeedsAnswer;
      } else {
        currentStep := currentStep + 1;
        outcome := Moved;
      }
    }

    /**
     * Click on "See Results" at the last question: once it is answered, scores the answers
     * and shows the result; the state itself is left as it is.
     */
    method Submit() returns (outcome: Outcome)
      requires Valid()
      modifies this
      ensures Valid()
      ensures outcome ==
        if !(old(view) == QuestionStep && !HasNext(old(currentStep), |QuizData|)) then NotOffered
        else if QuizData[old(currentStep)].id !in old(answers) then NeedsAnswer
        else Finished(Evaluate(old(answers)))
      ensures view == if outcome.Finished? then ResultView(outcome.result) else old(view)
      ensures currentStep == old(currentStep) && answers == old(answers)
    {
      if !(view == QuestionStep && !HasNext(currentStep, |QuizData|)) {
        outcome := NotOffered;
      } else if QuizData[currentStep].id !in answers {
        outcome := NeedsAnswer;
      } else {
        var result := ComputeResult(answers);
        view := ResultView(result);
        outcome := Finished(result);
      }
    }

    /** Click on "Retake Assessment" in the result view: a brand-new empty state at the first question. */
    method Restart() returns (restarted: bool)
      requires Valid()
      modifies this
      ensures Valid()
      ensures restarted <==> old(view).ResultView?
      ensures restarted ==> currentStep == 0 && answers == map[] && view == QuestionStep
      ensures !restarted ==> currentStep == old(currentStep) && answers == old(answers) && view == old(view)
    {
      restarted := view.ResultView?;
      if restarted {
        currentStep := 0;
        answers := map[];
        view := QuestionStep;
      }
    }
  }

  /**
   * What the result view of a valid quiz shows: the score of a complete answer set, so at
   * least 1 point (question 8 has no zero-score option), within `[0, MaxScore]`, a percentage
   * within `[0, 100]` and the one tier whose band holds the total.
   */
  lemma ResultOfCompleteAnswers(quiz: Quiz)
    requires quiz.Valid() && quiz.view.ResultView?
    ensures 1 <= quiz.view.result.totalScore <= MaxScore
    ensures 0 <= quiz.view.result.percentage <= 100
    ensures InTier(quiz.view.result.tier, quiz.view.result.totalScore)
  {
    QuizDataShape();
    CompleteScoreIsPositive(quiz.answers);
    ScoreBounds(QuizData, quiz.answers, quiz.answers.Keys);
    PercentageBounds(quiz.view.result.totalScore, MaxScore);
    QuizTiersPartitionScores(quiz.view.result.totalScore);
  }
}
