/**
 * The quiz session controller as an object whose methods update its fields
 * in place. Each method is proved to move the object's State() exactly as
 * the corresponding function of SessionSpec does, and to keep the session
 * invariant.
 */
module Session {

  import opened Wrappers
  import opened Questions
  import S = SessionSpec

  class QuestionManager {
    // Scene references (None: left unassigned) with their text or active flag.
    var questionText: Option<string>
    var feedbackText: Option<string>
    var questionPanel: Option<bool>
    var feedbackPanel: Option<bool>
    var correctModel3D: Option<bool>
    var incorrectModel3D: Option<bool>
    const audio: S.AudioConfig

    var questions: seq<Question>
    var currentQuestion: Option<Question>
    var waitingForAnswer: bool
    var targetValidators: seq<S.ValidatorId>

    // Coroutines started and not yet resumed.
    var pendingFirst: nat
    var pendingNext: nat

    /** The controller's state as a value. */
    function State(): S.Controller
      reads this
    {
      S.Controller(questionText, feedbackText, questionPanel, feedbackPanel,
                   correctModel3D, incorrectModel3D, audio, questions,
                   currentQuestion, waitingForAnswer, targetValidators,
                   pendingFirst, pendingNext)
    }

    ghost predicate Valid()
      reads this
    {
      S.Inv(State())
    }

    /** A controller as configured in the scene, before Start: no current question, no answer awaited. */
    constructor (questionText: Option<string>, feedbackText: Option<string>,
                 questionPanel: Option<bool>, feedbackPanel: Option<bool>,
                 correctModel3D: Option<bool>, incorrectModel3D: Option<bool>,
                 audio: S.AudioConfig, questions: seq<Question>)
      ensures Valid()
      ensures State() == S.Controller(questionText, feedbackText, questionPanel, feedbackPanel,
                                      correctModel3D, incorrectModel3D, audio, questions,
                                      None, false, [], 0, 0)
    {
      this.questionText := questionText;
      this.feedbackText := feedbackText;
      this.questionPanel := questionPanel;
      this.feedbackPanel := feedbackPanel;
      this.correctModel3D := correctModel3D;
      this.incorrectModel3D := incorrectModel3D;
      this.audio := audio;
      this.questions := questions;
      currentQuestion := None;
      waitingForAnswer := false;
      targetValidators := [];
      pendingFirst := 0;
      pendingNext := 0;
    }

    /** Start, given the validators the scene search found (in the order it found them). */
    method Start(discovered: seq<S.ValidatorId>)
      requires Valid()
      modifies this
      ensures Valid()
      ensures State() == S.Start(old(State()), discovered)
    {
      targetValidators := targetValidators + discovered;
      questionPanel := S.SetIfPresent(questionPanel, false);
      feedbackPanel := S.SetIfPresent(feedbackPanel, false);
      correctModel3D := S.SetIfPresent(correctModel3D, false);
      incorrectModel3D := S.SetIfPresent(incorrectModel3D, false);
      if IsSystemReady() {
        pendingFirst := pendingFirst + 1;
      }
    }

    /** Ready: the four UI references are assigned and a question exists, so a started quiz shows one. */
    function IsSystemReady(): (r: bool)
      reads this
      ensures r == S.IsSystemReady(State())
      ensures r <==> questionText.Some? && feedbackText.Some? && questionPanel.Some? && feedbackPanel.Some?
                     && questions != []
      ensures r ==> forall pick :: 0 <= pick < |questions| ==>
                      S.ShowRandomQuestion(State(), pick).waitingForAnswer
    {
      questionText.Some? && feedbackText.Some? && questionPanel.Some? && feedbackPanel.Some?
      && |questions| > 0
    }

    /** ShowRandomQuestion; the random index is any index of the question list. */
    method ShowRandomQuestion()
      requires Valid()
      modifies this
      ensures Valid()
      ensures exists pick :: S.ValidPick(old(State()), pick) && State() == S.ShowRandomQuestion(old(State()), pick)
    {
      if |questions| == 0 {
        assert S.ValidPick(State(), 0) && State() == S.ShowRandomQuestion(State(), 0);
        return;
      }
      ghost var before := State();
      var pick :| 0 <= pick < |questions|;
      currentQuestion := Some(questions[pick]);
      questionText := S.SetIfPresent(questionText, currentQuestion.value.questionText);
      questionPanel := S.SetIfPresent(questionPanel, true);
      feedbackPanel := S.SetIfPresent(feedbackPanel, false);
      waitingForAnswer := true;
      assert State() == S.ShowRandomQuestion(before, pick);
    }

    /** The editor command that shows a new question at once. */
    method ForceNewQuestion()
      requires Valid()
      modifies this
      ensures Valid()
      ensures exists pick :: S.ValidPick(old(State()), pick) && State() == S.ShowRandomQuestion(old(State()), pick)
    {
      ShowRandomQuestion();
    }

    /**
     * OnTargetDetected. The result records what happened: Ignored, Answered
     * with the verdict and the sound played, or Faulted when ShowFeedback threw.
     */
    method OnTargetDetected(targetName: string) returns (d: S.Detection)
      requires Valid()
      modifies this
      ensures Valid()
      ensures (State(), d) == S.OnTargetDetected(old(State()), targetName)
    {
      if !waitingForAnswer || currentQuestion.None? {
        return S.Ignored;
      }
      var isCorrect := IsCorrectAnswer(currentQuestion.value, targetName);
      var completed := ShowFeedback(isCorrect, targetName);
      if !completed {
        // The exception leaves the rest of the handler unrun.
        return S.Faulted;
      }
      var sound := S.SoundFor(audio, isCorrect);
      waitingForAnswer := false;
      pendingNext := pendingNext + 1;
      d := S.Answered(isCorrect, sound);
    }

    /** ShowFeedback; completed is false when an unassigned panel made it throw. */
    method ShowFeedback(isCorrect: bool, detectedTarget: string) returns (completed: bool)
      requires Valid()
      modifies this
      ensures Valid()
      ensures (State(), completed) == S.ShowFeedback(old(State()), isCorrect, detectedTarget)
    {
      feedbackText := S.SetIfPresent(feedbackText, FeedbackMessage(isCorrect, detectedTarget));
      if feedbackPanel.None? {
        return false;
      }
      feedbackPanel := Some(true);
      if questionPanel.None? {
        return false;
      }
      questionPanel := Some(false);
      correctModel3D := S.SetIfPresent(correctModel3D, false);
      incorrectModel3D := S.SetIfPresent(incorrectModel3D, false);
      if isCorrect {
        if correctModel3D.Some? {
          correctModel3D := Some(true);
        }
      } else {
        if incorrectModel3D.Some? {
          incorrectModel3D := Some(true);
        }
      }
      completed := true;
    }

    /** One scheduled ShowNextQuestionAfterDelay resumes after the feedback delay. */
    method ShowNextQuestionAfterDelay()
      requires Valid() && pendingNext > 0
      modifies this
      ensures Valid()
      ensures exists pick :: S.ValidPick(old(State()), pick) && State() == S.ShowNextQuestionAfterDelay(old(State()), pick)
    {
      ghost var before := State();
      pendingNext := pendingNext - 1;
      correctModel3D := S.SetIfPresent(correctModel3D, false);
      incorrectModel3D := S.SetIfPresent(incorrectModel3D, false);
      ghost var mid := State();
      ShowRandomQuestion();
      ghost var pick :| S.ValidPick(mid, pick) && State() == S.ShowRandomQuestion(mid, pick);
      assert S.ValidPick(before, pick) && State() == S.ShowNextQuestionAfterDelay(before, pick);
    }

    /** The scheduled StartFirstQuestionAfterDelay resumes after one second. */
    method StartFirstQuestionAfterDelay()
      requires Valid() && pendingFirst > 0
      modifies this
      ensures Valid()
      ensures exists pick :: S.ValidPick(old(State()), pick) && State() == S.StartFirstQuestionAfterDelay(old(State()), pick)
    {
      ghost var before := State();
      pendingFirst := pendingFirst - 1;
      ghost var mid := State();
      ShowRandomQuestion();
      ghost var pick :| S.ValidPick(mid, pick) && State() == S.ShowRandomQuestion(mid, pick);
      assert S.ValidPick(before, pick) && State() == S.StartFirstQuestionAfterDelay(before, pick);
    }

    method AddQuestion(newQuestion: Question)
      requires Valid()
      modifies this
      ensures Valid()
      ensures State() == S.AddQuestion(old(State()), newQuestion)
    {
      questions := questions + [newQuestion];
    }

    /** The current question; under the invariant it is one of the configured questions. */
    function GetCurrentQuestion(): (r: Option<Question>)
      reads this
      ensures Valid() && r.Some? ==> r.value in questions
      ensures Valid() && waitingForAnswer ==> r.Some?
    {
      currentQuestion
    }

    /**
     * RegisterTargetValidator over the validator's identity. Binding the
     * validator back to this controller is the validator's side of the call.
     */
    method RegisterTargetValidator(validator: S.ValidatorId)
      requires Valid()
      modifies this
      ensures Valid()
      ensures State() == S.RegisterTargetValidator(old(State()), validator)
    {
      if validator !in targetValidators {
        targetValidators := targetValidators + [validator];
      }
    }
  }
}
