/**
 * The polling target validator: each frame it compares its object's active
 * flag with its tracking flag; on a rising edge it notifies the session
 * controller and, a frame later, shows the correct- or incorrect-answer
 * effect for effectDuration.
 */
module SimpleTargets {

  import opened Wrappers
  import S = SessionSpec
  import T = TrackingSpec
  import Questions
  import Session

  class SimpleTargetValidator {
    const id: S.ValidatorId
    /** The name of the object the validator sits on. */
    const objectName: string
    var targetName: string
    var correctAnswerEffect: Option<bool>
    var incorrectAnswerEffect: Option<bool>
    var questionManager: Session.QuestionManager?
    var isTracking: bool

    /** ShowFeedbackEffect coroutines started and waiting for their first frame. */
    var pendingEffectChecks: nat
    /** Effects shown and waiting for effectDuration to elapse. */
    var pendingHides: multiset<T.Effect>

    function Tracker(): T.Tracker
      reads this
    {
      T.Tracker(targetName, isTracking, questionManager != null)
    }

    /** The effect object for an effect kind. */
    function EffectSlot(e: T.Effect): Option<bool>
      reads this
    {
      match e
      case CorrectAnswerEffect => correctAnswerEffect
      case IncorrectAnswerEffect => incorrectAnswerEffect
    }

    constructor (id: S.ValidatorId, objectName: string, configuredName: string,
                 correctAnswerEffect: Option<bool>, incorrectAnswerEffect: Option<bool>)
      ensures this.id == id && this.objectName == objectName && targetName == configuredName
      ensures this.correctAnswerEffect == correctAnswerEffect && this.incorrectAnswerEffect == incorrectAnswerEffect
      ensures !isTracking && questionManager == null
      ensures pendingEffectChecks == 0 && pendingHides == multiset{}
    {
      this.id := id;
      this.objectName := objectName;
      targetName := configuredName;
      this.correctAnswerEffect := correctAnswerEffect;
      this.incorrectAnswerEffect := incorrectAnswerEffect;
      questionManager := null;
      isTracking := false;
      pendingEffectChecks := 0;
      pendingHides := multiset{};
    }

    /**
     * Start, given the controller the scene search found (or null): an empty
     * name becomes the object's name, both effects are switched off, and a
     * found controller is bound and registers this validator.
     */
    method Start(found: Session.QuestionManager?)
      requires found != null ==> found.Valid()
      modifies this, found
      ensures targetName == T.DefaultName(old(targetName), objectName)
      ensures correctAnswerEffect == S.SetIfPresent(old(correctAnswerEffect), false)
      ensures incorrectAnswerEffect == S.SetIfPresent(old(incorrectAnswerEffect), false)
      ensures questionManager == found && isTracking == old(isTracking)
      ensures pendingEffectChecks == old(pendingEffectChecks) && pendingHides == old(pendingHides)
      ensures found != null ==>
                found.Valid() && found.State() == S.RegisterTargetValidator(old(found.State()), id)
    {
      if targetName == "" {
        targetName := objectName;
      }
      correctAnswerEffect := S.SetIfPresent(correctAnswerEffect, false);
      incorrectAnswerEffect := S.SetIfPresent(incorrectAnswerEffect, false);
      questionManager := found;
      if found != null {
        found.RegisterTargetValidator(id);
      }
    }

    /**
     * One frame's Update, given whether the object is active in the hierarchy.
     * sent is the controller's answer to a notification, None when none was sent.
     */
    method Update(currentlyActive: bool) returns (sent: Option<S.Detection>)
      requires questionManager != null ==> questionManager.Valid()
      modifies this, questionManager
      ensures Tracker() == T.Poll(old(Tracker()), currentlyActive).0
      ensures questionManager == old(questionManager)
      ensures sent.Some? <==> T.Poll(old(Tracker()), currentlyActive).1
      ensures questionManager != null ==> questionManager.Valid()
      ensures sent.None? && questionManager != null ==> questionManager.State() == old(questionManager.State())
      ensures sent.Some? ==>
                (questionManager.State(), sent.value) == S.OnTargetDetected(old(questionManager.State()), targetName)
      ensures pendingEffectChecks == old(pendingEffectChecks) + if sent.Some? && !sent.value.Faulted? then 1 else 0
      ensures correctAnswerEffect == old(correctAnswerEffect) && incorrectAnswerEffect == old(incorrectAnswerEffect)
      ensures pendingHides == old(pendingHides)
    {
      sent := None;
      if currentlyActive && !isTracking {
        sent := OnTrackingFound();
      } else if !currentlyActive && isTracking {
        OnTrackingLost();
      }
    }

    method SetQuestionManager(manager: Session.QuestionManager?)
      modifies this`questionManager
      ensures questionManager == manager
    {
      questionManager := manager;
    }

    /**
     * OnTrackingFound: on a rising edge with a bound controller, notifies it and
     * starts ShowFeedbackEffect, unless the notification threw.
     */
    method OnTrackingFound() returns (sent: Option<S.Detection>)
      requires questionManager != null ==> questionManager.Valid()
      modifies this, questionManager
      ensures Tracker() == T.Found(old(Tracker())).0
      ensures questionManager == old(questionManager)
      ensures sent.Some? <==> T.Found(old(Tracker())).1
      ensures questionManager != null ==> questionManager.Valid()
      ensures sent.None? && questionManager != null ==> questionManager.State() == old(questionManager.State())
      ensures sent.Some? ==>
                (questionManager.State(), sent.value) == S.OnTargetDetected(old(questionManager.State()), targetName)
      ensures pendingEffectChecks == old(pendingEffectChecks) + if sent.Some? && !sent.value.Faulted? then 1 else 0
      ensures correctAnswerEffect == old(correctAnswerEffect) && incorrectAnswerEffect == old(incorrectAnswerEffect)
      ensures pendingHides == old(pendingHides)
    {
      sent := None;
      if !isTracking {
        isTracking := true;
        if questionManager != null {
          var d := questionManager.OnTargetDetected(targetName);
          sent := Some(d);
          if !d.Faulted? {
            pendingEffectChecks := pendingEffectChecks + 1;
          }
        }
      }
    }

    method OnTrackingLost()
      modifies this`isTracking
      ensures Tracker() == T.Lost(old(Tracker()))
    {
      if isTracking {
        isTracking := false;
      }
    }

    method OnTargetFound() returns (sent: Option<S.Detection>)
      requires questionManager != null ==> questionManager.Valid()
      modifies this, questionManager
      ensures Tracker() == T.Found(old(Tracker())).0
      ensures questionManager == old(questionManager)
      ensures sent.Some? <==> T.Found(old(Tracker())).1
      ensures questionManager != null ==> questionManager.Valid()
      ensures sent.None? && questionManager != null ==> questionManager.State() == old(questionManager.State())
      ensures sent.Some? ==>
                (questionManager.State(), sent.value) == S.OnTargetDetected(old(questionManager.State()), targetName)
      ensures pendingEffectChecks == old(pendingEffectChecks) + if sent.Some? && !sent.value.Faulted? then 1 else 0
      ensures correctAnswerEffect == old(correctAnswerEffect) && incorrectAnswerEffect == old(incorrectAnswerEffect)
      ensures pendingHides == old(pendingHides)
    {
      sent := OnTrackingFound();
    }

    method OnTargetLost()
      modifies this`isTracking
      ensures Tracker() == T.Lost(old(Tracker()))
    {
      OnTrackingLost();
    }

    /**
     * ShowFeedbackEffect resumes on the frame after it started: it asks the
     * bound controller for its current question and shows the effect chosen
     * for it, which is then waiting to be hidden.
     */
    method ShowFeedbackEffect()
      requires pendingEffectChecks > 0
      modifies this`pendingEffectChecks, this`pendingHides, this`correctAnswerEffect, this`incorrectAnswerEffect
      ensures pendingEffectChecks == old(pendingEffectChecks) - 1
      ensures var shown := T.EffectToShow(targetName,
                                          if questionManager == null then None else questionManager.currentQuestion,
                                          old(correctAnswerEffect).Some?, old(incorrectAnswerEffect).Some?);
        && (shown.None? ==>
              && pendingHides == old(pendingHides)
              && correctAnswerEffect == old(correctAnswerEffect)
              && incorrectAnswerEffect == old(incorrectAnswerEffect))
        && (shown.Some? ==>
              && pendingHides == old(pendingHides) + multiset{shown.value}
              && EffectSlot(shown.value) == Some(true)
              && (shown.value == T.CorrectAnswerEffect ==> incorrectAnswerEffect == old(incorrectAnswerEffect))
              && (shown.value == T.IncorrectAnswerEffect ==> correctAnswerEffect == old(correctAnswerEffect)))
    {
      pendingEffectChecks := pendingEffectChecks - 1;
      if questionManager != null {
        var currentQuestion := questionManager.GetCurrentQuestion();
        if currentQuestion.Some? {
          var isCorrect := Questions.IsCorrectAnswer(currentQuestion.value, targetName);
          if isCorrect {
            if correctAnswerEffect.Some? {
              correctAnswerEffect := Some(true);
              pendingHides := pendingHides + multiset{T.CorrectAnswerEffect};
            }
          } else {
            if incorrectAnswerEffect.Some? {
              incorrectAnswerEffect := Some(true);
              pendingHides := pendingHides + multiset{T.IncorrectAnswerEffect};
            }
          }
        }
      }
    }

    /** effectDuration has elapsed for one shown effect: it is switched off. */
    method EffectDurationElapsed(e: T.Effect)
      requires e in pendingHides
      modifies this`pendingHides, this`correctAnswerEffect, this`incorrectAnswerEffect
      ensures pendingHides == old(pendingHides) - multiset{e}
      ensures EffectSlot(e) == S.SetIfPresent(old(EffectSlot(e)), false)
      ensures e == T.CorrectAnswerEffect ==> incorrectAnswerEffect == old(incorrectAnswerEffect)
      ensures e == T.IncorrectAnswerEffect ==> correctAnswerEffect == old(correctAnswerEffect)
    {
      pendingHides := pendingHides - multiset{e};
      match e
      case CorrectAnswerEffect =>
        correctAnswerEffect := S.SetIfPresent(correctAnswerEffect, false);
      case IncorrectAnswerEffect =>
        incorrectAnswerEffect := S.SetIfPresent(incorrectAnswerEffect, false);
    }

    method SetTargetName(newName: string)
      modifies this`targetName
      ensures GetTargetName() == newName
    {
      targetName := newName;
    }

    function GetTargetName(): (n: string)
      reads this
      ensures n == Tracker().targetName
    {
      targetName
    }

    function IsTracking(): (b: bool)
      reads this
      ensures b == Tracker().isTracking
    {
      isTracking
    }

    /** The editor command that simulates a detection. */
    method ForceDetection() returns (sent: Option<S.Detection>)
      requires questionManager != null ==> questionManager.Valid()
      modifies this, questionManager
      ensures Tracker() == T.Found(old(Tracker())).0
      ensures questionManager == old(questionManager)
      ensures sent.Some? <==> T.Found(old(Tracker())).1
      ensures questionManager != null ==> questionManager.Valid()
      ensures sent.None? && questionManager != null ==> questionManager.State() == old(questionManager.State())
      ensures sent.Some? ==>
                (questionManager.State(), sent.value) == S.OnTargetDetected(old(questionManager.State()), targetName)
      ensures pendingEffectChecks == old(pendingEffectChecks) + if sent.Some? && !sent.value.Faulted? then 1 else 0
      ensures correctAnswerEffect == old(correctAnswerEffect) && incorrectAnswerEffect == old(incorrectAnswerEffect)
      ensures pendingHides == old(pendingHides)
    {
      sent := OnTrackingFound();
    }
  }
}
