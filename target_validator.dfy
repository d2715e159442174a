/**
 * The event-driven target validator: the tracking collaborator calls its
 * found/lost entry points, and it notifies the session controller once per
 * rising edge of its tracking flag.
 */
module Targets {

  import opened Wrappers
  import S = SessionSpec
  import T = TrackingSpec
  import Session

  class TargetValidator {
    const id: S.ValidatorId
    /** The name of the object the validator sits on. */
    const objectName: string
    var targetName: string
    var questionManager: Session.QuestionManager?
    var isTracking: bool

    /** The tracking state as a value. */
    function Tracker(): T.Tracker
      reads this
    {
      T.Tracker(targetName, isTracking, questionManager != null)
    }

    constructor (id: S.ValidatorId, objectName: string, configuredName: string)
      ensures this.id == id && this.objectName == objectName
      ensures targetName == configuredName && !isTracking && questionManager == null
    {
      this.id := id;
      this.objectName := objectName;
      targetName := configuredName;
      questionManager := null;
      isTracking := false;
    }

    /**
     * Start, given the controller the scene search found (or null): an empty
     * name becomes the object's name, and a found controller is bound and
     * registers this validator.
     */
    method Start(found: Session.QuestionManager?)
      requires found != null ==> found.Valid()
      modifies this, found
      ensures targetName == T.DefaultName(old(targetName), objectName)
      ensures questionManager == found && isTracking == old(isTracking)
      ensures found != null ==>
                found.Valid() && found.State() == S.RegisterTargetValidator(old(found.State()), id)
    {
      if targetName == "" {
        targetName := objectName;
      }
      questionManager := found;
      if found != null {
        // Registration binds a new validator back to `found`, which it already is.
        found.RegisterTargetValidator(id);
      }
    }

    method SetQuestionManager(manager: Session.QuestionManager?)
      modifies this`questionManager
      ensures questionManager == manager
    {
      questionManager := manager;
    }

    /**
     * OnTrackingFound. sent is the controller's answer to the notification,
     * None when no notification was sent.
     */
    method OnTrackingFound() returns (sent: Option<S.Detection>)
      requires questionManager != null ==> questionManager.Valid()
      modifies this, questionManager
      ensures Tracker() == T.Found(old(Tracker())).0
      ensures questionManager == old(questionManager)
      ensures sent.Some? <==> T.Found(old(Tracker())).1
      ensures questionManager != null ==> questionManager.Valid()
      ensures sent.None? && questionManager != null ==> questionManager.State() == old(questionManager.State())
      ensures sent.Some? ==>
                (questionManager.State(), sent.value) == S.OnTargetDetected(old(questionManager.State()), targetName)
    {
      sent := None;
      if !isTracking {
        isTracking := true;
        if questionManager != null {
          var d := questionManager.OnTargetDetected(targetName);
          sent := Some(d);
        }
      }
    }

    method OnTrackingLost()
      modifies this`isTracking
      ensures Tracker() == T.Lost(old(Tracker()))
    {
      if isTracking {
        isTracking := false;
      }
    }

    /** Entry point for the tracking collaborator's "found" event. */
    method OnTargetFound() returns (sent: Option<S.Detection>)
      requires questionManager != null ==> questionManager.Valid()
      modifies this, questionManager
      ensures Tracker() == T.Found(old(Tracker())).0
      ensures questionManager == old(questionManager)
      ensures sent.Some? <==> T.Found(old(Tracker())).1
      ensures questionManager != null ==> questionManager.Valid()
      ensures sent.None? && questionManager != null ==> questionManager.State() == old(questionManager.State())
      ensures sent.Some? ==>
                (questionManager.State(), sent.value) == S.OnTargetDetected(old(questionManager.State()), targetName)
    {
      sent := OnTrackingFound();
    }

    /** Entry point for the tracking collaborator's "lost" event. */
    method OnTargetLost()
      modifies this`isTracking
      ensures Tracker() == T.Lost(old(Tracker()))
    {
      OnTrackingLost();
    }

    /** A second "found" entry point, wired to a scene event. */
    method Saludar() returns (sent: Option<S.Detection>)
      requires questionManager != null ==> questionManager.Valid()
      modifies this, questionManager
      ensures Tracker() == T.Found(old(Tracker())).0
      ensures questionManager == old(questionManager)
      ensures sent.Some? <==> T.Found(old(Tracker())).1
      ensures questionManager != null ==> questionManager.Valid()
      ensures sent.None? && questionManager != null ==> questionManager.State() == old(questionManager.State())
      ensures sent.Some? ==>
                (questionManager.State(), sent.value) == S.OnTargetDetected(old(questionManager.State()), targetName)
    {
      sent := OnTrackingFound();
    }

    /** A second "lost" entry point, wired to a scene event. */
    method LimpiarTexto()
      modifies this`isTracking
      ensures Tracker() == T.Lost(old(Tracker()))
    {
      OnTrackingLost();
    }

    method SetTargetName(newName: string)
      modifies this`targetName
      ensures GetTargetName() == newName
    {
      targetName := newName;
    }

    function GetTargetName(): (n: string)
      reads this
      ensures n == Tracker().targetName
    {
      targetName
    }

    function IsTracking(): (b: bool)
      reads this
      ensures b == Tracker().isTracking
    {
      isTracking
    }
  }
}
