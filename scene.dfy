/**
 * The controller and its target validators together: the start-up binding
 * of discovered validators, traces of found/lost events and feedback delays
 * through the whole scene, and a concrete quiz round driven through the
 * objects.
 */
module Scene {

  import opened Wrappers
  import opened Questions
  import opened SessionSpec
  import T = TrackingSpec
  import Session
  import Targets

  /** Something the host runtime delivers: a validator's target found or lost, or one feedback delay elapsing. */
  datatype SceneEvent = TargetFound(v: nat) | TargetLost(v: nat) | DelayElapsed(pick: nat)

  /** The controller and the tracking state of each validator; a bound validator notifies this controller. */
  datatype World = World(controller: Controller, trackers: seq<T.Tracker>)

  /** One event; also returns the controller's answer when a notification was sent. */
  function Step(w: World, e: SceneEvent): (World, Option<Detection>)
  {
    match e
    case TargetFound(v) =>
      if v >= |w.trackers| then (w, None)
      else
        var (t, notify) := T.Found(w.trackers[v]);
        if notify then
          var (c, d) := OnTargetDetected(w.controller, t.targetName);
          (World(c, w.trackers[v := t]), Some(d))
        else (w.(trackers := w.trackers[v := t]), None)
    case TargetLost(v) =>
      if v >= |w.trackers| then (w, None)
      else (w.(trackers := w.trackers[v := T.Lost(w.trackers[v])]), None)
    case DelayElapsed(pick) =>
      // Only a scheduled continuation can resume, with a valid random index.
      if w.controller.pendingNext > 0 && ValidPick(w.controller, pick)
      then (w.(controller := ShowNextQuestionAfterDelay(w.controller, pick)), None)
      else (w, None)
  }

  /** Runs a trace of events; returns the final world and the controller's answers in order. */
  function Run(w: World, events: seq<SceneEvent>): (World, seq<Detection>)
    decreases events
  {
    if events == [] then (w, [])
    else
      var (w1, out) := Step(w, events[0]);
      var (w2, ds) := Run(w1, events[1..]);
      (w2, (if out.Some? then [out.value] else []) + ds)
  }

  function CountAnswered(ds: seq<Detection>): nat
  {
    if ds == [] then 0 else (if ds[0].Answered? then 1 else 0) + CountAnswered(ds[1..])
  }

  function CountDelays(events: seq<SceneEvent>): nat
  {
    if events == [] then 0 else (if events[0].DelayElapsed? then 1 else 0) + CountDelays(events[1..])
  }

  function Awaiting(w: World): nat
  {
    if w.controller.waitingForAnswer then 1 else 0
  }

  /** The events of a trace that concern validator v, as that validator sees them. */
  function EventsOf(events: seq<SceneEvent>, v: nat): seq<T.TrackingEvent>
  {
    if events == [] then []
    else
      (match events[0]
       case TargetFound(u) => if u == v then [T.FoundEvent] else []
       case TargetLost(u) => if u == v then [T.LostEvent] else []
       case DelayElapsed(_) => [])
      + EventsOf(events[1..], v)
  }

  lemma CountAnsweredAppend(a: seq<Detection>, b: seq<Detection>)
    ensures CountAnswered(a + b) == CountAnswered(a) + CountAnswered(b)
  {
    if a != [] {
      assert (a + b)[0] == a[0] && (a + b)[1..] == a[1..] + b;
      CountAnsweredAppend(a[1..], b);
    } else {
      assert a + b == b;
    }
  }

  lemma StepKeepsConfig(w: World, e: SceneEvent)
    ensures var w1 := Step(w, e).0;
      SameConfig(w.controller, w1.controller) && |w1.trackers| == |w.trackers|
      && (Inv(w.controller) ==> Inv(w1.controller))
  {
  }

  /**
   * Answers are paid for by questions: over any trace, the answers given plus
   * an answer still awaited never exceed the answer awaited at the start plus
   * the feedback delays that elapsed.
   */
  lemma {:induction false} AnswersNeedQuestions(w: World, events: seq<SceneEvent>)
    ensures var (w1, ds) := Run(w, events);
            CountAnswered(ds) + Awaiting(w1) <= Awaiting(w) + CountDelays(events)
    decreases events
  {
    if events != [] {
      var (w1, out) := Step(w, events[0]);
      var (w2, ds) := Run(w1, events[1..]);
      AnswersNeedQuestions(w1, events[1..]);
      var head := if out.Some? then [out.value] else [];
      CountAnsweredAppend(head, ds);
    }
  }

  /** Without a feedback delay elapsing, a trace yields at most one answer. */
  lemma AtMostOneAnswerPerQuestion(w: World, events: seq<SceneEvent>)
    requires CountDelays(events) == 0
    ensures CountAnswered(Run(w, events).1) <= 1
  {
    AnswersNeedQuestions(w, events);
  }

  /** Once no answer is awaited, and until a delay elapses, every notification is ignored. */
  lemma {:induction false} IgnoredUntilNextQuestion(w: World, events: seq<SceneEvent>)
    requires !w.controller.waitingForAnswer && CountDelays(events) == 0
    ensures var (w1, ds) := Run(w, events);
      && !w1.controller.waitingForAnswer && w1.controller == w.controller
      && forall k :: 0 <= k < |ds| ==> ds[k] == Ignored
    decreases events
  {
    if events != [] {
      var (w1, out) := Step(w, events[0]);
      IgnoredUntilNextQuestion(w1, events[1..]);
    }
  }

  /**
   * While a question awaits its answer and both panels are assigned, the
   * first notification of a trace without delays is answered and every later
   * one is ignored.
   */
  lemma {:induction false} FirstNotificationAnswers(w: World, events: seq<SceneEvent>)
    requires w.controller.waitingForAnswer && w.controller.currentQuestion.Some?
    requires PanelsAssigned(w.controller) && CountDelays(events) == 0
    ensures var ds := Run(w, events).1;
      && (|ds| > 0 ==> ds[0].Answered?)
      && forall k :: 1 <= k < |ds| ==> ds[k] == Ignored
    decreases events
  {
    if events != [] {
      var (w1, out) := Step(w, events[0]);
      StepKeepsConfig(w, events[0]);
      if out.Some? {
        IgnoredUntilNextQuestion(w1, events[1..]);
      } else {
        FirstNotificationAnswers(w1, events[1..]);
      }
    }
  }

  /** Each validator in the scene ends in the state its own found/lost events lead it to. */
  lemma {:induction false} TrackerFollowsItsEvents(w: World, events: seq<SceneEvent>, v: nat)
    requires v < |w.trackers|
    ensures |Run(w, events).0.trackers| == |w.trackers|
    ensures Run(w, events).0.trackers[v] == T.RunEvents(w.trackers[v], EventsOf(events, v)).0
    decreases events
  {
    if events != [] {
      var (w1, out) := Step(w, events[0]);
      StepKeepsConfig(w, events[0]);
      TrackerFollowsItsEvents(w1, events[1..], v);
      var mine := EventsOf(events, v);
      if events[0] == TargetFound(v) || events[0] == TargetLost(v) {
        assert mine[1..] == EventsOf(events[1..], v);
      } else {
        assert mine == EventsOf(events[1..], v);
      }
    }
  }

  /**
   * The polling validator's effect, chosen a frame after an answered
   * detection, agrees with the controller's verdict.
   */
  lemma EffectAgreesWithVerdict(c: Controller, targetName: string, hasCorrectEffect: bool, hasIncorrectEffect: bool)
    requires OnTargetDetected(c, targetName).1.Answered?
    ensures var (d, det) := OnTargetDetected(c, targetName);
      var shown := T.EffectToShow(targetName, d.currentQuestion, hasCorrectEffect, hasIncorrectEffect);
      && (shown.Some? ==> (shown.value == T.CorrectAnswerEffect <==> det.isCorrect))
      && (hasCorrectEffect && hasIncorrectEffect ==> shown.Some?)
  {
  }

  /**
   * The effect does not consult the controller's verdict: a detection the
   * controller ignores, because the answer was already given, still gets the
   * effect of the current question whenever that effect is assigned.
   */
  lemma EffectShownForIgnoredDetection(c: Controller, targetName: string, hasCorrectEffect: bool, hasIncorrectEffect: bool)
    requires !c.waitingForAnswer && c.currentQuestion.Some?
    requires if IsCorrectAnswer(c.currentQuestion.value, targetName) then hasCorrectEffect else hasIncorrectEffect
    ensures OnTargetDetected(c, targetName) == (c, Ignored)
    ensures T.EffectToShow(targetName, c.currentQuestion, hasCorrectEffect, hasIncorrectEffect).Some?
  {
  }

  /** The validators' identities, in the order they were discovered. */
  function Ids(validators: seq<Targets.TargetValidator>): (ids: seq<ValidatorId>)
    ensures |ids| == |validators|
    ensures forall k :: 0 <= k < |validators| ==> ids[k] == validators[k].id
  {
    if validators == [] then [] else [validators[0].id] + Ids(validators[1..])
  }

  /**
   * The controller's Start over the validators the scene search found: they
   * are added to its list, and each one is bound to the controller.
   */
  method StartController(qm: Session.QuestionManager, discovered: seq<Targets.TargetValidator>)
    requires qm.Valid()
    modifies qm, discovered
    ensures qm.Valid() && qm.State() == Start(old(qm.State()), Ids(discovered))
    ensures forall k :: 0 <= k < |discovered| ==> discovered[k].questionManager == qm
    ensures forall k :: 0 <= k < |discovered| ==>
              discovered[k].targetName == old(discovered[k].targetName)
              && discovered[k].isTracking == old(discovered[k].isTracking)
  {
    qm.Start(Ids(discovered));
    for i := 0 to |discovered|
      modifies discovered
      invariant forall k :: 0 <= k < i ==> discovered[k].questionManager == qm
      invariant forall k :: 0 <= k < |discovered| ==>
                  discovered[k].targetName == old(discovered[k].targetName)
                  && discovered[k].isTracking == old(discovered[k].isTracking)
    {
      discovered[i].SetQuestionManager(qm);
    }
  }

  /** The ball answers the awaited question; the box, found during the feedback, is ignored. */
  method AnswerThenIgnore(qm: Session.QuestionManager, ball: Targets.TargetValidator, box: Targets.TargetValidator,
                          round: Question)
    returns (first: Option<string>, during: Detection)
    requires qm.Valid() && qm.currentQuestion == Some(round) && qm.waitingForAnswer
    requires PanelsAssigned(qm.State()) && qm.feedbackText.Some? && !qm.audio.hasSource
    requires round.correctAnswerTargetName == "Ball" && ball != box
    requires ball.questionManager == qm && ball.targetName == "Ball" && !ball.isTracking
    requires box.questionManager == qm && box.targetName == "Box" && !box.isTracking
    modifies qm, ball, box
    ensures first == Some("Correct!") && during == Ignored
    ensures qm.Valid() && qm.questions == old(qm.questions) && qm.pendingNext == old(qm.pendingNext) + 1
    ensures PanelsAssigned(qm.State()) && qm.feedbackText.Some?
    ensures box.questionManager == qm && box.targetName == "Box" && box.isTracking
  {
    BallScenarioFeedback(round.possibleTargets);
    ghost var before := qm.State();
    assert OnTargetDetected(before, "Ball").1 == Answered(true, None);
    assert OnTargetDetected(before, "Ball").0.feedbackText == Some("Correct!");
    var sent := ball.OnTargetFound();
    assert sent == Some(Answered(true, None));
    first := qm.feedbackText;
    sent := box.Saludar();
    during := sent.value;
  }

  /** After the feedback delay the only question is asked again; the box, lost and found again, answers it wrongly. */
  method NextQuestionWrongAnswer(qm: Session.QuestionManager, box: Targets.TargetValidator, round: Question)
    returns (second: Option<string>)
    requires qm.Valid() && qm.questions == [round] && qm.pendingNext > 0
    requires PanelsAssigned(qm.State()) && qm.feedbackText.Some? && !qm.audio.hasSource
    requires round.correctAnswerTargetName == "Ball"
    requires box.questionManager == qm && box.targetName == "Box"
    modifies qm, box
    ensures second == Some("Incorrect. That's a: Box")
  {
    BallScenarioFeedback(round.possibleTargets);
    qm.ShowNextQuestionAfterDelay();
    assert qm.currentQuestion == Some(round) && qm.waitingForAnswer;
    box.LimpiarTexto();
    ghost var before := qm.State();
    assert OnTargetDetected(before, "Box").1 == Answered(false, None);
    assert OnTargetDetected(before, "Box").0.feedbackText == Some("Incorrect. That's a: Box");
    var sent := box.OnTargetFound();
    second := qm.feedbackText;
  }

  /**
   * One question, "What is round?" answered by "Ball". The ball is found:
   * "Correct!". The box is found during the feedback: ignored. After the
   * feedback delay the box, lost and found again, is answered wrongly.
   */
  method BallAndBoxRound() returns (first: Option<string>, during: Detection, second: Option<string>)
    ensures first == Some("Correct!")
    ensures during == Ignored
    ensures second == Some("Incorrect. That's a: Box")
  {
    var round := Question("What is round?", "Ball", ["Ball", "Box"]);
    var qm := new Session.QuestionManager(Some(""), Some(""), Some(false), Some(false), None, None,
                                          AudioConfig(false, false, false), [round]);
    qm.Start([]);
    qm.StartFirstQuestionAfterDelay();
    assert qm.currentQuestion == Some(round) && qm.waitingForAnswer;
    var ball := new Targets.TargetValidator(1, "BallTarget", "Ball");
    var box := new Targets.TargetValidator(2, "BoxTarget", "");
    box.SetTargetName("Box");
    ball.Start(qm);
    box.Start(qm);
    first, during := AnswerThenIgnore(qm, ball, box, round);
    second := NextQuestionWrongAnswer(qm, box, round);
  }
}
