/**
 * The quiz session controller (QuestionManager) as a state value and one
 * function per operation. The class QuestionManager is proved against these
 * functions; the properties of the session are stated here.
 *
 * Every optional scene reference is an Option: None is a reference left
 * unassigned, Some(active) a panel or 3D model with its active flag, and
 * Some(text) a label with its text.
 */
module SessionSpec {

  import opened Wrappers
  import opened Questions

  /** The identity of a target validator, as far as registration is concerned. */
  type ValidatorId = nat

  datatype Sound = CorrectSound | IncorrectSound

  /** Which audio references are assigned. */
  datatype AudioConfig = AudioConfig(hasSource: bool, hasCorrectClip: bool, hasIncorrectClip: bool)

  /** What became of a detection handed to the controller. */
  datatype Detection =
    | Ignored                                      // no answer was awaited
    | Answered(isCorrect: bool, sound: Option<Sound>)
    | Faulted                                      // a panel was unassigned: ShowFeedback threw

  datatype Controller = Controller(
    questionText: Option<string>,
    feedbackText: Option<string>,
    questionPanel: Option<bool>,
    feedbackPanel: Option<bool>,
    correctModel: Option<bool>,
    incorrectModel: Option<bool>,
    audio: AudioConfig,
    questions: seq<Question>,
    currentQuestion: Option<Question>,
    waitingForAnswer: bool,
    targetValidators: seq<ValidatorId>,
    pendingFirst: nat,   // scheduled StartFirstQuestionAfterDelay coroutines
    pendingNext: nat)    // scheduled ShowNextQuestionAfterDelay coroutines

  /** Writing to a reference that is assigned; an unassigned one stays unassigned. */
  function SetIfPresent<T>(slot: Option<T>, v: T): (r: Option<T>)
    ensures r.Some? <==> slot.Some?
    ensures r.Some? ==> r.value == v
  {
    if slot.Some? then Some(v) else None
  }

  /** The two controllers have the same references assigned and the same audio set-up. */
  predicate SameConfig(c: Controller, d: Controller)
  {
    && c.questionText.Some? == d.questionText.Some?
    && c.feedbackText.Some? == d.feedbackText.Some?
    && c.questionPanel.Some? == d.questionPanel.Some?
    && c.feedbackPanel.Some? == d.feedbackPanel.Some?
    && c.correctModel.Some? == d.correctModel.Some?
    && c.incorrectModel.Some? == d.incorrectModel.Some?
    && c.audio == d.audio
  }

  /** The session invariant: the current question is a configured one, and an answer is awaited only for a current question. */
  predicate Inv(c: Controller)
  {
    && (c.currentQuestion.Some? ==> c.currentQuestion.value in c.questions)
    && (c.waitingForAnswer ==> c.currentQuestion.Some?)
  }

  predicate NoDuplicates<T(==)>(s: seq<T>)
  {
    forall i, j :: 0 <= i < j < |s| ==> s[i] != s[j]
  }

  /** Both panels are assigned, so showing feedback cannot throw. */
  predicate PanelsAssigned(c: Controller)
  {
    c.questionPanel.Some? && c.feedbackPanel.Some?
  }

  /** The four UI references are assigned and there is a question to ask. */
  predicate IsSystemReady(c: Controller): (r: bool)
    ensures r ==> PanelsAssigned(c) && c.questions != []
    ensures r ==> forall pick :: 0 <= pick < |c.questions| ==> ShowRandomQuestion(c, pick).waitingForAnswer
  {
    && c.questionText.Some? && c.feedbackText.Some?
    && c.questionPanel.Some? && c.feedbackPanel.Some?
    && |c.questions| > 0
  }

  /** A pick the random choice can make: an index of a question, or anything when there are none. */
  predicate ValidPick(c: Controller, pick: nat)
  {
    c.questions == [] || pick < |c.questions|
  }

  /**
   * Start: adds the discovered validators (without removing duplicates),
   * switches off both panels and both models, and schedules the first question
   * when the system is ready.
   */
  function Start(c: Controller, discovered: seq<ValidatorId>): (r: Controller)
    ensures SameConfig(c, r)
    ensures r.targetValidators == c.targetValidators + discovered
    ensures r.questionPanel != Some(true) && r.feedbackPanel != Some(true)
    ensures r.correctModel != Some(true) && r.incorrectModel != Some(true)
    ensures r.pendingFirst == if IsSystemReady(c) then c.pendingFirst + 1 else c.pendingFirst
    ensures r.questionPanel == SetIfPresent(c.questionPanel, false)
    ensures r.feedbackPanel == SetIfPresent(c.feedbackPanel, false)
    ensures r.questionText == c.questionText && r.feedbackText == c.feedbackText
    ensures r.questions == c.questions && r.currentQuestion == c.currentQuestion
    ensures r.waitingForAnswer == c.waitingForAnswer && r.pendingNext == c.pendingNext
    ensures Inv(c) ==> Inv(r)
  {
    var c1 := c.(targetValidators := c.targetValidators + discovered,
                 questionPanel := SetIfPresent(c.questionPanel, false),
                 feedbackPanel := SetIfPresent(c.feedbackPanel, false),
                 correctModel := SetIfPresent(c.correctModel, false),
                 incorrectModel := SetIfPresent(c.incorrectModel, false));
    if IsSystemReady(c1) then c1.(pendingFirst := c1.pendingFirst + 1) else c1
  }

  /**
   * ShowRandomQuestion with the random index `pick`: with no questions nothing
   * changes; otherwise a configured question becomes current, its text is
   * shown, the question panel is on, the feedback panel off, and an answer is
   * awaited.
   */
  function ShowRandomQuestion(c: Controller, pick: nat): (r: Controller)
    requires ValidPick(c, pick)
    ensures c.questions == [] ==> r == c
    ensures c.questions != [] ==>
      && r.currentQuestion.Some? && r.currentQuestion.value in c.questions
      && r.waitingForAnswer
      && r.questionText == SetIfPresent(c.questionText, r.currentQuestion.value.questionText)
      && r.questionPanel == SetIfPresent(c.questionPanel, true)
      && r.feedbackPanel == SetIfPresent(c.feedbackPanel, false)
      && r == c.(currentQuestion := r.currentQuestion, waitingForAnswer := true,
                 questionText := r.questionText, questionPanel := r.questionPanel,
                 feedbackPanel := r.feedbackPanel)
    ensures SameConfig(c, r) && Inv(r) == (Inv(c) || c.questions != [])
  {
    if |c.questions| == 0 then c
    else
      var q := c.questions[pick];
      c.(currentQuestion := Some(q),
         questionText := SetIfPresent(c.questionText, q.questionText),
         questionPanel := SetIfPresent(c.questionPanel, true),
         feedbackPanel := SetIfPresent(c.feedbackPanel, false),
         waitingForAnswer := true)
  }

  /**
   * ShowFeedback: writes the feedback text, then switches the feedback panel
   * on and the question panel off, then shows only the 3D model that matches
   * the verdict. The two panel calls are not guarded: with either panel
   * unassigned the call throws there (completed = false), after the steps
   * before it took effect.
   */
  function ShowFeedback(c: Controller, isCorrect: bool, detectedTarget: string): (r: (Controller, bool))
    ensures var (d, completed) := r;
      && SameConfig(c, d)
      && d.feedbackText == SetIfPresent(c.feedbackText, FeedbackMessage(isCorrect, detectedTarget))
      && (completed <==> PanelsAssigned(c))
      && (completed ==>
            && d.feedbackPanel == Some(true) && d.questionPanel == Some(false)
            && d.correctModel == SetIfPresent(c.correctModel, isCorrect)
            && d.incorrectModel == SetIfPresent(c.incorrectModel, !isCorrect))
      && (!completed ==>
            && d.questionPanel == c.questionPanel
            && d.feedbackPanel == (if c.feedbackPanel.Some? then Some(true) else None)
            && d.correctModel == c.correctModel && d.incorrectModel == c.incorrectModel)
      && d.questions == c.questions && d.currentQuestion == c.currentQuestion
      && d.waitingForAnswer == c.waitingForAnswer && d.questionText == c.questionText
      && d.targetValidators == c.targetValidators
      && d.pendingFirst == c.pendingFirst && d.pendingNext == c.pendingNext
  {
    var c1 := c.(feedbackText := SetIfPresent(c.feedbackText, FeedbackMessage(isCorrect, detectedTarget)));
    if c1.feedbackPanel.None? then (c1, false)
    else
      var c2 := c1.(feedbackPanel := Some(true));
      if c2.questionPanel.None? then (c2, false)
      else
        (c2.(questionPanel := Some(false),
             correctModel := SetIfPresent(c2.correctModel, isCorrect),
             incorrectModel := SetIfPresent(c2.incorrectModel, !isCorrect)), true)
  }

  /** The one-shot sound played for a verdict, when the source and that clip are assigned. */
  function SoundFor(a: AudioConfig, isCorrect: bool): (r: Option<Sound>)
    ensures r.Some? <==> a.hasSource && (if isCorrect then a.hasCorrectClip else a.hasIncorrectClip)
    ensures r.Some? ==> (r.value == CorrectSound <==> isCorrect)
  {
    if !a.hasSource then None
    else if isCorrect && a.hasCorrectClip then Some(CorrectSound)
    else if !isCorrect && a.hasIncorrectClip then Some(IncorrectSound)
    else None
  }

  /**
   * OnTargetDetected: ignored unless an answer is awaited for a current
   * question; otherwise the verdict is the case-insensitive comparison, the
   * feedback is shown, the sound chosen, the answer no longer awaited and the
   * next question scheduled.
   */
  function OnTargetDetected(c: Controller, targetName: string): (r: (Controller, Detection))
    ensures var (d, det) := r;
      && SameConfig(c, d)
      && (det.Ignored? <==> !c.waitingForAnswer || c.currentQuestion.None?)
      && (det.Ignored? ==> d == c)
      && (det.Faulted? <==> c.waitingForAnswer && c.currentQuestion.Some? && !PanelsAssigned(c))
      && (det.Faulted? ==>
            && d.waitingForAnswer && d.pendingNext == c.pendingNext
            && d.feedbackText == SetIfPresent(c.feedbackText,
                 FeedbackMessage(IsCorrectAnswer(c.currentQuestion.value, targetName), targetName))
            && d.feedbackPanel == (if c.feedbackPanel.Some? then Some(true) else None)
            && d.questionPanel == c.questionPanel
            && d.correctModel == c.correctModel && d.incorrectModel == c.incorrectModel)
      && (det.Answered? ==>
            && det.isCorrect == IsCorrectAnswer(c.currentQuestion.value, targetName)
            && det.sound == SoundFor(c.audio, det.isCorrect)
            && !d.waitingForAnswer
            && d.feedbackText == SetIfPresent(c.feedbackText, FeedbackMessage(det.isCorrect, targetName))
            && d.feedbackPanel == Some(true) && d.questionPanel == Some(false)
            && d.correctModel == SetIfPresent(c.correctModel, det.isCorrect)
            && d.incorrectModel == SetIfPresent(c.incorrectModel, !det.isCorrect)
            && d.pendingNext == c.pendingNext + 1)
      && d.questions == c.questions && d.currentQuestion == c.currentQuestion
      && d.questionText == c.questionText && d.targetValidators == c.targetValidators
      && d.pendingFirst == c.pendingFirst
      && (Inv(c) ==> Inv(d))
  {
    if !c.waitingForAnswer || c.currentQuestion.None? then (c, Ignored)
    else
      var isCorrect := IsCorrectAnswer(c.currentQuestion.value, targetName);
      var (c1, completed) := ShowFeedback(c, isCorrect, targetName);
      if !completed then (c1, Faulted)
      else (c1.(waitingForAnswer := false, pendingNext := c1.pendingNext + 1),
            Answered(isCorrect, SoundFor(c.audio, isCorrect)))
  }

  /** The feedback delay of one scheduled ShowNextQuestionAfterDelay has elapsed: both models off, then a new question. */
  function ShowNextQuestionAfterDelay(c: Controller, pick: nat): (r: Controller)
    requires c.pendingNext > 0 && ValidPick(c, pick)
    ensures SameConfig(c, r) && r.pendingNext == c.pendingNext - 1
    ensures r.correctModel == SetIfPresent(c.correctModel, false)
    ensures r.incorrectModel == SetIfPresent(c.incorrectModel, false)
    ensures r.questions == c.questions && r.targetValidators == c.targetValidators
    ensures r.feedbackText == c.feedbackText && r.pendingFirst == c.pendingFirst
    ensures c.questions == [] ==>
      && r.currentQuestion == c.currentQuestion && r.waitingForAnswer == c.waitingForAnswer
      && r.questionText == c.questionText
      && r.questionPanel == c.questionPanel && r.feedbackPanel == c.feedbackPanel
    ensures c.questions != [] ==>
      && r.currentQuestion.Some? && r.currentQuestion.value in c.questions && r.waitingForAnswer
      && r.questionText == SetIfPresent(c.questionText, r.currentQuestion.value.questionText)
      && r.questionPanel == SetIfPresent(c.questionPanel, true)
      && r.feedbackPanel == SetIfPresent(c.feedbackPanel, false)
    ensures Inv(c) ==> Inv(r)
  {
    ShowRandomQuestion(c.(pendingNext := c.pendingNext - 1,
                          correctModel := SetIfPresent(c.correctModel, false),
                          incorrectModel := SetIfPresent(c.incorrectModel, false)), pick)
  }

  /** The one-second start delay has elapsed: the first question is shown. */
  function StartFirstQuestionAfterDelay(c: Controller, pick: nat): (r: Controller)
    requires c.pendingFirst > 0 && ValidPick(c, pick)
    ensures SameConfig(c, r) && r.pendingFirst == c.pendingFirst - 1 && r.pendingNext == c.pendingNext
    ensures r.questions == c.questions && r.targetValidators == c.targetValidators
    ensures r.feedbackText == c.feedbackText
    ensures r.correctModel == c.correctModel && r.incorrectModel == c.incorrectModel
    ensures c.questions == [] ==>
      && r.currentQuestion == c.currentQuestion && r.waitingForAnswer == c.waitingForAnswer
      && r.questionText == c.questionText
      && r.questionPanel == c.questionPanel && r.feedbackPanel == c.feedbackPanel
    ensures c.questions != [] ==>
      && r.currentQuestion.Some? && r.currentQuestion.value in c.questions && r.waitingForAnswer
      && r.questionText == SetIfPresent(c.questionText, r.currentQuestion.value.questionText)
      && r.questionPanel == SetIfPresent(c.questionPanel, true)
      && r.feedbackPanel == SetIfPresent(c.feedbackPanel, false)
    ensures Inv(c) ==> Inv(r)
  {
    ShowRandomQuestion(c.(pendingFirst := c.pendingFirst - 1), pick)
  }

  /** AddQuestion: the question list grows by the new question at its end. */
  function AddQuestion(c: Controller, q: Question): (r: Controller)
    ensures |r.questions| == |c.questions| + 1
    ensures r.questions[|c.questions|] == q
    ensures r.questions[..|c.questions|] == c.questions
    ensures r == c.(questions := r.questions)
    ensures Inv(c) ==> Inv(r)
  {
    c.(questions := c.questions + [q])
  }

  /** RegisterTargetValidator: adds the validator unless it is already known. */
  function RegisterTargetValidator(c: Controller, v: ValidatorId): (r: Controller)
    ensures v in r.targetValidators
    ensures v in c.targetValidators ==> r == c
    ensures v !in c.targetValidators ==> r == c.(targetValidators := c.targetValidators + [v])
    ensures NoDuplicates(c.targetValidators) ==> NoDuplicates(r.targetValidators)
  {
    if v in c.targetValidators then c else c.(targetValidators := c.targetValidators + [v])
  }

  // ----- Properties that relate several operations -----

  /** Once a detection is answered, a second one before the next question changes nothing. */
  lemma OneDetectionPerQuestion(c: Controller, first: string, second: string)
    requires OnTargetDetected(c, first).1.Answered?
    ensures var d := OnTargetDetected(c, first).0;
            OnTargetDetected(d, second) == (d, Ignored)
  {
  }

  /** Registering twice is registering once. */
  lemma RegisterIdempotent(c: Controller, v: ValidatorId)
    ensures RegisterTargetValidator(RegisterTargetValidator(c, v), v) == RegisterTargetValidator(c, v)
  {
  }

  /** A ready system that has started shows a question once the start delay elapses. */
  lemma ReadyStartShowsQuestion(c: Controller, discovered: seq<ValidatorId>, pick: nat)
    requires IsSystemReady(c) && pick < |c.questions|
    ensures var s := Start(c, discovered);
      && s.pendingFirst > 0
      && var r := StartFirstQuestionAfterDelay(s, pick);
         r.waitingForAnswer && r.currentQuestion == Some(c.questions[pick])
         && r.questionText == Some(c.questions[pick].questionText)
         && r.questionPanel == Some(true) && r.feedbackPanel == Some(false)
  {
  }

  /** With both panels assigned a detection is never Faulted: it is Ignored or Answered. */
  lemma AssignedPanelsNeverFault(c: Controller, targetName: string)
    requires PanelsAssigned(c)
    ensures !OnTargetDetected(c, targetName).1.Faulted?
  {
  }

  /** After an answer, at most one model is active, and an active model is the one for the verdict. */
  lemma AtMostOneModelActive(c: Controller, targetName: string)
    requires OnTargetDetected(c, targetName).1.Answered?
    ensures var (d, det) := OnTargetDetected(c, targetName);
      && !(d.correctModel == Some(true) && d.incorrectModel == Some(true))
      && (d.correctModel == Some(true) ==> det.isCorrect)
      && (d.incorrectModel == Some(true) ==> !det.isCorrect)
  {
  }

  /** Start keeps the validator list free of duplicates when it discovers only new validators, each once. */
  lemma StartKeepsNoDuplicates(c: Controller, discovered: seq<ValidatorId>)
    requires NoDuplicates(c.targetValidators) && NoDuplicates(discovered)
    requires forall k :: 0 <= k < |discovered| ==> discovered[k] !in c.targetValidators
    ensures NoDuplicates(Start(c, discovered).targetValidators)
  {
  }

  /** A validator that registered before Start discovers it again ends up in the list twice. */
  lemma StartAfterRegisterDuplicates(c: Controller, v: ValidatorId)
    requires v !in c.targetValidators
    ensures var s := Start(RegisterTargetValidator(c, v), [v]).targetValidators;
            !NoDuplicates(s)
  {
    var s := Start(RegisterTargetValidator(c, v), [v]).targetValidators;
    assert s[|s| - 2] == s[|s| - 1];
  }
}
