# AR quiz session logic in Dafny

This project models the logic core of a small augmented-reality quiz. A question is shown. The player points the camera at a tracked target. The controller compares the detected target's name with the question's expected answer, ignoring case. It then shows feedback (a text, a panel swap, an optional 3D model, an optional sound) and, after a delay, asks a new random question. Target validators watch one target each. They notify the controller once per rising edge of their tracking flag. The `SimpleTargetValidator` variant also shows a correct- or incorrect-answer effect.

The Unity engine calls are removed:

- A scene reference (label, panel, 3D model, effect object) is an `Option`. `None` means the reference was left unassigned in the Inspector. `Some(text)` or `Some(active)` is the label's text or the object's active flag.
- `Random.Range(0, n)` is a nondeterministic index in `[0, n)`. In the specification functions it is the `pick` parameter.
- Each coroutine is a counter of scheduled continuations plus a "delay elapsed" method that resumes one of them. No order or cancellation between overlapping continuations is assumed.
- Scene searches (`FindObjectsByType`, `FindFirstObjectByType`) and `gameObject.activeInHierarchy` become parameters.
- Validators register with the controller by an abstract identity (`ValidatorId`).

Modules:

- `CaseFold`: ordinal ignore-case equality, with `Fold` (upper-casing a whole string) as an independent reference definition.
- `Questions`: the `Question` record, the verdict and the feedback text.
- `SessionSpec`: the controller's state as a value, one function per operation, and the properties relating several operations.
- `Session`: the class `QuestionManager`. Each method updates the fields in place and is proved to move `State()` exactly as the matching `SessionSpec` function does, keeping the invariant `Valid()`.
- `TrackingSpec`: the found/lost edge detector, traces of found/lost calls and of per-frame polls, and the effect choice.
- `Targets` and `SimpleTargets`: the classes `TargetValidator` and `SimpleTargetValidator`, proved against `TrackingSpec` and `SessionSpec`.
- `Scene`: the controller and its validators together. It covers the binding at start-up, traces of found/lost/delay events, and one concrete round driven through the objects.

Where the code and its design description differ, the model follows the code:

- `ShowFeedback` does not guard `feedbackPanel.SetActive(true)` or `questionPanel.SetActive(false)` (Assets/Scripts/QuestionManager.cs:177-178). With either panel unassigned, the detection therefore throws part-way instead of degrading gracefully. The model records this as `Detection.Faulted`. The feedback text and, if present, the feedback panel have changed. The answer is still awaited. No next question is scheduled and no sound is played. `SimpleTargetValidator` then does not start its effect coroutine, because the exception leaves its `OnTrackingFound` before `StartCoroutine`. With both panels assigned this cannot happen (`SessionSpec.AssignedPanelsNeverFault`).
- `Start` adds the discovered validators with `AddRange`, which does not remove duplicates (Assets/Scripts/QuestionManager.cs:57). A validator that registered before the controller's `Start` ran is therefore listed twice (`SessionSpec.StartAfterRegisterDuplicates`). Only `RegisterTargetValidator` is idempotent.
- `SimpleTargetValidator` picks its effect from the controller's current question alone (Assets/Scripts/SimpleTargetValidator.cs:92-99). It shows an effect even for a detection the controller ignored because no answer was awaited (`Scene.EffectShownForIgnoredDetection`).

## Model

| member | source | states |
|---|---|---|
| CaseFold.EqualsIgnoreCase | Assets/Scripts/QuestionManager.cs:147 | equal names match; matching names have the same length |
| CaseFold.EqualsIgnoreCaseIffSameFold | Assets/Scripts/QuestionManager.cs:147 | the ignore-case comparison holds exactly when both names upper-case to the same string |
| CaseFold.EqualsIgnoreCaseIsEquivalence | Assets/Scripts/QuestionManager.cs:147 | the comparison is reflexive, symmetric and transitive |
| CaseFold.FoldIdempotent | Assets/Scripts/QuestionManager.cs:147 | upper-casing twice is upper-casing once |
| CaseFold.CubeVariants | Assets/Scripts/QuestionManager.cs:147 | "cube", "CUBE" and "Cube" all match "Cube"; "Cubes" does not, and "Box" does not match "Ball" |
| Questions.IsCorrectAnswer | Assets/Scripts/QuestionManager.cs:147 | the exact expected name is a correct answer; a correct answer has the expected name's length |
| Questions.FeedbackMessage | Assets/Scripts/QuestionManager.cs:170 | the text is "Correct!" exactly for a correct answer; otherwise it is the fixed prefix followed by the detected name |
| Questions.FeedbackRoundTrip | Assets/Scripts/QuestionManager.cs:170 | the feedback text gives back the verdict and, for a wrong answer, the detected name after the fixed prefix |
| Questions.VerdictIgnoresCase | Assets/Scripts/QuestionManager.cs:147 | names that differ only in case get the same verdict |
| Questions.BallScenarioFeedback | Assets/Scripts/QuestionManager.cs:147-170 | with the answer "Ball", detecting "Ball" gives "Correct!" and detecting "Box" gives "Incorrect. That's a: Box" |
| SessionSpec.SetIfPresent | Assets/Scripts/QuestionManager.cs:125-138 | writing to an unassigned reference leaves it unassigned; an assigned one gets the value |
| SessionSpec.IsSystemReady | Assets/Scripts/QuestionManager.cs:106-111 | a ready system has both panels and a question, and every random pick then awaits an answer |
| SessionSpec.Start | Assets/Scripts/QuestionManager.cs:55-85 | discovered validators are appended; both panels and both models are off; the first question is scheduled exactly when the system is ready; the two label texts, the audio set-up and the question state are untouched |
| SessionSpec.ShowRandomQuestion | Assets/Scripts/QuestionManager.cs:119-141 | with no questions nothing changes; otherwise the current question is a configured one, its text is shown, the question panel is on, the feedback panel is off, an answer is awaited, and nothing else changes |
| SessionSpec.ShowFeedback | Assets/Scripts/QuestionManager.cs:168-199 | the feedback text is set; it completes exactly when both panels are assigned, and then the feedback panel is on, the question panel off and only the model for the verdict on; otherwise it stops after setting the feedback panel |
| SessionSpec.SoundFor | Assets/Scripts/QuestionManager.cs:151-161 | a sound is played exactly when the audio source and the clip for the verdict are assigned, and it is the clip for the verdict |
| SessionSpec.OnTargetDetected | Assets/Scripts/QuestionManager.cs:143-166 | ignored, with no change, exactly when no answer is awaited or there is no current question; otherwise the verdict is the ignore-case comparison, the feedback text, panels and models follow it, the answer is no longer awaited and one next-question continuation is scheduled; faulted exactly when a panel is unassigned, and then the feedback text is written, the feedback panel (if assigned) is on, the question panel and models are untouched and the answer is still awaited |
| SessionSpec.ShowNextQuestionAfterDelay | Assets/Scripts/QuestionManager.cs:214-222 | one continuation is consumed and both models are off; the feedback text and the start continuations are untouched; with no questions nothing else changes, otherwise a configured question is current and awaited, its text shown, the question panel on and the feedback panel off |
| SessionSpec.StartFirstQuestionAfterDelay | Assets/Scripts/QuestionManager.cs:113-117 | the start continuation is consumed; the feedback text and the models are untouched; with no questions nothing else changes, otherwise a configured question is current and awaited, its text shown, the question panel on and the feedback panel off |
| SessionSpec.AddQuestion | Assets/Scripts/QuestionManager.cs:224-229 | the list is one longer, the new question is last, earlier questions are unchanged, nothing else changes |
| SessionSpec.RegisterTargetValidator | Assets/Scripts/QuestionManager.cs:236-243 | a known validator leaves the state unchanged; a new one is appended; a list without duplicates stays without duplicates |
| SessionSpec.OneDetectionPerQuestion | Assets/Scripts/QuestionManager.cs:145-163 | after an answered detection, a second detection before the next question is ignored and changes nothing |
| SessionSpec.RegisterIdempotent | Assets/Scripts/QuestionManager.cs:236-243 | registering the same validator twice equals registering it once |
| SessionSpec.ReadyStartShowsQuestion | Assets/Scripts/QuestionManager.cs:81-117 | a ready system that starts schedules the first question, and when the delay elapses it awaits an answer to the picked question with its text shown and the panels swapped |
| SessionSpec.AssignedPanelsNeverFault | Assets/Scripts/QuestionManager.cs:177-178 | with both panels assigned a detection is never faulted |
| SessionSpec.AtMostOneModelActive | Assets/Scripts/QuestionManager.cs:180-198 | after an answer at most one model is active, and an active model is the one for the verdict |
| SessionSpec.StartKeepsNoDuplicates | Assets/Scripts/QuestionManager.cs:57 | Start keeps the validator list duplicate-free when it discovers only new validators, each once |
| SessionSpec.StartAfterRegisterDuplicates | Assets/Scripts/QuestionManager.cs:57 | a validator registered before Start discovers it ends up listed twice |
| Session.QuestionManager.constructor | Assets/Scripts/QuestionManager.cs:17-39 | the configured references and questions, no current question, no answer awaited, no validators, nothing scheduled |
| Session.QuestionManager.Start | Assets/Scripts/QuestionManager.cs:55-85 | the new state is SessionSpec.Start of the old one; the invariant is kept |
| Session.QuestionManager.IsSystemReady | Assets/Scripts/QuestionManager.cs:106-111 | ready exactly when both labels and both panels are assigned and a question exists (agreeing with SessionSpec.IsSystemReady on the object's state); showing a random question then awaits an answer |
| Session.QuestionManager.ShowRandomQuestion | Assets/Scripts/QuestionManager.cs:119-141 | the new state is SessionSpec.ShowRandomQuestion of the old one for some valid random index |
| Session.QuestionManager.ForceNewQuestion | Assets/Scripts/QuestionManager.cs:245-249 | the same as ShowRandomQuestion |
| Session.QuestionManager.OnTargetDetected | Assets/Scripts/QuestionManager.cs:143-166 | the new state and the outcome are SessionSpec.OnTargetDetected of the old state |
| Session.QuestionManager.ShowFeedback | Assets/Scripts/QuestionManager.cs:168-199 | the new state and completion are SessionSpec.ShowFeedback of the old state |
| Session.QuestionManager.ShowNextQuestionAfterDelay | Assets/Scripts/QuestionManager.cs:214-222 | the new state is SessionSpec.ShowNextQuestionAfterDelay of the old one for some valid random index |
| Session.QuestionManager.StartFirstQuestionAfterDelay | Assets/Scripts/QuestionManager.cs:113-117 | the new state is SessionSpec.StartFirstQuestionAfterDelay of the old one for some valid random index |
| Session.QuestionManager.AddQuestion | Assets/Scripts/QuestionManager.cs:224-229 | the new state is SessionSpec.AddQuestion of the old one |
| Session.QuestionManager.GetCurrentQuestion | Assets/Scripts/QuestionManager.cs:231-234 | under the invariant the current question is a configured one, and it exists while an answer is awaited |
| Session.QuestionManager.RegisterTargetValidator | Assets/Scripts/QuestionManager.cs:236-243 | the new state is SessionSpec.RegisterTargetValidator of the old one |
| TrackingSpec.DefaultName | Assets/Scripts/TargetValidator.cs:14-17 | a non-empty configured name is kept; an empty one becomes the object's name; the result is empty only when both are |
| TrackingSpec.Found | Assets/Scripts/TargetValidator.cs:52-64 | afterwards the validator is tracking; it notifies exactly when it was not tracking and a controller is bound; when already tracking nothing changes |
| TrackingSpec.Lost | Assets/Scripts/TargetValidator.cs:66-73 | afterwards the validator is not tracking; name and binding are kept; when not tracking nothing changes |
| TrackingSpec.Poll | Assets/Scripts/SimpleTargetValidator.cs:35-47 | afterwards the tracking flag equals the observed active flag; it notifies exactly on a false-to-true change with a bound controller; an unchanged flag changes nothing |
| TrackingSpec.PollsNotifyOnRisingEdges | Assets/Scripts/SimpleTargetValidator.cs:35-86 | after any sequence of frames the validator tracks exactly when the last flag was set, and it has notified once per rising edge when bound and never otherwise |
| TrackingSpec.EventsMatchPolls | Assets/Scripts/SimpleTargetValidator.cs:35-62 | the found/lost entry points and per-frame polling give the same state and the same notifications |
| TrackingSpec.FoundTwiceNotifiesOnce | Assets/Scripts/TargetValidator.cs:52-64 | a second found while tracking changes nothing and notifies nobody |
| TrackingSpec.EffectToShow | Assets/Scripts/SimpleTargetValidator.cs:92-102 | no effect without a current question; with one, the chosen effect is the correct-answer one exactly when the name matches the answer ignoring case, and it is shown exactly when that effect is assigned |
| Targets.TargetValidator.constructor | Assets/Scripts/TargetValidator.cs:8-11 | the configured name, not tracking, no controller bound |
| Targets.TargetValidator.Start | Assets/Scripts/TargetValidator.cs:13-25 | the name is defaulted, the found controller is bound, and the controller's new state is its registration of this validator |
| Targets.TargetValidator.SetQuestionManager | Assets/Scripts/TargetValidator.cs:27-30 | the given controller is bound |
| Targets.TargetValidator.OnTrackingFound | Assets/Scripts/TargetValidator.cs:52-64 | the tracking state follows TrackingSpec.Found; the bound controller is notified once with the target name exactly on a rising edge, and is otherwise unchanged |
| Targets.TargetValidator.OnTrackingLost | Assets/Scripts/TargetValidator.cs:66-73 | the tracking state follows TrackingSpec.Lost; only the tracking flag may change |
| Targets.TargetValidator.OnTargetFound | Assets/Scripts/TargetValidator.cs:32-35 | the same contract as OnTrackingFound |
| Targets.TargetValidator.OnTargetLost | Assets/Scripts/TargetValidator.cs:37-40 | the same contract as OnTrackingLost |
| Targets.TargetValidator.Saludar | Assets/Scripts/TargetValidator.cs:42-45 | the same contract as OnTrackingFound |
| Targets.TargetValidator.LimpiarTexto | Assets/Scripts/TargetValidator.cs:47-50 | the same contract as OnTrackingLost |
| Targets.TargetValidator.SetTargetName | Assets/Scripts/TargetValidator.cs:75-83 | GetTargetName afterwards returns the new name |
| Targets.TargetValidator.GetTargetName | Assets/Scripts/TargetValidator.cs:80-83 | the name of the validator's tracking state |
| Targets.TargetValidator.IsTracking | Assets/Scripts/TargetValidator.cs:85-88 | the flag of the validator's tracking state |
| SimpleTargets.SimpleTargetValidator.constructor | Assets/Scripts/SimpleTargetValidator.cs:8-16 | the configured name and effects, not tracking, no controller, no effect pending |
| SimpleTargets.SimpleTargetValidator.Start | Assets/Scripts/SimpleTargetValidator.cs:18-33 | the name is defaulted, both effects are off, the found controller is bound and registers this validator |
| SimpleTargets.SimpleTargetValidator.Update | Assets/Scripts/SimpleTargetValidator.cs:35-47 | the tracking state follows TrackingSpec.Poll; the controller is notified exactly on a rising edge, and then an effect check is scheduled unless the notification threw |
| SimpleTargets.SimpleTargetValidator.SetQuestionManager | Assets/Scripts/SimpleTargetValidator.cs:49-52 | the given controller is bound |
| SimpleTargets.SimpleTargetValidator.OnTrackingFound | Assets/Scripts/SimpleTargetValidator.cs:64-77 | the tracking state follows TrackingSpec.Found; a rising edge with a bound controller notifies it once and schedules one effect check unless the notification threw; a second call while tracking does nothing |
| SimpleTargets.SimpleTargetValidator.OnTrackingLost | Assets/Scripts/SimpleTargetValidator.cs:79-86 | the tracking state follows TrackingSpec.Lost; only the tracking flag may change |
| SimpleTargets.SimpleTargetValidator.OnTargetFound | Assets/Scripts/SimpleTargetValidator.cs:54-57 | the same contract as OnTrackingFound |
| SimpleTargets.SimpleTargetValidator.OnTargetLost | Assets/Scripts/SimpleTargetValidator.cs:59-62 | the same contract as OnTrackingLost |
| SimpleTargets.SimpleTargetValidator.ShowFeedbackEffect | Assets/Scripts/SimpleTargetValidator.cs:88-103 | one effect check is consumed; the effect TrackingSpec.EffectToShow picks for the controller's current question is switched on and awaits hiding; the other effect is untouched; with no pick nothing else changes |
| SimpleTargets.SimpleTargetValidator.EffectDurationElapsed | Assets/Scripts/SimpleTargetValidator.cs:104-105 | the effect being hidden is switched off and leaves the pending set; the other effect is untouched |
| SimpleTargets.SimpleTargetValidator.SetTargetName | Assets/Scripts/SimpleTargetValidator.cs:111-119 | GetTargetName afterwards returns the new name |
| SimpleTargets.SimpleTargetValidator.GetTargetName | Assets/Scripts/SimpleTargetValidator.cs:116-119 | the name of the validator's tracking state |
| SimpleTargets.SimpleTargetValidator.IsTracking | Assets/Scripts/SimpleTargetValidator.cs:121-124 | the flag of the validator's tracking state |
| SimpleTargets.SimpleTargetValidator.ForceDetection | Assets/Scripts/SimpleTargetValidator.cs:126-130 | the same contract as OnTrackingFound |
| Scene.AnswersNeedQuestions | Assets/Scripts/QuestionManager.cs:140-165 | over any trace of found, lost and delay events, the answers given plus an answer still awaited never exceed the answer awaited at the start plus the delays that elapsed |
| Scene.AtMostOneAnswerPerQuestion | Assets/Scripts/QuestionManager.cs:145-163 | a trace without an elapsed feedback delay yields at most one answer |
| Scene.IgnoredUntilNextQuestion | Assets/Scripts/QuestionManager.cs:145 | once no answer is awaited, every notification until the next delay is ignored and the controller does not change |
| Scene.FirstNotificationAnswers | Assets/Scripts/QuestionManager.cs:143-166 | while a question awaits its answer and the panels are assigned, the first notification is answered and all later ones are ignored |
| Scene.TrackerFollowsItsEvents | Assets/Scripts/TargetValidator.cs:52-73 | each validator in the scene ends in the state its own found/lost events lead it to |
| Scene.EffectShownForIgnoredDetection | Assets/Scripts/SimpleTargetValidator.cs:92-102 | with no answer awaited but a current question, a detection is ignored by the controller and still gets the current question's effect when that effect is assigned |
| Scene.EffectAgreesWithVerdict | Assets/Scripts/SimpleTargetValidator.cs:97-99 | the effect chosen after an answered detection is the correct-answer effect exactly when the controller judged the answer correct, and one is chosen when both effects are assigned |
| Scene.StartController | Assets/Scripts/QuestionManager.cs:55-62 | the controller's new state is SessionSpec.Start over the discovered validators, and every discovered validator is bound to the controller |
| Scene.AnswerThenIgnore | Assets/Scripts/QuestionManager.cs:143-170 | the ball's detection reads "Correct!"; the box found during the feedback is ignored |
| Scene.NextQuestionWrongAnswer | Assets/Scripts/QuestionManager.cs:214-222 | after the delay the only question is asked again and the box, lost and found again, reads "Incorrect. That's a: Box" |
| Scene.BallAndBoxRound | Assets/Scripts/QuestionManager.cs:143-178 | one whole round through the objects: "Correct!", then an ignored detection, then "Incorrect. That's a: Box" |

## Left out

- The `Awake` singleton and `Destroy` (Assets/Scripts/QuestionManager.cs:43-53): engine lifecycle. Each validator receives its controller as a parameter instead.
- `FindObjectsByType` and `FindFirstObjectByType`: the scene search's results are parameters of the `Start` methods.
- The `Camera.main` fallback, `PrepareModelsForWorldSpace` and `PositionModelInFrontOfCamera` (Assets/Scripts/QuestionManager.cs:64-71, 87-104, 201-212): reparenting and floating-point vector and rotation math. A 3D model is modelled only by its active flag.
- The delay lengths (`feedbackDisplayTime`, `effectDuration`, the one-second start delay) and coroutine scheduling: each delay is an explicit method. When several continuations are pending, any one of them may resume; no order or cancellation is assumed.
- Audio playback: `PlayOneShot` is recorded only as the `Sound` in the detection's outcome.
- `Debug.Log`: output only.
- Unicode case mapping: `OrdinalIgnoreCase` is modelled by upper-casing the ASCII letters only.
- `Assets/Scripts/PresentadorTexto.cs`: a label setter over the `Tarjeta` component, whose source is not part of this model, and unrelated to the quiz.
- The type of `RegisterTargetValidator`'s parameter: `SimpleTargetValidator` passes itself to a method that takes a `TargetValidator` (Assets/Scripts/SimpleTargetValidator.cs:31). Registration is modelled over an abstract `ValidatorId` for both kinds.
- `Question.possibleTargets`: stored but never read by any logic.
- Null or code-built questions: every `Question` is a configured value (`SessionSpec.Inv`). `AddQuestion(null)` would put a null into `questions`; a later `ShowRandomQuestion` could then make `currentQuestion` null and either throw at Assets/Scripts/QuestionManager.cs:127 or await an answer with no question, the case the guard at line 145 ignores. Null questions are not modelled.
- Null strings: names and texts are never null here. Unity's serializer initialises string fields to empty. `SetTargetName(null)` is not modelled.
- Unity calls `Update` only while the object is active, and it stops an object's coroutines when the object is deactivated. `activeInHierarchy` is therefore always true where `Update` reads it (Assets/Scripts/SimpleTargetValidator.cs:37), and the lost branch (lines 43-46) is never reached in the engine. `SimpleTargetValidator.Update` takes the flag as a free parameter, so that branch is still modelled; `TrackingSpec.PollsNotifyOnRisingEdges` is about that parameter, not about the engine. In the engine, a polling validator that is deactivated and reactivated keeps `isTracking` true and never notifies again unless `OnTrackingLost` is called.
- Session.QuestionManager.ShowRandomQuestion: states only that the random index lies in range, not that it is uniformly distributed.
- Session.QuestionManager.RegisterTargetValidator: does not call `SetQuestionManager` on the validator, because it knows only the identity. The validator's own `Start` binds the same controller, which is the call's only effect.
