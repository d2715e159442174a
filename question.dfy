/**
 * The Question record and the two pure decisions the quiz makes about an
 * answer: whether a detected target answers a question, and which feedback
 * text is shown for it.
 */
module Questions {

  import opened Wrappers
  import CaseFold

  /** A quiz question, as configured in the scene. */
  datatype Question = Question(questionText: string, correctAnswerTargetName: string, possibleTargets: seq<string>)

  /** A detection answers the question when the names agree ignoring case. */
  predicate IsCorrectAnswer(q: Question, targetName: string): (r: bool)
    ensures targetName == q.correctAnswerTargetName ==> r
    ensures r ==> |targetName| == |q.correctAnswerTargetName|
  {
    CaseFold.EqualsIgnoreCase(targetName, q.correctAnswerTargetName)
  }

  const CorrectFeedback: string := "Correct!"
  const IncorrectPrefix: string := "Incorrect. That's a: "

  /** The feedback text for a verdict and the name of the detected target. */
  function FeedbackMessage(isCorrect: bool, detectedTarget: string): (m: string)
    ensures m == CorrectFeedback <==> isCorrect
    ensures !isCorrect ==> IncorrectPrefix <= m && m[|IncorrectPrefix|..] == detectedTarget
  {
    if isCorrect then CorrectFeedback else IncorrectPrefix + detectedTarget
  }

  /** Reads the detected target's name back out of a feedback text (None for "Correct!"). */
  function DetectedTargetOf(message: string): Option<string>
  {
    if message == CorrectFeedback then None
    else if IncorrectPrefix <= message then Some(message[|IncorrectPrefix|..])
    else None
  }

  /** The feedback text determines the verdict, and for a wrong answer the detected name. */
  lemma FeedbackRoundTrip(isCorrect: bool, detectedTarget: string)
    ensures DetectedTargetOf(FeedbackMessage(isCorrect, detectedTarget))
            == if isCorrect then None else Some(detectedTarget)
  {
  }

  /** Two detections whose names differ only in case get the same verdict. */
  lemma VerdictIgnoresCase(q: Question, a: string, b: string)
    requires CaseFold.EqualsIgnoreCase(a, b)
    ensures IsCorrectAnswer(q, a) <==> IsCorrectAnswer(q, b)
  {
  }

  /** With the expected answer "Ball": detecting "Ball" reads "Correct!", detecting "Box" names the box. */
  lemma BallScenarioFeedback(possible: seq<string>)
    ensures var q := Question("What is round?", "Ball", possible);
            FeedbackMessage(IsCorrectAnswer(q, "Ball"), "Ball") == "Correct!"
            && FeedbackMessage(IsCorrectAnswer(q, "Box"), "Box") == "Incorrect. That's a: Box"
  {
  }
}
