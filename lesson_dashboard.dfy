/**
 * The per-lesson statistics panel (components/LessonDashboard.tsx): the
 * question accuracy, the accuracy shown with its fallbacks, the defaults
 * used when there is no progress row, and the colour and emoji bands.
 */
module LessonDashboard {
  import opened Wrappers
  import opened JsNumber

  /** The progress row as the panel receives it. */
  datatype LessonProgress = LessonProgress(
    isCompleted: bool,
    accuracyScore: Option<int>,
    timeSpentMinutes: int,
    attempts: int,
    confidenceLevel: Option<int>)

  /** One row of the caller's question attempts for the lesson. */
  datatype QuestionAttempt = QuestionAttempt(questionId: string, isCorrect: bool, attemptCount: int)

  function CorrectCount(attempts: seq<QuestionAttempt>): (n: nat)
    ensures n <= |attempts|
  {
    if attempts == [] then 0
    else CorrectCount(attempts[..|attempts| - 1]) + (if attempts[|attempts| - 1].isCorrect then 1 else 0)
  }

  /** `Math.round(correct / attempted * 100)`, 0 with nothing attempted; always a percentage. */
  function QuestionAccuracy(attempts: seq<QuestionAttempt>): (r: int)
    ensures attempts == [] ==> r == 0
    ensures attempts != [] ==> r == (200 * CorrectCount(attempts) + |attempts|) / (2 * |attempts|)
    ensures 0 <= r <= 100
  {
    if |attempts| > 0 then Percent(CorrectCount(attempts), |attempts|) else 0
  }

  /** Every attempt correct gives 100, none correct gives 0. */
  lemma QuestionAccuracyExtremes(attempts: seq<QuestionAttempt>)
    requires attempts != []
    ensures CorrectCount(attempts) == |attempts| ==> QuestionAccuracy(attempts) == 100
    ensures CorrectCount(attempts) == 0 ==> QuestionAccuracy(attempts) == 0
  {
    var n, c := |attempts|, CorrectCount(attempts);
    assert QuestionAccuracy(attempts) == (200 * c + n) / (2 * n);
    if c == n {
      DivIs(200 * c + n, 2 * n, 100);
    }
    if c == 0 {
      DivIs(200 * c + n, 2 * n, 0);
    }
  }

  /**
   * `progress?.accuracy_score || questionAccuracy || 0`: a stored non-zero
   * score wins, a stored 0 or none falls through to the question accuracy.
   */
  function AverageAccuracy(progress: Option<LessonProgress>, questionAccuracy: int): (r: int)
    ensures progress.Some? && progress.value.accuracyScore.Some? && progress.value.accuracyScore.value != 0 ==>
      r == progress.value.accuracyScore.value
    ensures !(progress.Some? && progress.value.accuracyScore.Some? && progress.value.accuracyScore.value != 0) ==>
      r == questionAccuracy
  {
    if progress.Some? && progress.value.accuracyScore.Some? && progress.value.accuracyScore.value != 0 then
      progress.value.accuracyScore.value
    else if questionAccuracy != 0 then questionAccuracy
    else 0
  }

  /** A stored score of 0 is shown as the question accuracy, not as 0. */
  lemma StoredZeroFallsThrough(p: LessonProgress, attempts: seq<QuestionAttempt>)
    requires p.accuracyScore == Some(0)
    ensures AverageAccuracy(Some(p), QuestionAccuracy(attempts)) == QuestionAccuracy(attempts)
  {
  }

  /** The four other figures, each 0 (or false) without a progress row. */
  datatype Figures = Figures(isCompleted: bool, attempts: int, timeSpent: int, confidence: int)

  function FiguresOf(progress: Option<LessonProgress>): (f: Figures)
    ensures progress.None? ==> f == Figures(false, 0, 0, 0)
    ensures progress.Some? ==>
      && f.isCompleted == progress.value.isCompleted
      && f.attempts == progress.value.attempts && f.timeSpent == progress.value.timeSpentMinutes
      && f.confidence == OrZero(progress.value.confidenceLevel)
  {
    match progress
    case None => Figures(false, 0, 0, 0)
    case Some(p) => Figures(p.isCompleted, p.attempts, p.timeSpentMinutes, OrZero(p.confidenceLevel))
  }

  datatype AccuracyBand = Green | Yellow | Red {
    function Classes(): string {
      match this
      case Green => "text-green-600 bg-green-50 border-green-200"
      case Yellow => "text-yellow-600 bg-yellow-50 border-yellow-200"
      case Red => "text-red-600 bg-red-50 border-red-200"
    }
  }

  /** `getAccuracyColor`: green from 80, yellow from 60, red below; every accuracy has exactly one band. */
  function AccuracyColor(accuracy: int): (b: AccuracyBand)
    ensures b == Green <==> accuracy >= 80
    ensures b == Yellow <==> 60 <= accuracy < 80
    ensures b == Red <==> accuracy < 60
  {
    if accuracy >= 80 then Green
    else if accuracy >= 60 then Yellow
    else Red
  }

  /** The emoji band as a rank: 4 from level 8, 3 from 6, 2 from 4, 1 from 2, 0 below. */
  function ConfidenceRank(level: int): (r: nat)
    ensures r <= 4
    ensures r == 0 <==> level < 2
    ensures 1 <= r ==> 2 * r <= level
    ensures r <= 3 ==> level < 2 * (r + 1)
  {
    if level >= 8 then 4
    else if level >= 6 then 3
    else if level >= 4 then 2
    else if level >= 2 then 1
    else 0
  }

  /** `getConfidenceEmoji`. */
  function ConfidenceEmoji(level: int): (e: string)
    ensures e == ["\U{1F630}", "\U{1F615}", "\U{1F610}", "\U{1F60A}", "\U{1F31F}"][ConfidenceRank(level)]
  {
    if level >= 8 then "\U{1F31F}"
    else if level >= 6 then "\U{1F60A}"
    else if level >= 4 then "\U{1F610}"
    else if level >= 2 then "\U{1F615}"
    else "\U{1F630}"
  }

  /** A higher confidence level never shows a lower emoji band. */
  lemma ConfidenceMonotone(a: int, b: int)
    requires a <= b
    ensures ConfidenceRank(a) <= ConfidenceRank(b)
  {
  }
}
