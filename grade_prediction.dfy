/**
 * The grade and tier predictor (lib/gradePrediction.ts): a boundary-table
 * lookup of the average accuracy, a three-level confidence label, a
 * conservative adjustment for thin evidence, and for two-tier subjects a
 * three-stage Foundation/Higher recommendation.
 *
 * Accuracy and progress are exact rationals (`real`).
 */
module GradePrediction {
  import opened Wrappers
  import opened CourseConfig
  import JsString
  import JsNumber

  datatype Confidence = Low | Medium | High

  /** The predictor's input. */
  datatype PerformanceData = PerformanceData(
    lessonsCompleted: int,
    totalLessons: int,
    averageAccuracy: real,
    questionsAttempted: int,
    targetPaper: Paper,
    targetGrade: int,
    courseSlug: string)

  /** A recommended paper (Foundation or Higher) and, when it asks for a change, why. */
  datatype TierRecommendation = TierRecommendation(paper: Paper, reason: Option<string>)

  datatype PredictionResult = PredictionResult(
    predictedGrade: int,
    confidence: Confidence,
    recommendedPaper: Option<Paper>,
    paperChangeReason: Option<string>,
    onTrack: bool)

  /** Course progress in percent: lessonsCompleted / totalLessons * 100. */
  function Progress(d: PerformanceData): real
    requires d.totalLessons != 0
  {
    (d.lessonsCompleted as real) / (d.totalLessons as real) * 100.0
  }

  /** The confidence label: high needs 50% progress and 100 questions, medium 20% and 30. */
  function ConfidenceOf(progress: real, questionsAttempted: int): (c: Confidence)
    ensures c == High <==> progress >= 50.0 && questionsAttempted >= 100
    ensures c == Medium <==> !(progress >= 50.0 && questionsAttempted >= 100) && progress >= 20.0 && questionsAttempted >= 30
  {
    if progress >= 50.0 && questionsAttempted >= 100 then High
    else if progress >= 20.0 && questionsAttempted >= 30 then Medium
    else Low
  }

  function ConfidenceRank(c: Confidence): nat {
    match c
    case Low => 0
    case Medium => 1
    case High => 2
  }

  /** More progress and more questions never lower the confidence. */
  lemma ConfidenceMonotone(p1: real, q1: int, p2: real, q2: int)
    requires p1 <= p2 && q1 <= q2
    ensures ConfidenceRank(ConfidenceOf(p1, q1)) <= ConfidenceRank(ConfidenceOf(p2, q2))
  {
  }

  predicate Qualifies(accuracy: real, b: Boundary) {
    accuracy >= b.minAccuracy as real
  }

  /**
   * The search over the keys in descending order: the index of the last
   * (highest-grade) entry whose boundary the accuracy reaches, or -1.
   */
  function HighestQualifying(accuracy: real, t: seq<Boundary>): (k: int)
    ensures -1 <= k < |t|
    ensures k >= 0 ==> Qualifies(accuracy, t[k])
    ensures forall j :: k < j < |t| ==> !Qualifies(accuracy, t[j])
  {
    if t == [] then -1
    else if Qualifies(accuracy, t[|t| - 1]) then |t| - 1
    else HighestQualifying(accuracy, t[..|t| - 1])
  }

  /**
   * `getGradeFromBoundaries`: the highest grade whose boundary the accuracy
   * reaches; the table's lowest grade when it reaches none.
   */
  function GradeFromBoundaries(accuracy: real, table: Table): (g: int)
    ensures g in Grades(table)
    ensures forall i :: 0 <= i < |table| && Qualifies(accuracy, table[i]) ==> table[i].grade <= g
    ensures (exists i :: 0 <= i < |table| && Qualifies(accuracy, table[i])) ==>
              exists i :: 0 <= i < |table| && Qualifies(accuracy, table[i]) && table[i].grade == g
    ensures (forall i :: 0 <= i < |table| ==> !Qualifies(accuracy, table[i])) ==> g == table[0].grade
  {
    var k := HighestQualifying(accuracy, table);
    assert k >= 0 ==> table[k].grade == Grades(table)[k];
    assert table[0].grade == Grades(table)[0];
    if k >= 0 then table[k].grade else table[0].grade
  }

  /** A higher accuracy never gives a lower grade from the same table. */
  lemma GradeFromBoundariesMonotone(a1: real, a2: real, table: Table)
    requires a1 <= a2
    ensures GradeFromBoundaries(a1, table) <= GradeFromBoundaries(a2, table)
  {
    var g1, g2 := GradeFromBoundaries(a1, table), GradeFromBoundaries(a2, table);
    if exists i :: 0 <= i < |table| && Qualifies(a1, table[i]) {
      var i :| 0 <= i < |table| && Qualifies(a1, table[i]) && table[i].grade == g1;
      assert Qualifies(a2, table[i]);
    } else {
      assert g1 == table[0].grade;
      var j :| 0 <= j < |Grades(table)| && Grades(table)[j] == g2;
      assert 0 < j ==> table[0].grade < table[j].grade;
    }
  }

  /** A table whose lowest boundary is 0 gives every accuracy >= 0 a grade whose boundary it reaches. */
  lemma GradeReachesItsBoundary(accuracy: real, table: Table)
    requires accuracy >= 0.0 && table[0].minAccuracy == 0
    ensures exists i :: 0 <= i < |table| && Qualifies(accuracy, table[i]) && table[i].grade == GradeFromBoundaries(accuracy, table)
  {
    assert Qualifies(accuracy, table[0]);
  }

  /** The examples at the table edges: Foundation 60 -> 5, 59 -> 4; Higher 78 -> 9, 77 -> 8. */
  lemma BoundaryExamples()
    ensures GradeFromBoundaries(60.0, FoundationBoundaries) == 5
    ensures GradeFromBoundaries(59.0, FoundationBoundaries) == 4
    ensures GradeFromBoundaries(78.0, HigherBoundaries) == 9
    ensures GradeFromBoundaries(77.0, HigherBoundaries) == 8
  {
    var f, h := FoundationBoundaries, HigherBoundaries;
    assert HighestQualifying(60.0, f) == 4;
    assert HighestQualifying(59.0, f[..4]) == 3;
    assert HighestQualifying(78.0, h) == 5;
    assert HighestQualifying(77.0, h[..5]) == 4;
  }

  /**
   * The table the lookup uses: Foundation or Higher only when the course is
   * two-tier and a paper is chosen, the single table otherwise.
   */
  function BoundaryTable(courseSlug: string, paper: Paper): Table {
    if HasTwoTiers(courseSlug) && paper != NoTier then
      (if paper == Foundation then FoundationBoundaries else HigherBoundaries)
    else SingleBoundaries
  }

  /**
   * The conservatism adjustment: low confidence below 10% progress loses
   * two grades, medium confidence one, never below grade 1; otherwise the
   * grade is kept.
   */
  function AdjustForConfidence(grade: int, confidence: Confidence, progress: real): (r: int)
    ensures grade >= 1 ==> 1 <= r <= grade
    ensures grade - 2 <= r
    ensures (confidence == Low && progress < 10.0) || confidence == Medium ==> r >= 1
    ensures confidence == High || (confidence == Low && progress >= 10.0) ==> r == grade
    ensures confidence == Low && progress < 10.0 ==> r == grade - 2 || (r == 1 && grade <= 3)
  ensures confidence == Medium ==> r == grade - 1 || (r == 1 && grade <= 2)
  {
    if confidence == Low && progress < 10.0 then JsNumber.Max(1, grade - 2)
    else if confidence == Medium then JsNumber.Max(1, grade - 1)
    else grade
  }

  /** The adjustment never turns a lower raw grade into a higher adjusted one. */
  lemma AdjustMonotone(g1: int, g2: int, c: Confidence, p: real)
    requires g1 <= g2
    ensures AdjustForConfidence(g1, c, p) <= AdjustForConfidence(g2, c, p)
  {
  }

  const ReasonNeedsHigher := "Target grade 6+ requires Higher tier"
  const ReasonSuitsFoundation := "Foundation tier may be more suitable for grade 4 target"
  const ReasonStruggling := "Struggling on Higher tier - Foundation would secure grades 4-5"
  const ReasonStrongFoundation := "Strong Foundation performance - ready for Higher tier to target grades 6+"
  const ReasonBelowPass := "Below grade 4 on Higher - switch to Foundation to secure a pass"
  const ReasonExceptional := "Exceptional Foundation performance - consider Higher tier for grades 6-9"

  /**
   * `recommendPaperTier`: early (< 15%) by target grade, mid (15-40%) and
   * late (>= 40%) by performance, otherwise stay on the current paper.
   */
  function RecommendPaperTier(d: PerformanceData, predictedGrade: int, progress: real): (r: TierRecommendation)
    ensures r.paper == Foundation || r.paper == Higher
    ensures d.targetPaper == NoTier ==> r == TierRecommendation(Foundation, None)
    ensures d.targetPaper != NoTier ==> (r.reason.Some? <==> r.paper != d.targetPaper)
  {
    var targetPaper, targetGrade, averageAccuracy := d.targetPaper, d.targetGrade, d.averageAccuracy;
    if targetPaper == NoTier then TierRecommendation(Foundation, None)
    else
    assert targetPaper == Foundation || targetPaper == Higher;
    if progress < 15.0 then
      if targetGrade >= 6 then
        TierRecommendation(Higher, if targetPaper == Foundation then Some(ReasonNeedsHigher) else None)
      else if targetGrade <= 4 then
        TierRecommendation(Foundation, if targetPaper == Higher then Some(ReasonSuitsFoundation) else None)
      else TierRecommendation(targetPaper, None)
    else if progress >= 15.0 && progress < 40.0 && targetPaper == Higher && averageAccuracy < 40.0 then
      TierRecommendation(Foundation, Some(ReasonStruggling))
    else if progress >= 15.0 && progress < 40.0 && targetPaper == Foundation && averageAccuracy >= 70.0 && predictedGrade == 5 then
      TierRecommendation(Higher, Some(ReasonStrongFoundation))
    else if progress >= 40.0 && targetPaper == Higher && predictedGrade < 4 then
      TierRecommendation(Foundation, Some(ReasonBelowPass))
    else if progress >= 40.0 && targetPaper == Foundation && averageAccuracy >= 80.0 then
      TierRecommendation(Higher, Some(ReasonExceptional))
    else TierRecommendation(targetPaper, None)
  }

  /** `calculatePredictedGrade`. */
  function CalculatePredictedGrade(d: PerformanceData): (r: PredictionResult)
    requires d.totalLessons != 0
    ensures 1 <= r.predictedGrade <= 9
    ensures r.predictedGrade <= GradeFromBoundaries(d.averageAccuracy, BoundaryTable(d.courseSlug, d.targetPaper))
    ensures r.onTrack <==> r.predictedGrade >= d.targetGrade
    ensures r.recommendedPaper.Some? <==> HasTwoTiers(d.courseSlug)
    ensures !HasTwoTiers(d.courseSlug) ==> r.paperChangeReason.None?
    ensures r.confidence == ConfidenceOf(Progress(d), d.questionsAttempted)
    ensures r.predictedGrade == AdjustForConfidence(
      GradeFromBoundaries(d.averageAccuracy, BoundaryTable(d.courseSlug, d.targetPaper)), r.confidence, Progress(d))
    ensures HasTwoTiers(d.courseSlug) ==>
      r.recommendedPaper == Some(RecommendPaperTier(d, r.predictedGrade, Progress(d)).paper)
      && r.paperChangeReason == RecommendPaperTier(d, r.predictedGrade, Progress(d)).reason
  {
    var progress := Progress(d);
    var confidence := ConfidenceOf(progress, d.questionsAttempted);
    var table := BoundaryTable(d.courseSlug, d.targetPaper);
    var base := GradeFromBoundaries(d.averageAccuracy, table);
    TableGradesInRange(table);
    var predictedGrade := AdjustForConfidence(base, confidence, progress);
    var onTrack := predictedGrade >= d.targetGrade;
    if HasTwoTiers(d.courseSlug) then
      var rec := RecommendPaperTier(d, predictedGrade, progress);
      PredictionResult(predictedGrade, confidence, Some(rec.paper), rec.reason, onTrack)
    else
      PredictionResult(predictedGrade, confidence, None, None, onTrack)
  }

  /** Every grade the three tables can produce lies in 1..9. */
  lemma TableGradesInRange(t: Table)
    requires t == FoundationBoundaries || t == HigherBoundaries || t == SingleBoundaries
    ensures forall g :: g in Grades(t) ==> 1 <= g <= 9
  {
    TableKeysAreGradeOptions();
  }

  /** Raising only the accuracy never lowers the predicted grade. */
  lemma PredictionMonotoneInAccuracy(d: PerformanceData, accuracy: real)
    requires d.totalLessons != 0 && d.averageAccuracy <= accuracy
    ensures CalculatePredictedGrade(d).predictedGrade <= CalculatePredictedGrade(d.(averageAccuracy := accuracy)).predictedGrade
  {
    var d2 := d.(averageAccuracy := accuracy);
    var table := BoundaryTable(d.courseSlug, d.targetPaper);
    GradeFromBoundariesMonotone(d.averageAccuracy, accuracy, table);
    AdjustMonotone(GradeFromBoundaries(d.averageAccuracy, table), GradeFromBoundaries(accuracy, table),
                   ConfidenceOf(Progress(d), d.questionsAttempted), Progress(d));
  }

  /** Early in the course (< 15%) the recommendation follows the target grade alone. */
  lemma EarlyStageFollowsTarget(d: PerformanceData, predictedGrade: int, progress: real)
    requires progress < 15.0 && d.targetPaper != NoTier
    ensures var r := RecommendPaperTier(d, predictedGrade, progress);
      && (d.targetGrade >= 6 ==> r.paper == Higher)
      && (d.targetGrade <= 4 ==> r.paper == Foundation)
      && (d.targetGrade == 5 ==> r == TierRecommendation(d.targetPaper, None))
      && (forall g, a :: RecommendPaperTier(d.(averageAccuracy := a), g, progress) == r)
  {
  }

  /**
   * Between 15% and 40% a Higher candidate below 40% accuracy is moved to
   * Foundation, and a Foundation candidate at 70% or more predicted at
   * exactly grade 5 is moved to Higher; everyone else keeps the paper.
   */
  lemma MidStage(d: PerformanceData, predictedGrade: int, progress: real)
    requires 15.0 <= progress < 40.0 && d.targetPaper != NoTier
    ensures var r := RecommendPaperTier(d, predictedGrade, progress);
      && (d.targetPaper == Higher && d.averageAccuracy < 40.0 ==>
            r == TierRecommendation(Foundation, Some(ReasonStruggling)))
      && (d.targetPaper == Foundation && d.averageAccuracy >= 70.0 && predictedGrade == 5 ==>
            r == TierRecommendation(Higher, Some(ReasonStrongFoundation)))
      && (d.targetPaper == Higher && d.averageAccuracy >= 40.0 ==> r == TierRecommendation(Higher, None))
      && (d.targetPaper == Foundation && (d.averageAccuracy < 70.0 || predictedGrade != 5) ==>
            r == TierRecommendation(Foundation, None))
  {
  }

  /**
   * From 40% on a Higher candidate is moved only below grade 4, and a
   * Foundation candidate only at 80% accuracy or more; everyone else keeps
   * the paper.
   */
  lemma LateStage(d: PerformanceData, predictedGrade: int, progress: real)
    requires progress >= 40.0
    ensures d.targetPaper == Higher && predictedGrade < 4 ==>
      RecommendPaperTier(d, predictedGrade, progress) == TierRecommendation(Foundation, Some(ReasonBelowPass))
    ensures d.targetPaper == Foundation && d.averageAccuracy >= 80.0 ==>
      RecommendPaperTier(d, predictedGrade, progress) == TierRecommendation(Higher, Some(ReasonExceptional))
    ensures d.targetPaper == Higher && predictedGrade >= 4 ==> RecommendPaperTier(d, predictedGrade, progress) == TierRecommendation(Higher, None)
    ensures d.targetPaper == Foundation && d.averageAccuracy < 80.0 ==> RecommendPaperTier(d, predictedGrade, progress) == TierRecommendation(Foundation, None)
  {
  }

  /** Foundation, 5% progress, 90% accuracy: raw grade 5, lowered by two to 3. */
  lemma ConservatismExample()
    ensures CalculatePredictedGrade(PerformanceData(5, 100, 90.0, 10, Foundation, 4, "maths")).predictedGrade == 3
  {
    var d := PerformanceData(5, 100, 90.0, 10, Foundation, 4, "maths");
    assert HasTwoTiers("maths");
    assert HighestQualifying(90.0, FoundationBoundaries) == 4;
    assert GradeFromBoundaries(90.0, FoundationBoundaries) == 5;
    assert Progress(d) == 5.0;
  }

  /** 10% progress, target grade 7: Higher with a reason from Foundation, without one from Higher. */
  lemma RecommendationExample()
    ensures var r := RecommendPaperTier(PerformanceData(10, 100, 50.0, 40, Foundation, 7, "maths"), 4, 10.0);
      r.paper == Higher && r.reason.Some? && r.reason.value != ""
    ensures RecommendPaperTier(PerformanceData(10, 100, 50.0, 40, Higher, 7, "maths"), 4, 10.0) == TierRecommendation(Higher, None)
  {
  }

  /** The capitalised tier word used in formatted grades. */
  function TierTitle(paper: Paper): string {
    if paper == Foundation then "Foundation" else "Higher"
  }

  /** `formatGradeWithTier`: "Grade <n>", followed by " (<Tier>)" for a tiered paper. */
  function FormatGradeWithTier(grade: int, paper: Paper): (r: string)
    ensures |r| > 6 && r[..6] == "Grade "
  {
    var plain := "Grade " + JsString.IntToString(grade);
    if paper == NoTier then plain else plain + " (" + TierTitle(paper) + ")"
  }

  /** The number after "Grade " reads back as the grade. */
  lemma FormatGradeParses(grade: int)
    ensures JsString.ParseInt(FormatGradeWithTier(grade, NoTier)[6..]) == Some(grade)
  {
    assert FormatGradeWithTier(grade, NoTier)[6..] == JsString.IntToString(grade);
    JsString.ParseIntOfIntToString(grade);
  }

  /** A tiered grade is the untiered text with the tier in parentheses appended. */
  lemma FormatGradeTiered(grade: int, paper: Paper)
    requires paper != NoTier
    ensures FormatGradeWithTier(grade, paper) == FormatGradeWithTier(grade, NoTier) + " (" + TierTitle(paper) + ")"
    ensures paper == Foundation <==> FormatGradeWithTier(grade, paper)[|FormatGradeWithTier(grade, paper)| - 2] == 'n'
  {
  }

  /** `getGradeDescription`: a word per grade, "Outstanding" from 9 and "Beginning" below 2. */
  function GradeDescription(grade: int): (r: string)
    ensures grade >= 9 <==> r == "Outstanding"
    ensures grade < 2 <==> r == "Beginning"
  {
    if grade >= 9 then "Outstanding"
    else if grade >= 8 then "Excellent"
    else if grade >= 7 then "Very Good"
    else if grade >= 6 then "Good"
    else if grade >= 5 then "Strong Pass"
    else if grade >= 4 then "Pass"
    else if grade >= 3 then "Near Pass"
    else if grade >= 2 then "Developing"
    else "Beginning"
  }

  /** Each grade 1..9 has its own description. */
  lemma GradeDescriptionsDistinct(g1: int, g2: int)
    requires 1 <= g1 <= 9 && 1 <= g2 <= 9 && g1 != g2
    ensures GradeDescription(g1) != GradeDescription(g2)
  {
  }
}
