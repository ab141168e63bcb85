/**
 * The learner dashboard (app/dashboard/page.tsx): per-course summaries of
 * the lesson-progress rows of each active enrollment, the totals across
 * courses, the accuracy-to-grade ladder, the simplified streak, the
 * achievement badges and the overall progress figure.
 */
module Dashboard {
  import opened Wrappers
  import opened Store
  import opened JsNumber
  import JsString

  // ------------------------------------------------------- per-course stats

  /** `filter(p => p.is_completed).length`. */
  function CompletedCount(rows: seq<ProgressRow>): (n: nat)
    ensures n <= |rows|
  {
    |Filter(rows, (p: ProgressRow) => p.isCompleted)|
  }

  /** No rows count nothing; one more row counts one more exactly when it is completed. */
  lemma CompletedCountStep(rows: seq<ProgressRow>, p: ProgressRow)
    ensures CompletedCount([]) == 0
    ensures CompletedCount(rows + [p]) == CompletedCount(rows) + (if p.isCompleted then 1 else 0)
  {
    var keep := (q: ProgressRow) => q.isCompleted;
    FilterAppend(rows, [p], keep);
    assert Filter([p], keep) == (if p.isCompleted then [p] else []) by {
      assert [p][1..] == [];
    }
  }

  /** The rows with a stored accuracy score. */
  function Scored(rows: seq<ProgressRow>): (r: seq<ProgressRow>)
    ensures forall i :: 0 <= i < |r| ==> r[i].accuracyScore.Some? && r[i] in rows
  {
    Filter(rows, (p: ProgressRow) => p.accuracyScore.Some?)
  }

  /** Σ `accuracy_score || 0`. */
  function SumScores(rows: seq<ProgressRow>): int {
    if rows == [] then 0 else SumScores(rows[..|rows| - 1]) + OrZero(rows[|rows| - 1].accuracyScore)
  }

  /** Scores that are percentages add up to at most 100 per row. */
  lemma {:induction false} SumScoresBounded(rows: seq<ProgressRow>)
    requires forall i :: 0 <= i < |rows| ==> 0 <= OrZero(rows[i].accuracyScore) <= 100
    ensures 0 <= SumScores(rows) <= 100 * |rows|
  {
    if rows != [] {
      SumScoresBounded(rows[..|rows| - 1]);
    }
  }

  /** Every stored score is a percentage. */
  predicate ScoresArePercentages(rows: seq<ProgressRow>) {
    forall i :: 0 <= i < |rows| && rows[i].accuracyScore.Some? ==> 0 <= rows[i].accuracyScore.value <= 100
  }

  /**
   * The rounded mean of the stored scores, 0 when none is stored; a
   * percentage whenever the scores are.
   */
  function OverallAccuracy(rows: seq<ProgressRow>): (r: int)
    ensures |Scored(rows)| == 0 ==> r == 0
    ensures |Scored(rows)| > 0 ==> r == (2 * SumScores(Scored(rows)) + |Scored(rows)|) / (2 * |Scored(rows)|)
    ensures ScoresArePercentages(rows) ==> 0 <= r <= 100
  {
    var scored := Scored(rows);
    if |scored| > 0 then
      ScoredBounded(rows);
      MeanBounds(SumScores(scored), |scored|);
      RoundQuotient(SumScores(scored), |scored|)
    else 0
  }

  lemma ScoredBounded(rows: seq<ProgressRow>)
    ensures ScoresArePercentages(rows) ==> 0 <= SumScores(Scored(rows)) <= 100 * |Scored(rows)|
  {
    if ScoresArePercentages(rows) {
      var scored := Scored(rows);
      forall i | 0 <= i < |scored|
        ensures 0 <= OrZero(scored[i].accuracyScore) <= 100
      {
        var j :| 0 <= j < |rows| && rows[j] == scored[i];
      }
      SumScoresBounded(scored);
    }
  }

  /** A rounded mean of percentages is a percentage. */
  lemma MeanBounds(sum: int, n: int)
    requires n > 0
    ensures 0 <= sum <= 100 * n ==> 0 <= (2 * sum + n) / (2 * n) <= 100
  {
    if 0 <= sum <= 100 * n {
      DivBetween(2 * sum + n, 2 * n, 0, 100);
    }
  }

  /** Σ `time_spent_minutes || 0`. */
  function TimeSpent(rows: seq<ProgressRow>): int {
    if rows == [] then 0 else TimeSpent(rows[..|rows| - 1]) + OrZero(rows[|rows| - 1].timeSpentMinutes)
  }

  lemma {:induction false} TimeSpentNonNegative(rows: seq<ProgressRow>)
    requires forall i :: 0 <= i < |rows| ==> OrZero(rows[i].timeSpentMinutes) >= 0
    ensures TimeSpent(rows) >= 0
  {
    if rows != [] {
      TimeSpentNonNegative(rows[..|rows| - 1]);
    }
  }

  /** `find(p => !p.is_completed)`: the position of the first incomplete row. */
  function FirstIncomplete(rows: seq<ProgressRow>): (r: Option<nat>)
    ensures r.None? <==> forall i :: 0 <= i < |rows| ==> rows[i].isCompleted
    ensures r.Some? ==> (r.value < |rows| && !rows[r.value].isCompleted
                         && forall i :: 0 <= i < r.value ==> rows[i].isCompleted)
  {
    if rows == [] then None
    else if !rows[0].isCompleted then Some(0)
    else match FirstIncomplete(rows[1..])
         case None => None
         case Some(k) => Some(k + 1)
  }

  /** `nextLesson?.lesson_slug || null`. */
  function NextLessonSlug(rows: seq<ProgressRow>): (r: Option<string>)
    ensures r.Some? ==> (r.value != [] && FirstIncomplete(rows).Some?
                         && r.value == rows[FirstIncomplete(rows).value].lessonSlug)
    ensures (forall i :: 0 <= i < |rows| ==> rows[i].isCompleted) ==> r.None?
  {
    match FirstIncomplete(rows)
    case None => None
    case Some(k) => if rows[k].lessonSlug == [] then None else Some(rows[k].lessonSlug)
  }

  // ------------------------------------------------------------ grade ladder

  /** The accuracy needed for ladder grade k (1..9). */
  function Threshold(k: int): int
    requires 1 <= k <= 9
  {
    [15, 25, 35, 45, 55, 65, 75, 85, 90][k - 1]
  }

  /** The ladder grade as a number, 0 standing for 'U'. */
  function LadderGrade(accuracy: int): (g: nat)
    ensures g <= 9
    ensures g == 0 <==> accuracy < 15
    ensures 1 <= g ==> Threshold(g) <= accuracy
    ensures g <= 8 ==> accuracy < Threshold(g + 1)
  {
    if accuracy >= 90 then 9
    else if accuracy >= 85 then 8
    else if accuracy >= 75 then 7
    else if accuracy >= 65 then 6
    else if accuracy >= 55 then 5
    else if accuracy >= 45 then 4
    else if accuracy >= 35 then 3
    else if accuracy >= 25 then 2
    else if accuracy >= 15 then 1
    else 0
  }

  /** Higher accuracy never gives a lower ladder grade. */
  lemma LadderMonotone(a: int, b: int)
    requires a <= b
    ensures LadderGrade(a) <= LadderGrade(b)
  {
  }

  /** The displayed `predictedGrade`: one digit, or "U". */
  function PredictedGradeLabel(accuracy: int): (s: string)
    ensures s == "U" <==> accuracy < 15
    ensures s != "U" ==> |s| == 1 && JsString.IsAsciiDigit(s[0]) && s[0] as int - '0' as int == LadderGrade(accuracy)
  {
    var g := LadderGrade(accuracy);
    if g == 0 then "U" else [JsString.DigitChar(g)]
  }

  // ----------------------------------------------------------------- streak

  const MillisecondsPerDay := 1000 * 60 * 60 * 24

  /** The latest `last_attempt_at` among the rows that have one. */
  function LatestAttempt(rows: seq<ProgressRow>): (t: Option<Timestamp>)
    ensures t.None? <==> forall i :: 0 <= i < |rows| ==> rows[i].lastAttemptAt.None?
    ensures t.Some? ==> ((exists i :: 0 <= i < |rows| && rows[i].lastAttemptAt == t)
                         && forall i :: 0 <= i < |rows| && rows[i].lastAttemptAt.Some? ==> rows[i].lastAttemptAt.value <= t.value)
  {
    if rows == [] then None
    else
      var rest := LatestAttempt(rows[..|rows| - 1]);
      var last := rows[|rows| - 1].lastAttemptAt;
      assert forall i :: 0 <= i < |rows| - 1 ==> rows[..|rows| - 1][i] == rows[i];
      if last.None? then rest
      else if rest.None? || rest.value < last.value then last
      else rest
  }

  /** Whole days since the latest attempt (timestamps in milliseconds), 999 when there is none. */
  function DaysSinceLastPractice(rows: seq<ProgressRow>, now: Timestamp): (d: int)
    ensures LatestAttempt(rows).None? ==> d == 999
    ensures LatestAttempt(rows).Some? ==>
      d * MillisecondsPerDay <= now - LatestAttempt(rows).value < (d + 1) * MillisecondsPerDay
  {
    match LatestAttempt(rows)
    case None => 999
    case Some(t) => FloorDiv(now - t, MillisecondsPerDay)
  }

  /** The simplified streak: 7 after practice today, 5 after practice yesterday, else 0. */
  function SimplifiedStreak(daysSince: int): (s: nat)
    ensures s == 7 <==> daysSince == 0
    ensures s == 5 <==> daysSince == 1
    ensures s == 0 <==> daysSince != 0 && daysSince != 1
  {
    if daysSince == 0 then 7 else if daysSince == 1 then 5 else 0
  }

  /** A course never practised has streak 0. */
  lemma NeverPractisedMeansNoStreak(rows: seq<ProgressRow>, now: Timestamp)
    requires forall i :: 0 <= i < |rows| ==> rows[i].lastAttemptAt.None?
    ensures SimplifiedStreak(DaysSinceLastPractice(rows, now)) == 0
  {
  }

  // ---------------------------------------------------------- course summary

  function CourseName(slug: string): (n: string)
    ensures slug != "maths" && slug != "computerscience" && slug != "englishlanguage" ==> n == slug
  {
    if slug == "maths" then "Maths"
    else if slug == "computerscience" then "Computer Science"
    else if slug == "englishlanguage" then "English Language"
    else slug
  }

  function CourseColor(slug: string): (c: string)
    ensures slug != "maths" && slug != "computerscience" && slug != "englishlanguage" ==> c == "#6366F1"
  {
    if slug == "maths" then "#3B82F6"
    else if slug == "computerscience" then "#8B5CF6"
    else if slug == "englishlanguage" then "#EF4444"
    else "#6366F1"
  }

  function CourseIcon(slug: string): (i: string)
    ensures slug != "maths" && slug != "computerscience" && slug != "englishlanguage" ==> i == "\U{1F4DA}"
  {
    if slug == "maths" then "\U{1F4D0}"
    else if slug == "computerscience" then "\U{1F4BB}"
    else if slug == "englishlanguage" then "\U{1F4DD}"
    else "\U{1F4DA}"
  }

  /** One entry of `enrichedEnrollments`. */
  datatype CourseSummary = CourseSummary(
    courseSlug: string,
    courseName: string,
    lessonsCompleted: nat,
    totalLessons: int,
    overallAccuracy: int,
    timeSpentMinutes: int,
    studyStreakDays: nat,
    predictedGrade: string,
    nextLessonSlug: Option<string>,
    color: string,
    icon: string)

  /** The caller's progress rows of one course: the per-enrollment query. */
  function ProgressOf(progress: seq<ProgressRow>, u: UserId, courseSlug: string): seq<ProgressRow> {
    Filter(progress, (p: ProgressRow) => p.userId == u && p.courseSlug == courseSlug)
  }

  /** The summary of one course from its progress rows. */
  function Summarize(courseSlug: string, rows: seq<ProgressRow>, now: Timestamp): (s: CourseSummary)
    ensures s.courseSlug == courseSlug && s.totalLessons == 100
    ensures s.lessonsCompleted <= |rows|
    ensures s.studyStreakDays in {0, 5, 7}
    ensures ScoresArePercentages(rows) ==> 0 <= s.overallAccuracy <= 100
    ensures s.predictedGrade == PredictedGradeLabel(s.overallAccuracy)
    ensures s.lessonsCompleted == CompletedCount(rows)
    ensures s.overallAccuracy == OverallAccuracy(rows)
    ensures s.timeSpentMinutes == TimeSpent(rows)
    ensures s.studyStreakDays == SimplifiedStreak(DaysSinceLastPractice(rows, now))
    ensures s.nextLessonSlug == NextLessonSlug(rows)
    ensures s.courseName == CourseName(courseSlug) && s.color == CourseColor(courseSlug) && s.icon == CourseIcon(courseSlug)
  {
    var accuracy := OverallAccuracy(rows);
    CourseSummary(courseSlug, CourseName(courseSlug), CompletedCount(rows), 100, accuracy, TimeSpent(rows),
                  SimplifiedStreak(DaysSinceLastPractice(rows, now)), PredictedGradeLabel(accuracy),
                  NextLessonSlug(rows), CourseColor(courseSlug), CourseIcon(courseSlug))
  }

  // ------------------------------------------------------------------ totals

  function TotalTime(summaries: seq<CourseSummary>): int {
    if summaries == [] then 0
    else TotalTime(summaries[..|summaries| - 1]) + summaries[|summaries| - 1].timeSpentMinutes
  }

  function TotalCompleted(summaries: seq<CourseSummary>): (n: nat) {
    if summaries == [] then 0
    else TotalCompleted(summaries[..|summaries| - 1]) + summaries[|summaries| - 1].lessonsCompleted
  }

  /** `if (streak > maxStreak) maxStreak = streak` over the courses, from 0. */
  function MaxStreak(summaries: seq<CourseSummary>): (m: nat)
    ensures forall i :: 0 <= i < |summaries| ==> summaries[i].studyStreakDays <= m
    ensures m == 0 || exists i :: 0 <= i < |summaries| && summaries[i].studyStreakDays == m
  {
    if summaries == [] then 0
    else
      var prefix := summaries[..|summaries| - 1];
      var m := MaxStreak(prefix);
      var s := summaries[|summaries| - 1].studyStreakDays;
      assert forall i :: 0 <= i < |prefix| ==> prefix[i] == summaries[i];
      if s > m then s else m
  }

  // ------------------------------------------------------------ achievements

  datatype Achievement =
    | FirstSteps | GettingStarted | QuarterCentury | HalfWayThere | Centurion
    | HourScholar | TimeMaster | OnFire | WeekWarrior
  {
    function Title(): string {
      match this
      case FirstSteps => "First Steps"
      case GettingStarted => "Getting Started"
      case QuarterCentury => "Quarter Century"
      case HalfWayThere => "Half Way There"
      case Centurion => "Centurion"
      case HourScholar => "Hour Scholar"
      case TimeMaster => "Time Master"
      case OnFire => "On Fire \U{1F525}"
      case WeekWarrior => "Week Warrior"
    }
  }

  /** `if (cond) list.push(badge)`. */
  function PushIf(r: seq<Achievement>, cond: bool, badge: Achievement): (r': seq<Achievement>)
    ensures forall x :: x in r' <==> x in r || (cond && x == badge)
  {
    if cond then r + [badge] else r
  }

  /** The threshold each badge checks. */
  predicate Earned(badge: Achievement, totalCompleted: int, totalTime: int, maxStreak: int) {
    match badge
    case FirstSteps => totalCompleted >= 1
    case GettingStarted => totalCompleted >= 10
    case QuarterCentury => totalCompleted >= 25
    case HalfWayThere => totalCompleted >= 50
    case Centurion => totalCompleted >= 100
    case HourScholar => totalTime >= 60
    case TimeMaster => totalTime >= 300
    case OnFire => maxStreak >= 3
    case WeekWarrior => maxStreak >= 7
  }

  /** The badges, in the order they are pushed: exactly the earned ones. */
  function Achievements(totalCompleted: int, totalTime: int, maxStreak: int): (r: seq<Achievement>)
    ensures forall badge :: badge in r <==> Earned(badge, totalCompleted, totalTime, maxStreak)
  {
    var r1 := PushIf([], totalCompleted >= 1, FirstSteps);
    var r2 := PushIf(r1, totalCompleted >= 10, GettingStarted);
    var r3 := PushIf(r2, totalCompleted >= 25, QuarterCentury);
    var r4 := PushIf(r3, totalCompleted >= 50, HalfWayThere);
    var r5 := PushIf(r4, totalCompleted >= 100, Centurion);
    var r6 := PushIf(r5, totalTime >= 60, HourScholar);
    var r7 := PushIf(r6, totalTime >= 300, TimeMaster);
    var r8 := PushIf(r7, maxStreak >= 3, OnFire);
    var r9 := PushIf(r8, maxStreak >= 7, WeekWarrior);
    assert forall badge :: badge in r9 <==> Earned(badge, totalCompleted, totalTime, maxStreak) by {
      forall badge ensures badge in r9 <==> Earned(badge, totalCompleted, totalTime, maxStreak) {
        assert badge in r9 <==> badge in r8 || (maxStreak >= 7 && badge == WeekWarrior);
        assert badge in r8 <==> badge in r7 || (maxStreak >= 3 && badge == OnFire);
        assert badge in r7 <==> badge in r6 || (totalTime >= 300 && badge == TimeMaster);
        assert badge in r6 <==> badge in r5 || (totalTime >= 60 && badge == HourScholar);
        assert badge in r5 <==> badge in r4 || (totalCompleted >= 100 && badge == Centurion);
        assert badge in r4 <==> badge in r3 || (totalCompleted >= 50 && badge == HalfWayThere);
        assert badge in r3 <==> badge in r2 || (totalCompleted >= 25 && badge == QuarterCentury);
        assert badge in r2 <==> badge in r1 || (totalCompleted >= 10 && badge == GettingStarted);
        assert badge in r1 <==> totalCompleted >= 1 && badge == FirstSteps;
      }
    }
    r9
  }

  /** A badge of a higher tier comes with every lower badge of its kind. */
  lemma HigherTierImpliesLower(totalCompleted: int, totalTime: int, maxStreak: int)
    ensures var r := Achievements(totalCompleted, totalTime, maxStreak);
      && (Centurion in r ==> HalfWayThere in r)
      && (HalfWayThere in r ==> QuarterCentury in r)
      && (QuarterCentury in r ==> GettingStarted in r)
      && (GettingStarted in r ==> FirstSteps in r)
      && (TimeMaster in r ==> HourScholar in r)
      && (WeekWarrior in r ==> OnFire in r)
  {
    var r := Achievements(totalCompleted, totalTime, maxStreak);
    assert Centurion in r ==> Earned(Centurion, totalCompleted, totalTime, maxStreak);
    assert HalfWayThere in r ==> Earned(HalfWayThere, totalCompleted, totalTime, maxStreak);
    assert QuarterCentury in r ==> Earned(QuarterCentury, totalCompleted, totalTime, maxStreak);
    assert GettingStarted in r ==> Earned(GettingStarted, totalCompleted, totalTime, maxStreak);
    assert TimeMaster in r ==> Earned(TimeMaster, totalCompleted, totalTime, maxStreak);
    assert WeekWarrior in r ==> Earned(WeekWarrior, totalCompleted, totalTime, maxStreak);
  }

  /** With the simplified streak, "On Fire" and "Week Warrior" come only from practice today or yesterday. */
  lemma StreakBadgesNeedRecentPractice(summaries: seq<CourseSummary>)
    requires forall i :: 0 <= i < |summaries| ==> summaries[i].studyStreakDays in {0, 5, 7}
    ensures MaxStreak(summaries) in {0, 5, 7}
  {
  }

  /** `Math.round((totalLessonsCompleted / (enrollments.length * 100)) * 100)`. */
  function OverallProgress(totalCompleted: int, courses: nat): (r: int)
    requires courses > 0
    ensures r == (200 * totalCompleted + 100 * courses) / (200 * courses)
    ensures 0 <= totalCompleted <= 100 * courses ==> 0 <= r <= 100
  {
    Percent(totalCompleted, courses * 100)
  }

  // ------------------------------------------------------------- the loader

  datatype Page =
    | RedirectToLogin
    | Loaded(enrollments: seq<CourseSummary>, totalStudyTime: int, totalLessonsCompleted: nat,
             currentStreak: nat, achievements: seq<Achievement>)

  predicate ActiveFor(e: EnrollmentRow, u: UserId) {
    e.userId == u && e.status == Active
  }

  /** Adding one course to the summaries adds to the totals and may raise the longest streak. */
  lemma TotalsStep(before: seq<CourseSummary>, summary: CourseSummary)
    ensures TotalTime(before + [summary]) == TotalTime(before) + summary.timeSpentMinutes
    ensures TotalCompleted(before + [summary]) == TotalCompleted(before) + summary.lessonsCompleted
    ensures MaxStreak(before + [summary]) == Max(MaxStreak(before), summary.studyStreakDays)
  {
    var after := before + [summary];
    assert after[..|after| - 1] == before;
  }

  /** The summary of one enrollment from the caller's progress rows of its course. */
  function SummaryFor(e: EnrollmentRow, progress: seq<ProgressRow>, u: UserId, now: Timestamp): CourseSummary {
    Summarize(e.courseSlug, ProgressOf(progress, u, e.courseSlug), now)
  }

  /** `summaries` holds the summary of each active enrollment, in enrollment order. */
  predicate SummarizesEach(summaries: seq<CourseSummary>, active: seq<EnrollmentRow>, progress: seq<ProgressRow>,
                           u: UserId, now: Timestamp) {
    |summaries| == |active|
    && forall k :: 0 <= k < |active| ==> summaries[k] == SummaryFor(active[k], progress, u, now)
  }

  /**
   * `loadDashboard`: a signed-out visitor is sent to the login page; a
   * failed or empty enrollment query leaves the empty dashboard; otherwise
   * the loop summarises each active enrollment and accumulates the totals.
   * The database is only read.
   */
  method LoadDashboard(db: Database, user: Option<UserId>, enrollmentsFail: bool, now: Timestamp) returns (page: Page)
    ensures user.None? <==> page == RedirectToLogin
    ensures user.Some? ==>
      var active := if enrollmentsFail then [] else Filter(db.enrollments, (e: EnrollmentRow) => ActiveFor(e, user.value));
      var summaries := page.enrollments;
      && page.Loaded?
      && SummarizesEach(summaries, active, db.progress, user.value, now)
      && page.totalStudyTime == TotalTime(summaries)
      && page.totalLessonsCompleted == TotalCompleted(summaries)
      && page.currentStreak == MaxStreak(summaries)
      && page.achievements == (if active == [] then [] else Achievements(TotalCompleted(summaries), TotalTime(summaries), MaxStreak(summaries)))
  {
    if user.None? {
      return RedirectToLogin;
    }
    var u := user.value;
    var enrollmentData := if enrollmentsFail then [] else Filter(db.enrollments, (e: EnrollmentRow) => ActiveFor(e, u));
    if |enrollmentData| == 0 {
      return Loaded([], 0, 0, 0, []);
    }
    var progress := db.progress;
    var enriched, totalTime, totalCompleted, maxStreak :=
      SummarizeAll(enrollmentData, (e: EnrollmentRow) => SummaryFor(e, progress, u, now));
    assert SummarizesEach(enriched, enrollmentData, progress, u, now);
    page := Loaded(enriched, totalTime, totalCompleted, maxStreak, Achievements(totalCompleted, totalTime, maxStreak));
  }

  /**
   * The loader's loop: each active enrollment summarised in turn by
   * `summarize` (its progress query and statistics), the totals
   * accumulated as it goes.
   */
  method SummarizeAll(enrollmentData: seq<EnrollmentRow>, summarize: EnrollmentRow -> CourseSummary)
    returns (enriched: seq<CourseSummary>, totalTime: int, totalCompleted: nat, maxStreak: nat)
    ensures |enriched| == |enrollmentData|
    ensures forall k :: 0 <= k < |enrollmentData| ==> enriched[k] == summarize(enrollmentData[k])
    ensures totalTime == TotalTime(enriched)
    ensures totalCompleted == TotalCompleted(enriched)
    ensures maxStreak == MaxStreak(enriched)
  {
    enriched, totalTime, totalCompleted, maxStreak := [], 0, 0, 0;
    var i := 0;
    while i < |enrollmentData|
      invariant 0 <= i <= |enrollmentData|
      invariant |enriched| == i
      invariant forall k :: 0 <= k < i ==> enriched[k] == summarize(enrollmentData[k])
      invariant totalTime == TotalTime(enriched)
      invariant totalCompleted == TotalCompleted(enriched)
      invariant maxStreak == MaxStreak(enriched)
    {
      var summary := summarize(enrollmentData[i]);
      TotalsStep(enriched, summary);
      totalTime := totalTime + summary.timeSpentMinutes;
      if summary.studyStreakDays > maxStreak {
        maxStreak := summary.studyStreakDays;
      }
      totalCompleted := totalCompleted + summary.lessonsCompleted;
      enriched := enriched + [summary];
      i := i + 1;
    }
  }
}
