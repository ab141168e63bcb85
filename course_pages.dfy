/**
 * The two course pages (app/courses/maths/page.tsx and
 * app/courses/computer-science/page.tsx): access check, completion
 * percentage, strongest and weakest lesson, recommended next lesson and
 * the lock rule of the lesson cards. The pages carry separate copies of
 * the same rules; where the copies differ both are modelled.
 */
module CoursePages {
  import opened Wrappers
  import opened Store
  import opened JsNumber
  import Dashboard

  /** A lesson of the course catalogue (`lessons.json`). */
  datatype Lesson = Lesson(id: int, slug: string, title: string, number: int, category: string, isFree: bool)

  // ------------------------------------------------------------- completion

  /**
   * `Math.round((completed / totalLessons) * 100)`. With no lessons the
   * division gives NaN (nothing completed) or Infinity (some rows
   * completed); both are modelled as None.
   */
  function CompletionPercent(completed: nat, totalLessons: int): (r: Option<int>)
    ensures totalLessons == 0 <==> r.None?
    ensures totalLessons > 0 ==> r == Some((200 * completed + totalLessons) / (2 * totalLessons))
    ensures 0 < totalLessons && completed <= totalLessons ==> 0 <= r.value <= 100
  {
    if totalLessons == 0 then None
    else if totalLessons > 0 then Some(Percent(completed, totalLessons))
    else Some(Round((completed as real) / (totalLessons as real) * 100.0))
  }

  // ------------------------------------------------------ strongest, weakest

  function Score(p: ProgressRow): int
    requires p.accuracyScore.Some?
  {
    p.accuracyScore.value
  }

  /** The maths page's strongest-first comparator: a sorts before b. */
  predicate SortsBeforeStrongest(a: ProgressRow, b: ProgressRow)
    requires a.accuracyScore.Some? && b.accuracyScore.Some?
  {
    Score(a) > Score(b) || (Score(a) == Score(b) && a.lessonId > b.lessonId)
  }

  /** The maths page's weakest-first comparator: a sorts before b. */
  predicate SortsBeforeWeakest(a: ProgressRow, b: ProgressRow)
    requires a.accuracyScore.Some? && b.accuracyScore.Some?
  {
    Score(a) < Score(b) || (Score(a) == Score(b) && a.lessonId > b.lessonId)
  }

  /**
   * The computer-science copy of the strongest-first comparator, which
   * reads a score through `|| 0`.
   */
  predicate CsSortsBeforeStrongest(a: ProgressRow, b: ProgressRow) {
    if a.accuracyScore == b.accuracyScore then a.lessonId > b.lessonId
    else OrZero(a.accuracyScore) > OrZero(b.accuracyScore)
  }

  /** The computer-science copy of the weakest-first comparator. */
  predicate CsSortsBeforeWeakest(a: ProgressRow, b: ProgressRow) {
    if a.accuracyScore == b.accuracyScore then a.lessonId > b.lessonId
    else OrZero(a.accuracyScore) < OrZero(b.accuracyScore)
  }

  /** On rows that have a score, both pages order rows the same way. */
  lemma ComparatorsAgree(a: ProgressRow, b: ProgressRow)
    requires a.accuracyScore.Some? && b.accuracyScore.Some?
    ensures CsSortsBeforeStrongest(a, b) <==> SortsBeforeStrongest(a, b)
    ensures CsSortsBeforeWeakest(a, b) <==> SortsBeforeWeakest(a, b)
  {
  }

  predicate AllScored(rows: seq<ProgressRow>) {
    forall i :: 0 <= i < |rows| ==> rows[i].accuracyScore.Some?
  }

  /**
   * Element 0 after the stable sort by the strongest-first comparator: the
   * first row that no row sorts before.
   */
  function Strongest(rows: seq<ProgressRow>): (r: Option<ProgressRow>)
    requires AllScored(rows)
    ensures r.None? <==> rows == []
    ensures r.Some? ==> r.value in rows && r.value.accuracyScore.Some?
    ensures r.Some? ==> forall i :: 0 <= i < |rows| ==> !SortsBeforeStrongest(rows[i], r.value)
  {
    if rows == [] then None
    else
      var rest := Strongest(rows[1..]);
      assert forall i :: 1 <= i < |rows| ==> rows[i] == rows[1..][i - 1];
      if rest.None? || !SortsBeforeStrongest(rest.value, rows[0]) then Some(rows[0]) else rest
  }

  /** Element 0 after the stable sort by the weakest-first comparator. */
  function Weakest(rows: seq<ProgressRow>): (r: Option<ProgressRow>)
    requires AllScored(rows)
    ensures r.None? <==> rows == []
    ensures r.Some? ==> r.value in rows && r.value.accuracyScore.Some?
    ensures r.Some? ==> forall i :: 0 <= i < |rows| ==> !SortsBeforeWeakest(rows[i], r.value)
  {
    if rows == [] then None
    else
      var rest := Weakest(rows[1..]);
      assert forall i :: 1 <= i < |rows| ==> rows[i] == rows[1..][i - 1];
      if rest.None? || !SortsBeforeWeakest(rest.value, rows[0]) then Some(rows[0]) else rest
  }

  /** The rows with a score: `filter(p => p.accuracy_score !== null)`. */
  function WithScores(rows: seq<ProgressRow>): (r: seq<ProgressRow>)
    ensures AllScored(r)
  {
    Dashboard.Scored(rows)
  }

  /**
   * The strongest lesson has the highest score (ties to the higher lesson
   * id), the weakest the lowest, so the strongest score is at least the
   * weakest; both are absent exactly when no row has a score.
   */
  lemma StrongestAtLeastWeakest(rows: seq<ProgressRow>)
    ensures Strongest(WithScores(rows)).None? <==> WithScores(rows) == []
    ensures Weakest(WithScores(rows)).None? <==> WithScores(rows) == []
    ensures WithScores(rows) != [] ==>
      Score(Strongest(WithScores(rows)).value) >= Score(Weakest(WithScores(rows)).value)
  {
    var scored := WithScores(rows);
    if scored != [] {
      var s, w := Strongest(scored).value, Weakest(scored).value;
      var j :| 0 <= j < |scored| && scored[j] == w;
      assert !SortsBeforeStrongest(scored[j], s);
    }
  }

  /** The strongest row's score is the maximum of all scores. */
  lemma StrongestIsMaximum(rows: seq<ProgressRow>, i: nat)
    requires AllScored(rows) && i < |rows|
    ensures Score(rows[i]) <= Score(Strongest(rows).value)
    ensures Score(rows[i]) == Score(Strongest(rows).value) ==> rows[i].lessonId <= Strongest(rows).value.lessonId
  {
  }

  /** The weakest row's score is the minimum of all scores. */
  lemma WeakestIsMinimum(rows: seq<ProgressRow>, i: nat)
    requires AllScored(rows) && i < |rows|
    ensures Score(Weakest(rows).value) <= Score(rows[i])
    ensures Score(rows[i]) == Score(Weakest(rows).value) ==> rows[i].lessonId <= Weakest(rows).value.lessonId
  {
  }

  // -------------------------------------------------------------- next lesson

  /** `progressMap.get(id)` for the map built from the rows: the last row with that lesson id. */
  function MapGet(rows: seq<ProgressRow>, id: int): (r: Option<ProgressRow>)
    ensures r.None? <==> forall i :: 0 <= i < |rows| ==> rows[i].lessonId != id
    ensures r.Some? ==> exists i :: 0 <= i < |rows| && rows[i] == r.value && rows[i].lessonId == id
                                    && forall j :: i < j < |rows| ==> rows[j].lessonId != id
  {
    if rows == [] then None
    else if rows[|rows| - 1].lessonId == id then Some(rows[|rows| - 1])
    else
      var r := MapGet(rows[..|rows| - 1], id);
      LastOccurrenceExtends(rows, rows[..|rows| - 1], id, r);
      r
  }

  /** A last occurrence in all but the final row stays the last one when the final row has another id. */
  lemma LastOccurrenceExtends(rows: seq<ProgressRow>, prefix: seq<ProgressRow>, id: int, r: Option<ProgressRow>)
    requires |rows| > 0 && prefix == rows[..|rows| - 1] && rows[|rows| - 1].lessonId != id
    requires r.None? <==> forall i :: 0 <= i < |prefix| ==> prefix[i].lessonId != id
    requires r.Some? ==> exists i :: 0 <= i < |prefix| && prefix[i] == r.value && prefix[i].lessonId == id
                                    && forall j :: i < j < |prefix| ==> prefix[j].lessonId != id
    ensures r.None? <==> forall i :: 0 <= i < |rows| ==> rows[i].lessonId != id
    ensures r.Some? ==> exists i :: 0 <= i < |rows| && rows[i] == r.value && rows[i].lessonId == id
                                    && forall j :: i < j < |rows| ==> rows[j].lessonId != id
  {
    assert forall i :: 0 <= i < |prefix| ==> prefix[i] == rows[i];
    if r.Some? {
      var i :| 0 <= i < |prefix| && prefix[i] == r.value && prefix[i].lessonId == id
               && forall j :: i < j < |prefix| ==> prefix[j].lessonId != id;
      assert forall j :: i < j < |rows| ==> rows[j].lessonId != id;
    }
  }

  /** `lessonProgress.find(p => p.lesson_id === id)`: the first row with that lesson id. */
  function FindProgress(rows: seq<ProgressRow>, id: int): (r: Option<ProgressRow>)
    ensures r.None? <==> forall i :: 0 <= i < |rows| ==> rows[i].lessonId != id
    ensures r.Some? ==> exists i :: 0 <= i < |rows| && rows[i] == r.value && rows[i].lessonId == id
                                    && forall j :: 0 <= j < i ==> rows[j].lessonId != id
  {
    if rows == [] then None
    else if rows[0].lessonId == id then Some(rows[0])
    else
      var rest := FindProgress(rows[1..], id);
      assert forall i :: 1 <= i < |rows| ==> rows[i] == rows[1..][i - 1];
      rest
  }

  /** With one row per lesson, the map lookup and `find` agree. */
  lemma LookupsAgreeWithoutDuplicates(rows: seq<ProgressRow>, id: int)
    requires forall i, j :: 0 <= i < j < |rows| ==> rows[i].lessonId != rows[j].lessonId
    ensures MapGet(rows, id) == FindProgress(rows, id)
  {
    if MapGet(rows, id).Some? {
      var i :| 0 <= i < |rows| && rows[i] == MapGet(rows, id).value && rows[i].lessonId == id;
      var k :| 0 <= k < |rows| && rows[k] == FindProgress(rows, id).value && rows[k].lessonId == id;
      assert i == k;
    }
  }

  /** A lesson still to do: no progress row, or one not completed. */
  predicate Pending(lesson: Lesson, rows: seq<ProgressRow>) {
    var p := MapGet(rows, lesson.id);
    p.None? || !p.value.isCompleted
  }

  /** `lessons.find(...)`: the first catalogue lesson still to do. */
  function NextLesson(catalogue: seq<Lesson>, rows: seq<ProgressRow>): (r: Option<nat>)
    ensures r.None? <==> forall k :: 0 <= k < |catalogue| ==> !Pending(catalogue[k], rows)
    ensures r.Some? ==> (r.value < |catalogue| && Pending(catalogue[r.value], rows)
                         && forall k :: 0 <= k < r.value ==> !Pending(catalogue[k], rows))
  {
    if catalogue == [] then None
    else if Pending(catalogue[0], rows) then Some(0)
    else match NextLesson(catalogue[1..], rows)
         case None => None
         case Some(k) => Some(k + 1)
  }

  /** `!lesson.isFree && !isPremium`. */
  predicate IsLocked(lesson: Lesson, isPremium: bool) {
    !lesson.isFree && !isPremium
  }

  // --------------------------------------------------------------- the pages

  datatype CoursePage =
    | Redirect(to: string)
    | Show(completedLessons: nat, totalLessons: int, completionPercent: Option<int>,
           strongest: Option<ProgressRow>, weakest: Option<ProgressRow>,
           nextLesson: Option<Lesson>, locked: seq<bool>)

  /** The enrollment query's filter: the user's active enrollment in the course. */
  predicate ActiveIn(e: EnrollmentRow, u: UserId, courseSlug: string) {
    e.userId == u && e.courseSlug == courseSlug && e.status == Active
  }

  /**
   * `.single()` on the enrollment query: found exactly when one row
   * matches, and then it is that row; none and several both read as
   * "not found".
   */
  function SingleEnrollment(enrollments: seq<EnrollmentRow>, u: UserId, courseSlug: string): (r: Option<EnrollmentRow>)
    ensures r.Some? <==> exists i :: 0 <= i < |enrollments| && ActiveIn(enrollments[i], u, courseSlug)
                                    && forall j :: 0 <= j < |enrollments| && j != i ==> !ActiveIn(enrollments[j], u, courseSlug)
    ensures r.Some? ==> r.value in enrollments && ActiveIn(r.value, u, courseSlug)
  {
    var keep := (e: EnrollmentRow) => ActiveIn(e, u, courseSlug);
    var matches := Filter(enrollments, keep);
    FilterSingle(enrollments, keep);
    if |matches| == 1 then Some(matches[0]) else None
  }

  /** What either page shows for an enrollment, its progress rows and the catalogue. */
  function PageFor(catalogue: seq<Lesson>, totalLessons: int, isPremium: bool, rows: seq<ProgressRow>): (p: CoursePage)
    ensures p.Show? && |p.locked| == |catalogue|
    ensures p.completedLessons == Dashboard.CompletedCount(rows) && p.totalLessons == totalLessons
    ensures p.completionPercent == CompletionPercent(p.completedLessons, totalLessons)
    ensures p.strongest == Strongest(WithScores(rows)) && p.weakest == Weakest(WithScores(rows))
    ensures p.strongest.None? <==> WithScores(rows) == []
    ensures p.nextLesson.None? <==> forall k :: 0 <= k < |catalogue| ==> !Pending(catalogue[k], rows)
    ensures NextLesson(catalogue, rows).Some? ==> p.nextLesson == Some(catalogue[NextLesson(catalogue, rows).value])
    ensures isPremium ==> forall k :: 0 <= k < |catalogue| ==> !p.locked[k]
    ensures forall k :: 0 <= k < |catalogue| && catalogue[k].isFree ==> !p.locked[k]
    ensures !isPremium ==> forall k :: 0 <= k < |catalogue| ==> (p.locked[k] <==> !catalogue[k].isFree)
  {
    var completed := Dashboard.CompletedCount(rows);
    var scored := WithScores(rows);
    var next := NextLesson(catalogue, rows);
    Show(completed, totalLessons, CompletionPercent(completed, totalLessons),
         Strongest(scored), Weakest(scored),
         if next.Some? then Some(catalogue[next.value]) else None,
         seq(|catalogue|, k requires 0 <= k < |catalogue| => IsLocked(catalogue[k], isPremium)))
  }

  /**
   * The maths page's `checkAccess` and summaries: signed-out visitors go
   * to the login page, visitors without exactly one active maths
   * enrollment to the home page with an error; `totalLessons` is the
   * catalogue's own count.
   */
  method OpenMathsPage(db: Database, user: Option<UserId>, catalogue: seq<Lesson>, totalLessons: int)
    returns (page: CoursePage)
    ensures user.None? ==> page == Redirect("/login?redirect=/courses/maths")
    ensures user.Some? && SingleEnrollment(db.enrollments, user.value, "maths").None? ==>
      page == Redirect("/?error=not-enrolled")
    ensures user.Some? && SingleEnrollment(db.enrollments, user.value, "maths").Some? ==>
      page == PageFor(catalogue, totalLessons, SingleEnrollment(db.enrollments, user.value, "maths").value.isPremium,
                      Dashboard.ProgressOf(db.progress, user.value, "maths"))
  {
    if user.None? {
      return Redirect("/login?redirect=/courses/maths");
    }
    var enrollment := SingleEnrollment(db.enrollments, user.value, "maths");
    if enrollment.None? {
      return Redirect("/?error=not-enrolled");
    }
    var progress := Dashboard.ProgressOf(db.progress, user.value, "maths");
    page := PageFor(catalogue, totalLessons, enrollment.value.isPremium, progress);
  }

  const CsCourseSlug := "computer-science"

  /**
   * The computer-science page: the same flow under the slug
   * "computer-science", redirecting to "/" when not enrolled, with the
   * lesson count taken from the catalogue's length.
   */
  method OpenComputerSciencePage(db: Database, user: Option<UserId>, catalogue: seq<Lesson>)
    returns (page: CoursePage)
    ensures user.None? ==> page == Redirect("/login?redirect=/courses/computer-science")
    ensures user.Some? && SingleEnrollment(db.enrollments, user.value, CsCourseSlug).None? ==> page == Redirect("/")
    ensures user.Some? && SingleEnrollment(db.enrollments, user.value, CsCourseSlug).Some? ==>
      page == PageFor(catalogue, |catalogue|, SingleEnrollment(db.enrollments, user.value, CsCourseSlug).value.isPremium,
                      Dashboard.ProgressOf(db.progress, user.value, CsCourseSlug))
    ensures page.Show? && catalogue != [] ==> page.completionPercent.Some?
  {
    if user.None? {
      return Redirect("/login?redirect=/courses/computer-science");
    }
    var enrollment := SingleEnrollment(db.enrollments, user.value, CsCourseSlug);
    if enrollment.None? {
      return Redirect("/");
    }
    var progress := Dashboard.ProgressOf(db.progress, user.value, CsCourseSlug);
    page := PageFor(catalogue, |catalogue|, enrollment.value.isPremium, progress);
  }
}
