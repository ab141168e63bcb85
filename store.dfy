/**
 * The persistent tables the API routes read and write, held in memory:
 * question_attempts, practice_sessions, lesson_progress, study_activity and
 * enrollments, each a sequence of rows in insertion order. Row ids are drawn
 * from a counter, timestamps are integers supplied by the caller, and every
 * store call that can fail is given its outcome as a parameter.
 */
module Store {
  import opened Wrappers
  import opened CourseConfig

  type UserId = string
  type Id = nat
  type Timestamp = int

  /** A route's reply: a success body, or an HTTP error status with its message. */
  datatype Response<T> = Success(body: T) | Failure(status: nat, error: string)

  /** The JavaScript truthiness of an optional string field of a request body. */
  predicate Present(s: Option<string>) {
    s.Some? && s.value != ""
  }

  /** The JavaScript truthiness of an optional numeric field of a request body. */
  predicate PresentNum(n: Option<int>) {
    n.Some? && n.value != 0
  }

  /** A row of question_attempts. */
  datatype AttemptRow = AttemptRow(
    userId: UserId,
    courseSlug: string,
    lessonId: int,
    lessonSlug: string,
    questionId: string,
    sectionId: Option<string>,
    userAnswer: string,
    correctAnswer: string,
    isCorrect: bool,
    practiceMode: string,
    timeTakenSeconds: Option<int>)

  /**
   * A row of practice_sessions. The completion route writes
   * questionsAttempted/questionsCorrect; the prediction route reads the
   * separate correctAnswers/totalQuestions columns, which no modelled
   * route writes.
   */
  datatype SessionRow = SessionRow(
    id: Id,
    userId: UserId,
    courseSlug: string,
    lessonId: int,
    lessonSlug: string,
    practiceMode: string,
    questionsAttempted: int,
    questionsCorrect: int,
    accuracyPercentage: int,
    durationSeconds: Option<int>,
    startedAt: Timestamp,
    completedAt: Option<Timestamp>,
    correctAnswers: Option<int>,
    totalQuestions: Option<int>)

  /** A row of lesson_progress; the columns a route may leave unset are optional. */
  datatype ProgressRow = ProgressRow(
    id: Id,
    userId: UserId,
    courseSlug: string,
    lessonId: int,
    lessonSlug: string,
    accuracyScore: Option<int>,
    attempts: Option<int>,
    timeSpentMinutes: Option<int>,
    lastAttemptAt: Option<Timestamp>,
    lessonCompleted: bool,
    lessonCompletedAt: Option<Timestamp>,
    isCompleted: bool,
    completedAt: Option<Timestamp>)

  /** A row of study_activity: one day (as a day number) of practice on a course. */
  datatype ActivityRow = ActivityRow(userId: UserId, courseSlug: string, day: int)

  datatype EnrollmentStatus = Active | Withdrawn | Completed

  /** A row of enrollments. */
  datatype EnrollmentRow = EnrollmentRow(
    id: Id,
    userId: UserId,
    courseSlug: string,
    status: EnrollmentStatus,
    isPremium: bool,
    lessonsCompleted: Option<int>,
    targetPaper: Option<Paper>,
    targetGrade: Option<int>,
    predictedGrade: Option<int>,
    recommendedPaper: Option<Paper>,
    withdrawnAt: Option<Timestamp>)

  /** The rows of `s` that `keep` accepts, in their original order (a `.delete().eq(...)` keeps the complement). */
  function Filter<T(!new)>(s: seq<T>, keep: T -> bool): (r: seq<T>)
    ensures |r| <= |s|
    ensures forall i :: 0 <= i < |r| ==> r[i] in s && keep(r[i])
    ensures forall i :: 0 <= i < |s| && keep(s[i]) ==> s[i] in r
  {
    if s == [] then []
    else
      var rest := Filter(s[1..], keep);
      assert s == [s[0]] + s[1..];
      if keep(s[0]) then [s[0]] + rest else rest
  }

  /** The filter works row by row: filtering a concatenation concatenates the survivors. */
  lemma {:induction false} FilterAppend<T(!new)>(a: seq<T>, b: seq<T>, keep: T -> bool)
    ensures Filter(a + b, keep) == Filter(a, keep) + Filter(b, keep)
  {
    if a == [] {
      assert a + b == b;
    } else {
      assert (a + b)[0] == a[0];
      assert (a + b)[1..] == a[1..] + b;
      FilterAppend(a[1..], b, keep);
    }
  }

  /** Row `i` is the only row of `s` that `keep` accepts. */
  predicate OnlyAt<T>(s: seq<T>, keep: T -> bool, i: int) {
    0 <= i < |s| && keep(s[i]) && forall j :: 0 <= j < |s| && j != i ==> !keep(s[j])
  }

  /** The filter leaves exactly one row when exactly one row is accepted, and then that row. */
  lemma {:induction false} FilterSingle<T(!new)>(s: seq<T>, keep: T -> bool)
    ensures |Filter(s, keep)| == 1 <==> exists i :: OnlyAt(s, keep, i)
    ensures forall i :: OnlyAt(s, keep, i) ==> Filter(s, keep) == [s[i]]
  {
    if s != [] {
      var tail, rest := s[1..], Filter(s[1..], keep);
      FilterSingle(tail, keep);
      assert forall j :: 1 <= j < |s| ==> s[j] == tail[j - 1];
      if keep(s[0]) {
        assert Filter(s, keep) == [s[0]] + rest;
        if rest == [] {
          forall j | 1 <= j < |s|
            ensures !keep(s[j])
          {
            assert tail[j - 1] !in rest;
          }
          assert OnlyAt(s, keep, 0);
        } else {
          assert rest[0] in tail && keep(rest[0]);
          var m :| 0 <= m < |tail| && tail[m] == rest[0];
          forall i | 0 <= i < |s|
            ensures !OnlyAt(s, keep, i)
          {
            if i != 0 {
              assert keep(s[0]);
            } else {
              assert keep(s[m + 1]);
            }
          }
        }
      } else {
        assert Filter(s, keep) == rest;
        forall i | 0 <= i < |s|
          ensures OnlyAt(s, keep, i) <==> i >= 1 && OnlyAt(tail, keep, i - 1)
        {
        }
        if exists i :: OnlyAt(s, keep, i) {
          var i :| OnlyAt(s, keep, i);
          assert OnlyAt(tail, keep, i - 1);
        }
        if exists i :: OnlyAt(tail, keep, i) {
          var i :| OnlyAt(tail, keep, i);
          assert OnlyAt(s, keep, i + 1);
        }
      }
    }
  }

  /** Deleting progress rows keeps their ids distinct. */
  lemma {:induction false} FilterKeepsProgressIds(s: seq<ProgressRow>, keep: ProgressRow -> bool)
    requires ProgressIdsDistinct(s)
    ensures ProgressIdsDistinct(Filter(s, keep))
  {
    if s != [] {
      var r := Filter(s, keep);
      var rest := Filter(s[1..], keep);
      assert ProgressIdsDistinct(s[1..]);
      FilterKeepsProgressIds(s[1..], keep);
      if keep(s[0]) {
        assert r == [s[0]] + rest;
        HeadIdUnique(s);
        forall j | 0 < j < |r|
          ensures r[0].id != r[j].id
        {
          assert r[j] == rest[j - 1];
        }
        forall i, j | 0 < i < j < |r|
          ensures r[i].id != r[j].id
        {
          assert r[i] == rest[i - 1] && r[j] == rest[j - 1];
        }
      } else {
        assert r == rest;
      }
    }
  }

  /** With distinct ids, no later row shares the first row's id. */
  lemma HeadIdUnique(s: seq<ProgressRow>)
    requires ProgressIdsDistinct(s) && s != []
    ensures forall x :: x in s[1..] ==> x.id != s[0].id
  {
    forall x | x in s[1..]
      ensures x.id != s[0].id
    {
      var m :| 0 <= m < |s[1..]| && s[1..][m] == x;
      assert s[m + 1] == x;
    }
  }

  /** Deleting progress rows keeps their ids below any bound they were below. */
  lemma FilterKeepsProgressBound(s: seq<ProgressRow>, keep: ProgressRow -> bool, bound: Id)
    requires forall i :: 0 <= i < |s| ==> s[i].id < bound
    ensures forall i :: 0 <= i < |Filter(s, keep)| ==> Filter(s, keep)[i].id < bound
  {
    var r := Filter(s, keep);
    forall i | 0 <= i < |r|
      ensures r[i].id < bound
    {
      var m :| 0 <= m < |s| && s[m] == r[i];
    }
  }

  /** Every row passed through `f`, in place (an `.update(...).eq(...)` whose `f` leaves unmatched rows alone). */
  function MapRows<A, B>(s: seq<A>, f: A -> B): (r: seq<B>)
    ensures |r| == |s|
    ensures forall i :: 0 <= i < |s| ==> r[i] == f(s[i])
  {
    seq(|s|, i requires 0 <= i < |s| => f(s[i]))
  }

  predicate ProgressIdsDistinct(rows: seq<ProgressRow>) {
    forall i, j :: 0 <= i < j < |rows| ==> rows[i].id != rows[j].id
  }

  /**
   * The in-memory store. Progress and session ids handed out so far are
   * below `nextId`; the primary keys of the progress and enrollment tables
   * are unique.
   */
  class Database {
    var attempts: seq<AttemptRow>
    var sessions: seq<SessionRow>
    var progress: seq<ProgressRow>
    var activity: seq<ActivityRow>
    var enrollments: seq<EnrollmentRow>
    var nextId: Id

    ghost predicate Valid()
      reads this
    {
      && (forall i :: 0 <= i < |progress| ==> progress[i].id < nextId)
      && (forall i :: 0 <= i < |sessions| ==> sessions[i].id < nextId)
      && ProgressIdsDistinct(progress)
      && (forall i, j :: 0 <= i < j < |enrollments| ==> enrollments[i].id != enrollments[j].id)
    }

    constructor ()
      ensures Valid()
      ensures attempts == [] && sessions == [] && progress == [] && activity == [] && enrollments == []
      ensures nextId == 1
    {
      attempts, sessions, progress, activity, enrollments := [], [], [], [], [];
      nextId := 1;
    }
  }
}
