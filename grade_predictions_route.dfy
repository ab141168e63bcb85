/**
 * GET /api/grade-predictions (app/api/grade-predictions/route.ts): for each
 * of the caller's active enrollments, totals the completed sessions of the
 * course, runs the grade predictor on the result, stores the predicted
 * grade and recommended paper on the enrollment and reports the prediction
 * with rounded statistics.
 */
module GradePredictionsRoute {
  import opened Wrappers
  import opened Store
  import opened CourseConfig
  import opened GradePrediction
  import JsNumber

  predicate ActiveFor(e: EnrollmentRow, u: UserId) {
    e.userId == u && e.status == Active
  }

  /** The session query: the caller's completed sessions of the course. */
  predicate CompletedSessionOf(s: SessionRow, u: UserId, c: string) {
    s.userId == u && s.courseSlug == c && s.completedAt.Some?
  }

  /** Σ `correct_answers || 0`. */
  function SumCorrect(rows: seq<SessionRow>): int {
    if rows == [] then 0 else SumCorrect(rows[..|rows| - 1]) + JsNumber.OrZero(rows[|rows| - 1].correctAnswers)
  }

  /** Σ `total_questions || 0`. */
  function SumTotal(rows: seq<SessionRow>): int {
    if rows == [] then 0 else SumTotal(rows[..|rows| - 1]) + JsNumber.OrZero(rows[|rows| - 1].totalQuestions)
  }

  /** The `forEach` accumulation over the query result. */
  method SumSessions(rows: seq<SessionRow>) returns (totalCorrect: int, totalQuestions: int)
    ensures totalCorrect == SumCorrect(rows) && totalQuestions == SumTotal(rows)
  {
    totalCorrect, totalQuestions := 0, 0;
    var i := 0;
    while i < |rows|
      invariant 0 <= i <= |rows|
      invariant totalCorrect == SumCorrect(rows[..i]) && totalQuestions == SumTotal(rows[..i])
    {
      assert rows[..i + 1][..i] == rows[..i];
      totalCorrect := totalCorrect + JsNumber.OrZero(rows[i].correctAnswers);
      totalQuestions := totalQuestions + JsNumber.OrZero(rows[i].totalQuestions);
      i := i + 1;
    }
    assert rows[..i] == rows;
  }

  /** Sessions that never had the two prediction columns written contribute nothing. */
  lemma {:induction false} UnwrittenColumnsSumToZero(rows: seq<SessionRow>)
    requires forall i :: 0 <= i < |rows| ==> rows[i].correctAnswers.None? && rows[i].totalQuestions.None?
    ensures SumCorrect(rows) == 0 && SumTotal(rows) == 0
  {
    if rows != [] {
      UnwrittenColumnsSumToZero(rows[..|rows| - 1]);
    }
  }

  /** Non-negative columns with correct <= total per session give totals in the same relation. */
  lemma {:induction false} SumsBounded(rows: seq<SessionRow>)
    requires forall i :: 0 <= i < |rows| ==>
      0 <= JsNumber.OrZero(rows[i].correctAnswers) <= JsNumber.OrZero(rows[i].totalQuestions)
    ensures 0 <= SumCorrect(rows) <= SumTotal(rows)
  {
    if rows != [] {
      SumsBounded(rows[..|rows| - 1]);
    }
  }

  /** `(totalCorrect / totalQuestions) * 100`, or 0 when no questions were recorded. */
  function AverageAccuracy(totalCorrect: int, totalQuestions: int): (a: real)
    ensures totalQuestions <= 0 ==> a == 0.0
    ensures totalQuestions > 0 && 0 <= totalCorrect <= totalQuestions ==> 0.0 <= a <= 100.0
  {
    if totalQuestions > 0 then (totalCorrect as real) / (totalQuestions as real) * 100.0 else 0.0
  }

  /** `Math.round(averageAccuracy)` as reported in the statistics. */
  function RoundedAccuracy(totalCorrect: int, totalQuestions: int): (r: int)
    ensures r == JsNumber.Round(AverageAccuracy(totalCorrect, totalQuestions))
    ensures totalQuestions > 0 ==> r == (200 * totalCorrect + totalQuestions) / (2 * totalQuestions)
    ensures totalQuestions <= 0 ==> r == 0
  {
    if totalQuestions > 0 then JsNumber.Percent(totalCorrect, totalQuestions)
    else JsNumber.Round(0.0)
  }

  /** More correct answers out of the same questions never lower the reported accuracy. */
  lemma RoundedAccuracyMonotone(correct1: int, correct2: int, totalQuestions: int)
    requires correct1 <= correct2
    ensures RoundedAccuracy(correct1, totalQuestions) <= RoundedAccuracy(correct2, totalQuestions)
  {
    var a1, a2 := AverageAccuracy(correct1, totalQuestions), AverageAccuracy(correct2, totalQuestions);
    if totalQuestions > 0 {
      var q := totalQuestions as real;
      var x1, x2 := (correct1 as real) / q, (correct2 as real) / q;
      assert x1 * q == correct1 as real && x2 * q == correct2 as real;
      assert x1 <= x2;
    }
    JsNumber.RoundMonotone(a1, a2);
  }

  /** The predictor's input: enrollment fields with their fallbacks, 100 lessons, the session totals. */
  function PerformanceFor(e: EnrollmentRow, totalCorrect: int, totalQuestions: int): (d: PerformanceData)
    ensures d.totalLessons == 100 && d.courseSlug == e.courseSlug
    ensures d.questionsAttempted == totalQuestions
    ensures d.averageAccuracy == AverageAccuracy(totalCorrect, totalQuestions)
    ensures d.lessonsCompleted == (if e.lessonsCompleted.Some? then e.lessonsCompleted.value else 0)
    ensures d.targetPaper == (if e.targetPaper.Some? then e.targetPaper.value else Foundation)
    ensures d.targetGrade == (if e.targetGrade.Some? && e.targetGrade.value != 0 then e.targetGrade.value else 4)
  {
    PerformanceData(
      JsNumber.OrZero(e.lessonsCompleted), 100, AverageAccuracy(totalCorrect, totalQuestions), totalQuestions,
      e.targetPaper.GetOr(Foundation), JsNumber.OrDefault(e.targetGrade, 4), e.courseSlug)
  }

  /** One element of the response. */
  datatype CoursePrediction = CoursePrediction(
    courseSlug: string,
    prediction: PredictionResult,
    lessonsCompleted: int,
    averageAccuracy: int,
    questionsAttempted: int)

  /** The prediction for one enrollment, from the sessions table as it stands. */
  function PredictionFor(e: EnrollmentRow, sessions: seq<SessionRow>): (p: CoursePrediction)
    ensures p.courseSlug == e.courseSlug
    ensures 1 <= p.prediction.predictedGrade <= 9
  {
    var rows := Filter(sessions, (s: SessionRow) => CompletedSessionOf(s, e.userId, e.courseSlug));
    var totalCorrect, totalQuestions := SumCorrect(rows), SumTotal(rows);
    var d := PerformanceFor(e, totalCorrect, totalQuestions);
    CoursePrediction(e.courseSlug, CalculatePredictedGrade(d), d.lessonsCompleted,
                     RoundedAccuracy(totalCorrect, totalQuestions), totalQuestions)
  }

  /**
   * The enrollment update: the predicted grade always, the recommended
   * paper only when there is one (an undefined value is dropped from the
   * update).
   */
  function ApplyPrediction(e: EnrollmentRow, p: CoursePrediction): (e': EnrollmentRow)
    ensures e'.predictedGrade == Some(p.prediction.predictedGrade)
    ensures e'.recommendedPaper == (if p.prediction.recommendedPaper.Some? then p.prediction.recommendedPaper else e.recommendedPaper)
    ensures e' == e.(predictedGrade := e'.predictedGrade, recommendedPaper := e'.recommendedPaper)
  {
    e.(predictedGrade := Some(p.prediction.predictedGrade),
       recommendedPaper := if p.prediction.recommendedPaper.Some? then p.prediction.recommendedPaper else e.recommendedPaper)
  }

  /** Storing the same prediction twice is storing it once. */
  lemma ApplyPredictionIdempotent(e: EnrollmentRow, p: CoursePrediction)
    ensures ApplyPrediction(ApplyPrediction(e, p), p) == ApplyPrediction(e, p)
  {
  }

  /**
   * A session query whose error the route ignores: `data` is null, the
   * totals stay 0, and the prediction is still made, with low confidence,
   * and stored.
   */
  lemma FailedSessionQuery(e: EnrollmentRow)
    ensures PredictionFor(e, []).questionsAttempted == 0 && PredictionFor(e, []).averageAccuracy == 0
    ensures PredictionFor(e, []).prediction == CalculatePredictedGrade(PerformanceFor(e, 0, 0))
    ensures PredictionFor(e, []).prediction.confidence == Low
  {
  }

  /**
   * The route. `enrollmentsError` is the message of a failed enrollment
   * query. `sessionsFail` holds the enrollments whose session query fails:
   * the route does not check that error and reads the missing data as no
   * sessions. The enrollment updates are not checked either and are taken
   * to succeed.
   */
  method Get(db: Database, user: Option<UserId>, enrollmentsError: Option<string>, sessionsFail: set<Id>)
    returns (resp: Response<seq<CoursePrediction>>)
    requires db.Valid()
    modifies db
    ensures db.Valid()
    ensures user.None? ==> resp == Failure(401, "Unauthorized")
    ensures user.Some? && enrollmentsError.Some? ==> resp == Failure(500, enrollmentsError.value)
    ensures resp.Success? <==> user.Some? && enrollmentsError.None?
    ensures resp.Success? ==>
      var active := Filter(old(db.enrollments), (e: EnrollmentRow) => ActiveFor(e, user.value));
      && |resp.body| == |active|
      && forall k :: 0 <= k < |active| ==>
           resp.body[k] == PredictionFor(active[k], if active[k].id in sessionsFail then [] else old(db.sessions))
    ensures |db.enrollments| == |old(db.enrollments)|
    ensures forall j :: 0 <= j < |db.enrollments| ==>
      db.enrollments[j] == if resp.Success? && ActiveFor(old(db.enrollments[j]), user.value)
                           then ApplyPrediction(old(db.enrollments[j]),
                                  PredictionFor(old(db.enrollments[j]), if old(db.enrollments[j]).id in sessionsFail then [] else old(db.sessions)))
                           else old(db.enrollments[j])
    ensures db.attempts == old(db.attempts) && db.sessions == old(db.sessions) && db.progress == old(db.progress)
    ensures db.activity == old(db.activity) && db.nextId == old(db.nextId)
  {
    if user.None? {
      return Failure(401, "Unauthorized");
    }
    if enrollmentsError.Some? {
      return Failure(500, enrollmentsError.value);
    }
    var u := user.value;
    var active := Filter(db.enrollments, (e: EnrollmentRow) => ActiveFor(e, u));
    if |active| == 0 {
      return Success([]);
    }
    var sessions := db.sessions;
    var predictions := PredictAndStore(db, active, u,
      (e: EnrollmentRow) => PredictionFor(e, if e.id in sessionsFail then [] else sessions));
    resp := Success(predictions);
  }

  /**
   * The route's `for` loop over the active enrollments: `predict` is the
   * loop body up to the update (the session query, the totals, the
   * predictor; see `PredictOne`), after which the enrollment row is updated
   * and the prediction appended to the response.
   */
  method PredictAndStore(db: Database, active: seq<EnrollmentRow>, ghost u: UserId, predict: EnrollmentRow -> CoursePrediction)
    returns (predictions: seq<CoursePrediction>)
    requires db.Valid()
    requires forall k :: 0 <= k < |active| ==> active[k] in db.enrollments && ActiveFor(active[k], u)
    requires forall j :: 0 <= j < |db.enrollments| && ActiveFor(db.enrollments[j], u) ==> db.enrollments[j] in active
    modifies db
    ensures db.Valid()
    ensures |predictions| == |active|
    ensures forall k :: 0 <= k < |active| ==> predictions[k] == predict(active[k])
    ensures |db.enrollments| == |old(db.enrollments)|
    ensures forall j :: 0 <= j < |db.enrollments| ==>
      db.enrollments[j] == if ActiveFor(old(db.enrollments[j]), u)
                           then ApplyPrediction(old(db.enrollments[j]), predict(old(db.enrollments[j])))
                           else old(db.enrollments[j])
    ensures db.attempts == old(db.attempts) && db.sessions == old(db.sessions) && db.progress == old(db.progress)
    ensures db.activity == old(db.activity) && db.nextId == old(db.nextId)
  {
    ghost var E0 := db.enrollments;
    ghost var stored: map<Id, CoursePrediction> := map[];
    predictions := [];
    var i := 0;
    while i < |active|
      invariant 0 <= i <= |active|
      invariant db.Valid() && |db.enrollments| == |E0|
      invariant forall j, m :: 0 <= j < m < |E0| ==> E0[j].id != E0[m].id
      invariant db.sessions == old(db.sessions) && db.attempts == old(db.attempts) && db.progress == old(db.progress)
      invariant db.activity == old(db.activity) && db.nextId == old(db.nextId)
      invariant |predictions| == i
      invariant forall k :: 0 <= k < i ==> predictions[k] == predict(active[k])
      invariant forall k :: 0 <= k < i ==> active[k].id in stored
      invariant forall e :: e in E0 && ActiveFor(e, u) && e.id in stored ==> stored[e.id] == predict(e)
      invariant forall j :: 0 <= j < |E0| ==> db.enrollments[j] == Stored(E0[j], u, stored)
    {
      var result := predict(active[i]);
      StorePrediction(db, E0, active[i], result, stored, u);
      RecordPrediction(E0, u, stored, active[i], predict);
      forall k | 0 <= k < i
        ensures (predictions + [result])[k] == predict(active[k])
        ensures active[k].id in stored[active[i].id := result]
      {
        assert (predictions + [result])[k] == predictions[k];
      }
      stored := stored[active[i].id := result];
      predictions := predictions + [result];
      i := i + 1;
    }
    AllStored(E0, active, u, stored, predict, db.enrollments);
  }

  /** Recording the prediction of one more enrollment keeps `stored` in step with `predict`. */
  lemma RecordPrediction(E0: seq<EnrollmentRow>, u: UserId, stored: map<Id, CoursePrediction>, row: EnrollmentRow,
                         predict: EnrollmentRow -> CoursePrediction)
    requires forall j, m :: 0 <= j < m < |E0| ==> E0[j].id != E0[m].id
    requires row in E0
    requires forall e :: e in E0 && ActiveFor(e, u) && e.id in stored ==> stored[e.id] == predict(e)
    ensures forall e :: e in E0 && ActiveFor(e, u) && e.id in stored[row.id := predict(row)] ==>
      stored[row.id := predict(row)][e.id] == predict(e)
  {
    forall e | e in E0 && ActiveFor(e, u) && e.id in stored[row.id := predict(row)]
      ensures stored[row.id := predict(row)][e.id] == predict(e)
    {
      if e.id == row.id {
        SameIdSameRow(E0, e, row);
      }
    }
  }

  /** Once every active enrollment has its prediction stored, the table is the one the route promises. */
  lemma AllStored(E0: seq<EnrollmentRow>, active: seq<EnrollmentRow>, u: UserId, stored: map<Id, CoursePrediction>,
                  predict: EnrollmentRow -> CoursePrediction, rows: seq<EnrollmentRow>)
    requires forall j :: 0 <= j < |E0| && ActiveFor(E0[j], u) ==> E0[j] in active
    requires forall k :: 0 <= k < |active| ==> active[k].id in stored
    requires forall e :: e in E0 && ActiveFor(e, u) && e.id in stored ==> stored[e.id] == predict(e)
    requires |rows| == |E0| && forall j :: 0 <= j < |E0| ==> rows[j] == Stored(E0[j], u, stored)
    ensures forall j :: 0 <= j < |rows| ==>
      rows[j] == if ActiveFor(E0[j], u) then ApplyPrediction(E0[j], predict(E0[j])) else E0[j]
  {
    forall j | 0 <= j < |rows|
      ensures rows[j] == if ActiveFor(E0[j], u) then ApplyPrediction(E0[j], predict(E0[j])) else E0[j]
    {
      if ActiveFor(E0[j], u) {
        assert E0[j] in active;
      }
    }
  }

  /** Enrollment ids are unique, so a row is determined by its id. */
  lemma SameIdSameRow(rows: seq<EnrollmentRow>, a: EnrollmentRow, b: EnrollmentRow)
    requires forall j, m :: 0 <= j < m < |rows| ==> rows[j].id != rows[m].id
    requires a in rows && b in rows && a.id == b.id
    ensures a == b
  {
    var j :| 0 <= j < |rows| && rows[j] == a;
    var m :| 0 <= m < |rows| && rows[m] == b;
    assert !(j < m) && !(m < j);
  }

  /** An enrollment row once the predictions in `stored` (by enrollment id) are written. */
  ghost function Stored(e: EnrollmentRow, u: UserId, stored: map<Id, CoursePrediction>): EnrollmentRow {
    if ActiveFor(e, u) && e.id in stored then ApplyPrediction(e, stored[e.id]) else e
  }

  /** The body of the `for` loop up to the update: query, totals, predictor, response element. */
  method PredictOne(sessions: seq<SessionRow>, enrollment: EnrollmentRow, u: UserId) returns (result: CoursePrediction)
    requires ActiveFor(enrollment, u)
    ensures result == PredictionFor(enrollment, sessions)
  {
    var rows := Filter(sessions, (s: SessionRow) => CompletedSessionOf(s, u, enrollment.courseSlug));
    var totalCorrect, totalQuestions := SumSessions(rows);
    var performance := PerformanceFor(enrollment, totalCorrect, totalQuestions);
    var prediction := CalculatePredictedGrade(performance);
    result := CoursePrediction(enrollment.courseSlug, prediction, performance.lessonsCompleted,
                               RoundedAccuracy(totalCorrect, totalQuestions), totalQuestions);
  }

  /** One `.update(...).eq('id', enrollment.id)`, keeping the loop's description of the table. */
  method StorePrediction(db: Database, ghost E0: seq<EnrollmentRow>, enrollment: EnrollmentRow, result: CoursePrediction,
                         ghost stored: map<Id, CoursePrediction>, ghost u: UserId)
    requires db.Valid() && |db.enrollments| == |E0|
    requires forall j, m :: 0 <= j < m < |E0| ==> E0[j].id != E0[m].id
    requires enrollment in E0 && ActiveFor(enrollment, u)
    requires enrollment.id in stored ==> stored[enrollment.id] == result
    requires forall j :: 0 <= j < |E0| ==> db.enrollments[j] == Stored(E0[j], u, stored)
    modifies db
    ensures db.Valid() && |db.enrollments| == |E0|
    ensures forall j :: 0 <= j < |E0| ==> db.enrollments[j] == Stored(E0[j], u, stored[enrollment.id := result])
    ensures db.attempts == old(db.attempts) && db.sessions == old(db.sessions) && db.progress == old(db.progress)
    ensures db.activity == old(db.activity) && db.nextId == old(db.nextId)
  {
    var id := enrollment.id;
    ghost var before := db.enrollments;
    db.enrollments := MapRows(db.enrollments, (e: EnrollmentRow) => if e.id == id then ApplyPrediction(e, result) else e);
    forall j | 0 <= j < |E0|
      ensures db.enrollments[j] == Stored(E0[j], u, stored[id := result])
    {
      assert before[j].id == E0[j].id;
      if E0[j].id == id {
        SameIdSameRow(E0, E0[j], enrollment);
        ApplyPredictionIdempotent(enrollment, result);
      }
    }
  }

  /** With no recorded prediction columns, every course is predicted from 0% accuracy and 0 questions. */
  lemma NoRecordedColumnsMeansZeroAccuracy(e: EnrollmentRow, sessions: seq<SessionRow>)
    requires forall i :: 0 <= i < |sessions| ==> sessions[i].correctAnswers.None? && sessions[i].totalQuestions.None?
    ensures PredictionFor(e, sessions).averageAccuracy == 0
    ensures PredictionFor(e, sessions).questionsAttempted == 0
  {
    var rows := Filter(sessions, (s: SessionRow) => CompletedSessionOf(s, e.userId, e.courseSlug));
    UnwrittenColumnsSumToZero(rows);
  }
}
