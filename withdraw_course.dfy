/**
 * POST /api/withdraw-course (app/api/withdraw-course/route.ts): deletes the
 * caller's attempts, sessions, progress and activity for one course, in
 * that order, swallowing any delete failure, then marks the enrollment
 * withdrawn; only that last step can fail the request.
 */
module WithdrawCourse {
  import opened Wrappers
  import opened Store

  /** The outcome of each of the five store calls. */
  datatype Failures = Failures(attempts: bool, sessions: bool, progress: bool, activity: bool, enrollment: bool)

  predicate AttemptOf(r: AttemptRow, u: UserId, c: string) { r.userId == u && r.courseSlug == c }
  predicate SessionOf(r: SessionRow, u: UserId, c: string) { r.userId == u && r.courseSlug == c }
  predicate ProgressOf(r: ProgressRow, u: UserId, c: string) { r.userId == u && r.courseSlug == c }
  predicate ActivityOf(r: ActivityRow, u: UserId, c: string) { r.userId == u && r.courseSlug == c }
  predicate EnrollmentOf(r: EnrollmentRow, u: UserId, c: string) { r.userId == u && r.courseSlug == c }

  /** The enrollment after withdrawal: status and time set, the row kept. */
  function Withdraw(e: EnrollmentRow, now: Timestamp): (e': EnrollmentRow)
    ensures e'.status == Withdrawn && e'.withdrawnAt == Some(now)
    ensures e'.id == e.id && e'.userId == e.userId && e'.courseSlug == e.courseSlug
    ensures e'.targetPaper == e.targetPaper && e'.targetGrade == e.targetGrade && e'.isPremium == e.isPremium
    ensures e'.lessonsCompleted == e.lessonsCompleted && e'.predictedGrade == e.predictedGrade
    ensures e'.recommendedPaper == e.recommendedPaper
  {
    e.(status := Withdrawn, withdrawnAt := Some(now))
  }

  const SuccessMessage := "Successfully withdrawn from course. All progress data has been deleted."

  /**
   * The route. Each delete that succeeds leaves no row of (caller, course)
   * in its table and every other row in order; one that fails leaves its
   * table as it was.
   */
  method Post(db: Database, user: Option<UserId>, courseSlug: Option<string>, fails: Failures, now: Timestamp)
    returns (resp: Response<string>)
    requires db.Valid()
    modifies db
    ensures db.Valid()
    ensures user.None? ==> resp == Failure(401, "Unauthorized")
    ensures user.Some? && !Present(courseSlug) ==> resp == Failure(400, "Course slug is required")
    ensures user.Some? && Present(courseSlug) && fails.enrollment ==> resp == Failure(500, "Failed to withdraw from course")
    ensures resp.Success? <==> user.Some? && Present(courseSlug) && !fails.enrollment
    ensures resp.Success? ==> resp.body == SuccessMessage
    ensures user.None? || !Present(courseSlug) ==>
      db.attempts == old(db.attempts) && db.sessions == old(db.sessions) && db.progress == old(db.progress)
      && db.activity == old(db.activity) && db.enrollments == old(db.enrollments)
    ensures user.Some? && Present(courseSlug) ==>
      var u, c := user.value, courseSlug.value;
      && db.attempts == (if fails.attempts then old(db.attempts) else Filter(old(db.attempts), (r: AttemptRow) => !AttemptOf(r, u, c)))
      && db.sessions == (if fails.sessions then old(db.sessions) else Filter(old(db.sessions), (r: SessionRow) => !SessionOf(r, u, c)))
      && db.progress == (if fails.progress then old(db.progress) else Filter(old(db.progress), (r: ProgressRow) => !ProgressOf(r, u, c)))
      && db.activity == (if fails.activity then old(db.activity) else Filter(old(db.activity), (r: ActivityRow) => !ActivityOf(r, u, c)))
      && db.enrollments == (if fails.enrollment then old(db.enrollments)
                            else MapRows(old(db.enrollments), (e: EnrollmentRow) => if EnrollmentOf(e, u, c) then Withdraw(e, now) else e))
    ensures db.nextId == old(db.nextId)
  {
    if user.None? {
      return Failure(401, "Unauthorized");
    }
    if !Present(courseSlug) {
      return Failure(400, "Course slug is required");
    }
    var u, c := user.value, courseSlug.value;
    if !fails.attempts {
      DeleteAttempts(db, u, c);
    }
    if !fails.sessions {
      DeleteSessions(db, u, c);
    }
    if !fails.progress {
      DeleteProgress(db, u, c);
    }
    if !fails.activity {
      DeleteActivity(db, u, c);
    }
    if fails.enrollment {
      return Failure(500, "Failed to withdraw from course");
    }
    WithdrawEnrollments(db, u, c, now);
    resp := Success(SuccessMessage);
  }

  method WithdrawEnrollments(db: Database, u: UserId, c: string, now: Timestamp)
    requires db.Valid()
    modifies db
    ensures db.Valid()
    ensures db.enrollments == MapRows(old(db.enrollments), (e: EnrollmentRow) => if EnrollmentOf(e, u, c) then Withdraw(e, now) else e)
    ensures db.attempts == old(db.attempts) && db.sessions == old(db.sessions) && db.progress == old(db.progress)
    ensures db.activity == old(db.activity) && db.nextId == old(db.nextId)
  {
    db.enrollments := MapRows(db.enrollments, (e: EnrollmentRow) => if EnrollmentOf(e, u, c) then Withdraw(e, now) else e);
  }

  method DeleteAttempts(db: Database, u: UserId, c: string)
    requires db.Valid()
    modifies db
    ensures db.Valid()
    ensures db.attempts == Filter(old(db.attempts), (r: AttemptRow) => !AttemptOf(r, u, c))
    ensures db.sessions == old(db.sessions) && db.progress == old(db.progress) && db.activity == old(db.activity)
    ensures db.enrollments == old(db.enrollments) && db.nextId == old(db.nextId)
  {
    db.attempts := Filter(db.attempts, (r: AttemptRow) => !AttemptOf(r, u, c));
  }

  method DeleteSessions(db: Database, u: UserId, c: string)
    requires db.Valid()
    modifies db
    ensures db.Valid()
    ensures db.sessions == Filter(old(db.sessions), (r: SessionRow) => !SessionOf(r, u, c))
    ensures db.attempts == old(db.attempts) && db.progress == old(db.progress) && db.activity == old(db.activity)
    ensures db.enrollments == old(db.enrollments) && db.nextId == old(db.nextId)
  {
    db.sessions := Filter(db.sessions, (r: SessionRow) => !SessionOf(r, u, c));
  }

  method DeleteProgress(db: Database, u: UserId, c: string)
    requires db.Valid()
    modifies db
    ensures db.Valid()
    ensures db.progress == Filter(old(db.progress), (r: ProgressRow) => !ProgressOf(r, u, c))
    ensures db.attempts == old(db.attempts) && db.sessions == old(db.sessions) && db.activity == old(db.activity)
    ensures db.enrollments == old(db.enrollments) && db.nextId == old(db.nextId)
  {
    FilterKeepsProgressIds(db.progress, (r: ProgressRow) => !ProgressOf(r, u, c));
    FilterKeepsProgressBound(db.progress, (r: ProgressRow) => !ProgressOf(r, u, c), db.nextId);
    db.progress := Filter(db.progress, (r: ProgressRow) => !ProgressOf(r, u, c));
  }

  method DeleteActivity(db: Database, u: UserId, c: string)
    requires db.Valid()
    modifies db
    ensures db.Valid()
    ensures db.activity == Filter(old(db.activity), (r: ActivityRow) => !ActivityOf(r, u, c))
    ensures db.attempts == old(db.attempts) && db.sessions == old(db.sessions) && db.progress == old(db.progress)
    ensures db.enrollments == old(db.enrollments) && db.nextId == old(db.nextId)
  {
    db.activity := Filter(db.activity, (r: ActivityRow) => !ActivityOf(r, u, c));
  }

  /** After the deletes nothing of (user, course) is left, and every other row is still there. */
  lemma DeletesAreScoped(attempts: seq<AttemptRow>, u: UserId, c: string)
    ensures forall r :: r in Filter(attempts, (x: AttemptRow) => !AttemptOf(x, u, c)) ==> !AttemptOf(r, u, c)
    ensures forall r :: r in attempts && !AttemptOf(r, u, c) ==> r in Filter(attempts, (x: AttemptRow) => !AttemptOf(x, u, c))
  {
  }
}
