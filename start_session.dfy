/**
 * POST /api/start-practice-session
 * (app/api/start-practice-session/route.ts): checks the caller and the four
 * required fields, then inserts one zero-initialised, open session row and
 * returns its id.
 */
module StartSession {
  import opened Wrappers
  import opened Store

  datatype StartRequest = StartRequest(
    courseSlug: Option<string>,
    lessonId: Option<int>,
    lessonSlug: Option<string>,
    practiceMode: Option<string>)

  /** All four fields are truthy. */
  predicate Complete(req: StartRequest) {
    Present(req.courseSlug) && PresentNum(req.lessonId) && Present(req.lessonSlug) && Present(req.practiceMode)
  }

  /** A session that has not been completed. */
  predicate IsOpen(s: SessionRow) {
    s.completedAt.None?
  }

  /** The inserted row: counters, accuracy and duration 0, started now, not completed. */
  function NewSession(id: Id, user: UserId, req: StartRequest, now: Timestamp): (s: SessionRow)
    requires Complete(req)
    ensures IsOpen(s) && s.id == id && s.userId == user
    ensures s.questionsAttempted == 0 && s.questionsCorrect == 0 && s.accuracyPercentage == 0
    ensures s.durationSeconds == Some(0) && s.startedAt == now
    ensures s.courseSlug == req.courseSlug.value && s.lessonId == req.lessonId.value
    ensures s.lessonSlug == req.lessonSlug.value && s.practiceMode == req.practiceMode.value
  {
    SessionRow(id, user, req.courseSlug.value, req.lessonId.value, req.lessonSlug.value, req.practiceMode.value,
               0, 0, 0, Some(0), now, None, None, None)
  }

  const MissingMessage := "Missing required fields: courseSlug, lessonId, lessonSlug, practiceMode"

  /**
   * The route: on success exactly one row is appended under a fresh id,
   * which is returned; earlier sessions, open or not, are left as they were.
   */
  method Post(db: Database, user: Option<UserId>, req: StartRequest, insertFails: bool, now: Timestamp)
    returns (resp: Response<Id>)
    requires db.Valid()
    modifies db
    ensures db.Valid()
    ensures user.None? ==> resp == Failure(401, "Unauthorized")
    ensures user.Some? && !Complete(req) ==> resp == Failure(400, MissingMessage)
    ensures user.Some? && Complete(req) && insertFails ==> resp == Failure(500, "Failed to create practice session")
    ensures resp.Success? <==> user.Some? && Complete(req) && !insertFails
    ensures resp.Success? ==>
      && resp.body == old(db.nextId)
      && db.sessions == old(db.sessions) + [NewSession(old(db.nextId), user.value, req, now)]
      && db.nextId == old(db.nextId) + 1
      && forall i :: 0 <= i < |old(db.sessions)| ==> old(db.sessions)[i].id != resp.body
    ensures !resp.Success? ==> db.sessions == old(db.sessions) && db.nextId == old(db.nextId)
    ensures db.attempts == old(db.attempts) && db.progress == old(db.progress)
    ensures db.activity == old(db.activity) && db.enrollments == old(db.enrollments)
  {
    if user.None? {
      return Failure(401, "Unauthorized");
    }
    if !Complete(req) {
      return Failure(400, MissingMessage);
    }
    if insertFails {
      return Failure(500, "Failed to create practice session");
    }
    var id := db.nextId;
    db.sessions := db.sessions + [NewSession(id, user.value, req, now)];
    db.nextId := db.nextId + 1;
    resp := Success(id);
  }
}
