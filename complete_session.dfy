/**
 * POST /api/complete-practice-session
 * (app/api/complete-practice-session/route.ts): rounds the accuracy of the
 * reported tallies and writes them, with the duration and a completion
 * time, to the caller's own session row.
 */
module CompleteSession {
  import opened Wrappers
  import opened Store
  import JsNumber

  /** The JSON body; a field is `None` when undefined. */
  datatype CompleteRequest = CompleteRequest(
    sessionId: Option<Id>,
    questionsAttempted: Option<int>,
    questionsCorrect: Option<int>,
    durationSeconds: Option<int>)

  /** The session id must be given; the three numbers only defined, so 0 is accepted. */
  predicate Complete(req: CompleteRequest) {
    req.sessionId.Some? && req.questionsAttempted.Some? && req.questionsCorrect.Some? && req.durationSeconds.Some?
  }

  /** The stored accuracy: the rounded percentage, 0 when nothing was attempted. */
  function AccuracyPercentage(attempted: int, correct: int): (r: int)
    ensures attempted <= 0 ==> r == 0
    ensures attempted > 0 ==> r == (200 * correct + attempted) / (2 * attempted)
    ensures 0 <= correct <= attempted ==> 0 <= r <= 100
  {
    if attempted > 0 then JsNumber.Percent(correct, attempted) else 0
  }

  /** 7 of 10 is 70%; nothing attempted is 0%. */
  lemma AccuracyExamples()
    ensures AccuracyPercentage(10, 7) == 70
    ensures AccuracyPercentage(0, 0) == 0
  {
  }

  /** A perfect session scores 100 and an all-wrong one 0. */
  lemma AccuracyExtremes(attempted: int)
    requires attempted > 0
    ensures AccuracyPercentage(attempted, attempted) == 100
    ensures AccuracyPercentage(attempted, 0) == 0
  {
    JsNumber.DivIs(200 * attempted + attempted, 2 * attempted, 100);
    JsNumber.DivIs(200 * 0 + attempted, 2 * attempted, 0);
  }

  /**
   * The row after completion: the reported tallies, their rounded accuracy,
   * the duration and the completion time replace the old values; every
   * other column is kept.
   */
  function Finish(s: SessionRow, attempted: int, correct: int, duration: int, now: Timestamp): (r: SessionRow)
    ensures r.questionsAttempted == attempted && r.questionsCorrect == correct
    ensures r.accuracyPercentage == AccuracyPercentage(attempted, correct)
    ensures 0 <= correct <= attempted ==> 0 <= r.accuracyPercentage <= 100
    ensures r.durationSeconds == Some(duration) && r.completedAt == Some(now)
    ensures r.id == s.id && r.userId == s.userId && r.courseSlug == s.courseSlug && r.lessonId == s.lessonId
    ensures r.lessonSlug == s.lessonSlug && r.practiceMode == s.practiceMode
    ensures r.startedAt == s.startedAt && r.correctAnswers == s.correctAnswers && r.totalQuestions == s.totalQuestions
  {
    s.(questionsAttempted := attempted, questionsCorrect := correct,
       accuracyPercentage := AccuracyPercentage(attempted, correct),
       durationSeconds := Some(duration), completedAt := Some(now))
  }

  /** Completion does not check an earlier one: the second call's values replace the first's. */
  lemma FinishOverwrites(s: SessionRow, a1: int, c1: int, d1: int, t1: Timestamp, a2: int, c2: int, d2: int, t2: Timestamp)
    ensures Finish(Finish(s, a1, c1, d1, t1), a2, c2, d2, t2) == Finish(s, a2, c2, d2, t2)
  {
  }

  /**
   * The route: the update is filtered by id and by owner, so only the
   * caller's row with that id changes; another user's session id matches nothing.
   */
  method Post(db: Database, user: Option<UserId>, req: CompleteRequest, updateFails: bool, now: Timestamp)
    returns (resp: Response<bool>)
    requires db.Valid()
    modifies db
    ensures db.Valid()
    ensures user.None? ==> resp == Failure(401, "Unauthorized")
    ensures user.Some? && !Complete(req) ==> resp == Failure(400, "Missing required fields")
    ensures user.Some? && Complete(req) && updateFails ==> resp == Failure(500, "Failed to update practice session")
    ensures resp.Success? <==> user.Some? && Complete(req) && !updateFails
    ensures resp.Success? ==> resp.body
    ensures |db.sessions| == |old(db.sessions)|
    ensures forall i :: 0 <= i < |db.sessions| ==>
      db.sessions[i] == if resp.Success? && old(db.sessions[i]).id == req.sessionId.value && old(db.sessions[i]).userId == user.value
                        then Finish(old(db.sessions[i]), req.questionsAttempted.value, req.questionsCorrect.value, req.durationSeconds.value, now)
                        else old(db.sessions[i])
    ensures db.attempts == old(db.attempts) && db.progress == old(db.progress) && db.activity == old(db.activity)
    ensures db.enrollments == old(db.enrollments) && db.nextId == old(db.nextId)
  {
    if user.None? {
      return Failure(401, "Unauthorized");
    }
    if !Complete(req) {
      return Failure(400, "Missing required fields");
    }
    if updateFails {
      return Failure(500, "Failed to update practice session");
    }
    var sid, u := req.sessionId.value, user.value;
    var a, c, d := req.questionsAttempted.value, req.questionsCorrect.value, req.durationSeconds.value;
    db.sessions := MapRows(db.sessions, (s: SessionRow) => if s.id == sid && s.userId == u then Finish(s, a, c, d, now) else s);
    resp := Success(true);
  }
}
