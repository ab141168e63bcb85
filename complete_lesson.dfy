/**
 * POST /api/complete-lesson (app/api/complete-lesson/route.ts): marks the
 * caller's lesson complete, setting the four completion columns on the
 * existing progress row or inserting a row that carries them.
 */
module CompleteLesson {
  import opened Wrappers
  import opened Store
  import opened ProgressRows
  import UpdateProgress

  /** The completion columns set, every other column kept. */
  function MarkCompleted(r: ProgressRow, now: Timestamp): (r': ProgressRow)
    ensures r'.lessonCompleted && r'.isCompleted
    ensures r'.lessonCompletedAt == Some(now) && r'.completedAt == Some(now)
    ensures r'.accuracyScore == r.accuracyScore && r'.attempts == r.attempts
    ensures r'.timeSpentMinutes == r.timeSpentMinutes && r'.lastAttemptAt == r.lastAttemptAt
    ensures KeyOf(r') == KeyOf(r) && r'.id == r.id && r'.lessonSlug == r.lessonSlug
  {
    r.(lessonCompleted := true, lessonCompletedAt := Some(now), isCompleted := true, completedAt := Some(now))
  }

  /** Completing again keeps the flags set; only the completion times move. */
  lemma MarkCompletedAgain(r: ProgressRow, t1: Timestamp, t2: Timestamp)
    ensures MarkCompleted(MarkCompleted(r, t1), t2) == MarkCompleted(r, t2)
  {
  }

  /** The inserted row: key, slug and the completion columns; statistics left to the column defaults. */
  function NewCompletedRow(id: Id, k: LessonKey, lessonSlug: string, now: Timestamp): (r: ProgressRow)
    ensures KeyOf(r) == k && r.id == id && r.lessonSlug == lessonSlug
    ensures r.lessonCompleted && r.isCompleted
  {
    MarkCompleted(ProgressRow(id, k.userId, k.courseSlug, k.lessonId, lessonSlug, None, None, None, None, false, None, false, None), now)
  }

  /**
   * The route; `fetchFails` is a hard error reading lesson_progress and
   * `writeFails` the update or insert.
   */
  method Post(db: Database, user: Option<UserId>, req: UpdateProgress.LessonRequest, fetchFails: bool, writeFails: bool, now: Timestamp)
    returns (resp: Response<bool>)
    requires db.Valid()
    modifies db
    ensures db.Valid()
    ensures KeysUnique(old(db.progress)) ==> KeysUnique(db.progress)
    ensures user.None? ==> resp == Failure(401, "Unauthorized")
    ensures user.Some? && !UpdateProgress.Complete(req) ==> resp == Failure(400, "Missing required fields")
    ensures user.Some? && UpdateProgress.Complete(req) && fetchFails ==> resp == Failure(500, "Database error")
    ensures resp.Success? <==> user.Some? && UpdateProgress.Complete(req) && !fetchFails && !writeFails
    ensures resp.Success? ==> resp.body
    ensures !resp.Success? ==> db.progress == old(db.progress) && db.nextId == old(db.nextId)
    ensures resp.Success? ==>
      var k := LessonKey(user.value, req.courseSlug.value, req.lessonId.value);
      match Single(old(db.progress), k)
      case Some(i) =>
        && |db.progress| == |old(db.progress)| && db.nextId == old(db.nextId)
        && forall j :: 0 <= j < |db.progress| ==>
             db.progress[j] == if j == i then MarkCompleted(old(db.progress[j]), now) else old(db.progress[j])
      case None =>
        && db.progress == old(db.progress) + [NewCompletedRow(old(db.nextId), k, req.lessonSlug.value, now)]
        && db.nextId == old(db.nextId) + 1
    ensures db.attempts == old(db.attempts) && db.sessions == old(db.sessions)
    ensures db.activity == old(db.activity) && db.enrollments == old(db.enrollments)
  {
    if user.None? {
      return Failure(401, "Unauthorized");
    }
    if !UpdateProgress.Complete(req) {
      return Failure(400, "Missing required fields");
    }
    var k := LessonKey(user.value, req.courseSlug.value, req.lessonId.value);
    var existing := Single(db.progress, k);
    if fetchFails {
      return Failure(500, "Database error");
    }
    if writeFails {
      return Failure(500, if existing.Some? then "Failed to update progress" else "Failed to create progress");
    }
    if existing.Some? {
      CompleteAt(db, existing.value, now);
    } else {
      if KeysUnique(db.progress) {
        NotFoundMeansAbsent(db.progress, k);
      }
      UpdateProgress.Insert(db, NewCompletedRow(db.nextId, k, req.lessonSlug.value, now));
    }
    resp := Success(true);
  }

  /** `.update(completion).eq('id', row.id)`. */
  method CompleteAt(db: Database, i: nat, now: Timestamp)
    requires db.Valid() && i < |db.progress|
    modifies db
    ensures db.Valid()
    ensures |db.progress| == |old(db.progress)| && db.nextId == old(db.nextId)
    ensures forall j :: 0 <= j < |db.progress| ==>
      db.progress[j] == if j == i then MarkCompleted(old(db.progress[j]), now) else old(db.progress[j])
    ensures forall j :: 0 <= j < |db.progress| ==> KeyOf(db.progress[j]) == KeyOf(old(db.progress[j]))
    ensures db.attempts == old(db.attempts) && db.sessions == old(db.sessions)
    ensures db.activity == old(db.activity) && db.enrollments == old(db.enrollments)
  {
    var id := db.progress[i].id;
    OnlyRowWithId(db.progress, i);
    db.progress := MapRows(db.progress, (r: ProgressRow) => if r.id == id then MarkCompleted(r, now) else r);
  }

  /** After a successful write the caller's lesson has a row marked complete. */
  lemma CompletedAfterwards(rows: seq<ProgressRow>, k: LessonKey, rows': seq<ProgressRow>, id: Id, slug: string, now: Timestamp)
    requires match Single(rows, k)
      case Some(i) =>
        |rows'| == |rows| && forall j :: 0 <= j < |rows'| ==> rows'[j] == if j == i then MarkCompleted(rows[j], now) else rows[j]
      case None => rows' == rows + [NewCompletedRow(id, k, slug, now)]
    ensures exists j :: 0 <= j < |rows'| && KeyOf(rows'[j]) == k && rows'[j].isCompleted && rows'[j].lessonCompleted
  {
    match Single(rows, k)
    case Some(i) =>
      assert KeyOf(rows'[i]) == k;
    case None =>
      assert rows'[|rows|] == NewCompletedRow(id, k, slug, now);
  }
}
