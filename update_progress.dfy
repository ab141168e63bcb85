/**
 * POST /api/update-progress (app/api/update-progress/route.ts): recomputes
 * a lesson's progress row from the accuracy statistics of the lesson and
 * the durations of its completed sessions, updating the row in place or
 * inserting it.
 */
module UpdateProgress {
  import opened Wrappers
  import opened Store
  import opened ProgressRows
  import JsNumber

  datatype LessonRequest = LessonRequest(courseSlug: Option<string>, lessonId: Option<int>, lessonSlug: Option<string>)

  predicate Complete(req: LessonRequest) {
    Present(req.courseSlug) && PresentNum(req.lessonId) && Present(req.lessonSlug)
  }

  /**
   * The statistics row of the lesson_accuracy_stats view (its definition
   * is not part of this model): a hard error, no row, or the row's
   * nullable columns.
   */
  datatype StatsLookup =
    | StatsError
    | NoStats
    | Stats(accuracyPercentage: Option<int>, totalAttempts: Option<int>,
            correctAnswers: Option<int>, uniqueQuestionsAttempted: Option<int>)

  /** `stats?.column || 0` for each column the route reads. */
  function StatAccuracy(s: StatsLookup): int { if s.Stats? then JsNumber.OrZero(s.accuracyPercentage) else 0 }
  function StatAttempts(s: StatsLookup): int { if s.Stats? then JsNumber.OrZero(s.totalAttempts) else 0 }
  function StatCorrect(s: StatsLookup): int { if s.Stats? then JsNumber.OrZero(s.correctAnswers) else 0 }
  function StatUnique(s: StatsLookup): int { if s.Stats? then JsNumber.OrZero(s.uniqueQuestionsAttempted) else 0 }

  datatype StatsReply = StatsReply(accuracy: int, totalAttempts: int, correctAnswers: int, uniqueQuestions: int)

  /** A completed session of this user's lesson. */
  predicate CountsFor(s: SessionRow, k: LessonKey) {
    s.userId == k.userId && s.courseSlug == k.courseSlug && s.lessonId == k.lessonId && s.completedAt.Some?
  }

  /** The seconds of the completed sessions of the lesson, a null duration counting 0. */
  function TotalSeconds(sessions: seq<SessionRow>, k: LessonKey): int {
    if sessions == [] then 0
    else
      (if CountsFor(sessions[0], k) then JsNumber.OrZero(sessions[0].durationSeconds) else 0)
      + TotalSeconds(sessions[1..], k)
  }

  /** Durations that are never negative give a total that is not negative either. */
  lemma {:induction false} TotalSecondsNonNegative(sessions: seq<SessionRow>, k: LessonKey)
    requires forall i :: 0 <= i < |sessions| ==> JsNumber.OrZero(sessions[i].durationSeconds) >= 0
    ensures TotalSeconds(sessions, k) >= 0
  {
    if sessions != [] {
      TotalSecondsNonNegative(sessions[1..], k);
    }
  }

  /** Rows of other lessons, other users and open sessions add nothing. */
  lemma {:induction false} TotalSecondsAppend(sessions: seq<SessionRow>, s: SessionRow, k: LessonKey)
    ensures TotalSeconds(sessions + [s], k) ==
      TotalSeconds(sessions, k) + (if CountsFor(s, k) then JsNumber.OrZero(s.durationSeconds) else 0)
  {
    if sessions != [] {
      assert (sessions + [s])[1..] == sessions[1..] + [s];
      TotalSecondsAppend(sessions[1..], s, k);
    }
  }

  /** `Math.floor(totalSeconds / 60)`: the whole minutes. */
  function Minutes(totalSeconds: int): (m: int)
    ensures m * 60 <= totalSeconds < (m + 1) * 60
    ensures totalSeconds >= 0 ==> m >= 0
  {
    JsNumber.FloorDiv(totalSeconds, 60)
  }

  /** The four columns the route writes, from the statistics and the minutes. */
  function Refresh(r: ProgressRow, stats: StatsLookup, minutes: int, now: Timestamp): (r': ProgressRow)
    ensures r'.accuracyScore == Some(StatAccuracy(stats)) && r'.attempts == Some(StatAttempts(stats))
    ensures r'.timeSpentMinutes == Some(minutes) && r'.lastAttemptAt == Some(now)
    ensures r'.lessonCompleted == r.lessonCompleted && r'.isCompleted == r.isCompleted
    ensures r'.lessonCompletedAt == r.lessonCompletedAt && r'.completedAt == r.completedAt
    ensures KeyOf(r') == KeyOf(r) && r'.id == r.id && r'.lessonSlug == r.lessonSlug
  {
    r.(accuracyScore := Some(StatAccuracy(stats)), attempts := Some(StatAttempts(stats)),
       timeSpentMinutes := Some(minutes), lastAttemptAt := Some(now))
  }

  /** The inserted row: the key, the slug and the four columns; completion flags at their defaults. */
  function NewRow(id: Id, k: LessonKey, lessonSlug: string, stats: StatsLookup, minutes: int, now: Timestamp): (r: ProgressRow)
    ensures KeyOf(r) == k && r.id == id && r.lessonSlug == lessonSlug
    ensures !r.isCompleted && !r.lessonCompleted
  {
    Refresh(ProgressRow(id, k.userId, k.courseSlug, k.lessonId, lessonSlug, None, None, None, None, false, None, false, None),
            stats, minutes, now)
  }

  /**
   * The route. `stats` is the view's answer; `progressFetchFails` a hard
   * error reading lesson_progress; `sessionsFail` a failed duration query,
   * whose rows then count as none; `writeFails` the update or insert.
   */
  method Post(db: Database, user: Option<UserId>, req: LessonRequest, stats: StatsLookup,
              progressFetchFails: bool, sessionsFail: bool, writeFails: bool, now: Timestamp)
    returns (resp: Response<StatsReply>)
    requires db.Valid()
    modifies db
    ensures db.Valid()
    ensures KeysUnique(old(db.progress)) ==> KeysUnique(db.progress)
    ensures user.None? ==> resp == Failure(401, "Unauthorized")
    ensures user.Some? && !Complete(req) ==> resp == Failure(400, "Missing required fields")
    ensures user.Some? && Complete(req) && stats == StatsError ==> resp == Failure(500, "Failed to fetch stats")
    ensures user.Some? && Complete(req) && stats != StatsError && progressFetchFails ==> resp == Failure(500, "Database error")
    ensures resp.Success? <==> user.Some? && Complete(req) && stats != StatsError && !progressFetchFails && !writeFails
    ensures resp.Success? ==> resp.body == StatsReply(StatAccuracy(stats), StatAttempts(stats), StatCorrect(stats), StatUnique(stats))
    ensures !resp.Success? ==> db.progress == old(db.progress) && db.nextId == old(db.nextId)
    ensures resp.Success? ==>
      var k := LessonKey(user.value, req.courseSlug.value, req.lessonId.value);
      var minutes := Minutes(if sessionsFail then 0 else TotalSeconds(old(db.sessions), k));
      match Single(old(db.progress), k)
      case Some(i) =>
        && |db.progress| == |old(db.progress)| && db.nextId == old(db.nextId)
        && forall j :: 0 <= j < |db.progress| ==>
             db.progress[j] == if j == i then Refresh(old(db.progress[j]), stats, minutes, now) else old(db.progress[j])
      case None =>
        && db.progress == old(db.progress) + [NewRow(old(db.nextId), k, req.lessonSlug.value, stats, minutes, now)]
        && db.nextId == old(db.nextId) + 1
    ensures db.attempts == old(db.attempts) && db.sessions == old(db.sessions)
    ensures db.activity == old(db.activity) && db.enrollments == old(db.enrollments)
  {
    if user.None? {
      return Failure(401, "Unauthorized");
    }
    if !Complete(req) {
      return Failure(400, "Missing required fields");
    }
    if stats == StatsError {
      return Failure(500, "Failed to fetch stats");
    }
    var k := LessonKey(user.value, req.courseSlug.value, req.lessonId.value);
    var existing := Single(db.progress, k);
    if progressFetchFails {
      return Failure(500, "Database error");
    }
    var totalSeconds := if sessionsFail then 0 else TotalSeconds(db.sessions, k);
    var minutes := Minutes(totalSeconds);
    if writeFails {
      return Failure(500, if existing.Some? then "Failed to update progress" else "Failed to create progress");
    }
    Upsert(db, k, req.lessonSlug.value, stats, minutes, now);
    resp := Success(StatsReply(StatAccuracy(stats), StatAttempts(stats), StatCorrect(stats), StatUnique(stats)));
  }

  /** The write: refresh the row `.single()` finds, or insert a new one. */
  method Upsert(db: Database, k: LessonKey, lessonSlug: string, stats: StatsLookup, minutes: int, now: Timestamp)
    requires db.Valid()
    modifies db
    ensures db.Valid()
    ensures KeysUnique(old(db.progress)) ==> KeysUnique(db.progress)
    ensures match Single(old(db.progress), k)
      case Some(i) =>
        && |db.progress| == |old(db.progress)| && db.nextId == old(db.nextId)
        && forall j :: 0 <= j < |db.progress| ==>
             db.progress[j] == if j == i then Refresh(old(db.progress[j]), stats, minutes, now) else old(db.progress[j])
      case None =>
        && db.progress == old(db.progress) + [NewRow(old(db.nextId), k, lessonSlug, stats, minutes, now)]
        && db.nextId == old(db.nextId) + 1
    ensures db.attempts == old(db.attempts) && db.sessions == old(db.sessions)
    ensures db.activity == old(db.activity) && db.enrollments == old(db.enrollments)
  {
    var existing := Single(db.progress, k);
    if existing.Some? {
      RefreshAt(db, existing.value, stats, minutes, now);
    } else {
      if KeysUnique(db.progress) {
        NotFoundMeansAbsent(db.progress, k);
      }
      Insert(db, NewRow(db.nextId, k, lessonSlug, stats, minutes, now));
    }
  }

  /** `.update(data).eq('id', row.id)`: the row at `i` is refreshed, every other row kept. */
  method RefreshAt(db: Database, i: nat, stats: StatsLookup, minutes: int, now: Timestamp)
    requires db.Valid() && i < |db.progress|
    modifies db
    ensures db.Valid()
    ensures |db.progress| == |old(db.progress)| && db.nextId == old(db.nextId)
    ensures forall j :: 0 <= j < |db.progress| ==>
      db.progress[j] == if j == i then Refresh(old(db.progress[j]), stats, minutes, now) else old(db.progress[j])
    ensures forall j :: 0 <= j < |db.progress| ==> KeyOf(db.progress[j]) == KeyOf(old(db.progress[j]))
    ensures db.attempts == old(db.attempts) && db.sessions == old(db.sessions)
    ensures db.activity == old(db.activity) && db.enrollments == old(db.enrollments)
  {
    var id := db.progress[i].id;
    OnlyRowWithId(db.progress, i);
    db.progress := MapRows(db.progress, (r: ProgressRow) => if r.id == id then Refresh(r, stats, minutes, now) else r);
  }

  /** `.insert(row)` under the next id. */
  method Insert(db: Database, row: ProgressRow)
    requires db.Valid() && row.id == db.nextId
    modifies db
    ensures db.Valid()
    ensures db.progress == old(db.progress) + [row] && db.nextId == old(db.nextId) + 1
    ensures db.attempts == old(db.attempts) && db.sessions == old(db.sessions)
    ensures db.activity == old(db.activity) && db.enrollments == old(db.enrollments)
  {
    db.progress := db.progress + [row];
    db.nextId := db.nextId + 1;
  }
}
