/**
 * Lookups on lesson_progress shared by the two routes that upsert it: the
 * (user, course, lesson) key, and `.single()`, which yields a row only when
 * exactly one row has the key (none and several both read as "not found").
 */
module ProgressRows {
  import opened Wrappers
  import opened Store

  datatype LessonKey = LessonKey(userId: UserId, courseSlug: string, lessonId: int)

  predicate IsFor(r: ProgressRow, k: LessonKey) {
    r.userId == k.userId && r.courseSlug == k.courseSlug && r.lessonId == k.lessonId
  }

  /** The first row at or after `from` with key `k`, or -1. */
  function FirstFrom(rows: seq<ProgressRow>, k: LessonKey, from: nat): (i: int)
    requires from <= |rows|
    ensures i == -1 || (from <= i < |rows| && IsFor(rows[i], k))
    ensures forall j :: from <= j < |rows| && (i == -1 || j < i) ==> !IsFor(rows[j], k)
    decreases |rows| - from
  {
    if from == |rows| then -1
    else if IsFor(rows[from], k) then from
    else FirstFrom(rows, k, from + 1)
  }

  /** `.eq(user).eq(course).eq(lesson).single()`: the index of the only row with the key. */
  function Single(rows: seq<ProgressRow>, k: LessonKey): (r: Option<nat>)
    ensures r.Some? ==> r.value < |rows| && IsFor(rows[r.value], k)
    ensures r.Some? ==> forall j :: 0 <= j < |rows| && j != r.value ==> !IsFor(rows[j], k)
    ensures r.None? ==> (forall j :: 0 <= j < |rows| ==> !IsFor(rows[j], k))
                        || exists i, j :: 0 <= i < j < |rows| && IsFor(rows[i], k) && IsFor(rows[j], k)
  {
    var i := FirstFrom(rows, k, 0);
    if i == -1 then None
    else
      var j := FirstFrom(rows, k, i + 1);
      if j == -1 then Some(i) else None
  }

  /** At most one row per (user, course, lesson). */
  function KeyOf(r: ProgressRow): LessonKey {
    LessonKey(r.userId, r.courseSlug, r.lessonId)
  }

  predicate KeysUnique(rows: seq<ProgressRow>) {
    forall i, j :: 0 <= i < j < |rows| ==> KeyOf(rows[i]) != KeyOf(rows[j])
  }

  /** With unique keys, "not found" means no row has the key. */
  lemma NotFoundMeansAbsent(rows: seq<ProgressRow>, k: LessonKey)
    requires KeysUnique(rows) && Single(rows, k).None?
    ensures forall j :: 0 <= j < |rows| ==> !IsFor(rows[j], k)
  {
  }

  /** Ids are unique, so an update filtered by the found row's id reaches that row alone. */
  lemma OnlyRowWithId(rows: seq<ProgressRow>, i: nat)
    requires ProgressIdsDistinct(rows) && i < |rows|
    ensures forall j :: 0 <= j < |rows| ==> (rows[j].id == rows[i].id <==> j == i)
  {
  }
}
