/**
 * POST /api/submit-answer (app/api/submit-answer/route.ts): checks the
 * caller, reports the missing request fields in a fixed order, compares
 * the answer with the canonical one after trimming and lower-casing, and
 * appends one row to question_attempts.
 */
module SubmitAnswer {
  import opened Wrappers
  import opened Store
  import JsString

  /** The JSON body; an absent field is `None`. */
  datatype SubmitRequest = SubmitRequest(
    courseSlug: Option<string>,
    lessonId: Option<int>,
    lessonSlug: Option<string>,
    questionId: Option<string>,
    sectionId: Option<string>,
    userAnswer: Option<string>,
    correctAnswer: Option<string>,
    practiceMode: Option<string>,
    timeTakenSeconds: Option<int>)

  datatype SubmitReply = SubmitReply(isCorrect: bool, correctAnswer: string)

  /** The required fields, in the order a missing one is reported. */
  datatype Field = CourseSlug | LessonId | LessonSlug | QuestionId | UserAnswer | CorrectAnswer {
    function Name(): string {
      match this
      case CourseSlug => "courseSlug"
      case LessonId => "lessonId"
      case LessonSlug => "lessonSlug"
      case QuestionId => "questionId"
      case UserAnswer => "userAnswer"
      case CorrectAnswer => "correctAnswer"
    }
    function Rank(): nat {
      match this
      case CourseSlug => 0
      case LessonId => 1
      case LessonSlug => 2
      case QuestionId => 3
      case UserAnswer => 4
      case CorrectAnswer => 5
    }
  }

  /** A required field is missing when falsy; `userAnswer` only when absent, so "" is accepted. */
  predicate IsMissing(req: SubmitRequest, f: Field) {
    match f
    case CourseSlug => !Present(req.courseSlug)
    case LessonId => !PresentNum(req.lessonId)
    case LessonSlug => !Present(req.lessonSlug)
    case QuestionId => !Present(req.questionId)
    case UserAnswer => req.userAnswer.None?
    case CorrectAnswer => !Present(req.correctAnswer)
  }

  const AllFields: seq<Field> := [CourseSlug, LessonId, LessonSlug, QuestionId, UserAnswer, CorrectAnswer]

  /** Fields listed in strictly increasing check order. */
  predicate RankSorted(fields: seq<Field>) {
    forall i, j :: 0 <= i < j < |fields| ==> fields[i].Rank() < fields[j].Rank()
  }

  /** The missing fields among `fields`, pushed in the order they are checked. */
  function MissingAmong(req: SubmitRequest, fields: seq<Field>): (m: seq<Field>)
    requires RankSorted(fields)
    ensures forall f :: f in m <==> f in fields && IsMissing(req, f)
    ensures RankSorted(m)
  {
    if fields == [] then []
    else
      RankSortedTail(fields);
      var rest := MissingAmong(req, fields[1..]);
      if IsMissing(req, fields[0]) then
        RankSortedCons(fields[0], rest);
        [fields[0]] + rest
      else rest
  }

  lemma RankSortedTail(fields: seq<Field>)
    requires RankSorted(fields) && fields != []
    ensures RankSorted(fields[1..])
    ensures forall f :: f in fields[1..] ==> fields[0].Rank() < f.Rank()
  {
    forall f | f in fields[1..]
      ensures fields[0].Rank() < f.Rank()
    {
      var k :| 0 <= k < |fields[1..]| && fields[1..][k] == f;
      assert fields[k + 1] == f;
    }
  }

  lemma RankSortedCons(x: Field, rest: seq<Field>)
    requires RankSorted(rest)
    requires forall f :: f in rest ==> x.Rank() < f.Rank()
    ensures RankSorted([x] + rest)
  {
    var m := [x] + rest;
    forall i, j | 0 <= i < j < |m|
      ensures m[i].Rank() < m[j].Rank()
    {
      assert m[j] == rest[j - 1];
      if i > 0 {
        assert m[i] == rest[i - 1];
      }
    }
  }

  /** The validation order lists every field once, in rank order. */
  lemma AllFieldsInOrder()
    ensures RankSorted(AllFields)
    ensures forall f :: f in AllFields
  {
    forall i | 0 <= i < |AllFields|
      ensures AllFields[i].Rank() == i
    {
      if i == 0 {} else if i == 1 {} else if i == 2 {} else if i == 3 {} else if i == 4 {} else {}
    }
    forall f: Field
      ensures f in AllFields
    {
      match f
      case CourseSlug => assert AllFields[0] == f;
      case LessonId => assert AllFields[1] == f;
      case LessonSlug => assert AllFields[2] == f;
      case QuestionId => assert AllFields[3] == f;
      case UserAnswer => assert AllFields[4] == f;
      case CorrectAnswer => assert AllFields[5] == f;
    }
  }

  /**
   * The missing fields as the route pushes them: exactly the missing ones,
   * each once, in the order courseSlug .. correctAnswer.
   */
  function Missing(req: SubmitRequest): (m: seq<Field>)
    ensures forall f :: f in m <==> IsMissing(req, f)
    ensures forall i, j :: 0 <= i < j < |m| ==> m[i].Rank() < m[j].Rank()
  {
    AllFieldsInOrder();
    MissingAmong(req, AllFields)
  }

  /** Every required field is present. */
  predicate Complete(req: SubmitRequest) {
    Present(req.courseSlug) && PresentNum(req.lessonId) && Present(req.lessonSlug)
    && Present(req.questionId) && req.userAnswer.Some? && Present(req.correctAnswer)
  }

  /** Nothing is reported missing exactly when every required field is present. */
  lemma MissingEmptyIffComplete(req: SubmitRequest)
    ensures Missing(req) == [] <==> Complete(req)
  {
    var m := Missing(req);
    if m == [] {
      assert !IsMissing(req, CourseSlug) && !IsMissing(req, LessonId) && !IsMissing(req, LessonSlug);
      assert !IsMissing(req, QuestionId) && !IsMissing(req, UserAnswer) && !IsMissing(req, CorrectAnswer);
    } else {
      assert IsMissing(req, m[0]);
    }
  }

  /** The 400 message body: the missing names joined by ", ". */
  function JoinComma(fields: seq<Field>): string {
    if fields == [] then ""
    else if |fields| == 1 then fields[0].Name()
    else fields[0].Name() + ", " + JoinComma(fields[1..])
  }

  /** The answer comparison key: trimmed, then lower-cased. */
  function Normalize(s: string): string {
    JsString.AsciiLower(JsString.Trim(s))
  }

  /** The answer is correct when both strings agree after trimming and lower-casing. */
  predicate IsCorrect(userAnswer: string, correctAnswer: string) {
    Normalize(userAnswer) == Normalize(correctAnswer)
  }

  /** "Paris " against "paris" is correct. */
  lemma ParisExample(answer: string, canonical: string)
    requires answer == "Paris " && canonical == "paris"
    ensures IsCorrect(answer, canonical)
  {
    var word, space := answer[..5], answer[5..];
    assert answer == [] + word + space;
    assert JsString.AllWhitespace(space);
    IsCorrectIgnoresPadding([], word, space, canonical);
    assert IsCorrect(answer, canonical) == IsCorrect(word, canonical);
    IsCorrectIgnoresCase(word, canonical);
    LowerParis(word, canonical);
    assert IsCorrect(JsString.AsciiLower(word), canonical);
  }

  lemma LowerParis(word: string, canonical: string)
    requires word == "Paris" && canonical == "paris"
    ensures JsString.AsciiLower(word) == canonical
  {
    var r := JsString.AsciiLower(word);
    assert JsString.LowerChar('P') == 'p';
    assert r[0] == 'p' && r[1] == 'a' && r[2] == 'r' && r[3] == 'i' && r[4] == 's';
  }

  /** Whitespace around the submitted answer does not matter. */
  lemma IsCorrectIgnoresPadding(w1: string, answer: string, w2: string, canonical: string)
    requires JsString.AllWhitespace(w1) && JsString.AllWhitespace(w2)
    ensures IsCorrect(w1 + answer + w2, canonical) <==> IsCorrect(answer, canonical)
  {
    JsString.TrimPadding(w1, answer, w2);
  }

  /** Letter case of the submitted answer does not matter. */
  lemma IsCorrectIgnoresCase(answer: string, canonical: string)
    ensures IsCorrect(JsString.AsciiLower(answer), canonical) <==> IsCorrect(answer, canonical)
  {
    var t := JsString.Trim(answer);
    JsString.TrimLower(answer);
    assert JsString.Trim(JsString.AsciiLower(answer)) == JsString.AsciiLower(t);
    JsString.AsciiLowerIdempotent(t);
    assert Normalize(JsString.AsciiLower(answer)) == JsString.AsciiLower(JsString.AsciiLower(t));
    assert Normalize(JsString.AsciiLower(answer)) == Normalize(answer);
  }

  /** The comparison is symmetric. */
  lemma IsCorrectSymmetric(a: string, b: string)
    ensures IsCorrect(a, b) <==> IsCorrect(b, a)
  {
  }

  /** The row appended for a valid request by `user`: answers untrimmed, mode and time defaulted. */
  function AttemptFor(user: UserId, req: SubmitRequest): AttemptRow
    requires Complete(req)
  {
    AttemptRow(
      user, req.courseSlug.value, req.lessonId.value, req.lessonSlug.value, req.questionId.value,
      req.sectionId, req.userAnswer.value, req.correctAnswer.value,
      IsCorrect(req.userAnswer.value, req.correctAnswer.value),
      if Present(req.practiceMode) then req.practiceMode.value else "practice",
      if PresentNum(req.timeTakenSeconds) then req.timeTakenSeconds else None)
  }

  /**
   * The route. `user` is the authenticated caller (None when there is
   * none); `insertFails` is the store's answer to the insert.
   */
  method Post(db: Database, user: Option<UserId>, req: SubmitRequest, insertFails: bool) returns (resp: Response<SubmitReply>)
    modifies db
    ensures user.None? ==> resp == Failure(401, "Unauthorized - Please login to submit answers")
    ensures user.Some? && !Complete(req) ==> resp == Failure(400, "Missing required fields: " + JoinComma(Missing(req)))
    ensures user.Some? && Complete(req) && insertFails ==> resp == Failure(500, "Failed to save answer")
    ensures resp.Success? <==> user.Some? && Complete(req) && !insertFails
    ensures resp.Success? ==>
      && db.attempts == old(db.attempts) + [AttemptFor(user.value, req)]
      && resp.body == SubmitReply(IsCorrect(req.userAnswer.value, req.correctAnswer.value), req.correctAnswer.value)
    ensures !resp.Success? ==> db.attempts == old(db.attempts)
    ensures db.sessions == old(db.sessions) && db.progress == old(db.progress) && db.activity == old(db.activity)
    ensures db.enrollments == old(db.enrollments) && db.nextId == old(db.nextId)
  {
    if user.None? {
      return Failure(401, "Unauthorized - Please login to submit answers");
    }
    var missing := Missing(req);
    MissingEmptyIffComplete(req);
    if missing != [] {
      return Failure(400, "Missing required fields: " + JoinComma(missing));
    }
    var row := AttemptFor(user.value, req);
    if insertFails {
      return Failure(500, "Failed to save answer");
    }
    db.attempts := db.attempts + [row];
    resp := Success(SubmitReply(row.isCorrect, req.correctAnswer.value));
  }
}
