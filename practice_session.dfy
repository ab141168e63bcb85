/**
 * The practice-session client (components/PracticeSession.tsx): the answer
 * lookup and flattened question list built from the lesson's data files,
 * the choice of questions for a practice mode, the question cursor, the
 * tally of correct answers and the requests sent to the session routes.
 * The routes are the models of this project, called on the same database.
 */
module PracticeSession {
  import opened Wrappers
  import opened Store
  import StartSession
  import SubmitAnswer
  import CompleteSession
  import UpdateProgress
  import opened JsNumber

  /** An entry of the answers file, its id and answer already as strings. */
  datatype Answer = Answer(id: string, question: string, answer: string,
                           sectionId: Option<string>, sectionTitle: Option<string>)

  /** A question of the questions file as listed inside its section. */
  datatype RawQuestion = RawQuestion(id: string, question: string)

  datatype Section = Section(sectionId: Option<string>, sectionTitle: Option<string>, questions: seq<RawQuestion>)

  /** A question of the flattened list, carrying its section's id and title. */
  datatype Question = Question(id: string, question: string, sectionId: Option<string>, sectionTitle: Option<string>)

  // ---------------------------------------------------------------- answers

  /** The ids occurring in the answers file. */
  function Ids(entries: seq<Answer>): set<string> {
    set i | 0 <= i < |entries| :: entries[i].id
  }

  /** The answer lookup after `set`ting every entry in file order. */
  function AnswerMapOf(entries: seq<Answer>): (m: map<string, Answer>)
    ensures m.Keys == Ids(entries)
  {
    if entries == [] then map[]
    else
      var prefix := entries[..|entries| - 1];
      var last := entries[|entries| - 1];
      assert Ids(entries) == Ids(prefix) + {last.id} by {
        forall k | k in Ids(entries) ensures k in Ids(prefix) + {last.id} {
          var i :| 0 <= i < |entries| && entries[i].id == k;
          if i < |entries| - 1 {
            assert prefix[i].id == k;
          }
        }
        forall k | k in Ids(prefix) ensures k in Ids(entries) {
          var i :| 0 <= i < |prefix| && prefix[i].id == k;
          assert entries[i].id == k;
        }
      }
      AnswerMapOf(prefix)[last.id := last]
  }

  /** The `answersData.answers.forEach(... answerMap.set(...))` loop. */
  method BuildAnswerMap(entries: seq<Answer>) returns (answerMap: map<string, Answer>)
    ensures answerMap == AnswerMapOf(entries)
  {
    answerMap := map[];
    var i := 0;
    while i < |entries|
      invariant 0 <= i <= |entries|
      invariant answerMap == AnswerMapOf(entries[..i])
    {
      assert entries[..i + 1][..i] == entries[..i];
      answerMap := answerMap[entries[i].id := entries[i]];
      i := i + 1;
    }
    assert entries[..i] == entries;
  }

  /** When an id occurs more than once, the last entry with it is the one kept. */
  lemma {:induction false} LastDuplicateWins(entries: seq<Answer>, i: nat)
    requires i < |entries|
    requires forall j :: i < j < |entries| ==> entries[j].id != entries[i].id
    ensures entries[i].id in AnswerMapOf(entries)
    ensures AnswerMapOf(entries)[entries[i].id] == entries[i]
  {
    if i < |entries| - 1 {
      var prefix := entries[..|entries| - 1];
      assert prefix[i] == entries[i];
      LastDuplicateWins(prefix, i);
    }
  }

  // -------------------------------------------------------------- questions

  function Tag(section: Section, q: RawQuestion): Question {
    Question(q.id, q.question, section.sectionId, section.sectionTitle)
  }

  /** One section's questions, in order, tagged with the section. */
  function Tagged(section: Section): (r: seq<Question>)
    ensures |r| == |section.questions|
    ensures forall j :: 0 <= j < |r| ==> r[j] == Tag(section, section.questions[j])
  {
    seq(|section.questions|, j requires 0 <= j < |section.questions| => Tag(section, section.questions[j]))
  }

  /** Every section's tagged questions, sections in file order. */
  function FlattenOf(sections: seq<Section>): seq<Question> {
    if sections == [] then [] else FlattenOf(sections[..|sections| - 1]) + Tagged(sections[|sections| - 1])
  }

  /** The nested `forEach` that pushes every question into `allQuestions`. */
  method Flatten(sections: seq<Section>) returns (allQuestions: seq<Question>)
    ensures allQuestions == FlattenOf(sections)
  {
    allQuestions := [];
    var i := 0;
    while i < |sections|
      invariant 0 <= i <= |sections|
      invariant allQuestions == FlattenOf(sections[..i])
    {
      var section := sections[i];
      var j := 0;
      while j < |section.questions|
        invariant 0 <= j <= |section.questions|
        invariant allQuestions == FlattenOf(sections[..i]) + Tagged(section)[..j]
      {
        assert Tagged(section)[..j + 1] == Tagged(section)[..j] + [Tag(section, section.questions[j])];
        allQuestions := allQuestions + [Tag(section, section.questions[j])];
        j := j + 1;
      }
      assert Tagged(section)[..j] == Tagged(section);
      assert sections[..i + 1][..i] == sections[..i];
      i := i + 1;
    }
    assert sections[..i] == sections;
  }

  /** Where section k's questions start in the flattened list. */
  function Offset(sections: seq<Section>, k: nat): nat
    requires k <= |sections|
  {
    |FlattenOf(sections[..k])|
  }

  /** Section k's questions directly follow those of the sections before it. */
  lemma OffsetStep(sections: seq<Section>, k: nat)
    requires k < |sections|
    ensures Offset(sections, k + 1) == Offset(sections, k) + |sections[k].questions|
  {
    assert sections[..k + 1][..k] == sections[..k];
  }

  /** Question j of section k sits at Offset(k) + j, tagged with section k. */
  lemma {:induction false} FlattenPosition(sections: seq<Section>, k: nat, j: nat)
    requires k < |sections| && j < |sections[k].questions|
    ensures Offset(sections, k) + j < |FlattenOf(sections)|
    ensures FlattenOf(sections)[Offset(sections, k) + j] == Tag(sections[k], sections[k].questions[j])
  {
    var n := |sections|;
    var prefix := sections[..n - 1];
    if k == n - 1 {
      assert sections[..k] == prefix;
    } else {
      assert prefix[..k] == sections[..k];
      assert prefix[k] == sections[k];
      FlattenPosition(prefix, k, j);
    }
  }

  // -------------------------------------------------------------- selection

  datatype PracticeMode = Practice | Timed | Expert | WeakAreas {
    function Name(): string {
      match this
      case Practice => "practice"
      case Timed => "timed"
      case Expert => "expert"
      case WeakAreas => "weak_areas"
    }
  }

  /** JavaScript `slice(start, end)` for 0 <= start <= end: both ends clamped to the length. */
  function Slice<T>(s: seq<T>, start: nat, end: nat): (r: seq<T>)
    requires start <= end
    ensures |r| == if start <= |s| then Min(end, |s|) - start else 0
    ensures forall i :: 0 <= i < |r| ==> r[i] == s[start + i]
  {
    s[Min(start, |s|)..Min(end, |s|)]
  }

  /** First position of the mode's pool. */
  function PoolStart(mode: PracticeMode): nat {
    if mode == Expert then 149 else 0
  }

  /** One past the last position of the mode's pool. */
  function PoolEnd(mode: PracticeMode): nat {
    if mode == Expert then 300 else 30
  }

  /** How many questions the mode asks. */
  function QuestionCount(mode: PracticeMode): (n: nat)
    ensures mode == Practice || mode == WeakAreas ==> n == 10
    ensures mode == Timed || mode == Expert ==> n == 15
  {
    match mode
    case Practice => 10
    case Timed => 15
    case Expert => 15
    case WeakAreas => 10
  }

  /** The mode's pool: positions [0, 30), or [149, 300) for expert, of the flattened list. */
  function Pool(all: seq<Question>, mode: PracticeMode): (r: seq<Question>)
    ensures |r| <= PoolEnd(mode) - PoolStart(mode)
    ensures forall i :: 0 <= i < |r| ==> PoolStart(mode) + i < |all| && r[i] == all[PoolStart(mode) + i]
  {
    Slice(all, PoolStart(mode), PoolEnd(mode))
  }

  /**
   * `getRandomQuestions`: the first min(count, |pool|) questions of
   * `shuffled`, the pool in the random order the shuffle produced. No pool
   * entry is used more often than it occurs.
   */
  function GetRandomQuestions(pool: seq<Question>, count: nat, shuffled: seq<Question>): (r: seq<Question>)
    requires multiset(shuffled) == multiset(pool)
    ensures |r| == Min(count, |pool|)
    ensures multiset(r) <= multiset(pool)
    ensures forall i :: 0 <= i < |r| ==> r[i] in pool
  {
    assert |shuffled| == |multiset(shuffled)| == |pool|;
    var r := shuffled[..Min(count, |pool|)];
    assert shuffled == r + shuffled[|r|..];
    assert forall i :: 0 <= i < |r| ==> r[i] in multiset(shuffled);
    r
  }

  /** The questions of a session in `mode`. */
  function SelectQuestions(all: seq<Question>, mode: PracticeMode, shuffled: seq<Question>): (r: seq<Question>)
    requires multiset(shuffled) == multiset(Pool(all, mode))
    ensures |r| == Min(QuestionCount(mode), |Pool(all, mode)|)
    ensures multiset(r) <= multiset(Pool(all, mode))
  {
    GetRandomQuestions(Pool(all, mode), QuestionCount(mode), shuffled)
  }

  /** Weak-areas mode currently draws exactly like practice mode. */
  lemma WeakAreasIsPractice(all: seq<Question>, shuffled: seq<Question>)
    requires multiset(shuffled) == multiset(Pool(all, Practice))
    ensures Pool(all, WeakAreas) == Pool(all, Practice)
    ensures SelectQuestions(all, WeakAreas, shuffled) == SelectQuestions(all, Practice, shuffled)
  {
  }

  /** With at least 30 questions, practice asks 10 and timed 15; expert needs 164 for its 15. */
  lemma FullPools(all: seq<Question>, shuffled: seq<Question>, mode: PracticeMode)
    requires multiset(shuffled) == multiset(Pool(all, mode))
    requires |all| >= PoolStart(mode) + QuestionCount(mode)
    ensures |SelectQuestions(all, mode, shuffled)| == QuestionCount(mode)
  {
  }

  // ---------------------------------------------------------------- session

  datatype SubmitOutcome = Thrown(message: string) | Replied(reply: SubmitAnswer.SubmitReply)

  class Client {
    const courseSlug: string
    const lessonId: int
    const lessonSlug: string
    const mode: PracticeMode
    var questions: seq<Question>
    var answers: map<string, Answer>
    var currentQuestionIndex: nat
    var sessionId: Option<Id>
    var questionsCorrect: nat
    var finished: bool

    constructor (courseSlug: string, lessonId: int, lessonSlug: string, mode: PracticeMode)
      ensures this.courseSlug == courseSlug && this.lessonId == lessonId
      ensures this.lessonSlug == lessonSlug && this.mode == mode
      ensures questions == [] && answers == map[] && currentQuestionIndex == 0
      ensures sessionId.None? && questionsCorrect == 0 && !finished
    {
      this.courseSlug := courseSlug;
      this.lessonId := lessonId;
      this.lessonSlug := lessonSlug;
      this.mode := mode;
      questions := [];
      answers := map[];
      currentQuestionIndex := 0;
      sessionId := None;
      questionsCorrect := 0;
      finished := false;
    }

    /**
     * `loadQuestions` on the parsed files; `shuffled` is the order the
     * random sort put the mode's pool in.
     */
    method LoadQuestions(entries: seq<Answer>, sections: seq<Section>, shuffled: seq<Question>)
      requires multiset(shuffled) == multiset(Pool(FlattenOf(sections), mode))
      modifies this
      ensures answers == AnswerMapOf(entries)
      ensures questions == SelectQuestions(FlattenOf(sections), mode, shuffled)
      ensures currentQuestionIndex == old(currentQuestionIndex) && sessionId == old(sessionId)
      ensures questionsCorrect == old(questionsCorrect) && finished == old(finished)
    {
      var answerMap := BuildAnswerMap(entries);
      answers := answerMap;
      var allQuestions := Flatten(sections);
      questions := SelectQuestions(allQuestions, mode, shuffled);
    }

    /** The body `startPracticeSession` posts: lessonSlug is not part of it. */
    function StartBody(): (req: StartSession.StartRequest)
      ensures req.lessonSlug.None?
      ensures !StartSession.Complete(req)
    {
      StartSession.StartRequest(Some(courseSlug), Some(lessonId), None, Some(mode.Name()))
    }

    /**
     * `startPracticeSession` against the start route: the request always
     * lacks lessonSlug, so no session row is created and no session id is
     * ever recorded.
     */
    method StartPracticeSession(db: Database, user: Option<UserId>, insertFails: bool, now: Timestamp)
      returns (resp: Response<Id>)
      requires db.Valid()
      modifies this, db
      ensures db.Valid()
      ensures user.Some? ==> resp == Failure(400, StartSession.MissingMessage)
      ensures !resp.Success?
      ensures sessionId == old(sessionId)
      ensures db.sessions == old(db.sessions) && db.nextId == old(db.nextId)
      ensures db.attempts == old(db.attempts) && db.progress == old(db.progress)
      ensures db.activity == old(db.activity) && db.enrollments == old(db.enrollments)
      ensures questions == old(questions) && answers == old(answers) && questionsCorrect == old(questionsCorrect)
      ensures currentQuestionIndex == old(currentQuestionIndex) && finished == old(finished)
    {
      resp := StartSession.Post(db, user, StartBody(), insertFails, now);
      RecordSessionId(resp);
    }

    /** `setSessionId(data.sessionId)` when the start route answered OK. */
    method RecordSessionId(resp: Response<Id>)
      modifies this
      ensures sessionId == if resp.Success? then Some(resp.body) else old(sessionId)
      ensures questions == old(questions) && answers == old(answers) && questionsCorrect == old(questionsCorrect)
      ensures currentQuestionIndex == old(currentQuestionIndex) && finished == old(finished)
    {
      if resp.Success? {
        sessionId := Some(resp.body);
      }
    }

    /** The body `handleSubmitAnswer` posts for the current question. */
    function SubmitBody(q: Question, userAnswer: string, correctAnswer: string, elapsedSeconds: int): SubmitAnswer.SubmitRequest
    reads this
    {
      SubmitAnswer.SubmitRequest(Some(courseSlug), Some(lessonId), Some(lessonSlug), Some(q.id), q.sectionId,
                                 Some(userAnswer), Some(correctAnswer), Some(mode.Name()), Some(elapsedSeconds))
    }

    /**
     * `handleSubmitAnswer`: a question without an answer entry throws before
     * any request; otherwise the answer is posted to the submit route, a
     * failed post throws, and a reply marked correct adds one to the tally.
     */
    method HandleSubmitAnswer(db: Database, user: Option<UserId>, userAnswer: string, elapsedSeconds: int, insertFails: bool)
      returns (outcome: SubmitOutcome)
      requires currentQuestionIndex < |questions|
      modifies this, db
      ensures questions == old(questions) && answers == old(answers) && sessionId == old(sessionId)
      ensures currentQuestionIndex == old(currentQuestionIndex) && finished == old(finished)
      ensures questions[currentQuestionIndex].id !in answers ==>
        outcome == Thrown("Answer not found") && db.attempts == old(db.attempts)
      ensures outcome.Replied? ==>
        && questions[currentQuestionIndex].id in answers
        && outcome.reply.isCorrect == SubmitAnswer.IsCorrect(userAnswer, answers[questions[currentQuestionIndex].id].answer)
        && outcome.reply.correctAnswer == answers[questions[currentQuestionIndex].id].answer
      ensures questions[currentQuestionIndex].id in answers ==>
        var req := SubmitBody(questions[currentQuestionIndex], userAnswer,
                              answers[questions[currentQuestionIndex].id].answer, elapsedSeconds);
        && (outcome.Replied? <==> user.Some? && SubmitAnswer.Complete(req) && !insertFails)
        && (!outcome.Replied? ==> outcome == Thrown("Failed to submit answer") && db.attempts == old(db.attempts))
        && (outcome.Replied? ==> db.attempts == old(db.attempts) + [SubmitAnswer.AttemptFor(user.value, req)])
      ensures questionsCorrect == old(questionsCorrect) + (if outcome.Replied? && outcome.reply.isCorrect then 1 else 0)
      ensures db.sessions == old(db.sessions) && db.progress == old(db.progress) && db.activity == old(db.activity)
      ensures db.enrollments == old(db.enrollments) && db.nextId == old(db.nextId)
    {
      var currentQuestion := questions[currentQuestionIndex];
      if currentQuestion.id !in answers {
        return Thrown("Answer not found");
      }
      var correctAnswer := answers[currentQuestion.id];
      var req := SubmitBody(currentQuestion, userAnswer, correctAnswer.answer, elapsedSeconds);
      var resp := SubmitAnswer.Post(db, user, req, insertFails);
      if resp.Failure? {
        return Thrown("Failed to submit answer");
      }
      if resp.body.isCorrect {
        questionsCorrect := questionsCorrect + 1;
      }
      outcome := Replied(resp.body);
    }

    /** The completion body, sent only when a session id was recorded. */
    function CompletionBody(durationSeconds: int): (req: Option<CompleteSession.CompleteRequest>)
      reads this
      ensures req.Some? <==> sessionId.Some?
      ensures req.Some? ==> req.value.questionsAttempted == Some(|questions|)
      ensures req.Some? ==> req.value.questionsCorrect == Some(questionsCorrect)
    {
      if sessionId.Some? then
        Some(CompleteSession.CompleteRequest(sessionId, Some(|questions|), Some(questionsCorrect), Some(durationSeconds)))
      else None
    }

    /** The body posted to the update-progress route when the results are shown. */
    function ProgressBody(): (req: UpdateProgress.LessonRequest)
      reads this
      ensures req.lessonSlug == Some(lessonSlug)
    {
      UpdateProgress.LessonRequest(Some(courseSlug), Some(lessonId), Some(lessonSlug))
    }

    /**
     * `handleNext`: move to the next question while there is one; at the
     * last question show the results, returning the completion and progress
     * bodies that `showResults` posts.
     */
    method HandleNext(durationSeconds: int)
      returns (completion: Option<CompleteSession.CompleteRequest>, progress: Option<UpdateProgress.LessonRequest>)
      modifies this
      ensures old(currentQuestionIndex) + 1 < |questions| ==>
        currentQuestionIndex == old(currentQuestionIndex) + 1 && finished == old(finished)
        && completion.None? && progress.None?
      ensures old(currentQuestionIndex) + 1 >= |questions| ==>
        currentQuestionIndex == old(currentQuestionIndex) && finished
        && completion == CompletionBody(durationSeconds) && progress == Some(ProgressBody())
      ensures old(currentQuestionIndex) < |questions| ==> currentQuestionIndex < |questions|
      ensures questions == old(questions) && answers == old(answers) && sessionId == old(sessionId)
      ensures questionsCorrect == old(questionsCorrect)
    {
      if currentQuestionIndex < |questions| - 1 {
        currentQuestionIndex := currentQuestionIndex + 1;
        completion, progress := None, None;
      } else {
        finished := true;
        completion := CompletionBody(durationSeconds);
        progress := Some(ProgressBody());
      }
    }
  }

  /**
   * End to end: a client that starts its session through the start route
   * never records a session id, so the completion route is never called.
   */
  method StartThenFinish(client: Client, db: Database, user: Option<UserId>, insertFails: bool, now: Timestamp, durationSeconds: int)
    returns (completion: Option<CompleteSession.CompleteRequest>)
    requires db.Valid() && client.sessionId.None?
    modifies client, db
    ensures completion.None?
  {
    var _ := client.StartPracticeSession(db, user, insertFails, now);
    completion := client.CompletionBody(durationSeconds);
  }
}
