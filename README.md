# GCSE Fast Track — a verified model of its practice engine and rules

GCSE Fast Track is a learning platform for GCSE Maths and Computer Science.
Learners enrol on a course, work through lessons, answer practice questions,
and see their progress, study streak and predicted grade. This project is a
Dafny model of the platform's logic. The React rendering and the Supabase
plumbing are not modelled. The model covers these parts:

- **Grade and tier predictor** (`grade_prediction.dfy`, `course_config.dfy`).
  - The boundary tables and the tier lists.
  - The grade offered for each paper.
  - The three-level confidence rating.
  - The conservatism adjustment, floored at grade 1.
  - The three-stage Foundation/Higher recommendation, including its reasons.
- **Prediction route** (`grade_predictions_route.dfy`).
  - Sums the completed sessions' `correct_answers`/`total_questions` for each active enrollment.
  - Fills defaults, calls the predictor, and writes the prediction back to that enrollment row.
- **Target-grade picker** (`target_grade.dfy`): the initial paper and grade, and the clamping on a paper change.
- **Study streak** (`study_streak.dfy`): the newest-first scan over activity days, with its cursor.
- **Practice-session lifecycle** over an in-memory store.
  - `store.dfy` holds one `Database` class with a sequence per table: question attempts, practice sessions, lesson progress, study activity and enrollments. It also declares the routes' `Response` type: a JSON body or an error status with its message. The lesson-content route reads no table: it answers `{ content }` with a file's text, or `{ error }` with 400 for a bad parameter and 404 for any failed read, so `lesson_content.dfy` declares its own two-case `Response` instead of importing the store.
  - There is one module per route:
    - start (`start_session.dfy`)
    - submit an answer (`submit_answer.dfy`)
    - complete a session (`complete_session.dfy`)
    - update progress (`update_progress.dfy`)
    - complete a lesson (`complete_lesson.dfy`)
    - withdraw from a course (`withdraw_course.dfy`)
  - `progress_rows.dfy` models the single-row lookups that these routes share.
  - The practice client (`practice_session.dfy`) covers answer map, question flattening, pool per mode, random selection, answer submission and the move to the next question.
- **Progress summaries**:
  - the dashboard (`dashboard.dfy`)
  - the two course pages (`course_pages.dfy`)
  - the lesson dashboard (`lesson_dashboard.dfy`)
- **Validators**:
  - the sign-up and password-reset forms (`signup.dfy`, `reset_password.dfy`)
  - the lesson-file name check (`lesson_content.dfy`)
- **Course-modal data generator** (`course_modal_data.dfy`): the content-breakdown table parser.

Shared building blocks:

- `wrappers.dfy`: `Option`.
- `js_number.dfy`: JavaScript's `Math.round`, percentages and `||` defaults.
- `js_string.dfy`: `trim`, `toLowerCase`, `split`/`join`, `includes`/`indexOf`, `parseInt` and UTF-16 `length`.

Conventions of the model:

- Accuracies and progress are exact rationals (`real`). Where the source rounds a ratio, the model uses the equivalent integer formula.
- A store write that can fail takes a boolean failure parameter.
- Timestamps are integers, and study days are day numbers.
- An absent JSON field or a `null` column is `None`.
- The random shuffle is an arbitrary permutation, given as a parameter.

The model exposes these behaviours of the source as lemmas:

- The practice client's start request omits `lessonSlug`, so the start route always rejects it (`PracticeSession.Client.StartPracticeSession`, `PracticeSession.StartThenFinish`).
- The prediction route reads session columns that no modelled route writes (`GradePredictionsRoute.NoRecordedColumnsMeansZeroAccuracy`).
- The lesson-content guard lets a `../../` prefix through (`LessonContent.TraversalIsAccepted`).
- Neither course page treats the computer-science slug as two-tier (`CourseConfig.ComputerScienceIsSingleTier`).

## Model

| member | source | states |
|---|---|---|
| CourseConfig.TierListsDisjoint | lib/courseConfig.ts:14-34 | no subject is in both the two-tier and the single-tier list |
| CourseConfig.ComputerScienceIsSingleTier | lib/courseConfig.ts:14-34 | neither 'computer-science' nor 'computerscience' is two-tier, and the hyphenated slug is in neither list |
| CourseConfig.TablesRise | lib/courseConfig.ts:37-64 | in each of the three boundary tables the boundaries rise strictly with the grade and the lowest grade starts at 0% |
| CourseConfig.GetTargetPaperOptions | lib/courseConfig.ts:67-75 | a two-tier subject offers Foundation then Higher; any other subject offers nothing |
| CourseConfig.GetTargetGradeOptions | lib/courseConfig.ts:78-86 | the grades offered are strictly ascending and are exactly 1-5 for Foundation, 4-9 for Higher and 1-9 for a single-tier paper |
| CourseConfig.TableKeysAreGradeOptions | lib/courseConfig.ts:37-86 | each boundary table's grades are exactly the target grades offered for the matching paper |
| GradePrediction.ConfidenceOf | lib/gradePrediction.ts:46-52 | high exactly when progress is at least 50% with at least 100 questions; medium exactly when not high and progress is at least 20% with at least 30 questions; low otherwise |
| GradePrediction.ConfidenceMonotone | lib/gradePrediction.ts:46-52 | more progress and more questions never give a lower confidence |
| GradePrediction.HighestQualifying | lib/gradePrediction.ts:104-110 | the scan from the highest grade down stops at an entry whose boundary the accuracy reaches, and no higher entry is reached; -1 when none is |
| GradePrediction.GradeFromBoundaries | lib/gradePrediction.ts:103-113 | the grade is one of the table's grades, at least every grade whose boundary the accuracy reaches, itself reached when any is, and the table's lowest grade when none is |
| GradePrediction.GradeFromBoundariesMonotone | lib/gradePrediction.ts:103-113 | a higher accuracy never gives a lower grade from the same table |
| GradePrediction.GradeReachesItsBoundary | lib/gradePrediction.ts:103-113 | with a lowest boundary of 0, every non-negative accuracy reaches the boundary of the grade it is given |
| GradePrediction.BoundaryExamples | lib/courseConfig.ts:37-52 | Foundation: 60% gives 5 and 59% gives 4; Higher: 78% gives 9 and 77% gives 8 |
| GradePrediction.TableGradesInRange | lib/courseConfig.ts:37-64 | every grade the three tables can produce is between 1 and 9 |
| GradePrediction.AdjustForConfidence | lib/gradePrediction.ts:69-76 | low confidence below 10% progress gives the grade less two, or 1 when the grade is at most 3; medium confidence gives the grade less one, or 1 when the grade is at most 2; every other case keeps the grade; a grade of at least 1 never rises and never falls below 1 |
| GradePrediction.AdjustMonotone | lib/gradePrediction.ts:69-76 | the adjustment keeps the order of two raw grades |
| GradePrediction.RecommendPaperTier | lib/gradePrediction.ts:123-185 | the paper is Foundation or Higher; with no target paper it is Foundation without a reason; otherwise a reason is given exactly when the paper differs from the target paper; EarlyStageFollowsTarget, MidStage and LateStage fix the paper in every case |
| GradePrediction.EarlyStageFollowsTarget | lib/gradePrediction.ts:135-149 | below 15% progress: target 6+ gives Higher, target 4 or less gives Foundation, target 5 keeps the paper, and neither accuracy nor predicted grade matters |
| GradePrediction.MidStage | lib/gradePrediction.ts:151-165 | from 15% to below 40% progress: Higher below 40% accuracy moves to Foundation, Foundation at 70% or more predicted at exactly grade 5 moves to Higher, each with its reason; every other candidate keeps the paper without a reason |
| GradePrediction.LateStage | lib/gradePrediction.ts:167-184 | from 40% progress: Higher below grade 4 moves to Foundation, Foundation at 80% accuracy or more moves to Higher, each with its reason; every other candidate keeps the paper without a reason |
| GradePrediction.RecommendationExample | lib/gradePrediction.ts:136-141 | at 10% progress with target 7, a Foundation candidate is moved to Higher with a reason, and a Higher candidate stays without one |
| GradePrediction.CalculatePredictedGrade | lib/gradePrediction.ts:32-98 | the confidence is the rating of progress and questions; the grade is the table grade of the accuracy adjusted for that confidence, in 1..9; on track exactly when the grade reaches the target; two-tier subjects get the recommendation computed from the adjusted grade, single-tier subjects no paper and no reason |
| GradePrediction.PredictionMonotoneInAccuracy | lib/gradePrediction.ts:32-98 | raising only the average accuracy never lowers the predicted grade |
| GradePrediction.ConservatismExample | lib/gradePrediction.ts:69-72 | Foundation at 5% progress with 90% accuracy: raw grade 5 is lowered to 3 |
| GradePrediction.FormatGradeWithTier | lib/gradePrediction.ts:190-200 | the text starts with "Grade " |
| GradePrediction.FormatGradeParses | lib/gradePrediction.ts:194-196 | for no tier, the text after "Grade " parses back to the grade |
| GradePrediction.FormatGradeTiered | lib/gradePrediction.ts:198-199 | a tiered grade is the untiered text followed by the tier name in parentheses, and the two tier names are told apart by that suffix |
| GradePrediction.GradeDescription | lib/gradePrediction.ts:205-215 | "Outstanding" exactly from grade 9 and "Beginning" exactly below grade 2 |
| GradePrediction.GradeDescriptionsDistinct | lib/gradePrediction.ts:205-215 | the grades 1..9 have pairwise different descriptions |
| JsNumber.Round | app/api/grade-predictions/route.ts:88 | `Math.round`: the result is within half a unit of the argument, halves going up |
| JsNumber.RoundMonotone | app/api/grade-predictions/route.ts:88 | rounding never decreases when its argument grows |
| JsNumber.RoundPercent | app/api/complete-practice-session/route.ts:45 | `Math.round(100 * c / a)` equals the integer division (200c + a) / 2a |
| JsNumber.Percent | app/courses/maths/page.tsx:86 | `Math.round(part / whole * 100)` is (200 part + whole) / (2 whole), and a percentage in 0..100 when 0 <= part <= whole |
| JsNumber.RoundQuotient | app/dashboard/page.tsx:102 | `Math.round(p / q)` is the rounded exact quotient, equal to (2p + q) / 2q |
| JsNumber.FloorDiv | app/api/update-progress/route.ts:88 | `Math.floor(n / d)` is the q with q*d <= n < (q+1)*d |
| JsNumber.Min | components/PracticeSession.tsx:200 | `Math.min`: one of the arguments and at most both |
| JsNumber.Max | lib/gradePrediction.ts:70-76 | `Math.max`: one of the arguments and at least both |
| JsNumber.OrZero | app/api/grade-predictions/route.ts:51-52 | `x \|\| 0` on a nullable number: the value when present, else 0 |
| JsNumber.OrDefault | components/LessonDashboard.tsx:39 | `x \|\| d`: a non-zero value is kept, and null or 0 gives exactly d |
| JsString.TrimStart | app/api/submit-answer/route.ts:69 | the result is a suffix that does not start with whitespace, and everything removed is whitespace |
| JsString.TrimEnd | app/api/submit-answer/route.ts:69 | the result is a prefix that does not end with whitespace, and everything removed is whitespace |
| JsString.Trim | app/api/submit-answer/route.ts:69 | `trim` leaves no whitespace at either end and never lengthens |
| JsString.TrimOfTrimmed | app/api/submit-answer/route.ts:69 | a string without whitespace at its ends is its own trim |
| JsString.TrimIdempotent | app/api/submit-answer/route.ts:69 | trimming twice is trimming once |
| JsString.TrimStartAppend | app/api/submit-answer/route.ts:69 | trimming the start of u + t reaches into t only when u is all whitespace |
| JsString.TrimEndAppendWhitespace | app/api/submit-answer/route.ts:69 | trailing whitespace appended is removed again |
| JsString.TrimPadding | app/api/submit-answer/route.ts:69 | whitespace padding on either side does not change the trim |
| JsString.AsciiLower | app/api/submit-answer/route.ts:69 | `toLowerCase` keeps the length and lowers each character on its own |
| JsString.AsciiLowerIdempotent | app/api/submit-answer/route.ts:69 | lower-casing twice is lower-casing once |
| JsString.TrimStartLower | app/api/submit-answer/route.ts:69 | lower-casing commutes with trimming the start |
| JsString.TrimEndLower | app/api/submit-answer/route.ts:69 | lower-casing commutes with trimming the end |
| JsString.TrimLower | app/api/submit-answer/route.ts:69 | `trim().toLowerCase()` equals `toLowerCase().trim()` |
| JsString.IndexOfFrom | app/api/lesson-content/route.ts:30 | the first position at or after `from` where the substring occurs, or -1 when it occurs nowhere from there |
| JsString.Includes | app/api/lesson-content/route.ts:30 | `includes` holds exactly when the substring occurs at some position |
| JsString.Split | scripts/generate-course-modal-data.js:86 | `split` on one character gives at least one piece, none containing the separator |
| JsString.SplitJoin | scripts/generate-course-modal-data.js:94 | joining the pieces of a split gives the string back |
| JsString.JoinSplit | scripts/generate-course-modal-data.js:94 | splitting the join of separator-free pieces gives the pieces back |
| JsString.RemoveDoubleStars | scripts/generate-course-modal-data.js:97 | removing every "**" never lengthens, leaves no "**", and keeps a first character that is not '*' |
| JsString.RemoveDoubleStarsKeepsOthers | scripts/generate-course-modal-data.js:97 | every character other than '*' keeps its count |
| JsString.Utf16Length | app/signup/page.tsx:57 | `length` counts UTF-16 code units: between one and two per character |
| JsString.NatToString | lib/gradePrediction.ts:195 | the decimal form is a non-empty string of digits without a leading zero |
| JsString.ParseIntOfIntToString | lib/gradePrediction.ts:195 | `parseInt(String(n))` gives n back for every integer |
| Dashboard.CompletedCount | app/dashboard/page.tsx:96 | never more completed lessons than progress rows; Dashboard.CompletedCountStep pins it to the number of rows marked completed |
| Dashboard.CompletedCountStep | app/dashboard/page.tsx:96 | no rows count 0, and one more row adds 1 exactly when its lesson is completed, so the count is the number of completed rows |
| Dashboard.Scored | app/dashboard/page.tsx:100 | the kept rows are rows of the input with a stored accuracy score |
| Dashboard.SumScoresBounded | app/dashboard/page.tsx:101-103 | scores that are percentages sum to between 0 and 100 per row |
| Dashboard.ScoredBounded | app/dashboard/page.tsx:100-103 | when every score is a percentage, the scored rows sum to between 0 and 100 per row |
| Dashboard.OverallAccuracy | app/dashboard/page.tsx:99-103 | 0 with no scored row, else the rounded mean of the stored scores, a percentage whenever the scores are |
| Dashboard.MeanBounds | app/dashboard/page.tsx:101-103 | the rounded mean of percentages is a percentage |
| Dashboard.TimeSpentNonNegative | app/dashboard/page.tsx:106 | non-negative minutes per row give non-negative time spent |
| Dashboard.FirstIncomplete | app/dashboard/page.tsx:110 | `find(p => !p.is_completed)`: nothing exactly when all rows are complete, else the first incomplete row |
| Dashboard.NextLessonSlug | app/dashboard/page.tsx:177 | a slug only when it is non-empty and comes from the first incomplete row; none when every row is complete |
| Dashboard.LadderGrade | app/dashboard/page.tsx:121-131 | the grade is 0..9, 0 exactly below 15%, and the accuracy lies between the grade's threshold and the next one |
| Dashboard.LadderMonotone | app/dashboard/page.tsx:121-131 | a higher accuracy never gives a lower grade on the ladder |
| Dashboard.PredictedGradeLabel | app/dashboard/page.tsx:121-131 | "U" exactly below 15%, otherwise the one digit of the ladder grade |
| Dashboard.LatestAttempt | app/dashboard/page.tsx:153-154 | none exactly when no row has an attempt time, else an attempt time of some row at least every other |
| Dashboard.DaysSinceLastPractice | app/dashboard/page.tsx:156-158 | 999 without any attempt, else the whole days between the latest attempt and now |
| Dashboard.SimplifiedStreak | app/dashboard/page.tsx:160 | 7 exactly after practice today, 5 exactly after practice yesterday, 0 otherwise |
| Dashboard.NeverPractisedMeansNoStreak | app/dashboard/page.tsx:153-160 | a course with no attempt time has streak 0 |
| Dashboard.CourseName | app/dashboard/page.tsx:146-150 | a slug outside the three named courses is shown as itself |
| Dashboard.CourseColor | app/dashboard/page.tsx:134-138 | a slug outside the three named courses gets the default colour |
| Dashboard.CourseIcon | app/dashboard/page.tsx:140-144 | a slug outside the three named courses gets the default icon |
| Dashboard.Summarize | app/dashboard/page.tsx:95-183 | the summary keeps the slug and counts 100 lessons; its completed lessons, accuracy, minutes, streak and next lesson are CompletedCount, OverallAccuracy, the minutes sum, SimplifiedStreak of the days since the last attempt and NextLessonSlug of the rows; the name, colour and icon are those of the slug; the streak is 0, 5 or 7, the accuracy a percentage when the scores are, and the label the ladder grade of that accuracy |
| Dashboard.MaxStreak | app/dashboard/page.tsx:162 | the longest streak bounds every course's streak and is 0 or one of them |
| Dashboard.TotalsStep | app/dashboard/page.tsx:107-164 | one more course adds its minutes and completed lessons to the totals and may raise the longest streak |
| Dashboard.PushIf | app/dashboard/page.tsx:193-201 | a badge is added exactly when its condition holds |
| Dashboard.Achievements | app/dashboard/page.tsx:192-201 | a badge is in the list exactly when its threshold is met |
| Dashboard.HigherTierImpliesLower | app/dashboard/page.tsx:193-201 | each badge comes with every lower badge of its kind |
| Dashboard.StreakBadgesNeedRecentPractice | app/dashboard/page.tsx:160-201 | with streaks of 0, 5 or 7 the longest streak is one of them, so "On Fire" needs practice today or yesterday |
| Dashboard.OverallProgress | app/dashboard/page.tsx:259 | the rounded share of 100 lessons per course completed, a percentage when at most 100 per course are |
| Dashboard.SummarizeAll | app/dashboard/page.tsx:82-184 | the loop summarises each enrollment in order and returns the totals of minutes and completed lessons and the longest streak of those summaries |
| Dashboard.LoadDashboard | app/dashboard/page.tsx:60-204 | signed out exactly when redirected to login; otherwise one summary per active enrollment in order, totals and streak of those summaries, and badges only when some enrollment is active |
| GradePredictionsRoute.SumSessions | app/api/grade-predictions/route.ts:46-54 | the `forEach` loop ends with the totals of `correct_answers \|\| 0` and `total_questions \|\| 0` over the sessions |
| GradePredictionsRoute.UnwrittenColumnsSumToZero | app/api/grade-predictions/route.ts:49-54 | sessions whose two prediction columns were never written contribute nothing to either total |
| GradePredictionsRoute.SumsBounded | app/api/grade-predictions/route.ts:49-54 | when each session has 0 <= correct <= total, so do the totals |
| GradePredictionsRoute.AverageAccuracy | app/api/grade-predictions/route.ts:56-58 | 0 when no question was recorded, and a percentage when the totals are consistent |
| GradePredictionsRoute.RoundedAccuracy | app/api/grade-predictions/route.ts:88 | the reported accuracy is the rounded average, 0 without questions, else (200 correct + total) / (2 total) |
| GradePredictionsRoute.RoundedAccuracyMonotone | app/api/grade-predictions/route.ts:56-88 | more correct answers out of the same questions never lower the reported accuracy |
| GradePredictionsRoute.PerformanceFor | app/api/grade-predictions/route.ts:61-69 | 100 lessons and the enrollment's course; lessons completed default to 0, the paper to Foundation, a missing or zero target grade to 4; accuracy and questions from the session totals |
| GradePredictionsRoute.PredictionFor | app/api/grade-predictions/route.ts:38-91 | the response element keeps the course slug and carries a grade in 1..9 |
| GradePredictionsRoute.NoRecordedColumnsMeansZeroAccuracy | app/api/grade-predictions/route.ts:38-58 | when no session has the two columns written, every course is reported with 0% accuracy and 0 questions |
| GradePredictionsRoute.ApplyPrediction | app/api/grade-predictions/route.ts:75-81 | the update writes the predicted grade, writes the recommended paper only when there is one, and changes no other column |
| GradePredictionsRoute.ApplyPredictionIdempotent | app/api/grade-predictions/route.ts:75-81 | writing the same prediction twice is writing it once |
| GradePredictionsRoute.PredictOne | app/api/grade-predictions/route.ts:38-72 | the loop body's query, totals and predictor give the enrollment's prediction |
| GradePredictionsRoute.StorePrediction | app/api/grade-predictions/route.ts:75-81 | one update by enrollment id writes that enrollment's prediction and leaves every other row and table as it was |
| GradePredictionsRoute.RecordPrediction | app/api/grade-predictions/route.ts:35-93 | recording one more enrollment's prediction keeps every stored prediction equal to that enrollment's own |
| GradePredictionsRoute.AllStored | app/api/grade-predictions/route.ts:35-93 | once every active enrollment is stored, active rows carry their prediction and the others are unchanged |
| GradePredictionsRoute.PredictAndStore | app/api/grade-predictions/route.ts:35-93 | one prediction per active enrollment in order; each active row gets its own prediction written, every other row and table is unchanged |
| GradePredictionsRoute.Get | app/api/grade-predictions/route.ts:9-95 | 401 when signed out, 500 with the message when the enrollment query fails, otherwise the predictions of the active enrollments in order, each made from no sessions when its session query fails, written to those enrollments and nowhere else |
| GradePredictionsRoute.FailedSessionQuery | app/api/grade-predictions/route.ts:38-81 | an unchecked failed session query leaves zero totals, and the predictor still runs on them with low confidence |
| Store.Filter | app/api/withdraw-course/route.ts:28-32 | the rows kept are rows of the input that pass the test, and every input row that passes is kept |
| Store.FilterAppend | app/api/withdraw-course/route.ts:28-32 | filtering works row by row: the survivors of a concatenation are the survivors of each part, in order |
| Store.FilterKeepsProgressIds | app/api/withdraw-course/route.ts:50-54 | deleting progress rows keeps the remaining ids distinct |
| Store.FilterKeepsProgressBound | app/api/withdraw-course/route.ts:50-54 | deleting progress rows keeps every remaining id below any bound they were below |
| Store.MapRows | app/api/withdraw-course/route.ts:72-79 | an update changes every row through the same function and keeps the row count |
| Store.FilterSingle | app/courses/maths/page.tsx:42-48 | the filter leaves exactly one row exactly when exactly one row passes, and then that row |
| ProgressRows.FirstFrom | app/api/update-progress/route.ts:62-68 | the first row at or after the start that has the (user, course, lesson) key, or -1 when none from there has it |
| ProgressRows.Single | app/api/update-progress/route.ts:62-68 | `.single()` finds a row only when it is the one row with the key; "not found" when none or several have it |
| ProgressRows.NotFoundMeansAbsent | app/api/update-progress/route.ts:62-76 | with keys unique, "not found" means that no row has the key |
| ProgressRows.OnlyRowWithId | app/api/update-progress/route.ts:99-102 | with ids distinct, an update filtered by the found row's id reaches that row alone |
| WithdrawCourse.Withdraw | app/api/withdraw-course/route.ts:72-79 | the enrollment becomes withdrawn at the given time, keeping its id, owner, course, paper, target grade, premium flag, completed lessons, predicted grade and recommended paper |
| WithdrawCourse.DeleteAttempts | app/api/withdraw-course/route.ts:28-32 | the caller's attempts for the course are removed, every other row and table kept |
| WithdrawCourse.DeleteSessions | app/api/withdraw-course/route.ts:39-43 | the caller's sessions for the course are removed, every other row and table kept |
| WithdrawCourse.DeleteProgress | app/api/withdraw-course/route.ts:50-54 | the caller's progress rows for the course are removed, every other row and table kept |
| WithdrawCourse.DeleteActivity | app/api/withdraw-course/route.ts:61-65 | the caller's activity rows for the course are removed, every other row and table kept |
| WithdrawCourse.WithdrawEnrollments | app/api/withdraw-course/route.ts:72-79 | the caller's enrollments in the course are withdrawn, every other row and table kept |
| WithdrawCourse.DeletesAreScoped | app/api/withdraw-course/route.ts:28-32 | after a delete no row of the caller's course is left, and every other row still is |
| WithdrawCourse.Post | app/api/withdraw-course/route.ts:8-92 | 401 when signed out, 400 without a slug, 500 exactly when the enrollment update fails; each delete that succeeds removes the caller's rows of the course, one that fails changes nothing, and the enrollments are withdrawn on success |
| UpdateProgress.TotalSecondsNonNegative | app/api/update-progress/route.ts:79-87 | durations that are never negative give a total that is not negative |
| UpdateProgress.TotalSecondsAppend | app/api/update-progress/route.ts:79-87 | one more session adds its duration only when it is a completed session of the lesson |
| UpdateProgress.Minutes | app/api/update-progress/route.ts:88 | the whole minutes m with 60m <= seconds < 60(m+1), never negative for a non-negative total |
| UpdateProgress.Refresh | app/api/update-progress/route.ts:90-95 | the four written columns take the statistics, the minutes and the time; the completion columns, key, id and slug are kept |
| UpdateProgress.NewRow | app/api/update-progress/route.ts:113-121 | the inserted row has the lesson's key, the next id and the slug, and is not marked complete |
| UpdateProgress.RefreshAt | app/api/update-progress/route.ts:99-102 | the row at the found position is refreshed and every other row kept |
| UpdateProgress.Insert | app/api/update-progress/route.ts:113-121 | the row is appended under the next id, which then moves on |
| UpdateProgress.Upsert | app/api/update-progress/route.ts:97-130 | the row `.single()` finds is refreshed in place, otherwise a new row is appended; keys stay unique |
| UpdateProgress.Post | app/api/update-progress/route.ts:21-140 | 401, 400 on a missing field, 500 on a stats or fetch error or a failed write, else success with the statistics; the lesson's row is refreshed or inserted with the minutes of its completed sessions, keys stay unique, and nothing else changes |
| CompleteLesson.MarkCompleted | app/api/complete-lesson/route.ts:63-71 | both completion flags set and both completion times now; statistics, key, id and slug kept |
| CompleteLesson.MarkCompletedAgain | app/api/complete-lesson/route.ts:63-71 | completing a completed lesson keeps it complete and only moves the times |
| CompleteLesson.NewCompletedRow | app/api/complete-lesson/route.ts:82-93 | the inserted row has the key, id and slug and is marked complete |
| CompleteLesson.CompleteAt | app/api/complete-lesson/route.ts:63-71 | the row at the found position is completed and every other row kept |
| CompleteLesson.CompletedAfterwards | app/api/complete-lesson/route.ts:61-102 | after either write some row with the lesson's key is marked complete |
| CompleteLesson.Post | app/api/complete-lesson/route.ts:21-104 | 401, 400 on a missing field, 500 on a fetch error or a failed write, else success; the found row is completed in place or a completed row inserted, keys stay unique, and nothing else changes |
| StartSession.NewSession | app/api/start-practice-session/route.ts:44-57 | the inserted session is open, owned by the caller, carries the request's course, lesson, slug and mode, and starts now with counters, accuracy and duration at 0 |
| StartSession.Post | app/api/start-practice-session/route.ts:20-69 | 401, 400 when any of the four fields is missing, 500 when the insert fails; on success exactly one new session is appended under an id no earlier session has, which is returned, and nothing else changes |
| CompleteSession.AccuracyPercentage | app/api/complete-practice-session/route.ts:44-46 | 0 when nothing was attempted, else the rounded percentage correct, in 0..100 when 0 <= correct <= attempted |
| CompleteSession.AccuracyExamples | app/api/complete-practice-session/route.ts:44-46 | 7 of 10 gives 70, nothing attempted gives 0 |
| CompleteSession.AccuracyExtremes | app/api/complete-practice-session/route.ts:44-46 | all correct gives 100 and none correct gives 0 |
| CompleteSession.Finish | app/api/complete-practice-session/route.ts:44-57 | the reported attempted and correct counts are stored with their rounded accuracy (0..100 for a consistent tally), the duration and the completion time; id, owner, course, lesson, lesson slug, practice mode, start time and the other columns are kept |
| CompleteSession.FinishOverwrites | app/api/complete-practice-session/route.ts:49-59 | completing twice leaves the second call's values: an earlier completion is not checked |
| CompleteSession.Post | app/api/complete-practice-session/route.ts:21-69 | 401, 400 without a session id or an undefined number, 500 when the update fails; only the caller's own session with that id is completed, and nothing else changes |
| SubmitAnswer.MissingAmong | app/api/submit-answer/route.ts:54-60 | the fields reported are exactly the missing ones among those checked, in check order |
| SubmitAnswer.AllFieldsInOrder | app/api/submit-answer/route.ts:55-60 | the validation order lists every required field, in rank order |
| SubmitAnswer.Missing | app/api/submit-answer/route.ts:53-60 | the reported fields are exactly the missing ones, each once, in the order courseSlug, lessonId, lessonSlug, questionId, userAnswer, correctAnswer |
| SubmitAnswer.MissingEmptyIffComplete | app/api/submit-answer/route.ts:53-66 | nothing is reported missing exactly when every required field is present |
| SubmitAnswer.ParisExample | app/api/submit-answer/route.ts:68-69 | "Paris " is a correct answer to "paris" |
| SubmitAnswer.LowerParis | app/api/submit-answer/route.ts:69 | "Paris" lower-cases to "paris" |
| SubmitAnswer.IsCorrectIgnoresPadding | app/api/submit-answer/route.ts:69 | whitespace around the submitted answer does not change whether it is correct |
| SubmitAnswer.IsCorrectIgnoresCase | app/api/submit-answer/route.ts:69 | lower-casing the submitted answer does not change whether it is correct |
| SubmitAnswer.IsCorrectSymmetric | app/api/submit-answer/route.ts:69 | swapping the two answers does not change the verdict |
| SubmitAnswer.Post | app/api/submit-answer/route.ts:26-100 | 401, 400 naming exactly the missing fields, 500 when the insert fails; on success one attempt row with the untrimmed answers, the verdict and the mode and time defaults is appended, and the verdict and canonical answer are returned; nothing else changes |
| StudyStreak.Scan | app/api/study-streak/route.ts:55-67 | the loop never counts more days than it is given |
| StudyStreak.Streak | app/api/study-streak/route.ts:33-69 | 0 without activity or when the latest day is before yesterday, and never more than the number of days |
| StudyStreak.ComputeStreak | app/api/study-streak/route.ts:33-69 | the route's loop returns the streak of the dates |
| StudyStreak.ScanCountsRun | app/api/study-streak/route.ts:55-67 | on newest-first days the loop counts exactly the run of consecutive days ending at the cursor |
| StudyStreak.RunLengthUnique | app/api/study-streak/route.ts:55-67 | a run of consecutive days ending at a given day has one length |
| StudyStreak.StreakIsRun | app/api/study-streak/route.ts:45-67 | when the latest day is today or yesterday, the streak is at least 1 and is the length of the run of consecutive days ending at it |
| StudyStreak.DaysBefore | app/api/study-streak/route.ts:55-67 | the n days ending at a day form a set of size n |
| StudyStreak.StreakAtMostDistinctDays | app/api/study-streak/route.ts:33-69 | the streak is at most the number of distinct study days |
| StudyStreak.StreakDependsOnlyOnDays | app/api/study-streak/route.ts:56-67 | repeated days neither extend nor break the streak: lists with the same days give the same streak |
| StudyStreak.OlderDaysAfterGapIgnored | app/api/study-streak/route.ts:63-66 | days older than the first gap do not change the streak |
| StudyStreak.ScanAppend | app/api/study-streak/route.ts:63-66 | days older than the end of the counted run do not change the count |
| StudyStreak.StreakExamples | app/api/study-streak/route.ts:33-69 | three days ending today give 3, one day two days ago gives 0, yesterday twice then a gap gives 1 |
| StudyStreak.Get | app/api/study-streak/route.ts:11-69 | 401 when signed out, 500 when the query fails, else the streak of the caller's days; a positive streak's days are all study days of the caller |
| TargetGrade.InitialPaper | components/SetTargetGradeModal.tsx:27-29 | the stored paper when there is one, else Foundation for a two-tier subject and none otherwise |
| TargetGrade.InitialGrade | components/SetTargetGradeModal.tsx:30 | the stored grade unless it is absent or 0, which both become 4 |
| TargetGrade.ClampGrade | components/SetTargetGradeModal.tsx:37-45 | Foundation caps the grade at 5, Higher raises it to 4, no tier keeps it; a grade of 1..9 always lands among the new paper's options |
| TargetGrade.ClampKeepsLegalGrade | components/SetTargetGradeModal.tsx:37-45 | a grade the paper already offers is left alone |
| TargetGrade.ClampIdempotent | components/SetTargetGradeModal.tsx:37-45 | adjusting twice for the same paper is adjusting once |
| TargetGrade.InitialGradeNotClamped | components/SetTargetGradeModal.tsx:27-30 | a stored Foundation target of grade 7 opens with a grade Foundation does not offer: the initial state is not adjusted |
| TargetGrade.Picker.AvailableGrades | components/SetTargetGradeModal.tsx:35 | the offered grades are exactly the selected paper's range |
| TargetGrade.Picker.constructor | components/SetTargetGradeModal.tsx:25-31 | the picker opens with the initial paper and grade and is not saving |
| TargetGrade.Picker.HandlePaperChange | components/SetTargetGradeModal.tsx:37-45 | the paper is set and the grade adjusted into its range; a grade of 1..9 ends up legal for the paper |
| TargetGrade.Picker.SelectGrade | components/SetTargetGradeModal.tsx:118 | the grade is set and the paper kept; a grade from the offered ones is legal |
| TargetGrade.Picker.HandleSave | components/SetTargetGradeModal.tsx:47-57 | the selected paper and grade are handed to the save callback, the picker closes exactly when it succeeds, and saving is off afterwards |
| TargetGrade.PaperChangeTwice | components/SetTargetGradeModal.tsx:37-45 | two changes to the same paper leave the same state as one |
| PracticeSession.AnswerMapOf | components/PracticeSession.tsx:105-114 | the lookup's keys are exactly the ids in the answers file |
| PracticeSession.BuildAnswerMap | components/PracticeSession.tsx:105-114 | the `forEach` loop builds the lookup of the whole file |
| PracticeSession.LastDuplicateWins | components/PracticeSession.tsx:106-114 | when an id occurs several times, the last entry with it is the one kept |
| PracticeSession.Tagged | components/PracticeSession.tsx:120-127 | one section's questions, in order, each carrying the section's id and title |
| PracticeSession.Flatten | components/PracticeSession.tsx:118-128 | the nested loops push every section's tagged questions, sections in file order |
| PracticeSession.OffsetStep | components/PracticeSession.tsx:118-128 | a section's questions directly follow those of the sections before it |
| PracticeSession.FlattenPosition | components/PracticeSession.tsx:118-128 | question j of section k is at the section's offset plus j, tagged with section k |
| PracticeSession.Slice | components/PracticeSession.tsx:135 | `slice` clamps both ends to the length and keeps the elements in place |
| PracticeSession.QuestionCount | components/PracticeSession.tsx:133-150 | practice and weak areas ask 10 questions, timed and expert 15 |
| PracticeSession.Pool | components/PracticeSession.tsx:133-150 | the pool is positions [0, 30) of the flattened list, or [149, 300) for expert |
| PracticeSession.GetRandomQuestions | components/PracticeSession.tsx:198-201 | min(count, pool size) questions, none used more often than it occurs in the pool |
| PracticeSession.SelectQuestions | components/PracticeSession.tsx:130-150 | the mode's question count, capped by its pool's size, drawn from the pool without repeats beyond the pool's own |
| PracticeSession.WeakAreasIsPractice | components/PracticeSession.tsx:145-149 | weak-areas mode draws exactly like practice mode |
| PracticeSession.FullPools | components/PracticeSession.tsx:133-150 | with enough questions each mode asks its full count; expert needs 164 |
| PracticeSession.Client.constructor | components/PracticeSession.tsx:74-81 | the client starts with no questions, no answers, index 0, no session id and no correct answers |
| PracticeSession.Client.LoadQuestions | components/PracticeSession.tsx:94-153 | the answers become the lookup of the file and the questions the mode's selection from the flattened list; nothing else changes |
| PracticeSession.Client.StartBody | components/PracticeSession.tsx:170-174 | the start request carries no lessonSlug, so it is never complete |
| PracticeSession.Client.StartPracticeSession | components/PracticeSession.tsx:165-188 | for a signed-in caller the start route answers 400, so no session row is created and no session id recorded |
| PracticeSession.Client.RecordSessionId | components/PracticeSession.tsx:177-182 | the session id is recorded exactly when the start route answered OK |
| PracticeSession.Client.HandleSubmitAnswer | components/PracticeSession.tsx:203-245 | a question without an answer entry throws before any request; otherwise a reply comes exactly when the caller is signed in, the posted body is complete and the insert succeeds, and then the route's attempt row for that body is appended, while any other outcome throws "Failed to submit answer" with the attempts unchanged; a reply carries the comparison with the stored answer; the tally rises by one exactly for a reply marked correct |
| PracticeSession.Client.CompletionBody | components/PracticeSession.tsx:258-270 | a completion body exactly when a session id is recorded, reporting the number of questions and the tally |
| PracticeSession.Client.ProgressBody | components/PracticeSession.tsx:278-286 | the progress request carries the lesson's slug |
| PracticeSession.Client.HandleNext | components/PracticeSession.tsx:247-254 | before the last question the index moves on and nothing is posted; at the last one the results are shown with the completion and progress bodies; the index never leaves the list |
| PracticeSession.StartThenFinish | components/PracticeSession.tsx:165-274 | a client that starts through the start route never posts a completion |
| CoursePages.CompletionPercent | app/courses/maths/page.tsx:84-86 | no number (NaN or Infinity) exactly when the course has no lessons, else the rounded percentage, in 0..100 when at most every lesson is completed |
| CoursePages.ComparatorsAgree | app/courses/computer-science/page.tsx:89-104 | on rows that have a score, the computer-science comparators order rows exactly as the maths page's do |
| CoursePages.Strongest | app/courses/maths/page.tsx:88-95 | nothing exactly for no rows; otherwise a scored row of the input before which no row sorts |
| CoursePages.Weakest | app/courses/maths/page.tsx:97-103 | nothing exactly for no rows; otherwise a scored row of the input before which no row sorts |
| CoursePages.WithScores | app/courses/maths/page.tsx:89 | every kept row has a score |
| CoursePages.StrongestAtLeastWeakest | app/courses/maths/page.tsx:88-103 | both are absent exactly when no row has a score, and the strongest score is at least the weakest |
| CoursePages.StrongestIsMaximum | app/courses/maths/page.tsx:90-95 | the strongest row has the highest score, ties going to the higher lesson id |
| CoursePages.WeakestIsMinimum | app/courses/maths/page.tsx:98-103 | the weakest row has the lowest score, ties going to the higher lesson id |
| CoursePages.MapGet | app/courses/maths/page.tsx:106 | the map built from the rows yields nothing exactly when no row has the lesson id, else the last row with it |
| CoursePages.LastOccurrenceExtends | app/courses/maths/page.tsx:106 | a last occurrence in all but the final row stays the last when the final row has another id |
| CoursePages.FindProgress | app/courses/computer-science/page.tsx:155 | `find` yields nothing exactly when no row has the lesson id, else the first row with it |
| CoursePages.LookupsAgreeWithoutDuplicates | app/courses/maths/page.tsx:106-110 | with one row per lesson, the map lookup and `find` agree |
| CoursePages.NextLesson | app/courses/maths/page.tsx:107-110 | the first catalogue lesson with no row or an incomplete one; nothing exactly when every lesson is completed |
| CoursePages.SingleEnrollment | app/courses/maths/page.tsx:42-48 | an enrollment is found exactly when exactly one row is the caller's active enrollment in the course, and then it is that row |
| CoursePages.PageFor | app/courses/maths/page.tsx:83-164 | the completed count of the rows and its percentage of the lesson total; the strongest and weakest scored rows, absent exactly when no row has a score; the first pending catalogue lesson, absent exactly when all are completed; one lock flag per lesson, none locked for a premium enrollment, a free lesson never locked, and otherwise locked exactly when not free |
| CoursePages.OpenMathsPage | app/courses/maths/page.tsx:28-112 | signed out goes to the login page, not exactly one active maths enrollment goes home with an error, otherwise the page of the caller's maths rows |
| CoursePages.OpenComputerSciencePage | app/courses/computer-science/page.tsx:33-113 | the same under the slug 'computer-science', redirecting to "/", with the lesson count taken from the catalogue, so a non-empty catalogue always gives a percentage |
| LessonDashboard.CorrectCount | components/LessonDashboard.tsx:34 | at most one correct answer per attempt row |
| LessonDashboard.QuestionAccuracy | components/LessonDashboard.tsx:33-37 | 0 with nothing attempted, else the rounded percentage correct; always in 0..100 |
| LessonDashboard.QuestionAccuracyExtremes | components/LessonDashboard.tsx:33-37 | every attempt correct gives 100, none correct gives 0 |
| LessonDashboard.AverageAccuracy | components/LessonDashboard.tsx:39 | a stored non-zero score is shown; no score or a stored 0 falls through to the question accuracy |
| LessonDashboard.StoredZeroFallsThrough | components/LessonDashboard.tsx:39 | a stored score of 0 is shown as the question accuracy |
| LessonDashboard.FiguresOf | components/LessonDashboard.tsx:40-43 | without a progress row every figure is 0 or false; otherwise the row's figures, a missing confidence reading 0 |
| LessonDashboard.AccuracyColor | components/LessonDashboard.tsx:45-49 | green exactly from 80, yellow exactly from 60 below 80, red exactly below 60 |
| LessonDashboard.ConfidenceRank | components/LessonDashboard.tsx:51-57 | the band 0..4, 0 exactly below level 2, band r covering levels 2r to 2r+1 |
| LessonDashboard.ConfidenceEmoji | components/LessonDashboard.tsx:51-57 | the emoji of the level's band |
| LessonDashboard.ConfidenceMonotone | components/LessonDashboard.tsx:51-57 | a higher confidence level never shows a lower band |
| LessonContent.CourseFolder | app/api/lesson-content/route.ts:35-37 | "maths" exactly when the name contains "_maths_", "computerscience" otherwise |
| LessonContent.Segments | app/api/lesson-content/route.ts:39 | the path's segments: none empty, none ".", none containing '/' |
| LessonContent.DropEmpty | app/api/lesson-content/route.ts:39 | empty and "." segments vanish; a list without them is kept as is |
| LessonContent.Resolve | app/api/lesson-content/route.ts:39 | plain segments are appended to the directory |
| LessonContent.Get | app/api/lesson-content/route.ts:20-46 | 400 without a file name, 400 when it lacks "_lesson.md", else the content read from the joined path, or 404 when there is no such file |
| LessonContent.PlainNameStaysInInstructions | app/api/lesson-content/route.ts:35-39 | a plain file name is read from its course's instructions directory |
| LessonContent.TraversalSegments | app/api/lesson-content/route.ts:39 | "../../name" splits into two parent steps and the name |
| LessonContent.PrefixKeepsSuffix | app/api/lesson-content/route.ts:30 | putting "../../" in front keeps "_lesson.md" in the name |
| LessonContent.ClimbTwo | app/api/lesson-content/route.ts:39 | two parent steps climb out of the last two directories |
| LessonContent.TraversalIsAccepted | app/api/lesson-content/route.ts:30-46 | "../../" in front of a lesson name passes the only guard and reads the file from `public/data` itself, outside the instructions directory |
| Signup.HasUpper | app/signup/page.tsx:60 | true exactly when some character is an ASCII capital |
| Signup.HasLower | app/signup/page.tsx:63 | true exactly when some character is an ASCII small letter |
| Signup.HasDigit | app/signup/page.tsx:66 | true exactly when some character is an ASCII digit |
| Signup.ValidatePassword | app/signup/page.tsx:56-70 | no message exactly when the password has at least 8 UTF-16 units, a capital, a small letter and a digit; otherwise one of the four rule messages |
| Signup.MessageIsFirstBrokenRule | app/signup/page.tsx:56-70 | the message is a rule's exactly when that rule is broken and every rule checked before it holds |
| Signup.AcceptedOrFirstBroken | app/signup/page.tsx:56-70 | a password is accepted exactly when it satisfies all four rules |
| Signup.FilterUsername | app/signup/page.tsx:204 | the result holds only `[a-zA-Z0-9_]` characters, is no longer than the input, and is the input itself when that was already clean |
| Signup.FilterUsernameCounts | app/signup/page.tsx:204 | every kept character occurs as often as in the input, every other character not at all |
| Signup.FilterUsernameAppend | app/signup/page.tsx:204 | filtering a concatenation is concatenating the filtered parts, so order is kept |
| Signup.FilterUsernameIdempotent | app/signup/page.tsx:204 | filtering twice is filtering once |
| Signup.LowerKeepsUsername | app/signup/page.tsx:103 | lower-casing a clean username leaves it clean |
| Signup.StoredUsernameIsLowercase | app/signup/page.tsx:103-104 | the stored username has no capital, and equals the display name exactly when that had none |
| Signup.FailureMessage | app/signup/page.tsx:119 | never empty; the service's own message when it has one |
| Signup.Form.constructor | app/signup/page.tsx:41-51 | every field empty or false, the username clean |
| Signup.Form.SetUsername | app/signup/page.tsx:204 | the username becomes the filtered text; nothing else changes |
| Signup.Form.SetCredentials | app/signup/page.tsx:187 | e-mail, password and confirmation take the typed text; nothing else changes |
| Signup.Form.HandleEmailSignup | app/signup/page.tsx:75-123 | an account is requested exactly when the passwords match and are strong; a mismatch is reported first, then the first broken rule; the request carries the lower-cased username and the typed display name; success exactly when requested and the service reports no error, its error otherwise; loading ends false |
| Signup.MismatchBeforeStrength | app/signup/page.tsx:81-94 | differing weak passwords report the mismatch and request nothing |
| ResetPassword.ValidatePassword | app/reset-password/page.tsx:69-83 | this page's own copy of the strength rules gives the same answer as the sign-up page's for every password |
| ResetPassword.FailureMessage | app/reset-password/page.tsx:122 | never empty; the service's own message when it has one |
| ResetPassword.Page.constructor | app/reset-password/page.tsx:37-47 | fields empty, no valid token, the session lookup still running |
| ResetPassword.Page.CurrentView | app/reset-password/page.tsx:128-178 | the form is shown exactly when the session lookup has finished with a valid recovery session; the spinner exactly while checking |
| ResetPassword.Page.ShowsBackLink | app/reset-password/page.tsx:289 | the link is shown only for a valid recovery session |
| ResetPassword.Page.CheckSession | app/reset-password/page.tsx:52-61 | the token is valid exactly when there is a session and the lookup ends; without one the invalid-link message and view |
| ResetPassword.Page.SetPasswords | app/reset-password/page.tsx:192 | the two password fields take the typed text; nothing else changes |
| ResetPassword.Page.HandleResetPassword | app/reset-password/page.tsx:88-126 | the new password is sent exactly when the two match and are strong; a mismatch is reported first, then the first broken rule; success only when sent and the service reports no error, its error otherwise; loading ends false |
| ResetPassword.OpenWithoutSession | app/reset-password/page.tsx:52-61 | a page opened without a recovery session shows the invalid-link view and message |
| CourseModalData.EmojiFor | scripts/generate-course-modal-data.js:105 | the table's emoji for a listed name, the pin exactly for an unlisted one |
| CourseModalData.ColorFor | scripts/generate-course-modal-data.js:109 | the table's colour for a listed name; gray exactly for an unlisted name or "Revision" |
| CourseModalData.TablesAgree | scripts/generate-course-modal-data.js:17-70 | the emoji and colour tables name the same categories |
| CourseModalData.TableText | scripts/generate-course-modal-data.js:79-85 | a match runs from the first header to the first blank line after it, both included; no match only when no header is followed by a blank line |
| CourseModalData.DataLines | scripts/generate-course-modal-data.js:86 | keeps only non-blank lines without "---", never more lines than given |
| CourseModalData.DataLinesOfOne | scripts/generate-course-modal-data.js:86 | one line is kept exactly when it is a data line |
| CourseModalData.DataLinesAppend | scripts/generate-course-modal-data.js:86 | the filter works line by line: filtering a concatenation concatenates the results |
| CourseModalData.NonEmptyTrimmed | scripts/generate-course-modal-data.js:94 | trimmed non-empty pieces only, never more than given |
| CourseModalData.Cells | scripts/generate-course-modal-data.js:94 | a row's cells are non-empty and trimmed |
| CourseModalData.CountOf | scripts/generate-course-modal-data.js:98-99 | the cell's leading integer, or 0 when it has none |
| CourseModalData.TrimKeepsNoDoubleStar | scripts/generate-course-modal-data.js:97 | trimming text without "**" leaves it without "**" |
| CourseModalData.SliceKeepsNoDoubleStar | scripts/generate-course-modal-data.js:97 | a slice of text without "**" has none either |
| CourseModalData.RowCategoryShape | scripts/generate-course-modal-data.js:90-112 | a blank row or one with fewer than four cells yields nothing, and any other row with a non-empty name and a positive lesson count yields a category; a category has a non-empty name without "**", a positive lesson count, the cells' counts and topics, and the looked-up emoji and colour |
| CourseModalData.Collect | scripts/generate-course-modal-data.js:103 | never more categories than rows |
| CourseModalData.CollectAppend | scripts/generate-course-modal-data.js:89-113 | collecting two runs of rows is collecting each in turn |
| CourseModalData.CollectStep | scripts/generate-course-modal-data.js:102-111 | one more row adds its category, if any, at the end |
| CourseModalData.CollectedWereFound | scripts/generate-course-modal-data.js:103 | a category is collected exactly when some row produced it |
| CourseModalData.RowCategories | scripts/generate-course-modal-data.js:89-90 | one result per row |
| CourseModalData.CollectMappedStep | scripts/generate-course-modal-data.js:102-111 | reading the next table line pushes its category, if any, after those of the lines before it |
| CourseModalData.CollectMappedAll | scripts/generate-course-modal-data.js:89-113 | once every line after the header is read, all their categories are collected |
| CourseModalData.ParseTable | scripts/generate-course-modal-data.js:75-116 | no table, or a table with no data line after its header row, gives no categories; otherwise a category is in the output exactly when some data line after the header row yields it, and there are fewer categories than data lines |
| CourseModalData.InMappedTail | scripts/generate-course-modal-data.js:89-90 | an entry is among those read from the lines after the header exactly when some such line reads as it |
| CourseModalData.NoHeaderNoCategories | scripts/generate-course-modal-data.js:79-83 | a summary without the header yields no categories |
| CourseModalData.ParsedCategoriesAreWellFormed | scripts/generate-course-modal-data.js:96-111 | every category produced has a name without "**", a positive lesson count, and the emoji and colour its name looks up |
| CourseModalData.ParseRow | scripts/generate-course-modal-data.js:90-112 | the loop body yields exactly the category that RowCategoryShape describes for the row |
| CourseModalData.ParseContentBreakdownTable | scripts/generate-course-modal-data.js:75-116 | the method returns the whole parse |
| CourseModalData.ReadRows | scripts/generate-course-modal-data.js:89-113 | the loop pushes exactly the categories of the rows after the header, in order |

## Left out

- Rendering: JSX, styling, navigation, timers and redirects (`setTimeout` before `router.push`) have no logic worth modelling.
- Supabase query builders and network errors: tables are sequences in one `Database` object, and each failing call is an outcome parameter: a boolean, or, for the prediction route's per-enrollment session queries, the set of enrollments whose query fails. Error codes other than "no row found" (PGRST116) are a single failure.
- Concurrency: `Promise.all` in the prediction route and interleaved requests are sequential loops here. Last-writer-wins races on `lesson_progress` are not modelled.
- Floating point: accuracies are exact rationals. A JavaScript result that differs from the exact value at a .5 boundary is not modelled.
- Randomness: the `Math.random` sort comparator is an arbitrary permutation of the pool, passed in. Its distribution is not modelled.
- Time: `Date.now`, ISO strings and local-time `setHours` become integer milliseconds and integer day numbers passed as parameters.
- File system: the lesson-content read is a lookup in a map from normalised paths to contents. The working directory is a segment list. The generator script's reads and writes of summary and JSON files are not modelled.
- `extractTierDescriptions` and the markdown-to-HTML rendering rely on backtracking regular expressions and are not part of this model.
- app/api/weak-questions/route.ts is not part of this model: it projects ids from a database view whose definition is not in the repository. For the same reason, the `lesson_accuracy_stats` view that update-progress reads is a parameter.
- Database column defaults and triggers are not modelled: every inserted row is written out field by field.
- Enrollment services, OAuth sign-in, login and the auth callback are thin wrappers around the authentication service.
- The enrollment's `enrolled_at` and the profile's `subscription_tier` are not modelled. The course pages take the premium flag as a boolean.
- CoursePages.CompletionPercent: with no lessons JavaScript gives NaN when nothing is completed and Infinity otherwise. The model returns None for both and does not tell them apart; the page passes either value on to its progress component unchanged.
- The dashboard's discarded `sort` results and the course summaries it never shows are not modelled.
- A failed progress query on the dashboard and course pages is read as an empty result, as the pages do.
- Update errors in the prediction route are ignored by the source and are not modelled as outcomes.
- A category named after an inherited object property, such as `constructor`, would read that property in JavaScript. The model gives such a name the pin and gray defaults.
- `toLowerCase` is modelled for ASCII letters only. Other characters are left unchanged.
- The HTML `minLength`/`maxLength` attributes of the form fields are not modelled: the browser enforces them, not the code.
- PracticeSession.Client.HandleSubmitAnswer: requires the current index to be inside the question list. The component renders the question card that calls it only when there are questions, and PracticeSession.Client.HandleNext keeps the index below their count.
- StudyStreak.Get: requires the query result to be newest first and to hold exactly the caller's study days. The database query promises both, and the model does not re-derive them from the store.
- GradePredictionsRoute.PredictionFor: states only the course slug and the grade range. The full record is stated by GradePredictionsRoute.PredictOne and GradePredictionsRoute.PredictAndStore.
- SubmitAnswer.Post: a field of the request is either absent or present with its own type. A JSON `null` user answer passes the source's `=== undefined` test and then throws at `toString()`, giving 500 "Internal server error"; the model answers 400 instead. A numeric correct answer `0` is falsy and so reported missing in the source, while the model only sees strings.
- LessonContent.Get: the disk is a map from normalised paths to contents. A name ending in "/" resolves here to the file without the slash, while Node's read of a regular file under a trailing slash fails (ENOTDIR) and the route answers 404.
- Dashboard.SummarizeAll: takes the per-enrollment computation as a function parameter. Dashboard.LoadDashboard instantiates it with the page's own summary.
- GradePredictionsRoute.PredictAndStore: takes the per-enrollment prediction as a function parameter. GradePredictionsRoute.PredictOne models the loop body that it is given.
