# Quiz attempts, grading and certification — a Dafny model

This project models the core of a micro-certification platform. A user
takes a timed multiple-choice quiz in the browser. The server grades the
submitted answers against its stored answer key and stores a Result. A
certificate is issued only for a passed Result that belongs to the caller.

The model follows the program's files, one module each:

- `Quizzes` (quizzes.dfy): the quiz routes. It covers the summary listing,
  the sanitized fetch without correct answers, and the answer-key view.
- `Grading` (grading.dfy): `POST /results/submit`, with its grading loop,
  score, pass flag and the Result it appends. It also covers the two read
  routes `GET /results/user` and `GET /results/:id`.
- `Certificates` (certificates.dfy): the 404/400/500 gate of
  `GET /certificates/generate/:resultId`, the download file name, the score
  line and the certificate id line.
- `QuizTaking` (session.dfy): the quiz-taking page's controller as a class
  `QuizSession`. The answer buffer is an `array<int>` with `-1` meaning "no
  selection". The class also holds the question cursor, the countdown and
  the `isSubmitting` gate. React effects become explicit steps: `Load`,
  `Tick`, `Select`, `Next`, `Previous`, `Submit`, `SubmitFailed`. A step
  after which the timer effect would find the countdown at zero also starts
  the submission and returns its payload. That reproduces the forced
  submission at timeout and the automatic retry after a failure at zero.
- `Dashboard` (dashboard.dfy): the statistics of the dashboard page.
- `QuizResult` (result_page.dfy): the result page. It covers the time-spent
  text, the displayed passing score with its `|| 70` fallback, and the
  download handler with its busy flag as a class `ResultView`.
- `Lifecycle` (lifecycle.dfy): links the page's payload to the server's
  request body.
- `Common` (common.dfy): `Option`, the `Reply` of a route (body, 404, 400,
  500), exact `Math.round` of a quotient, and decimal rendering and parsing.

Stores are values. Quizzes and results are sequences, and a primary-key
lookup is the first entry with that id. The caller's identity, the new
row's id and the clock are parameters. Numbers are unbounded integers.
`Math.round(x)` on an exact quotient `num/den` is computed as
`(2*num + den) div (2*den)`, which rounds ties up as `Math.round` does.

Behaviour one might expect that the code does not have, and what the model does:

- Selecting an option has no range check.
- A zero-question quiz is not rejected. The code divides by zero when
  grading and crashes when rendering, so a non-empty quiz is a precondition.
- After a failed submission with the clock at zero, the page retries at once.
- The rounding is that of `Math.round`.

## Model

| member | source | states |
|---|---|---|
| `Common.RoundHalfUp` | backend/routes/results.js:28 | the result is the integer within half a unit of num/den, ties upward |
| `Common.RoundHalfUpUnique` | backend/routes/results.js:28 | only one integer is within half a unit, so the rounding is determined |
| `Common.RoundHalfUpMonotone` | frontend/src/components/Dashboard/Dashboard.jsx:35-38 | rounding never decreases as the numerator grows |
| `Common.NatToString` | backend/routes/certificates.js:182 | a number renders as a non-empty digit string without leading zeros |
| `Common.ParseNatToString` | backend/routes/certificates.js:188 | reading the rendered digits back gives the number |
| `Common.SplitAtSeparator` | backend/routes/certificates.js:182 | digits followed by a separator split in only one way |
| `Quizzes.FindQuiz` | backend/routes/quizzes.js:25-29 | a found quiz is stored with that id; nothing is found exactly when no stored quiz has the id |
| `Quizzes.StripAnswers` | backend/routes/quizzes.js:32-35 | same length and order as the questions; each keeps its text and options |
| `Quizzes.KeyOf` | backend/routes/quizzes.js:61 | entry i is question i's correct answer, one per question |
| `Quizzes.Sanitize` | backend/routes/quizzes.js:37-44 | the payload keeps id, title, description and timestamps, and each question's text and options in order; it has no field for passing score, duration or correct answers |
| `Quizzes.MergeStripKey` | backend/routes/quizzes.js:32-35 | the sanitized questions and the key together give back the stored questions |
| `Quizzes.SanitizeHidesKey` | backend/routes/quizzes.js:32-44 | quizzes that differ only in key, passing score or duration are served identically, so the payload reveals no correct answer |
| `Quizzes.SanitizeKeepsRest` | backend/routes/quizzes.js:37-44 | equal payloads mean equal id, title, description, timestamps, question texts and options |
| `Quizzes.AnswerKey` | backend/routes/quizzes.js:63-69 | the quiz's id, title and passing score; totalQuestions equals the number of questions and of key entries; entry i is question i's correct answer |
| `Quizzes.Summarize` | backend/routes/quizzes.js:10-14 | every quiz attribute except the questions, unchanged |
| `Quizzes.SummaryIgnoresQuestions` | backend/routes/quizzes.js:10-14 | the summary does not depend on the questions |
| `Quizzes.ListQuizzes` | backend/routes/quizzes.js:8-15 | one summary per stored quiz, in store order |
| `Quizzes.GetQuiz` | backend/routes/quizzes.js:23-44 | 404 exactly when no quiz has the id; otherwise the sanitized form of a stored quiz with that id |
| `Quizzes.GetAnswers` | backend/routes/quizzes.js:52-69 | 404 exactly when no quiz has the id; otherwise the key view of a stored quiz with that id |
| `Quizzes.GetQuizAndAnswersAgree` | backend/routes/quizzes.js:23-69 | both routes succeed together, and what they serve merges back into the stored questions |
| `Grading.CountCorrect` | backend/routes/results.js:21-26 | the count of correct answers lies in 0..N |
| `Grading.CountCorrectIsMatchCount` | backend/routes/results.js:22-25 | the count is the number of positions i < N whose answer strictly equals question i's correct answer |
| `Grading.ExtraSlotsIgnored` | backend/routes/results.js:22 | answer slots beyond N never change the count |
| `Grading.MissingSlotsWrong` | backend/routes/results.js:23 | a short answer list grades as if the missing slots were wrong |
| `Grading.NoSelectionCountsZero` | backend/routes/results.js:23 | with valid keys, a buffer of -1 sentinels or non-numbers counts nothing |
| `Grading.CountCorrectMonotone` | backend/routes/results.js:22-25 | matching wherever another answer list matches never lowers the count |
| `Grading.AllCorrectCountsAll` | backend/routes/results.js:22-25 | answering every question with its key counts all N |
| `Grading.CountCorrectAnswers` | backend/routes/results.js:21-26 | the grading loop computes exactly the count |
| `Grading.Score` | backend/routes/results.js:28 | score is 100*correct/N rounded half-up, in 0..100 |
| `Grading.ScoreExtremes` | backend/routes/results.js:28 | all correct scores 100, none correct scores 0 |
| `Grading.ScoreMonotone` | backend/routes/results.js:28-29 | more correct answers never lower the score nor turn a pass into a fail |
| `Grading.Graded` | backend/routes/results.js:32-41 | the Result has the caller, the received quizId, answers and timeSpent, totalQuestions N, the count, the rounded score, and passed iff score >= passingScore |
| `Grading.GradedIgnoresClaims` | backend/routes/results.js:12 | a client-sent score or pass flag has no effect on the Result |
| `Grading.ViewOf` | backend/routes/results.js:51-66 | the reply carries the stored id, score, counts, pass flag, time spent, creation date, and the quiz's id, title and passing score |
| `Grading.Submit` | backend/routes/results.js:10-66 | an unknown quiz gives 404 and stores nothing; otherwise exactly the graded Result is appended and its view returned |
| `Grading.Owned` | backend/routes/results.js:76-77 | exactly the caller's results, each as often as stored |
| `Grading.InsertNewestFirst` | backend/routes/results.js:79 | inserting keeps newest-first order and adds exactly the element |
| `Grading.SortNewestFirst` | backend/routes/results.js:79 | the order is by createdAt descending, and a permutation of the input |
| `Grading.UserResults` | backend/routes/results.js:76-82 | only and all of the caller's results, newest first |
| `Grading.FindOwned` | backend/routes/results.js:92-98 | a found result has both the id and the owner; nothing is found exactly when no stored result has both |
| `Grading.GetResult` | backend/routes/results.js:90-102 | the result only when id and owner match; 404 otherwise |
| `Grading.FindOwnedAppended` | backend/routes/results.js:32-41 | a result appended under a fresh id is found by its owner |
| `Certificates.Filename` | backend/routes/certificates.js:60 | `Certificate_<username>_<quizTitle>.pdf`, piece by piece |
| `Certificates.CountPart` | backend/routes/certificates.js:182 | ` (`, the correct count's digits, `/`, the total's digits, ` correct)` |
| `Certificates.ScoreLine` | backend/routes/certificates.js:182 | the score's digits, `%`, then the count part |
| `Certificates.TotalPartInjective` | backend/routes/certificates.js:182 | the `<total> correct)` tail determines the total |
| `Certificates.CountPartInjective` | backend/routes/certificates.js:182 | the `(<correct>/<total> correct)` part determines both counts |
| `Certificates.ScoreLineInjective` | backend/routes/certificates.js:182 | `<score>% (<correct>/<total> correct)` determines score, correct and total |
| `Certificates.IdLine` | backend/routes/certificates.js:188 | `Certificate ID: ` followed by the id's digits |
| `Certificates.IdLineInjective` | backend/routes/certificates.js:188 | `Certificate ID: <id>` determines the id |
| `Certificates.CertificateOf` | backend/routes/certificates.js:175-188 | file name, recipient (the caller's username), quiz title, score line and id line of the result |
| `Certificates.Generate` | backend/routes/certificates.js:11-66 | 404 exactly when no result has the id and the caller as owner; then 400 exactly when it did not pass; 500 exactly when it passed but its quiz is gone or the file name is not a valid header value; a document, with a header-safe file name, only for a found, owned, passed result |
| `Certificates.NonLatinTitleFails` | backend/routes/certificates.js:60-65 | a passed, owned result on a quiz titled `Quiz 日` gets 500, since setHeader rejects the file name |
| `Certificates.OnlyPassedOwnedCertified` | backend/routes/certificates.js:24-33 | a produced document implies a stored, owned, passed result with that id |
| `Certificates.CertificateAfterSubmit` | backend/routes/certificates.js:24-30 | after grading, the owner's request is refused with 400 iff the score is below the passing score; otherwise it succeeds iff the file name is a valid header value |
| `Certificates.WorkedExamples` | backend/routes/results.js:21-29 | key [0,1,2,3,4], passing 70: answers [0,1,2,3,9] give 4, 80, pass; [1,1,1,1,1] give 1, 20, fail and a 400 certificate refusal |
| `QuizTaking.QuizSession.constructor` | frontend/src/components/Quiz/QuizTaking.jsx:9-14 | no quiz, cursor 0, empty buffer, clock 0, not submitting, loading |
| `QuizTaking.QuizSession.TimeSpent` | frontend/src/components/Quiz/QuizTaking.jsx:68 | time spent is duration*60 - timeLeft, in 0..duration*60, and the full duration at zero |
| `QuizTaking.QuizSession.AnsweredQuestions` | frontend/src/components/Quiz/QuizTaking.jsx:112 | the answered count is at most the question count |
| `QuizTaking.QuizSession.Load` | frontend/src/components/Quiz/QuizTaking.jsx:29-35 | one -1 slot per question, timeLeft = duration*60; a zero duration submits at once |
| `QuizTaking.QuizSession.LoadFailed` | frontend/src/components/Quiz/QuizTaking.jsx:36-41 | loading ends and nothing else changes |
| `QuizTaking.QuizSession.Select` | frontend/src/components/Quiz/QuizTaking.jsx:44-48 | only slot currentQuestion is overwritten; length and other slots unchanged |
| `QuizTaking.QuizSession.Next` | frontend/src/components/Quiz/QuizTaking.jsx:50-54 | moves forward only below n-1; the cursor stays in 0..n-1 |
| `QuizTaking.QuizSession.Previous` | frontend/src/components/Quiz/QuizTaking.jsx:56-60 | moves back only above 0; the cursor stays in 0..n-1 |
| `QuizTaking.QuizSession.Submit` | frontend/src/components/Quiz/QuizTaking.jsx:62-73 | a no-op without a quiz or while submitting; otherwise closes the gate and sends the buffer and time spent |
| `QuizTaking.QuizSession.Tick` | frontend/src/components/Quiz/QuizTaking.jsx:20-27 | decrements by exactly 1 only while time is left and nothing is in flight; reaching 0 forces a submission with the full duration |
| `QuizTaking.QuizSession.SubmitFailed` | frontend/src/components/Quiz/QuizTaking.jsx:76-79 | the gate opens and the buffer is kept; at timeLeft 0 the submission is retried at once |
| `QuizTaking.CountAnswered` | frontend/src/components/Quiz/QuizTaking.jsx:112 | the non-sentinel count is at most the buffer length |
| `QuizTaking.FreshBufferUnanswered` | frontend/src/components/Quiz/QuizTaking.jsx:34 | a freshly loaded buffer has nothing answered |
| `QuizTaking.SelectCount` | frontend/src/components/Quiz/QuizTaking.jsx:44-48 | selecting on an unanswered slot raises the count by one, otherwise leaves it |
| `QuizTaking.Pad2` | frontend/src/components/Quiz/QuizTaking.jsx:85 | two digits that read back as the number |
| `QuizTaking.FormatClock` | frontend/src/components/Quiz/QuizTaking.jsx:82-86 | whole minutes, `:`, then two digits reading back as the seconds below 60 |
| `QuizTaking.FormatClockInjective` | frontend/src/components/Quiz/QuizTaking.jsx:82-86 | the `m:ss` text determines the remaining seconds |
| `QuizTaking.RunOutTheClock` | frontend/src/components/Quiz/QuizTaking.jsx:20-27 | left alone, a session triggers exactly one submission, with the untouched buffer and the full duration |
| `QuizTaking.SubmitTwiceThenRetry` | frontend/src/components/Quiz/QuizTaking.jsx:62-79 | a second call of the submit handler while in flight sends nothing; after a failure the same buffer is sent again |
| `Dashboard.PassedResults` | frontend/src/components/Dashboard/Dashboard.jsx:32 | exactly the passed results, each as often as given, never more than all |
| `Dashboard.SumScores` | frontend/src/components/Dashboard/Dashboard.jsx:36 | 0 for no results and the score itself for one |
| `Dashboard.SumScoresAppend` | frontend/src/components/Dashboard/Dashboard.jsx:36 | the sum of a concatenation is the sum of the sums, so every score is added once |
| `Dashboard.SumScoresBounds` | frontend/src/components/Dashboard/Dashboard.jsx:36 | scores in lo..hi add up to between lo*n and hi*n |
| `Dashboard.AverageScore` | frontend/src/components/Dashboard/Dashboard.jsx:33-39 | 0 when empty, otherwise the sum divided by the count, rounded half-up; one division of integers, so the value is exact |
| `Dashboard.AverageWithinBounds` | frontend/src/components/Dashboard/Dashboard.jsx:35-38 | the average lies between the least and greatest score |
| `Dashboard.RecentResults` | frontend/src/components/Dashboard/Dashboard.jsx:48 | the first min(5, len) results in their order |
| `Dashboard.RecentAreNewest` | frontend/src/components/Dashboard/Dashboard.jsx:48 | on a newest-first list, no omitted result is newer than a kept one |
| `Dashboard.ComputeStats` | frontend/src/components/Dashboard/Dashboard.jsx:41-46 | total quizzes and attempts are the list lengths, passed is the number of passed results and never exceeds attempts, the average is the rounded mean score, all zero when empty |
| `Dashboard.StatsAverageIsPercentage` | frontend/src/components/Dashboard/Dashboard.jsx:33-39 | over graded results the average is in 0..100 |
| `QuizResult.ShownPassingScore` | frontend/src/components/Quiz/QuizResult.jsx:166 | undefined or 0 shows 70, anything else shows itself |
| `QuizResult.JoinAsWritten` | backend/routes/results.js:97 | title and description from the quiz, no passing score |
| `QuizResult.JoinWithPassingScore` | backend/routes/results.js:97 | title, description and the quiz's passing score |
| `QuizResult.AsWrittenShowsSeventy` | backend/routes/results.js:97 | with the join as written, the page always shows 70 |
| `QuizResult.AsWrittenContradictsVerdict` | frontend/src/components/Quiz/QuizResult.jsx:102 | a result scoring 75 on a quiz passed at 80 fails, yet is told 70% is needed |
| `QuizResult.JoinWithPassingScoreAgrees` | frontend/src/components/Quiz/QuizResult.jsx:102 | with the score joined, a nonzero threshold shows as itself, and a failed score is always below what is shown |
| `QuizResult.FetchResultPage` | backend/routes/results.js:90-104 | 404 as GetResult; a page carries an owned result and its quiz's passing score |
| `QuizResult.FetchResultPageAsWritten` | backend/routes/results.js:97 | with the join as written every page shows 70 |
| `QuizResult.SplitDuration` | frontend/src/components/Quiz/QuizResult.jsx:54-58 | for s >= 0, m*60 + r == s with 0 <= r < 60; both are non-positive for negative s |
| `QuizResult.FormatDuration` | frontend/src/components/Quiz/QuizResult.jsx:54-58 | the minutes, `m `, the JavaScript remainder, `s` |
| `QuizResult.FormatDurationInjective` | frontend/src/components/Quiz/QuizResult.jsx:54-58 | the `<m>m <r>s` text determines the seconds |
| `QuizResult.ResultView.constructor` | frontend/src/components/Quiz/QuizResult.jsx:9-11 | the fetched result, no download running |
| `QuizResult.ResultView.BeginDownload` | frontend/src/components/Quiz/QuizResult.jsx:29-36 | nothing happens unless a passed result is loaded; otherwise the flag goes up and its certificate is requested |
| `QuizResult.ResultView.FinishDownload` | frontend/src/components/Quiz/QuizResult.jsx:42-50 | the flag goes down whether the request succeeded or failed; success saves `Certificate_<title>.pdf` |
| `QuizResult.PressDownload` | frontend/src/components/Quiz/QuizResult.jsx:128-137 | the button, shown only for passed results, always issues the request and leaves the flag down |
| `QuizResult.PressDownloadNotPassed` | frontend/src/components/Quiz/QuizResult.jsx:30 | without a passed result no request is made |
| `Lifecycle.ToBody` | frontend/src/components/Quiz/QuizTaking.jsx:69-73 | the posted body carries the quiz id, the numeric buffer and time spent, and no client score |
| `Lifecycle.UntouchedTimeoutGradesZero` | frontend/src/components/Quiz/QuizTaking.jsx:24-27 | an untouched session forced out at timeout grades 0 correct, score 0, full duration, failing any positive threshold |

## Findings

| source | as written | input that shows it | evidently intended | confidence | as-written member | corrected member |
|---|---|---|---|---|---|---|
| backend/routes/results.js:97 | `GET /results/:id` joins only the quiz's title, description and questions, so `result.Quiz.passingScore \|\| 70` on the result page is always 70 | a quiz with passing score 80 and four questions, three answered correctly: score 75, not passed, yet the page says "You need 70% to pass" | select `passingScore` in the join so the page shows the quiz's own threshold | high; not executed | `QuizResult.AsWrittenContradictsVerdict` | `QuizResult.JoinWithPassingScoreAgrees` |

`QuizResult.FetchResultPage` uses the corrected join. `QuizResult.FetchResultPageAsWritten` keeps the join as written.

## Left out

- QuizResult.JoinAsWritten: the include at backend/routes/results.js:97 also selects the quiz's `questions`, so `GET /results/:id` sends every stored correct answer to the result page. The page's attributes leave that field out. Since a quiz can be retaken, one blank attempt reveals the key for the next one.
- Quizzes.GetAnswers: the answer-key route checks only that the caller is logged in, so any user can read any quiz's key before grading. The model states what the route serves and does not model who may call it.
- QuizResult.FetchResultPage: a result whose quiz is gone stands as 500. The join is a left outer join, so the route replies 200 with a null quiz, and the page then throws when it reads the quiz's attributes.
- Express, Sequelize and auth: database calls become lookups over sequences, and the authenticated user is a parameter. The 500 reply on a database error is not modelled.
- Puppeteer rendering and the HTML/CSS template: only the data-bearing lines become strings (file name, recipient, title, score line, id line). The "Issued on" date line uses locale date formatting, which is left out.
- The joined display attributes of `GET /results/user` (quiz title and description) and the populated user and quiz of the submit reply are not modelled. The reply's quiz reference comes from the quiz that was found.
- React rendering, routing and effect scheduling: the timer is the explicit `Tick`. Navigation after a successful submission ends the session and is not modelled. The progress-bar percentage is display-only floating point and is left out.
- `QuizHistory.jsx` is not part of this model. Its `formatTime` is the same as the result page's, which `QuizResult.SplitDuration` covers.
- Score: computed exactly. `Math.round((c/N)*100)` on floating point can differ at exact halves whose quotient has no exact binary form.
- QuizTaking.QuizSession.Load: models the single fetch on mount. A change of the route's id would fetch again without resetting the cursor, and that case is not modelled.
- QuizTaking.QuizSession.Select: requires a loaded quiz. The handler is bound only once the question card renders.
- Submitted answers are modelled as a sequence of values. A body whose `answers` is missing or `null` makes the grading loop throw, and the route replies 500; that case is not modelled. Any other value is indexed without error and grades like the sequence of its entries at 0..N-1. A string or a number never matches, and an object such as `{"0": 0}` matches like the list `[0]`.
- Cross-file wiring mismatches are recorded here, not modelled:
  - The sanitized quiz payload has no `duration`, which the page multiplies by 60. The controller is modelled as if given a quiz with a duration.
  - The page reads `question.question`, but the server sends `questionText`.
- A zero-question quiz is a precondition of grading. The code divides 0 by 0 for it.
