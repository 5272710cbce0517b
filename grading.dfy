/** The results routes: POST /results/submit, which grades a submission
    against the stored answer key and appends a Result, and the two read
    routes over the result store. The result store is the sequence of
    stored results; the caller's identity is a parameter. */
module Grading {
  import opened Common
  import opened Quizzes

  type ResultId = nat
  type UserId = nat

  /** One slot of the submitted answers as the JSON body carries it: a
      number, or any other JSON value (null, a string, ...), which is never
      strictly equal to a stored correct answer. */
  datatype AnswerValue = Choice(index: int) | Other

  /** The request body. Only quizId, answers and timeSpent are read; a
      client may send more, as these two fields stand for. */
  datatype SubmitBody = SubmitBody(
    quizId: QuizId,
    answers: seq<AnswerValue>,
    timeSpent: int,
    clientScore: Option<int>,
    clientPassed: Option<bool>)

  /** A stored, graded attempt. */
  datatype Result = Result(
    id: ResultId,
    userId: UserId,
    quizId: QuizId,
    answers: seq<AnswerValue>,
    score: int,
    totalQuestions: nat,
    correctAnswers: nat,
    passed: bool,
    timeSpent: int,
    createdAt: int)

  datatype QuizRef = QuizRef(id: QuizId, title: string, passingScore: int)

  /** The body of the 201 reply of POST /results/submit. */
  datatype SubmitView = SubmitView(
    id: ResultId,
    score: int,
    correctAnswers: nat,
    totalQuestions: nat,
    passed: bool,
    timeSpent: int,
    date: int,
    quiz: QuizRef)

  /** Slot i of the answers is strictly equal to question i's correct
      answer; a slot past the end of the answers is undefined and never is. */
  predicate Matches(qs: seq<Question>, answers: seq<AnswerValue>, i: nat)
    requires i < |qs|
  {
    i < |answers| && answers[i] == Choice(qs[i].correctAnswer)
  }

  /** The number of matching positions among the questions. */
  function CountCorrect(qs: seq<Question>, answers: seq<AnswerValue>): (r: nat)
    ensures r <= |qs|
  {
    if |qs| == 0 then 0
    else CountCorrect(qs[..|qs| - 1], answers) + (if Matches(qs, answers, |qs| - 1) then 1 else 0)
  }

  /** The positions that count, as an independent reference. */
  function MatchSet(qs: seq<Question>, answers: seq<AnswerValue>): set<nat> {
    set i: nat | i < |qs| && Matches(qs, answers, i)
  }

  /** The count is exactly the number of positions i below the question
      count whose answer strictly equals question i's correct answer. */
  lemma {:induction false} CountCorrectIsMatchCount(qs: seq<Question>, answers: seq<AnswerValue>)
    ensures CountCorrect(qs, answers) == |MatchSet(qs, answers)|
  {
    if |qs| > 0 {
      var n := |qs| - 1;
      var init := qs[..n];
      CountCorrectIsMatchCount(init, answers);
      var s, s0 := MatchSet(qs, answers), MatchSet(init, answers);
      assert forall i: nat :: i < n ==> (Matches(qs, answers, i) <==> Matches(init, answers, i));
      if Matches(qs, answers, n) {
        assert s == s0 + {n};
      } else {
        assert s == s0;
      }
    }
  }

  /** Slots beyond the question count never count. */
  lemma {:induction false} ExtraSlotsIgnored(qs: seq<Question>, answers: seq<AnswerValue>, extra: seq<AnswerValue>)
    requires |answers| >= |qs|
    ensures CountCorrect(qs, answers + extra) == CountCorrect(qs, answers)
  {
    if |qs| > 0 {
      ExtraSlotsIgnored(qs[..|qs| - 1], answers, extra);
      assert (answers + extra)[|qs| - 1] == answers[|qs| - 1];
    }
  }

  /** Missing slots never count: a short answer list grades as its
      defined prefix of the questions. */
  lemma {:induction false} MissingSlotsWrong(qs: seq<Question>, answers: seq<AnswerValue>)
    requires |answers| <= |qs|
    ensures CountCorrect(qs, answers) == CountCorrect(qs[..|answers|], answers)
  {
    if |qs| > |answers| {
      var init := qs[..|qs| - 1];
      MissingSlotsWrong(init, answers);
      assert init[..|answers|] == qs[..|answers|];
    } else {
      assert qs[..|answers|] == qs;
    }
  }

  /** An unanswered slot (the -1 sentinel, or a non-number). */
  predicate Unanswered(a: AnswerValue) {
    a == Choice(-1) || a.Other?
  }

  /** A buffer with no selection scores zero on well-formed questions. */
  lemma {:induction false} NoSelectionCountsZero(qs: seq<Question>, answers: seq<AnswerValue>)
    requires forall i :: 0 <= i < |qs| ==> WellFormedQuestion(qs[i])
    requires forall i :: 0 <= i < |answers| ==> Unanswered(answers[i])
    ensures CountCorrect(qs, answers) == 0
  {
    if |qs| > 0 {
      NoSelectionCountsZero(qs[..|qs| - 1], answers);
    }
  }

  /** Answering correctly wherever a1 does (and maybe more) never lowers
      the count. */
  lemma {:induction false} CountCorrectMonotone(qs: seq<Question>, a1: seq<AnswerValue>, a2: seq<AnswerValue>)
    requires forall i :: 0 <= i < |qs| && Matches(qs, a1, i) ==> Matches(qs, a2, i)
    ensures CountCorrect(qs, a1) <= CountCorrect(qs, a2)
  {
    if |qs| > 0 {
      var init := qs[..|qs| - 1];
      forall i | 0 <= i < |init| && Matches(init, a1, i) ensures Matches(init, a2, i) {
        assert Matches(qs, a1, i);
      }
      CountCorrectMonotone(init, a1, a2);
    }
  }

  /** Answering every slot with its key gives the full count. */
  lemma {:induction false} AllCorrectCountsAll(qs: seq<Question>, answers: seq<AnswerValue>)
    requires |answers| == |qs|
    requires forall i :: 0 <= i < |qs| ==> answers[i] == Choice(qs[i].correctAnswer)
    ensures CountCorrect(qs, answers) == |qs|
  {
    if |qs| > 0 {
      var init := qs[..|qs| - 1];
      ExtraSlotsIgnored(init, answers[..|init|], answers[|init|..]);
      assert answers[..|init|] + answers[|init|..] == answers;
      AllCorrectCountsAll(init, answers[..|init|]);
    }
  }

  /** The grading loop of POST /results/submit: walks the questions and
      counts the positions whose answer strictly equals the correct one. */
  method CountCorrectAnswers(qs: seq<Question>, answers: seq<AnswerValue>) returns (correct: nat)
    ensures correct == CountCorrect(qs, answers)
  {
    correct := 0;
    var index := 0;
    while index < |qs|
      invariant 0 <= index <= |qs|
      invariant correct == CountCorrect(qs[..index], answers)
    {
      assert qs[..index + 1][..index] == qs[..index];
      if index < |answers| && answers[index] == Choice(qs[index].correctAnswer) {
        correct := correct + 1;
      }
      index := index + 1;
    }
    assert qs[..|qs|] == qs;
  }

  /** Math.round(correct / total * 100), taken exactly. */
  function Score(correct: nat, total: nat): (r: int)
    requires 0 < total && correct <= total
    ensures 0 <= r <= 100
    ensures 2 * total * r - total <= 200 * correct < 2 * total * r + total
  {
    RoundHalfUpMonotone(0, 100 * correct, total);
    RoundHalfUpMonotone(100 * correct, 100 * total, total);
    RoundHalfUpExact(0, total);
    RoundHalfUpExact(100, total);
    RoundHalfUp(100 * correct, total)
  }

  /** All correct scores 100 and none correct scores 0. */
  lemma ScoreExtremes(total: nat)
    requires 0 < total
    ensures Score(total, total) == 100 && Score(0, total) == 0
  {
    RoundHalfUpExact(100, total);
    RoundHalfUpExact(0, total);
  }

  /** More correct answers never lower the score, and never turn a pass
      into a fail. */
  lemma ScoreMonotone(c1: nat, c2: nat, total: nat, passingScore: int)
    requires 0 < total && c1 <= c2 <= total
    ensures Score(c1, total) <= Score(c2, total)
    ensures Score(c1, total) >= passingScore ==> Score(c2, total) >= passingScore
  {
    RoundHalfUpMonotone(100 * c1, 100 * c2, total);
  }

  /** The stored result for a submission against a found quiz. Every graded
      field comes from the quiz's answer key and the submitted answers. */
  function Graded(quiz: Quiz, userId: UserId, body: SubmitBody, id: ResultId, now: int): (r: Result)
    requires |quiz.questions| > 0
    ensures r.id == id && r.userId == userId && r.createdAt == now
    ensures r.quizId == body.quizId && r.answers == body.answers && r.timeSpent == body.timeSpent
    ensures r.totalQuestions == |quiz.questions|
    ensures r.correctAnswers == |MatchSet(quiz.questions, body.answers)| <= r.totalQuestions
    ensures 0 <= r.score <= 100
    ensures 2 * r.totalQuestions * r.score - r.totalQuestions <= 200 * r.correctAnswers
                < 2 * r.totalQuestions * r.score + r.totalQuestions
    ensures r.passed <==> r.score >= quiz.passingScore
  {
    CountCorrectIsMatchCount(quiz.questions, body.answers);
    var n := |quiz.questions|;
    var c := CountCorrect(quiz.questions, body.answers);
    var s := Score(c, n);
    Result(id, userId, body.quizId, body.answers, s, n, c, s >= quiz.passingScore, body.timeSpent, now)
  }

  /** What the client claims about its score has no effect on the result. */
  lemma GradedIgnoresClaims(quiz: Quiz, userId: UserId, b1: SubmitBody, b2: SubmitBody, id: ResultId, now: int)
    requires |quiz.questions| > 0
    requires b1.quizId == b2.quizId && b1.answers == b2.answers && b1.timeSpent == b2.timeSpent
    ensures Graded(quiz, userId, b1, id, now) == Graded(quiz, userId, b2, id, now)
  {
  }

  function ViewOf(r: Result, quiz: Quiz): (v: SubmitView)
    ensures v.id == r.id && v.score == r.score && v.passed == r.passed
    ensures v.correctAnswers == r.correctAnswers && v.totalQuestions == r.totalQuestions
    ensures v.timeSpent == r.timeSpent && v.date == r.createdAt
    ensures v.quiz.id == quiz.id && v.quiz.title == quiz.title && v.quiz.passingScore == quiz.passingScore
  {
    SubmitView(r.id, r.score, r.correctAnswers, r.totalQuestions, r.passed, r.timeSpent, r.createdAt,
               QuizRef(quiz.id, quiz.title, quiz.passingScore))
  }

  /** POST /results/submit. The store assigns newId and the clock gives now.
      An unknown quiz gives 404 and leaves the store as it was; otherwise
      exactly one graded Result is appended and its view returned. */
  method Submit(quizzes: seq<Quiz>, results: seq<Result>, userId: UserId, body: SubmitBody,
                newId: ResultId, now: int)
    returns (reply: Reply<SubmitView>, results': seq<Result>)
    requires FindQuiz(quizzes, body.quizId).Some? ==> |FindQuiz(quizzes, body.quizId).value.questions| > 0
    ensures reply.NotFound? || reply.Ok?
    ensures reply.NotFound? <==> forall q :: q in quizzes ==> q.id != body.quizId
    ensures reply.NotFound? ==> results' == results
    ensures reply.Ok? ==>
      var quiz := FindQuiz(quizzes, body.quizId).value;
      && results' == results + [Graded(quiz, userId, body, newId, now)]
      && reply.body == ViewOf(Graded(quiz, userId, body, newId, now), quiz)
  {
    var found := FindQuiz(quizzes, body.quizId);
    if found.None? {
      return NotFound, results;
    }
    var quiz := found.value;
    var correctAnswers := CountCorrectAnswers(quiz.questions, body.answers);
    var total := |quiz.questions|;
    var score := Score(correctAnswers, total);
    var passed := score >= quiz.passingScore;
    var result := Result(newId, userId, body.quizId, body.answers, score, total, correctAnswers,
                         passed, body.timeSpent, now);
    results' := results + [result];
    reply := Ok(ViewOf(result, quiz));
  }

  /** The stored results the user owns, in store order. */
  function Owned(store: seq<Result>, user: UserId): (r: seq<Result>)
    ensures forall x :: multiset(r)[x] == if x.userId == user then multiset(store)[x] else 0
  {
    if |store| == 0 then []
    else
      assert store == [store[0]] + store[1..];
      if store[0].userId == user then [store[0]] + Owned(store[1..], user) else Owned(store[1..], user)
  }

  predicate NewestFirst(s: seq<Result>) {
    forall i, j :: 0 <= i < j < |s| ==> s[i].createdAt >= s[j].createdAt
  }

  function InsertNewestFirst(x: Result, s: seq<Result>): (r: seq<Result>)
    requires NewestFirst(s)
    ensures NewestFirst(r)
    ensures multiset(r) == multiset(s) + multiset{x}
  {
    if |s| == 0 then [x]
    else if x.createdAt >= s[0].createdAt then [x] + s
    else
      assert s == [s[0]] + s[1..];
      var t := InsertNewestFirst(x, s[1..]);
      assert forall k :: 0 <= k < |t| ==> t[k] in multiset(s[1..]) + multiset{x};
      [s[0]] + t
  }

  /** ORDER BY createdAt DESC. */
  function SortNewestFirst(s: seq<Result>): (r: seq<Result>)
    ensures NewestFirst(r)
    ensures multiset(r) == multiset(s)
  {
    if |s| == 0 then []
    else
      assert s == [s[0]] + s[1..];
      InsertNewestFirst(s[0], SortNewestFirst(s[1..]))
  }

  /** GET /results/user: exactly the caller's results, each as often as
      stored, newest first. */
  function UserResults(store: seq<Result>, user: UserId): (r: seq<Result>)
    ensures NewestFirst(r)
    ensures forall x :: multiset(r)[x] == if x.userId == user then multiset(store)[x] else 0
    ensures forall x :: x in r <==> x in store && x.userId == user
  {
    SortNewestFirst(Owned(store, user))
  }

  /** The first stored result with the given id and owner. */
  function FindOwned(store: seq<Result>, id: ResultId, user: UserId): (r: Option<Result>)
    ensures r.Some? ==> r.value in store && r.value.id == id && r.value.userId == user
    ensures r.None? <==> forall x :: x in store ==> x.id != id || x.userId != user
  {
    if |store| == 0 then None
    else if store[0].id == id && store[0].userId == user then Some(store[0])
    else FindOwned(store[1..], id, user)
  }

  /** GET /results/:id: the result only when both id and owner match; 404
      otherwise. */
  function GetResult(store: seq<Result>, id: ResultId, user: UserId): (r: Reply<Result>)
    ensures r.NotFound? || r.Ok?
    ensures r.Ok? ==> r.body in store && r.body.id == id && r.body.userId == user
    ensures r.NotFound? <==> forall x :: x in store ==> x.id != id || x.userId != user
  {
    match FindOwned(store, id, user)
    case None => NotFound
    case Some(x) => Ok(x)
  }

  /** A result appended with a fresh id is what a later lookup by its owner
      finds. */
  lemma FindOwnedAppended(store: seq<Result>, r: Result)
    requires forall x :: x in store ==> x.id != r.id
    ensures FindOwned(store + [r], r.id, r.userId) == Some(r)
  {
    if |store| > 0 {
      assert (store + [r])[1..] == store[1..] + [r];
      FindOwnedAppended(store[1..], r);
    }
  }
}
