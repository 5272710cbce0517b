/** The quiz routes: the summary listing, the sanitized fetch that the
    quiz-taking page consumes, and the answer-key view. A quiz store is the
    sequence of stored quizzes; a lookup by primary key finds the quiz with
    that id. */
module Quizzes {
  import opened Common

  type QuizId = nat

  /** A stored question: its text, its options and the index of the
      correct option. */
  datatype Question = Question(questionText: string, options: seq<string>, correctAnswer: int)

  /** A stored quiz, the authoritative form that holds the answer key. */
  datatype Quiz = Quiz(
    id: QuizId,
    title: string,
    description: string,
    passingScore: int,
    duration: nat,
    questions: seq<Question>,
    createdAt: int,
    updatedAt: int)

  /** A question as served to the quiz-taking page: no correct answer. */
  datatype PublicQuestion = PublicQuestion(questionText: string, options: seq<string>)

  /** The payload of GET /quizzes/:id. */
  datatype SanitizedQuiz = SanitizedQuiz(
    id: QuizId,
    title: string,
    description: string,
    questions: seq<PublicQuestion>,
    createdAt: int,
    updatedAt: int)

  /** The payload of GET /quizzes/:id/answers. */
  datatype AnswerKeyView = AnswerKeyView(
    quizId: QuizId,
    title: string,
    passingScore: int,
    totalQuestions: nat,
    correctAnswers: seq<int>)

  /** One entry of GET /quizzes: every quiz attribute except the questions. */
  datatype QuizSummary = QuizSummary(
    id: QuizId,
    title: string,
    description: string,
    passingScore: int,
    duration: nat,
    createdAt: int,
    updatedAt: int)

  /** A question whose correct answer names one of its options. */
  predicate WellFormedQuestion(q: Question) {
    0 <= q.correctAnswer < |q.options|
  }

  /** The first stored quiz with the given primary key. */
  function FindQuiz(store: seq<Quiz>, id: QuizId): (r: Option<Quiz>)
    ensures r.Some? ==> r.value in store && r.value.id == id
    ensures r.None? <==> forall q :: q in store ==> q.id != id
  {
    if |store| == 0 then None
    else if store[0].id == id then Some(store[0])
    else FindQuiz(store[1..], id)
  }

  function StripAnswer(q: Question): PublicQuestion {
    PublicQuestion(q.questionText, q.options)
  }

  /** The question list without correct answers, position by position. */
  function StripAnswers(qs: seq<Question>): (r: seq<PublicQuestion>)
    ensures |r| == |qs|
    ensures forall i :: 0 <= i < |qs| ==>
      r[i].questionText == qs[i].questionText && r[i].options == qs[i].options
  {
    seq(|qs|, i requires 0 <= i < |qs| => StripAnswer(qs[i]))
  }

  /** The correct answers, position by position. */
  function KeyOf(qs: seq<Question>): (r: seq<int>)
    ensures |r| == |qs|
    ensures forall i :: 0 <= i < |qs| ==> r[i] == qs[i].correctAnswer
  {
    seq(|qs|, i requires 0 <= i < |qs| => qs[i].correctAnswer)
  }

  /** Puts a public question list and an answer key back together. */
  function Merge(pub: seq<PublicQuestion>, key: seq<int>): (r: seq<Question>)
    requires |pub| == |key|
    ensures |r| == |pub|
  {
    seq(|pub|, i requires 0 <= i < |pub| => Question(pub[i].questionText, pub[i].options, key[i]))
  }

  /** The sanitized view and the key view are complementary: together they
      give back exactly the stored questions. */
  lemma MergeStripKey(qs: seq<Question>)
    ensures Merge(StripAnswers(qs), KeyOf(qs)) == qs
  {
    var m := Merge(StripAnswers(qs), KeyOf(qs));
    forall i | 0 <= i < |qs| ensures m[i] == qs[i] {
      assert m[i] == Question(qs[i].questionText, qs[i].options, qs[i].correctAnswer);
    }
  }

  function Sanitize(quiz: Quiz): (r: SanitizedQuiz)
    ensures r.id == quiz.id && r.title == quiz.title && r.description == quiz.description
    ensures r.createdAt == quiz.createdAt && r.updatedAt == quiz.updatedAt
    ensures |r.questions| == |quiz.questions|
    ensures forall i :: 0 <= i < |quiz.questions| ==>
      r.questions[i].questionText == quiz.questions[i].questionText &&
      r.questions[i].options == quiz.questions[i].options
  {
    SanitizedQuiz(quiz.id, quiz.title, quiz.description, StripAnswers(quiz.questions),
                  quiz.createdAt, quiz.updatedAt)
  }

  /** Two quizzes that differ at most in their correct answers, passing
      score and duration. */
  predicate SameButKey(a: Quiz, b: Quiz) {
    && a.id == b.id && a.title == b.title && a.description == b.description
    && a.createdAt == b.createdAt && a.updatedAt == b.updatedAt
    && |a.questions| == |b.questions|
    && forall i :: 0 <= i < |a.questions| ==>
         a.questions[i].questionText == b.questions[i].questionText &&
         a.questions[i].options == b.questions[i].options
  }

  /** The sanitized payload reveals nothing of the answer key: quizzes that
      agree on everything else are served identically. */
  lemma SanitizeHidesKey(a: Quiz, b: Quiz)
    requires SameButKey(a, b)
    ensures Sanitize(a) == Sanitize(b)
  {
    var sa, sb := StripAnswers(a.questions), StripAnswers(b.questions);
    forall i | 0 <= i < |sa| ensures sa[i] == sb[i] {
      assert sa[i] == StripAnswer(a.questions[i]);
      assert sb[i] == StripAnswer(b.questions[i]);
    }
  }

  /** Conversely, the sanitized payload loses nothing but the answer key. */
  lemma SanitizeKeepsRest(a: Quiz, b: Quiz)
    requires Sanitize(a) == Sanitize(b)
    ensures SameButKey(a, b)
  {
    var sa, sb := StripAnswers(a.questions), StripAnswers(b.questions);
    assert |a.questions| == |sa| == |sb| == |b.questions|;
    forall i | 0 <= i < |a.questions|
      ensures a.questions[i].questionText == b.questions[i].questionText
      ensures a.questions[i].options == b.questions[i].options
    {
      assert sa[i] == sb[i];
    }
  }

  function AnswerKey(quiz: Quiz): (r: AnswerKeyView)
    ensures r.quizId == quiz.id && r.title == quiz.title && r.passingScore == quiz.passingScore
    ensures r.totalQuestions == |r.correctAnswers| == |quiz.questions|
    ensures forall i :: 0 <= i < |quiz.questions| ==> r.correctAnswers[i] == quiz.questions[i].correctAnswer
  {
    AnswerKeyView(quiz.id, quiz.title, quiz.passingScore, |quiz.questions|, KeyOf(quiz.questions))
  }

  function Summarize(quiz: Quiz): (r: QuizSummary)
    ensures r.id == quiz.id && r.title == quiz.title && r.description == quiz.description
    ensures r.passingScore == quiz.passingScore && r.duration == quiz.duration
    ensures r.createdAt == quiz.createdAt && r.updatedAt == quiz.updatedAt
  {
    QuizSummary(quiz.id, quiz.title, quiz.description, quiz.passingScore, quiz.duration,
                quiz.createdAt, quiz.updatedAt)
  }

  /** The summary carries no question data: changing the questions (and so
      the key) leaves it as it was. */
  lemma SummaryIgnoresQuestions(quiz: Quiz, qs: seq<Question>)
    ensures Summarize(quiz.(questions := qs)) == Summarize(quiz)
  {
  }

  /** GET /quizzes: one summary per stored quiz, in store order. */
  function ListQuizzes(store: seq<Quiz>): (r: seq<QuizSummary>)
    ensures |r| == |store|
    ensures forall i :: 0 <= i < |store| ==> r[i] == Summarize(store[i])
  {
    seq(|store|, i requires 0 <= i < |store| => Summarize(store[i]))
  }

  /** GET /quizzes/:id. */
  function GetQuiz(store: seq<Quiz>, id: QuizId): (r: Reply<SanitizedQuiz>)
    ensures r.NotFound? <==> forall q :: q in store ==> q.id != id
    ensures r.Ok? ==> exists q :: q in store && q.id == id && r.body == Sanitize(q)
    ensures r.NotFound? || r.Ok?
  {
    match FindQuiz(store, id)
    case None => NotFound
    case Some(q) => Ok(Sanitize(q))
  }

  /** GET /quizzes/:id/answers. */
  function GetAnswers(store: seq<Quiz>, id: QuizId): (r: Reply<AnswerKeyView>)
    ensures r.NotFound? <==> forall q :: q in store ==> q.id != id
    ensures r.Ok? ==> exists q :: q in store && q.id == id && r.body == AnswerKey(q)
    ensures r.NotFound? || r.Ok?
  {
    match FindQuiz(store, id)
    case None => NotFound
    case Some(q) => Ok(AnswerKey(q))
  }

  /** For the same id, the two routes agree on the quiz they serve, and what
      they serve together is the stored question list. */
  lemma GetQuizAndAnswersAgree(store: seq<Quiz>, id: QuizId)
    ensures GetQuiz(store, id).Ok? <==> GetAnswers(store, id).Ok?
    ensures GetQuiz(store, id).Ok? ==>
      exists q :: q in store && q.id == id &&
        Merge(GetQuiz(store, id).body.questions, GetAnswers(store, id).body.correctAnswers) == q.questions
  {
    var f := FindQuiz(store, id);
    if f.Some? {
      MergeStripKey(f.value.questions);
    }
  }
}
