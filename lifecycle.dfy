/** The attempt end to end: what the quiz-taking page posts is what the
    grading route reads. */
module Lifecycle {
  import opened Common
  import opened Quizzes
  import opened Grading
  import opened QuizTaking

  /** The posted payload as the server's request body: every buffer slot is
      a number, and the client sends no score of its own. */
  function ToBody(p: SubmitPayload): (b: SubmitBody)
    ensures b.quizId == p.quizId && b.timeSpent == p.timeSpent
    ensures |b.answers| == |p.answers|
    ensures forall i :: 0 <= i < |p.answers| ==> b.answers[i] == Choice(p.answers[i])
    ensures b.clientScore.None? && b.clientPassed.None?
  {
    SubmitBody(p.quizId, seq(|p.answers|, i requires 0 <= i < |p.answers| => Choice(p.answers[i])), p.timeSpent, None, None)
  }

  /** A session left untouched until the clock runs out is graded with no
      correct answer and score 0, stores the full duration as time spent,
      and fails whenever the passing score is above 0. */
  lemma UntouchedTimeoutGradesZero(quiz: Quiz, userId: UserId, id: ResultId, now: int)
    requires |quiz.questions| > 0
    requires forall i :: 0 <= i < |quiz.questions| ==> WellFormedQuestion(quiz.questions[i])
    ensures var p := SubmitPayload(quiz.id, seq(|quiz.questions|, _ => NoSelection), quiz.duration * 60);
      var r := Graded(quiz, userId, ToBody(p), id, now);
      && r.correctAnswers == 0 && r.score == 0 && r.timeSpent == quiz.duration * 60
      && (quiz.passingScore > 0 ==> !r.passed)
  {
    var p := SubmitPayload(quiz.id, seq(|quiz.questions|, _ => NoSelection), quiz.duration * 60);
    var b := ToBody(p);
    NoSelectionCountsZero(quiz.questions, b.answers);
    CountCorrectIsMatchCount(quiz.questions, b.answers);
    ScoreExtremes(|quiz.questions|);
  }
}
