/** The result page: the time-spent rendering, the passing score it
    displays, and the certificate download guard with its busy flag. The
    page shows a result fetched from GET /results/:id, which joins the
    quiz's attributes onto the stored result. */
module QuizResult {
  import opened Common
  import opened Quizzes
  import opened Grading

  /** The quiz attributes joined onto a result; an attribute the join does
      not select is undefined on the page. */
  datatype QuizAttrs = QuizAttrs(title: string, description: string, passingScore: Option<int>)

  /** The page's data: the stored result and the joined quiz. */
  datatype ResultPage = ResultPage(result: Result, quiz: QuizAttrs)

  /** The join as GET /results/:id writes it: title, description and
      questions are selected, the passing score is not. */
  function JoinAsWritten(quiz: Quiz): (a: QuizAttrs)
    ensures a.title == quiz.title && a.description == quiz.description
    ensures a.passingScore.None?
  {
    QuizAttrs(quiz.title, quiz.description, None)
  }

  /** The join with the passing score selected too. */
  function JoinWithPassingScore(quiz: Quiz): (a: QuizAttrs)
    ensures a.title == quiz.title && a.description == quiz.description
    ensures a.passingScore == Some(quiz.passingScore)
  {
    QuizAttrs(quiz.title, quiz.description, Some(quiz.passingScore))
  }

  /** `passingScore || 70`: any falsy value (undefined, 0) shows 70. */
  function ShownPassingScore(attrs: QuizAttrs): (r: int)
    ensures attrs.passingScore.None? ==> r == 70
    ensures attrs.passingScore.Some? ==>
      r == if attrs.passingScore.value == 0 then 70 else attrs.passingScore.value
  {
    match attrs.passingScore
    case None => 70
    case Some(p) => if p == 0 then 70 else p
  }

  /** As written, the page shows 70 as the passing score whatever the
      quiz's own threshold is. */
  lemma AsWrittenShowsSeventy(quiz: Quiz)
    ensures ShownPassingScore(JoinAsWritten(quiz)) == 70
  {
  }

  /** The input that shows it: a quiz with passing score 80 and four
      questions, three answered correctly. The result scores 75 and fails,
      while the page tells the user that 70% is needed to pass. */
  lemma AsWrittenContradictsVerdict()
    ensures var quiz := Quiz(2, "Sample", "", 80, 20,
                             [Question("q1", ["a", "b"], 0), Question("q2", ["a", "b"], 0),
                              Question("q3", ["a", "b"], 0), Question("q4", ["a", "b"], 0)],
                             0, 0);
      var body := SubmitBody(2, [Choice(0), Choice(0), Choice(0), Other], 60, None, None);
      var r := Graded(quiz, 1, body, 7, 0);
      && r.score == 75 && !r.passed
      && r.score >= ShownPassingScore(JoinAsWritten(quiz))
  {
    var qs := [Question("q1", ["a", "b"], 0), Question("q2", ["a", "b"], 0),
               Question("q3", ["a", "b"], 0), Question("q4", ["a", "b"], 0)];
    var answers := [Choice(0), Choice(0), Choice(0), Other];
    assert MatchSet(qs, answers) == {0, 1, 2} by {
      forall i: nat | i < |qs| ensures Matches(qs, answers, i) <==> i < 3 {
      }
    }
    RoundHalfUpUnique(300, 4, 75);
  }

  /** With the passing score selected, the page shows the quiz's own
      threshold whenever it is not 0, and a failed result is always
      shown below the threshold it is told it needs. */
  lemma JoinWithPassingScoreAgrees(quiz: Quiz, userId: UserId, body: SubmitBody, id: ResultId, now: int)
    requires |quiz.questions| > 0
    ensures quiz.passingScore != 0 ==> ShownPassingScore(JoinWithPassingScore(quiz)) == quiz.passingScore
    ensures var r := Graded(quiz, userId, body, id, now);
      !r.passed ==> r.score < ShownPassingScore(JoinWithPassingScore(quiz))
  {
  }

  /** GET /results/:id as the result page sees it, with the join that
      selects the passing score. A result whose quiz is gone has no
      attributes to show; that case stands as ServerError. */
  function FetchResultPage(results: seq<Result>, quizzes: seq<Quiz>, id: ResultId, user: UserId)
    : (reply: Reply<ResultPage>)
    ensures reply.NotFound? <==> GetResult(results, id, user).NotFound?
    ensures reply.Ok? ==>
      && reply.body.result in results && reply.body.result.id == id && reply.body.result.userId == user
      && FindQuiz(quizzes, reply.body.result.quizId).Some?
      && reply.body.quiz.passingScore == Some(FindQuiz(quizzes, reply.body.result.quizId).value.passingScore)
  {
    match GetResult(results, id, user)
    case Ok(r) =>
      (match FindQuiz(quizzes, r.quizId)
       case None => ServerError
       case Some(quiz) => Ok(ResultPage(r, JoinWithPassingScore(quiz))))
    case _ => NotFound
  }

  /** The same route with the join as written. */
  function FetchResultPageAsWritten(results: seq<Result>, quizzes: seq<Quiz>, id: ResultId, user: UserId)
    : (reply: Reply<ResultPage>)
    ensures reply.NotFound? <==> GetResult(results, id, user).NotFound?
    ensures reply.Ok? ==> ShownPassingScore(reply.body.quiz) == 70
  {
    match GetResult(results, id, user)
    case Ok(r) =>
      (match FindQuiz(quizzes, r.quizId)
       case None => ServerError
       case Some(quiz) => Ok(ResultPage(r, JoinAsWritten(quiz))))
    case _ => NotFound
  }

  /** The page's template for time spent: whole minutes by floor division,
      seconds by JavaScript's %, whose remainder takes the dividend's sign. */
  function SplitDuration(seconds: int): (r: (int, int))
    ensures seconds >= 0 ==> r.0 * 60 + r.1 == seconds && 0 <= r.0 && 0 <= r.1 < 60
    ensures seconds < 0 ==> r.0 < 0 && -60 < r.1 <= 0
  {
    var minutes := seconds / 60;
    var remaining := if seconds >= 0 then seconds % 60 else -((-seconds) % 60);
    (minutes, remaining)
  }

  /** "<m>m <r>s". */
  function FormatDuration(seconds: int): (r: string)
    ensures var m := IntToString(SplitDuration(seconds).0);
      && |r| == |m| + |IntToString(SplitDuration(seconds).1)| + 3
      && r[..|m|] == m && r[|m|..|m| + 2] == "m "
      && r[|m| + 2..|r| - 1] == IntToString(SplitDuration(seconds).1) && r[|r| - 1] == 's'
  {
    var (m, r) := SplitDuration(seconds);
    IntToString(m) + "m " + IntToString(r) + "s"
  }

  /** For the non-negative times a session produces, the text determines
      the time. */
  lemma FormatDurationInjective(a: nat, b: nat)
    requires FormatDuration(a) == FormatDuration(b)
    ensures a == b
  {
    var fa, fb := FormatDuration(a), FormatDuration(b);
    var ma, mb := NatToString(a / 60), NatToString(b / 60);
    assert fa == ma + ['m'] + fa[|ma| + 1..];
    assert fb == mb + ['m'] + fb[|mb| + 1..];
    SplitAtSeparator(ma, 'm', fa[|ma| + 1..], mb, fb[|mb| + 1..]);
    NatToStringInjective(a / 60, b / 60);
    assert NatToString(a % 60) == fa[|ma| + 2..|fa| - 1] == NatToString(b % 60);
    NatToStringInjective(a % 60, b % 60);
  }

  /** The page's download button is shown for passed results only. */
  predicate ShowsDownloadButton(page: ResultPage) {
    page.result.passed
  }

  /** The page's state around the certificate download. */
  class ResultView {
    var page: Option<ResultPage>
    var downloadingCertificate: bool

    /** After the fetch: the loaded result, if any, and no download running. */
    constructor (fetched: Option<ResultPage>)
      ensures page == fetched && !downloadingCertificate
    {
      page := fetched;
      downloadingCertificate := false;
    }

    /** The download handler's start: nothing happens unless a passed result
        is loaded; otherwise the busy flag goes up and the certificate of
        this result is requested. */
    method BeginDownload() returns (request: Option<ResultId>)
      modifies this`downloadingCertificate
      ensures request.Some? <==> page.Some? && page.value.result.passed
      ensures request.Some? ==> request.value == page.value.result.id && downloadingCertificate
      ensures request.None? ==> downloadingCertificate == old(downloadingCertificate)
    {
      if page.None? || !page.value.result.passed {
        return None;
      }
      downloadingCertificate := true;
      request := Some(page.value.result.id);
    }

    /** The request settled: the busy flag goes down whatever the outcome;
        on success the file is saved under the quiz's title. */
    method FinishDownload(succeeded: bool) returns (savedAs: Option<string>)
      requires page.Some?
      modifies this`downloadingCertificate
      ensures !downloadingCertificate
      ensures savedAs == if succeeded then Some("Certificate_" + page.value.quiz.title + ".pdf") else None
    {
      downloadingCertificate := false;
      savedAs := if succeeded then Some("Certificate_" + page.value.quiz.title + ".pdf") else None;
    }
  }

  /** A press of the download button (shown only for a passed result)
      always issues the request, and the flag is down again afterwards
      whether it succeeded or failed. */
  method PressDownload(page: ResultPage, succeeded: bool) returns (request: Option<ResultId>, busyAfter: bool)
    requires ShowsDownloadButton(page)
    ensures request == Some(page.result.id) && !busyAfter
  {
    var view := new ResultView(Some(page));
    request := view.BeginDownload();
    var saved := view.FinishDownload(succeeded);
    busyAfter := view.downloadingCertificate;
  }

  /** Without a passed result the handler does nothing. */
  method PressDownloadNotPassed(page: Option<ResultPage>) returns (request: Option<ResultId>, busy: bool)
    requires page.None? || !page.value.result.passed
    ensures request.None? && !busy
  {
    var view := new ResultView(page);
    request := view.BeginDownload();
    busy := view.downloadingCertificate;
  }
}
