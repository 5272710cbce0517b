/** GET /certificates/generate/:resultId: the eligibility gate in front of
    the document renderer, and the parts of the document that carry data
    (download file name, score line, certificate id line). */
module Certificates {
  import opened Common
  import opened Quizzes
  import opened Grading

  /** The authenticated caller. */
  datatype Caller = Caller(id: UserId, username: string)

  /** The data-bearing parts of the generated certificate. */
  datatype Certificate = Certificate(
    filename: string,
    recipient: string,
    quizTitle: string,
    scoreLine: string,
    idLine: string)

  /** The Content-Disposition file name. */
  function Filename(username: string, quizTitle: string): (r: string)
    ensures |r| == |username| + |quizTitle| + 17
    ensures r[..12] == "Certificate_" && r[|r| - 4..] == ".pdf"
    ensures r[12..12 + |username|] == username && r[12 + |username|] == '_'
    ensures r[13 + |username|..|r| - 4] == quizTitle
  {
    "Certificate_" + username + "_" + quizTitle + ".pdf"
  }

  /** "<score>% (<correct>/<total> correct)". */
  function ScoreLine(score: int, correct: nat, total: nat): (r: string)
    ensures var k := |IntToString(score)|;
      && |r| == k + 1 + |CountPart(correct, total)|
      && r[..k] == IntToString(score) && r[k] == '%'
      && r[k + 1..] == CountPart(correct, total)
  {
    IntToString(score) + "%" + CountPart(correct, total)
  }

  /** " (<correct>/<total> correct)". */
  function CountPart(correct: nat, total: nat): (r: string)
    ensures |r| == |NatToString(correct)| + |NatToString(total)| + 12
    ensures r[..2] == " (" && r[|r| - 9..] == " correct)"
    ensures r[2..|r| - 9] == NatToString(correct) + "/" + NatToString(total)
  {
    " (" + NatToString(correct) + "/" + NatToString(total) + " correct)"
  }

  /** "<total> correct)" determines the total. */
  lemma TotalPartInjective(t1: nat, t2: nat)
    requires NatToString(t1) + " correct)" == NatToString(t2) + " correct)"
    ensures t1 == t2
  {
    assert NatToString(t1) + " correct)" == NatToString(t1) + [' '] + "correct)";
    assert NatToString(t2) + " correct)" == NatToString(t2) + [' '] + "correct)";
    SplitAtSeparator(NatToString(t1), ' ', "correct)", NatToString(t2), "correct)");
    NatToStringInjective(t1, t2);
  }

  /** The count part determines both counts. */
  lemma CountPartInjective(c1: nat, t1: nat, c2: nat, t2: nat)
    requires CountPart(c1, t1) == CountPart(c2, t2)
    ensures c1 == c2 && t1 == t2
  {
    var r := CountPart(c1, t1);
    assert NatToString(c1) + ['/'] + NatToString(t1) == r[2..|r| - 9] == NatToString(c2) + ['/'] + NatToString(t2);
    SplitAtSeparator(NatToString(c1), '/', NatToString(t1), NatToString(c2), NatToString(t2));
    NatToStringInjective(c1, c2);
    NatToStringInjective(t1, t2);
  }

  /** The score line states its three numbers unambiguously: equal lines
      come from equal numbers. */
  lemma ScoreLineInjective(s1: nat, c1: nat, t1: nat, s2: nat, c2: nat, t2: nat)
    requires ScoreLine(s1, c1, t1) == ScoreLine(s2, c2, t2)
    ensures s1 == s2 && c1 == c2 && t1 == t2
  {
    var rest1, rest2 := CountPart(c1, t1), CountPart(c2, t2);
    assert ScoreLine(s1, c1, t1) == NatToString(s1) + ['%'] + rest1;
    assert ScoreLine(s2, c2, t2) == NatToString(s2) + ['%'] + rest2;
    SplitAtSeparator(NatToString(s1), '%', rest1, NatToString(s2), rest2);
    NatToStringInjective(s1, s2);
    CountPartInjective(c1, t1, c2, t2);
  }

  /** "Certificate ID: <id>". */
  function IdLine(id: ResultId): (r: string)
    ensures |r| == 16 + |NatToString(id)|
    ensures r[..16] == "Certificate ID: " && r[16..] == NatToString(id)
  {
    "Certificate ID: " + NatToString(id)
  }

  /** Distinct results carry distinct certificate ids. */
  lemma IdLineInjective(a: ResultId, b: ResultId)
    requires IdLine(a) == IdLine(b)
    ensures a == b
  {
    var p := "Certificate ID: ";
    assert NatToString(a) == IdLine(a)[|p|..] == IdLine(b)[|p|..] == NatToString(b);
    NatToStringInjective(a, b);
  }

  /** The data the template fills in: the file name, the recipient, the
      quiz title, the score line and the id line. */
  function CertificateOf(r: Result, username: string, quizTitle: string): (c: Certificate)
    ensures c.filename == Filename(username, quizTitle)
    ensures c.recipient == username && c.quizTitle == quizTitle
    ensures c.scoreLine == ScoreLine(r.score, r.correctAnswers, r.totalQuestions)
    ensures c.idLine == IdLine(r.id)
  {
    Certificate(Filename(username, quizTitle), username, quizTitle,
                ScoreLine(r.score, r.correctAnswers, r.totalQuestions), IdLine(r.id))
  }

  /** A character Node.js accepts in a header value: tab, 0x20-0x7E or
      0x80-0xFF. Any other character makes setHeader throw. */
  predicate HeaderChar(c: char) {
    c == '\t' || (' ' <= c <= '~') || ('\U{80}' <= c <= '\U{FF}')
  }

  /** A header value setHeader accepts. */
  predicate HeaderSafe(s: string) {
    forall i :: 0 <= i < |s| ==> HeaderChar(s[i])
  }

  /** The route: 404 when no result has this id and the caller as owner,
      then 400 when that result did not pass. A result whose quiz is gone
      makes the template fail, and a file name that is not a valid header
      value makes setHeader throw; both give 500. Otherwise the document
      is produced. */
  function Generate(results: seq<Result>, quizzes: seq<Quiz>, resultId: ResultId, caller: Caller)
    : (reply: Reply<Certificate>)
    ensures reply.NotFound? <==> FindOwned(results, resultId, caller.id).None?
    ensures reply.BadRequest? <==>
      FindOwned(results, resultId, caller.id).Some? && !FindOwned(results, resultId, caller.id).value.passed
    ensures reply.ServerError? <==>
      && FindOwned(results, resultId, caller.id).Some? && FindOwned(results, resultId, caller.id).value.passed
      && var q := FindQuiz(quizzes, FindOwned(results, resultId, caller.id).value.quizId);
         (q.None? || !HeaderSafe(Filename(caller.username, q.value.title)))
    ensures reply.Ok? ==>
      var r := FindOwned(results, resultId, caller.id).value;
      && r in results && r.id == resultId && r.userId == caller.id && r.passed
      && FindQuiz(quizzes, r.quizId).Some?
      && HeaderSafe(reply.body.filename)
      && reply.body == CertificateOf(r, caller.username, FindQuiz(quizzes, r.quizId).value.title)
  {
    match FindOwned(results, resultId, caller.id)
    case None => NotFound
    case Some(r) =>
      if !r.passed then BadRequest
      else match FindQuiz(quizzes, r.quizId)
        case None => ServerError
        case Some(quiz) =>
          if HeaderSafe(Filename(caller.username, quiz.title))
          then Ok(CertificateOf(r, caller.username, quiz.title))
          else ServerError
  }

  /** A passed, owned result on a quiz whose title has a character outside
      Latin-1 gets 500, not a document. */
  lemma NonLatinTitleFails(r: Result, quiz: Quiz, caller: Caller)
    requires r.userId == caller.id && r.passed && r.quizId == quiz.id
    requires HeaderSafe(caller.username) && quiz.title == "Quiz \U{65E5}"
    ensures Generate([r], [quiz], r.id, caller).ServerError?
  {
    var f := Filename(caller.username, quiz.title);
    assert f[12 + |caller.username| + 1 + 5] == '\U{65E5}';
  }

  /** A document is produced only for a result that exists, is the
      caller's and passed. */
  lemma OnlyPassedOwnedCertified(results: seq<Result>, quizzes: seq<Quiz>, resultId: ResultId, caller: Caller)
    requires Generate(results, quizzes, resultId, caller).Ok?
    ensures exists r :: r in results && r.id == resultId && r.userId == caller.id && r.passed
  {
    var r := FindOwned(results, resultId, caller.id).value;
    assert r in results && r.id == resultId && r.userId == caller.id && r.passed;
  }

  /** End to end: right after a submission is graded and stored under a
      fresh id, its owner's certificate request is refused with 400 exactly
      when the score is below the quiz's passing score; otherwise it
      succeeds exactly when the file name is a valid header value. */
  lemma CertificateAfterSubmit(results: seq<Result>, quizzes: seq<Quiz>, quiz: Quiz, caller: Caller,
                               body: SubmitBody, newId: ResultId, now: int)
    requires FindQuiz(quizzes, body.quizId) == Some(quiz) && |quiz.questions| > 0
    requires forall x :: x in results ==> x.id != newId
    ensures var g := Graded(quiz, caller.id, body, newId, now);
      && (Generate(results + [g], quizzes, newId, caller).BadRequest? <==> g.score < quiz.passingScore)
      && (g.score >= quiz.passingScore ==>
            (Generate(results + [g], quizzes, newId, caller).Ok? <==> HeaderSafe(Filename(caller.username, quiz.title))))
  {
    var g := Graded(quiz, caller.id, body, newId, now);
    FindOwnedAppended(results, g);
  }

  /** The two worked examples: correct answers [0,1,2,3,4] with passing
      score 70. Answers [0,1,2,3,9] give 4 correct, 80 and a pass;
      answers [1,1,1,1,1] give 1 correct, 20, a fail, and a certificate
      request for that result is refused with 400. */
  lemma WorkedExamples(caller: Caller)
    ensures var quiz := Quiz(1, "Sample", "", 70, 15,
                             [Question("a", ["0", "1", "2", "3", "4"], 0), Question("b", ["0", "1", "2", "3", "4"], 1),
                              Question("c", ["0", "1", "2", "3", "4"], 2), Question("d", ["0", "1", "2", "3", "4"], 3),
                              Question("e", ["0", "1", "2", "3", "4"], 4)], 0, 0);
      var good := Graded(quiz, caller.id,
                         SubmitBody(1, [Choice(0), Choice(1), Choice(2), Choice(3), Choice(9)], 100, None, None), 1, 0);
      var bad := Graded(quiz, caller.id,
                        SubmitBody(1, [Choice(1), Choice(1), Choice(1), Choice(1), Choice(1)], 100, None, None), 2, 0);
      && good.correctAnswers == 4 && good.score == 80 && good.passed
      && bad.correctAnswers == 1 && bad.score == 20 && !bad.passed
      && Generate([good, bad], [quiz], 2, caller).BadRequest?
  {
    var quiz := Quiz(1, "Sample", "", 70, 15,
                     [Question("a", ["0", "1", "2", "3", "4"], 0), Question("b", ["0", "1", "2", "3", "4"], 1),
                      Question("c", ["0", "1", "2", "3", "4"], 2), Question("d", ["0", "1", "2", "3", "4"], 3),
                      Question("e", ["0", "1", "2", "3", "4"], 4)], 0, 0);
    var qs := quiz.questions;
    var goodAnswers := [Choice(0), Choice(1), Choice(2), Choice(3), Choice(9)];
    var badAnswers := [Choice(1), Choice(1), Choice(1), Choice(1), Choice(1)];
    assert MatchSet(qs, goodAnswers) == {0, 1, 2, 3} by {
      forall i: nat | i < |qs| ensures Matches(qs, goodAnswers, i) <==> i < 4 {
      }
    }
    assert MatchSet(qs, badAnswers) == {1} by {
      forall i: nat | i < |qs| ensures Matches(qs, badAnswers, i) <==> i == 1 {
      }
    }
    RoundHalfUpUnique(400, 5, 80);
    RoundHalfUpUnique(100, 5, 20);
  }
}
