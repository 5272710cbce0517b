/** The quiz-taking page's controller: the answer buffer, the question
    cursor, the countdown and the one-submission-at-a-time gate. The
    page's effects become explicit steps: Load is the quiz fetch, Tick is
    the one-second timer firing, Submit is the submit handler, and
    SubmitFailed is the rejected request. Wherever the timer effect would
    run again and find the countdown at zero, the step that caused it
    starts the forced submission itself and returns its payload. */
module QuizTaking {
  import opened Common
  import opened Quizzes

  /** What the page knows of the fetched quiz. */
  datatype QuizInfo = QuizInfo(id: QuizId, questionCount: nat, duration: nat)

  /** The body posted to /results/submit. */
  datatype SubmitPayload = SubmitPayload(quizId: QuizId, answers: seq<int>, timeSpent: int)

  /** The "no selection" sentinel of the answer buffer. */
  const NoSelection: int := -1

  class QuizSession {
    var quiz: Option<QuizInfo>
    var loading: bool
    var currentQuestion: nat
    var answers: array<int>
    var timeLeft: int
    var isSubmitting: bool

    ghost predicate Valid()
      reads this, answers
    {
      && 0 <= timeLeft
      && (quiz.None? ==> answers.Length == 0 && currentQuestion == 0 && timeLeft == 0 && !isSubmitting)
      && (quiz.Some? ==>
            && quiz.value.questionCount > 0
            && answers.Length == quiz.value.questionCount
            && currentQuestion < quiz.value.questionCount
            && timeLeft <= quiz.value.duration * 60)
    }

    /** The initial state of the page: nothing fetched yet. */
    constructor ()
      ensures Valid() && fresh(answers)
      ensures quiz.None? && loading && currentQuestion == 0 && answers.Length == 0
      ensures timeLeft == 0 && !isSubmitting
    {
      quiz := None;
      loading := true;
      currentQuestion := 0;
      answers := new int[0];
      timeLeft := 0;
      isSubmitting := false;
    }

    /** Seconds used so far. */
    function TimeSpent(): (r: int)
      reads this, answers
      requires Valid() && quiz.Some?
      ensures 0 <= r <= quiz.value.duration * 60
      ensures timeLeft == 0 ==> r == quiz.value.duration * 60
      ensures r + timeLeft == quiz.value.duration * 60
    {
      quiz.value.duration * 60 - timeLeft
    }

    /** The count shown as "answered": slots holding a selection. */
    function AnsweredQuestions(): (r: nat)
      reads this, answers
      requires Valid()
      ensures r <= answers.Length
      ensures quiz.Some? ==> r <= quiz.value.questionCount
    {
      CountAnswered(answers[..])
    }

    /** The fetch succeeded: one "no selection" slot per question and the
        full duration on the clock. If that duration is zero the timer
        effect submits at once. */
    method Load(info: QuizInfo) returns (req: Option<SubmitPayload>)
      requires Valid() && quiz.None?
      requires info.questionCount > 0
      modifies this
      ensures Valid() && fresh(answers)
      ensures quiz == Some(info) && !loading && currentQuestion == 0
      ensures answers[..] == seq(info.questionCount, _ => NoSelection)
      ensures timeLeft == info.duration * 60
      ensures req.Some? <==> info.duration == 0
      ensures req.Some? ==> isSubmitting && req.value == SubmitPayload(info.id, answers[..], 0)
      ensures req.None? ==> !isSubmitting
    {
      quiz := Some(info);
      answers := new int[info.questionCount](_ => NoSelection);
      timeLeft := info.duration * 60;
      loading := false;
      req := None;
      if timeLeft == 0 {
        req := Submit();
      }
    }

    /** The fetch failed: the page leaves for the quiz list. */
    method LoadFailed()
      requires Valid() && quiz.None?
      modifies this`loading
      ensures Valid() && !loading
    {
      loading := false;
    }

    /** Selecting an option overwrites the current question's slot only. No
        range check is made on the option index. */
    method Select(answerIndex: int)
      requires Valid() && quiz.Some?
      modifies answers
      ensures Valid()
      ensures answers[..] == old(answers[..])[currentQuestion := answerIndex]
    {
      answers[currentQuestion] := answerIndex;
    }

    /** One question forward, unless on the last one. */
    method Next()
      requires Valid()
      modifies this`currentQuestion
      ensures Valid()
      ensures currentQuestion ==
        if quiz.Some? && old(currentQuestion) < quiz.value.questionCount - 1
        then old(currentQuestion) + 1 else old(currentQuestion)
    {
      if quiz.Some? && currentQuestion < quiz.value.questionCount - 1 {
        currentQuestion := currentQuestion + 1;
      }
    }

    /** One question back, unless on the first one. */
    method Previous()
      requires Valid()
      modifies this`currentQuestion
      ensures Valid()
      ensures currentQuestion == if old(currentQuestion) > 0 then old(currentQuestion) - 1 else 0
    {
      if currentQuestion > 0 {
        currentQuestion := currentQuestion - 1;
      }
    }

    /** The submit handler: ignored without a quiz or while a submission is
        in flight; otherwise closes the gate and packages the buffer and the
        elapsed time. */
    method Submit() returns (req: Option<SubmitPayload>)
      requires Valid()
      modifies this`isSubmitting
      ensures Valid()
      ensures req.Some? <==> old(quiz.Some? && !isSubmitting)
      ensures req.Some? ==> isSubmitting && req.value == SubmitPayload(quiz.value.id, answers[..], TimeSpent())
      ensures req.None? ==> isSubmitting == old(isSubmitting)
      ensures answers[..] == old(answers[..])
    {
      if quiz.None? || isSubmitting {
        return None;
      }
      isSubmitting := true;
      req := Some(SubmitPayload(quiz.value.id, answers[..], quiz.value.duration * 60 - timeLeft));
    }

    /** The one-second timer fires. It runs only while time is left and no
        submission is in flight; reaching zero forces the submission. */
    method Tick() returns (req: Option<SubmitPayload>)
      requires Valid()
      modifies this`timeLeft, this`isSubmitting
      ensures Valid()
      ensures timeLeft == if old(timeLeft) > 0 && !old(isSubmitting) then old(timeLeft) - 1 else old(timeLeft)
      ensures req.Some? <==> old(timeLeft) == 1 && !old(isSubmitting)
      ensures req.Some? ==> isSubmitting && req.value == SubmitPayload(quiz.value.id, answers[..], quiz.value.duration * 60)
      ensures req.None? ==> isSubmitting == old(isSubmitting)
    {
      req := None;
      if timeLeft > 0 && !isSubmitting {
        timeLeft := timeLeft - 1;
        if timeLeft == 0 {
          req := Submit();
        }
      }
    }

    /** The submission request failed: the gate opens again and the buffer
        is kept. With the clock at zero the timer effect then fires again and
        retries at once. */
    method SubmitFailed() returns (req: Option<SubmitPayload>)
      requires Valid() && isSubmitting
      modifies this`isSubmitting
      ensures Valid()
      ensures req.Some? <==> timeLeft == 0
      ensures req.Some? ==> isSubmitting && req.value == SubmitPayload(quiz.value.id, answers[..], TimeSpent())
      ensures req.None? ==> !isSubmitting
      ensures answers[..] == old(answers[..])
    {
      isSubmitting := false;
      req := None;
      if timeLeft == 0 {
        req := Submit();
      }
    }
  }

  /** The number of slots holding a selection. */
  function CountAnswered(s: seq<int>): (r: nat)
    ensures r <= |s|
  {
    if |s| == 0 then 0
    else CountAnswered(s[..|s| - 1]) + (if s[|s| - 1] != NoSelection then 1 else 0)
  }

  /** A fresh buffer has nothing answered. */
  lemma {:induction false} FreshBufferUnanswered(n: nat)
    ensures CountAnswered(seq(n, _ => NoSelection)) == 0
  {
    if n > 0 {
      assert seq(n, _ => NoSelection)[..n - 1] == seq(n - 1, _ => NoSelection);
      FreshBufferUnanswered(n - 1);
    }
  }

  /** Answering an unanswered slot raises the count by one; overwriting an
      answered one with another selection leaves it. */
  lemma {:induction false} SelectCount(s: seq<int>, i: nat, v: int)
    requires i < |s| && v != NoSelection
    ensures CountAnswered(s[i := v]) == CountAnswered(s) + (if s[i] == NoSelection then 1 else 0)
  {
    var t := s[i := v];
    var n := |s| - 1;
    if i < n {
      assert t[..n] == s[..n][i := v];
      SelectCount(s[..n], i, v);
    } else {
      assert t[..n] == s[..n];
    }
  }

  /** "m:ss": whole minutes, then seconds padded to two digits. */
  function FormatClock(seconds: nat): (r: string)
    ensures var k := |NatToString(seconds / 60)|;
      && |r| == k + 3
      && r[..k] == NatToString(seconds / 60) && r[k] == ':'
      && AllDigits(r[k + 1..]) && ParseNat(r[k + 1..]) == seconds % 60
  {
    NatToString(seconds / 60) + ":" + Pad2(seconds % 60)
  }

  /** padStart(2, '0') on a number below 100. */
  function Pad2(n: nat): (r: string)
    requires n < 100
    ensures |r| == 2 && AllDigits(r) && ParseNat(r) == n
  {
    ParseNatToString(n);
    if n < 10 then ['0'] + NatToString(n)
    else
      assert NatToString(n) == [DigitChar(n / 10)] + [DigitChar(n % 10)];
      NatToString(n)
  }

  /** The clock text determines the remaining time: minutes and seconds
      read back give it exactly. */
  lemma FormatClockInjective(a: nat, b: nat)
    requires FormatClock(a) == FormatClock(b)
    ensures a == b
  {
    assert FormatClock(a) == NatToString(a / 60) + [':'] + Pad2(a % 60);
    assert FormatClock(b) == NatToString(b / 60) + [':'] + Pad2(b % 60);
    SplitAtSeparator(NatToString(a / 60), ':', Pad2(a % 60), NatToString(b / 60), Pad2(b % 60));
    NatToStringInjective(a / 60, b / 60);
  }
  /** A session left to run out: after duration*60 ticks exactly one
      submission has been triggered, on the last tick, carrying the
      untouched buffer and the full duration as time spent. */
  method RunOutTheClock(info: QuizInfo) returns (submissions: nat, last: Option<SubmitPayload>)
    requires info.questionCount > 0 && info.duration > 0
    ensures submissions == 1
    ensures last == Some(SubmitPayload(info.id, seq(info.questionCount, _ => NoSelection), info.duration * 60))
  {
    var session := new QuizSession();
    var req := session.Load(info);
    submissions, last := 0, None;
    var ticks := 0;
    while ticks < info.duration * 60
      invariant session.Valid() && session.quiz == Some(info)
      invariant session.answers[..] == seq(info.questionCount, _ => NoSelection)
      invariant 0 <= ticks <= info.duration * 60
      invariant session.timeLeft == info.duration * 60 - ticks
      invariant submissions == (if ticks == info.duration * 60 then 1 else 0)
      invariant session.isSubmitting <==> submissions == 1
      invariant submissions == 1 ==> last == Some(SubmitPayload(info.id, session.answers[..], info.duration * 60))
    {
      req := session.Tick();
      ticks := ticks + 1;
      if req.Some? {
        submissions, last := submissions + 1, req;
      }
    }
  }

  /** Calls of the submit handler, whoever makes them (the button on the
      last question or the timer effect): a second call while the first
      request is in flight sends nothing; after a failure with time left,
      the next call sends the same buffer again. */
  method SubmitTwiceThenRetry(info: QuizInfo, choice: int)
    returns (first: Option<SubmitPayload>, second: Option<SubmitPayload>, retry: Option<SubmitPayload>)
    requires info.questionCount > 0 && info.duration > 0
    ensures first.Some? && second.None? && retry.Some?
    ensures first.value.answers == retry.value.answers
    ensures first.value.answers == [choice] + seq(info.questionCount - 1, _ => NoSelection)
  {
    var session := new QuizSession();
    var req := session.Load(info);
    session.Select(choice);
    assert session.answers[..] == [choice] + seq(info.questionCount - 1, _ => NoSelection);
    first := session.Submit();
    second := session.Submit();
    req := session.SubmitFailed();
    retry := session.Submit();
  }
}
