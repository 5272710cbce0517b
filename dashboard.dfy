/** The dashboard's statistics over the caller's results (as GET
    /results/user returns them) and the quiz list. */
module Dashboard {
  import opened Common
  import opened Quizzes
  import opened Grading

  datatype Stats = Stats(totalQuizzes: nat, totalAttempts: nat, passedAttempts: nat, averageScore: int)

  /** results.filter(result => result.passed). */
  function PassedResults(results: seq<Result>): (r: seq<Result>)
    ensures |r| <= |results|
    ensures forall x :: multiset(r)[x] == if x.passed then multiset(results)[x] else 0
  {
    if |results| == 0 then []
    else
      assert results == [results[0]] + results[1..];
      if results[0].passed then [results[0]] + PassedResults(results[1..])
      else PassedResults(results[1..])
  }

  /** The reduce that adds up the scores. */
  function SumScores(results: seq<Result>): (r: int)
    ensures |results| == 0 ==> r == 0
    ensures |results| == 1 ==> r == results[0].score
  {
    if |results| == 0 then 0 else results[0].score + SumScores(results[1..])
  }

  /** The reduce adds up every score once: the sum of a concatenation is
      the sum of the sums. */
  lemma {:induction false} SumScoresAppend(a: seq<Result>, b: seq<Result>)
    ensures SumScores(a + b) == SumScores(a) + SumScores(b)
  {
    if |a| > 0 {
      assert (a + b)[1..] == a[1..] + b;
      SumScoresAppend(a[1..], b);
    } else {
      assert a + b == b;
    }
  }

  /** Scores within [lo, hi] add up to between lo and hi times their count. */
  lemma {:induction false} SumScoresBounds(results: seq<Result>, lo: int, hi: int)
    requires forall i :: 0 <= i < |results| ==> lo <= results[i].score <= hi
    ensures lo * |results| <= SumScores(results) <= hi * |results|
  {
    if |results| > 0 {
      var n := |results|;
      SumScoresBounds(results[1..], lo, hi);
      assert lo * n == lo + lo * (n - 1) && hi * n == hi + hi * (n - 1);
    }
  }

  /** The rounded mean score, 0 when there is no result. */
  function AverageScore(results: seq<Result>): (r: int)
    ensures |results| == 0 ==> r == 0
    ensures |results| > 0 ==>
      2 * |results| * r - |results| <= 2 * SumScores(results) < 2 * |results| * r + |results|
  {
    if |results| > 0 then RoundHalfUp(SumScores(results), |results|) else 0
  }

  /** The average lies between any lower and upper bound of the scores, so
      between the least and the greatest score. */
  lemma AverageWithinBounds(results: seq<Result>, lo: int, hi: int)
    requires |results| > 0
    requires forall i :: 0 <= i < |results| ==> lo <= results[i].score <= hi
    ensures lo <= AverageScore(results) <= hi
  {
    var n := |results|;
    SumScoresBounds(results, lo, hi);
    RoundHalfUpMonotone(lo * n, SumScores(results), n);
    RoundHalfUpMonotone(SumScores(results), hi * n, n);
    RoundHalfUpExact(lo, n);
    RoundHalfUpExact(hi, n);
  }

  /** results.slice(0, 5). */
  function RecentResults(results: seq<Result>): (r: seq<Result>)
    ensures |r| == if |results| < 5 then |results| else 5
    ensures forall i :: 0 <= i < |r| ==> r[i] == results[i]
  {
    if |results| < 5 then results else results[..5]
  }

  /** On a newest-first list the recent results are the newest ones: none
      left out is newer than any kept. */
  lemma RecentAreNewest(results: seq<Result>)
    requires NewestFirst(results)
    ensures forall i, j :: 0 <= i < |RecentResults(results)| <= j < |results| ==>
      RecentResults(results)[i].createdAt >= results[j].createdAt
  {
  }

  function ComputeStats(quizzes: seq<QuizSummary>, results: seq<Result>): (s: Stats)
    ensures s.totalQuizzes == |quizzes| && s.totalAttempts == |results|
    ensures s.passedAttempts <= s.totalAttempts
    ensures s.passedAttempts == |multiset(PassedResults(results))|
    ensures |results| == 0 ==> s.averageScore == 0 && s.passedAttempts == 0
    ensures s.averageScore == AverageScore(results)
  {
    Stats(|quizzes|, |results|, |PassedResults(results)|, AverageScore(results))
  }

  /** Over results graded by the server (scores 0..100), the average is
      in 0..100 too. */
  lemma StatsAverageIsPercentage(quizzes: seq<QuizSummary>, results: seq<Result>)
    requires forall i :: 0 <= i < |results| ==> 0 <= results[i].score <= 100
    ensures 0 <= ComputeStats(quizzes, results).averageScore <= 100
  {
    if |results| > 0 {
      AverageWithinBounds(results, 0, 100);
    }
  }
}
