/** Scoring of one submission (processSubmission): every answer is evaluated
    against each of its candidate questions, the best evaluation is kept, and
    the per-answer bests are added into the submission total.
    QueryEvaluation.evaluate(), which runs the SQL tests on the connected data
    access object, is the parameter `evaluate`; makeTestObject is `instantiate`. */
module SubmissionScoring {
  import opened GradingTypes
  import TestAssembly
  import QuestionMatcher

  /** The starting value of highestPoints: below zero so any evaluation is better.
      It is what an answer contributes when no candidate scores above it. */
  const NoScore: real := -1.0

  /** The evaluation built for an answer and one candidate question (lines 220-235). */
  ghost function BuildEvaluation(answer: QuestionAnswer, q: Question, instantiate: string -> Option<SqlTest>): (e: QueryEvaluation)
    ensures e.actualQuery == answer.actualQuery && e.desiredQuery == q.desiredQuery && e.maxPoints == q.points
    ensures |e.tests| == |e.percentages| == |e.conditions| == |q.tests|
    ensures forall k :: 0 <= k < |q.tests| ==>
      e.tests[k] == instantiate(TestAssembly.TestClassName(q.tests[k].name)) &&
      e.percentages[k] == q.tests[k].percent && e.conditions[k] == q.tests[k].condition
  {
    QueryEvaluation(answer.actualQuery, q.desiredQuery, q.points,
      TestAssembly.TestObjects(q.tests, instantiate),
      TestAssembly.Percentages(q.tests),
      TestAssembly.Conditions(q.tests))
  }

  /** The score of every candidate, in candidate order. */
  ghost function CandidateScores(answer: QuestionAnswer, cands: seq<Question>,
                           instantiate: string -> Option<SqlTest>, evaluate: QueryEvaluation -> real): (s: seq<real>)
    ensures |s| == |cands|
    ensures forall k :: 0 <= k < |cands| ==> s[k] == evaluate(BuildEvaluation(answer, cands[k], instantiate))
    decreases |cands|
  {
    if cands == [] then []
    else CandidateScores(answer, cands[..|cands| - 1], instantiate, evaluate)
           + [evaluate(BuildEvaluation(answer, cands[|cands| - 1], instantiate))]
  }

  /** The value highestPoints ends with: the largest score, or NoScore when no
      score exceeds it. */
  ghost function Highest(scores: seq<real>): (h: real)
    ensures NoScore <= h
    ensures forall k :: 0 <= k < |scores| ==> scores[k] <= h
    ensures h == NoScore || h in scores
    decreases |scores|
  {
    if scores == [] then NoScore
    else
      var h := Highest(scores[..|scores| - 1]);
      if scores[|scores| - 1] > h then scores[|scores| - 1] else h
  }

  /** The candidate whose evaluation becomes maxQE: the first one with the largest
      score, or -1 (null) when no score exceeds NoScore. Replacement needs a strictly
      greater score, so among equal scores the earliest candidate is kept. */
  ghost function ChosenIndex(scores: seq<real>): (i: int)
    ensures -1 <= i < |scores|
    ensures i == -1 <==> forall k :: 0 <= k < |scores| ==> scores[k] <= NoScore
    ensures 0 <= i ==> scores[i] == Highest(scores)
    ensures 0 <= i ==> forall k :: 0 <= k < i ==> scores[k] < scores[i]
    decreases |scores|
  {
    if scores == [] then -1
    else
      var prefix := scores[..|scores| - 1];
      assert forall k :: 0 <= k < |prefix| ==> prefix[k] == scores[k];
      if scores[|scores| - 1] > Highest(prefix) then |scores| - 1 else ChosenIndex(prefix)
  }

  /** One more score: how Highest and ChosenIndex of a prefix grow by one element. */
  lemma ExtendBest(scores: seq<real>, k: nat)
    requires k < |scores|
    ensures Highest(scores[..k + 1]) == if scores[k] > Highest(scores[..k]) then scores[k] else Highest(scores[..k])
    ensures ChosenIndex(scores[..k + 1]) == if scores[k] > Highest(scores[..k]) then k else ChosenIndex(scores[..k])
  {
    assert scores[..k + 1][..k] == scores[..k];
  }

  /** The points an answer contributes to the submission total. */
  ghost function AnswerPoints(questions: seq<Question>, answer: QuestionAnswer,
                        instantiate: string -> Option<SqlTest>, evaluate: QueryEvaluation -> real): (h: real)
    ensures QuestionMatcher.CurrentQuestions(questions, answer.qNum) == [] ==> h == NoScore
    ensures NoScore <= h
    ensures forall q :: q in QuestionMatcher.CurrentQuestions(questions, answer.qNum) ==>
      evaluate(BuildEvaluation(answer, q, instantiate)) <= h
    ensures h == NoScore || (exists q :: q in QuestionMatcher.CurrentQuestions(questions, answer.qNum) &&
                                         h == evaluate(BuildEvaluation(answer, q, instantiate)))
  {
    var cands := QuestionMatcher.CurrentQuestions(questions, answer.qNum);
    var scores := CandidateScores(answer, cands, instantiate, evaluate);
    var h := Highest(scores);
    if h == NoScore then h
    else
      var k :| 0 <= k < |scores| && scores[k] == h;
      assert cands[k] in cands;
      h
  }

  /** The candidate at index i is the first one with the highest score: its score is
      at least every candidate's and strictly above every earlier candidate's. */
  ghost predicate FirstBest(answer: QuestionAnswer, cands: seq<Question>, i: int,
                            instantiate: string -> Option<SqlTest>, evaluate: QueryEvaluation -> real)
  {
    && 0 <= i < |cands|
    && (forall k :: 0 <= k < |cands| ==>
          evaluate(BuildEvaluation(answer, cands[k], instantiate)) <= evaluate(BuildEvaluation(answer, cands[i], instantiate)))
    && (forall k :: 0 <= k < i ==>
          evaluate(BuildEvaluation(answer, cands[k], instantiate)) < evaluate(BuildEvaluation(answer, cands[i], instantiate)))
  }

  /** The evaluation kept for an answer (maxQE), None standing for null. */
  ghost function Chosen(answer: QuestionAnswer, cands: seq<Question>,
                  instantiate: string -> Option<SqlTest>, evaluate: QueryEvaluation -> real): (e: Option<QueryEvaluation>)
    ensures e.None? <==> forall k :: 0 <= k < |cands| ==> evaluate(BuildEvaluation(answer, cands[k], instantiate)) <= NoScore
    ensures e.Some? ==> evaluate(e.value) == Highest(CandidateScores(answer, cands, instantiate, evaluate))
    ensures e.Some? ==> (exists i :: FirstBest(answer, cands, i, instantiate, evaluate) &&
                                   e.value == BuildEvaluation(answer, cands[i], instantiate))
  {
    var scores := CandidateScores(answer, cands, instantiate, evaluate);
    var i := ChosenIndex(scores);
    if i < 0 then None
    else
      ChosenIndexIsFirstBest(answer, cands, instantiate, evaluate);
      Some(BuildEvaluation(answer, cands[i], instantiate))
  }

  /** The index ChosenIndex picks from the candidate scores is the first best candidate. */
  lemma ChosenIndexIsFirstBest(answer: QuestionAnswer, cands: seq<Question>,
                               instantiate: string -> Option<SqlTest>, evaluate: QueryEvaluation -> real)
    requires 0 <= ChosenIndex(CandidateScores(answer, cands, instantiate, evaluate))
    ensures FirstBest(answer, cands, ChosenIndex(CandidateScores(answer, cands, instantiate, evaluate)), instantiate, evaluate)
  {
    var scores := CandidateScores(answer, cands, instantiate, evaluate);
    var i := ChosenIndex(scores);
    assert scores[i] == evaluate(BuildEvaluation(answer, cands[i], instantiate));
  }

  /** The evaluation recorded for an answer in queryEvals: null exactly when no
      candidate scores above NoScore (in particular when there is no candidate),
      otherwise the evaluation of the first candidate with the highest score,
      whose score is the answer's points. */
  ghost function BestEvaluation(questions: seq<Question>, answer: QuestionAnswer,
                          instantiate: string -> Option<SqlTest>, evaluate: QueryEvaluation -> real): (e: Option<QueryEvaluation>)
    ensures QuestionMatcher.CurrentQuestions(questions, answer.qNum) == [] ==> e == None
    ensures var cands := QuestionMatcher.CurrentQuestions(questions, answer.qNum);
      e.None? <==> forall k :: 0 <= k < |cands| ==> evaluate(BuildEvaluation(answer, cands[k], instantiate)) <= NoScore
    ensures var cands := QuestionMatcher.CurrentQuestions(questions, answer.qNum);
      e.Some? ==> (exists i :: FirstBest(answer, cands, i, instantiate, evaluate) &&
                             e.value == BuildEvaluation(answer, cands[i], instantiate))
    ensures e.Some? ==> evaluate(e.value) == AnswerPoints(questions, answer, instantiate, evaluate)
  {
    Chosen(answer, QuestionMatcher.CurrentQuestions(questions, answer.qNum), instantiate, evaluate)
  }

  /** The submission total as the source computes it: the sum of AnswerPoints
      over the answers, in order. */
  ghost function SubmissionTotal(questions: seq<Question>, answers: seq<QuestionAnswer>,
                           instantiate: string -> Option<SqlTest>, evaluate: QueryEvaluation -> real): (total: real)
    ensures -(|answers| as real) <= total
    ensures answers == [] ==> total == 0.0
    decreases |answers|
  {
    if answers == [] then 0.0
    else SubmissionTotal(questions, answers[..|answers| - 1], instantiate, evaluate)
           + AnswerPoints(questions, answers[|answers| - 1], instantiate, evaluate)
  }

  /** The answer has no candidate question. */
  ghost predicate Unmatched(questions: seq<Question>, answer: QuestionAnswer) {
    QuestionMatcher.CurrentQuestions(questions, answer.qNum) == []
  }

  /** How many answers have no candidate question. */
  ghost function UnmatchedCount(questions: seq<Question>, answers: seq<QuestionAnswer>): nat
    decreases |answers|
  {
    if answers == [] then 0
    else UnmatchedCount(questions, answers[..|answers| - 1])
           + (if Unmatched(questions, answers[|answers| - 1]) then 1 else 0)
  }

  /** The total when an answer without candidates earns zero instead of NoScore. */
  ghost function CreditedTotal(questions: seq<Question>, answers: seq<QuestionAnswer>,
                         instantiate: string -> Option<SqlTest>, evaluate: QueryEvaluation -> real): real
    decreases |answers|
  {
    if answers == [] then 0.0
    else
      var last := answers[|answers| - 1];
      CreditedTotal(questions, answers[..|answers| - 1], instantiate, evaluate)
        + (if Unmatched(questions, last) then 0.0 else AnswerPoints(questions, last, instantiate, evaluate))
  }

  /** Each answer without candidates takes one point off the submission total:
      the total the source computes is the zero-credit total minus their number. */
  lemma {:induction false} TotalChargesUnmatched(questions: seq<Question>, answers: seq<QuestionAnswer>,
                                                 instantiate: string -> Option<SqlTest>, evaluate: QueryEvaluation -> real)
    ensures SubmissionTotal(questions, answers, instantiate, evaluate)
      == CreditedTotal(questions, answers, instantiate, evaluate) - UnmatchedCount(questions, answers) as real
    decreases |answers|
  {
    if answers != [] {
      TotalChargesUnmatched(questions, answers[..|answers| - 1], instantiate, evaluate);
    }
  }

  /** When every evaluation scores at least zero, an answer with candidates always
      records one of its candidates' evaluations, and scores the largest of them. */
  lemma NonNegativeScoresChooseCandidate(questions: seq<Question>, answer: QuestionAnswer,
                                         instantiate: string -> Option<SqlTest>, evaluate: QueryEvaluation -> real)
    requires forall e :: 0.0 <= evaluate(e)
    requires !Unmatched(questions, answer)
    ensures 0.0 <= AnswerPoints(questions, answer, instantiate, evaluate)
    ensures BestEvaluation(questions, answer, instantiate, evaluate).Some?
    ensures exists q :: (q in QuestionMatcher.CurrentQuestions(questions, answer.qNum) &&
      BestEvaluation(questions, answer, instantiate, evaluate) == Some(BuildEvaluation(answer, q, instantiate)))
  {
    var cands := QuestionMatcher.CurrentQuestions(questions, answer.qNum);
    var scores := CandidateScores(answer, cands, instantiate, evaluate);
    assert scores[0] == evaluate(BuildEvaluation(answer, cands[0], instantiate));
    var i := ChosenIndex(scores);
    assert cands[i] in cands;
  }

  /** Two variants "2a" and "2b" of question 2 scoring 6 and 8: the answer to
      "2" earns 8 and records the evaluation against "2b". */
  lemma TwoVariantsKeepBetter(q2a: Question, q2b: Question, answer: QuestionAnswer,
                              instantiate: string -> Option<SqlTest>, evaluate: QueryEvaluation -> real)
    requires q2a.qNum == "2a" && q2b.qNum == "2b" && answer.qNum == "2"
    requires evaluate(BuildEvaluation(answer, q2a, instantiate)) == 6.0
    requires evaluate(BuildEvaluation(answer, q2b, instantiate)) == 8.0
    ensures AnswerPoints([q2a, q2b], answer, instantiate, evaluate) == 8.0
    ensures BestEvaluation([q2a, q2b], answer, instantiate, evaluate) == Some(BuildEvaluation(answer, q2b, instantiate))
  {
    var cands := [q2a, q2b];
    QuestionMatcher.FirstRunCharacterization(cands, "2", 0, 2);
    assert cands[0..2] == cands;
    var scores := CandidateScores(answer, cands, instantiate, evaluate);
    assert scores == [6.0, 8.0];
    assert Highest([6.0]) == 6.0 && ChosenIndex([6.0]) == 0 by {
      assert [6.0][..0] == [];
    }
    assert scores[..1] == [6.0];
    assert Highest(scores) == 8.0;
    assert ChosenIndex(scores) == 1;
  }

  /** The evaluations recorded for the answers, one per answer, in order. */
  ghost function QueryEvals(questions: seq<Question>, answers: seq<QuestionAnswer>,
                      instantiate: string -> Option<SqlTest>, evaluate: QueryEvaluation -> real): (r: seq<Option<QueryEvaluation>>)
    ensures |r| == |answers|
    ensures forall k :: 0 <= k < |answers| ==> r[k] == BestEvaluation(questions, answers[k], instantiate, evaluate)
    decreases |answers|
  {
    if answers == [] then []
    else QueryEvals(questions, answers[..|answers| - 1], instantiate, evaluate)
           + [BestEvaluation(questions, answers[|answers| - 1], instantiate, evaluate)]
  }

  /** One more answer: how the total and the recorded evaluations of a prefix grow. */
  lemma ExtendAnswers(questions: seq<Question>, answers: seq<QuestionAnswer>, k: nat,
                      instantiate: string -> Option<SqlTest>, evaluate: QueryEvaluation -> real)
    requires k < |answers|
    ensures SubmissionTotal(questions, answers[..k + 1], instantiate, evaluate)
      == SubmissionTotal(questions, answers[..k], instantiate, evaluate) + AnswerPoints(questions, answers[k], instantiate, evaluate)
    ensures QueryEvals(questions, answers[..k + 1], instantiate, evaluate)
      == QueryEvals(questions, answers[..k], instantiate, evaluate) + [BestEvaluation(questions, answers[k], instantiate, evaluate)]
  {
    assert answers[..k + 1][..k] == answers[..k];
  }

  /** The loop over the candidates of one answer (lines 215-243): builds and
      evaluates each candidate and keeps the strictly best one. */
  method SelectBest(answer: QuestionAnswer, currQuestions: seq<Question>,
                    instantiate: string -> Option<SqlTest>, evaluate: QueryEvaluation -> real)
    returns (highestPoints: real, maxQE: Option<QueryEvaluation>)
    ensures highestPoints == Highest(CandidateScores(answer, currQuestions, instantiate, evaluate))
    ensures maxQE == Chosen(answer, currQuestions, instantiate, evaluate)
    ensures currQuestions == [] ==> highestPoints == NoScore && maxQE == None
  {
    ghost var scores := CandidateScores(answer, currQuestions, instantiate, evaluate);
    highestPoints := NoScore;
    maxQE := None;
    for k := 0 to |currQuestions|
      invariant highestPoints == Highest(scores[..k])
      invariant ChosenIndex(scores[..k]) < 0 ==> maxQE == None
      invariant 0 <= ChosenIndex(scores[..k]) ==>
        maxQE == Some(BuildEvaluation(answer, currQuestions[ChosenIndex(scores[..k])], instantiate))
    {
      var currQuestion := currQuestions[k];
      var questionTests := new TestAssembly.List<Option<SqlTest>>();
      var questionPercentages := new TestAssembly.List<int>();
      var questionConditions := new TestAssembly.List<string>();
      TestAssembly.EvaluateTests(questionTests, questionPercentages, questionConditions, currQuestion.tests, instantiate);
      var queryEvaluation := QueryEvaluation(answer.actualQuery, currQuestion.desiredQuery, currQuestion.points,
        questionTests.elems, questionPercentages.elems, questionConditions.elems);
      assert queryEvaluation == BuildEvaluation(answer, currQuestion, instantiate);
      var questionPoints := evaluate(queryEvaluation);
      ExtendBest(scores, k);
      if questionPoints > highestPoints {
        highestPoints := questionPoints;
        maxQE := Some(queryEvaluation);
      }
    }
    assert scores[..|currQuestions|] == scores;
  }

  /** The loop over the answers of a submission (lines 208-250): one recorded
      evaluation per answer, in answer order, and the sum of their points. */
  method ScoreAnswers(questions: seq<Question>, questionAnswers: seq<QuestionAnswer>,
                      instantiate: string -> Option<SqlTest>, evaluate: QueryEvaluation -> real)
    returns (submissionPoints: real, queryEvals: seq<Option<QueryEvaluation>>)
    ensures submissionPoints == SubmissionTotal(questions, questionAnswers, instantiate, evaluate)
    ensures |queryEvals| == |questionAnswers|
    ensures forall k :: 0 <= k < |questionAnswers| ==>
      queryEvals[k] == BestEvaluation(questions, questionAnswers[k], instantiate, evaluate)
  {
    submissionPoints := 0.0;
    queryEvals := [];
    for k := 0 to |questionAnswers|
      invariant submissionPoints == SubmissionTotal(questions, questionAnswers[..k], instantiate, evaluate)
      invariant queryEvals == QueryEvals(questions, questionAnswers[..k], instantiate, evaluate)
    {
      var questionAnswer := questionAnswers[k];
      var currQuestions := QuestionMatcher.GetCurrentQuestions(questions, questionAnswer);
      var highestPoints, maxQE := SelectBest(questionAnswer, currQuestions, instantiate, evaluate);
      queryEvals := queryEvals + [maxQE];
      submissionPoints := submissionPoints + highestPoints;
      ExtendAnswers(questions, questionAnswers, k, instantiate, evaluate);
    }
    assert questionAnswers[..|questionAnswers|] == questionAnswers;
  }

  /** The part of a submission the back end reads and sets. */
  class Submission {
    /** getAnswers(); None stands for a null list. */
    var answers: Option<seq<QuestionAnswer>>
    var totalPoints: real
    var queryEvals: seq<Option<QueryEvaluation>>

    constructor (answers: Option<seq<QuestionAnswer>>, totalPoints: real, queryEvals: seq<Option<QueryEvaluation>>)
      ensures this.answers == answers && this.totalPoints == totalPoints && this.queryEvals == queryEvals
    {
      this.answers := answers;
      this.totalPoints := totalPoints;
      this.queryEvals := queryEvals;
    }
  }

  /** processSubmission (lines 193-267) without its connection and output: when the
      submission has an answer list, its total and its evaluations are set from the
      answers; without one, the submission is left as it was. */
  method ProcessSubmission(submission: Submission, questions: seq<Question>,
                           instantiate: string -> Option<SqlTest>, evaluate: QueryEvaluation -> real)
    modifies submission
    ensures submission.answers == old(submission.answers)
    ensures submission.answers.None? ==>
      submission.totalPoints == old(submission.totalPoints) && submission.queryEvals == old(submission.queryEvals)
    ensures submission.answers.Some? ==>
      submission.totalPoints == SubmissionTotal(questions, submission.answers.value, instantiate, evaluate)
    ensures submission.answers.Some? ==>
      submission.queryEvals == QueryEvals(questions, submission.answers.value, instantiate, evaluate)
  {
    var questionAnswers := submission.answers;
    if questionAnswers.Some? {
      var submissionPoints, queryEvals := ScoreAnswers(questions, questionAnswers.value, instantiate, evaluate);
      submission.totalPoints := submissionPoints;
      submission.queryEvals := queryEvals;
    }
  }
}
