/** The question matcher of the back end: which catalog questions an answer
    is scored against. An answer's number is matched as a prefix of the
    question numbers, and the candidates are the first contiguous run of
    such questions in catalog order. */
module QuestionMatcher {
  import opened GradingTypes

  /** True when t occurs in s starting at position p. */
  predicate OccursAt(s: string, t: string, p: nat) {
    p <= |s| && t <= s[p..]
  }

  /** Java's s.indexOf(t), searching from position k: the first position at or
      after k where t occurs, or -1 when there is none. */
  function IndexOfFrom(s: string, t: string, k: nat): (r: int)
    requires k <= |s|
    ensures r == -1 || (k <= r <= |s| && OccursAt(s, t, r))
    ensures forall p :: k <= p <= |s| && (r == -1 || p < r) ==> !OccursAt(s, t, p)
    decreases |s| - k
  {
    if OccursAt(s, t, k) then k
    else if k == |s| then -1
    else IndexOfFrom(s, t, k + 1)
  }

  /** Java's s.indexOf(t). It is 0 exactly when t is a prefix of s. */
  function IndexOf(s: string, t: string): (r: int)
    ensures -1 <= r <= |s|
    ensures r == 0 <==> t <= s
  {
    IndexOfFrom(s, t, 0)
  }

  /** A question is a candidate for an answer numbered id when its number starts
      with id; the scan tests this as indexOf(id) == 0, see IndexOf. */
  predicate Matches(q: Question, id: string) {
    id <= q.qNum
  }

  /** The first index at or after k whose question matches id, or |qs| when none does. */
  ghost function FirstMatchFrom(qs: seq<Question>, id: string, k: nat): (i: nat)
    requires k <= |qs|
    ensures k <= i <= |qs|
    ensures forall p :: k <= p < i ==> !Matches(qs[p], id)
    ensures i < |qs| ==> Matches(qs[i], id)
    decreases |qs| - k
  {
    if k == |qs| || Matches(qs[k], id) then k else FirstMatchFrom(qs, id, k + 1)
  }

  /** The first index at or after k whose question does not match id, or |qs|. */
  ghost function RunEndFrom(qs: seq<Question>, id: string, k: nat): (j: nat)
    requires k <= |qs|
    ensures k <= j <= |qs|
    ensures forall p :: k <= p < j ==> Matches(qs[p], id)
    ensures j < |qs| ==> !Matches(qs[j], id)
    decreases |qs| - k
  {
    if k == |qs| || !Matches(qs[k], id) then k else RunEndFrom(qs, id, k + 1)
  }

  /** The candidates for an answer numbered id: the first maximal run of
      consecutive catalog questions whose number starts with id. */
  ghost function CurrentQuestions(qs: seq<Question>, id: string): (r: seq<Question>)
    ensures forall q :: q in r ==> id <= q.qNum
    ensures r == [] <==> forall p :: 0 <= p < |qs| ==> !(id <= qs[p].qNum)
  {
    var i := FirstMatchFrom(qs, id, 0);
    qs[i..RunEndFrom(qs, id, i)]
  }

  /** The candidates are exactly qs[i..j] for the i and j that describe the first
      run: nothing matches before i, everything in [i, j) matches, the run is
      non-empty unless nothing matches at all, and qs[j] (if any) does not match. */
  lemma FirstRunCharacterization(qs: seq<Question>, id: string, i: nat, j: nat)
    requires i <= j <= |qs|
    requires forall p :: 0 <= p < i ==> !Matches(qs[p], id)
    requires forall p :: i <= p < j ==> Matches(qs[p], id)
    requires i < j || i == |qs|
    requires j < |qs| ==> !Matches(qs[j], id)
    ensures CurrentQuestions(qs, id) == qs[i..j]
  {
    assert i < |qs| ==> Matches(qs[i], id);
    assert FirstMatchFrom(qs, id, 0) == i;
    assert RunEndFrom(qs, id, i) == j;
  }

  /** getCurrentQuestions (lines 134-163): scans the catalog with the two flags of
      the source and returns the first run of questions whose number starts with
      the answer's number. The catalog is a value and is left as it was. */
  method GetCurrentQuestions(questions: seq<Question>, questionAnswer: QuestionAnswer)
    returns (currQuestions: seq<Question>)
    ensures currQuestions == CurrentQuestions(questions, questionAnswer.qNum)
  {
    var id := questionAnswer.qNum;
    ghost var first := FirstMatchFrom(questions, id, 0);
    ghost var last := RunEndFrom(questions, id, first);
    currQuestions := [];
    var foundOne := false;
    var foundAll := false;
    var questionIndex := 0;
    while questionIndex < |questions| && !foundAll
      invariant 0 <= questionIndex <= |questions|
      invariant !foundOne ==> !foundAll && questionIndex <= first && currQuestions == []
      invariant foundOne && !foundAll ==>
        first < questionIndex <= last && currQuestions == questions[first..questionIndex]
      invariant foundAll ==> foundOne && currQuestions == questions[first..last]
      decreases |questions| - questionIndex
    {
      var indexOfQNum := IndexOf(questions[questionIndex].qNum, id);
      if !foundOne && indexOfQNum == 0 {
        // first match
        foundOne := true;
        currQuestions := currQuestions + [questions[questionIndex]];
      } else if foundOne && indexOfQNum == 0 {
        // subsequent match
        currQuestions := currQuestions + [questions[questionIndex]];
      } else if foundOne {
        // first non-match after a match
        foundAll := true;
      }
      questionIndex := questionIndex + 1;
    }
  }

  /** Every catalog question whose number starts with id, in catalog order:
      what an index of the catalog by question number would return. */
  ghost function AllMatches(qs: seq<Question>, id: string): seq<Question>
    decreases |qs|
  {
    if qs == [] then []
    else (if Matches(qs[0], id) then [qs[0]] else []) + AllMatches(qs[1..], id)
  }

  /** The questions matching id are stored next to each other in the catalog. */
  ghost predicate Grouped(qs: seq<Question>, id: string) {
    forall p, m, n :: 0 <= p < m < n < |qs| && Matches(qs[p], id) && Matches(qs[n], id) ==> Matches(qs[m], id)
  }

  lemma {:induction false} AllMatchesAppend(a: seq<Question>, b: seq<Question>, id: string)
    ensures AllMatches(a + b, id) == AllMatches(a, id) + AllMatches(b, id)
    decreases |a|
  {
    if a == [] {
      assert a + b == b;
    } else {
      assert (a + b)[1..] == a[1..] + b;
      AllMatchesAppend(a[1..], b, id);
    }
  }

  lemma {:induction false} AllMatchesOfNone(s: seq<Question>, id: string)
    requires forall p :: 0 <= p < |s| ==> !Matches(s[p], id)
    ensures AllMatches(s, id) == []
    decreases |s|
  {
    if s != [] {
      AllMatchesOfNone(s[1..], id);
    }
  }

  lemma {:induction false} AllMatchesOfAll(s: seq<Question>, id: string)
    requires forall p :: 0 <= p < |s| ==> Matches(s[p], id)
    ensures AllMatches(s, id) == s
    decreases |s|
  {
    if s != [] {
      AllMatchesOfAll(s[1..], id);
      assert s == [s[0]] + s[1..];
    }
  }

  /** In a grouped catalog nothing after the first run matches. */
  lemma NothingMatchesAfterRun(qs: seq<Question>, id: string, p: nat)
    requires Grouped(qs, id)
    requires RunEndFrom(qs, id, FirstMatchFrom(qs, id, 0)) <= p < |qs|
    ensures !Matches(qs[p], id)
  {
  }

  lemma AllMatchesSplit(qs: seq<Question>, id: string, i: nat, j: nat)
    requires i <= j <= |qs|
    ensures AllMatches(qs, id) == AllMatches(qs[..i], id) + AllMatches(qs[i..j], id) + AllMatches(qs[j..], id)
  {
    assert qs[..j] == qs[..i] + qs[i..j];
    assert qs == qs[..j] + qs[j..];
    AllMatchesAppend(qs[..j], qs[j..], id);
    AllMatchesAppend(qs[..i], qs[i..j], id);
  }

  /** When nothing after the first run matches, the run is every match. */
  lemma SingleRunIsAllMatches(qs: seq<Question>, id: string)
    requires forall p :: RunEndFrom(qs, id, FirstMatchFrom(qs, id, 0)) <= p < |qs| ==> !Matches(qs[p], id)
    ensures CurrentQuestions(qs, id) == AllMatches(qs, id)
  {
    var i := FirstMatchFrom(qs, id, 0);
    var j := RunEndFrom(qs, id, i);
    var before, run, after := qs[..i], qs[i..j], qs[j..];
    forall p | 0 <= p < |after| ensures !Matches(after[p], id) {
      assert after[p] == qs[j + p];
    }
    AllMatchesOfNone(before, id);
    AllMatchesOfAll(run, id);
    AllMatchesOfNone(after, id);
    AllMatchesSplit(qs, id, i, j);
  }

  /** When the catalog keeps the variants of a question together, the scan
      finds all of them: its result is every matching question. */
  lemma GroupedCatalogYieldsAllMatches(qs: seq<Question>, id: string)
    requires Grouped(qs, id)
    ensures CurrentQuestions(qs, id) == AllMatches(qs, id)
  {
    forall p | RunEndFrom(qs, id, FirstMatchFrom(qs, id, 0)) <= p < |qs|
      ensures !Matches(qs[p], id)
    {
      NothingMatchesAfterRun(qs, id, p);
    }
    SingleRunIsAllMatches(qs, id);
  }

  lemma {:induction false} AllMatchesNonEmpty(s: seq<Question>, id: string, n: nat)
    requires n < |s| && Matches(s[n], id)
    ensures AllMatches(s, id) != []
    decreases |s|
  {
    if !Matches(s[0], id) {
      AllMatchesNonEmpty(s[1..], id, n - 1);
    }
  }

  /** The converse of GroupedCatalogYieldsAllMatches: when a non-matching question
      sits between two matching ones, the scan misses at least one match. */
  lemma GapLosesMatches(qs: seq<Question>, id: string, p: nat, m: nat, n: nat)
    requires p < m < n < |qs|
    requires Matches(qs[p], id) && !Matches(qs[m], id) && Matches(qs[n], id)
    ensures CurrentQuestions(qs, id) != AllMatches(qs, id)
    ensures |CurrentQuestions(qs, id)| < |AllMatches(qs, id)|
  {
    var i := FirstMatchFrom(qs, id, 0);
    var j := RunEndFrom(qs, id, i);
    assert i <= p;
    assert j <= m;
    AllMatchesSplit(qs, id, i, j);
    AllMatchesOfAll(qs[i..j], id);
    assert qs[j..][n - j] == qs[n];
    AllMatchesNonEmpty(qs[j..], id, n - j);
  }

  /** A catalog that separates two variants of question 1 with question 2:
      the answer to "1" is scored only against the first variant. */
  lemma GapHidesLaterVariant(q1a: Question, q2a: Question, q1b: Question)
    requires q1a.qNum == "1a" && q2a.qNum == "2a" && q1b.qNum == "1b"
    ensures CurrentQuestions([q1a, q2a, q1b], "1") == [q1a]
    ensures AllMatches([q1a, q2a, q1b], "1") == [q1a, q1b]
  {
    var qs := [q1a, q2a, q1b];
    assert "2a"[0] != "1"[0];
    assert Matches(q1a, "1") && !Matches(q2a, "1") && Matches(q1b, "1");
    FirstRunCharacterization(qs, "1", 0, 1);
    assert qs[1..] == [q2a, q1b] && qs[1..][1..] == [q1b] && qs[1..][1..][1..] == [];
    assert AllMatches([q1b], "1") == [q1b];
    assert AllMatches([q2a, q1b], "1") == [q1b];
  }
}
