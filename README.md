# Grading core of the SQL file evaluator's back end

This project models the grading decisions of `BackEnd`, the back end of an
evaluator that grades student SQL submissions against an assignment
catalog of reference questions. It covers three pieces.

- **Question matching** (`getCurrentQuestions`). An answer's question number
  is a candidate for a catalog question when the question's number starts with it
  (`indexOf(...) == 0`). The scan returns the first contiguous run of such
  questions, in catalog order. It stops at the first non-match after a match.
- **Test list assembly** (`evaluateTests`). For each evaluation component of a
  candidate question, one test object, one percentage and one condition are
  appended to three lists owned by the caller. The test object is created from
  the class name `sqlfe.sqltests.<component>`, and it is null when that class
  cannot be instantiated.
- **Submission scoring** (`processSubmission`). For each answer, every candidate
  is turned into a query evaluation and scored. The strictly greatest score wins,
  starting from the sentinel `-1.0`. The winning evaluation (or null) is recorded,
  one per answer, in answer order. The winning score is added to the submission
  total. Both results are stored on the submission only when it has an answer list.

Modules:

- `GradingTypes` (`grading_types.dfy`): the values the core reads and builds
  (questions, evaluation components, answers, query evaluations).
- `QuestionMatcher` (`question_matcher.dfy`): Java's `indexOf`, the specification
  of the first run of prefix matches, the loop of `getCurrentQuestions`, and
  lemmas about catalogs that do or do not keep the variants of a question together.
- `TestAssembly` (`test_assembly.dfy`): the Java list as a class that is appended
  to in place, and `evaluateTests` as a loop over the components.
- `SubmissionScoring` (`submission_scoring.dfy`): the best-candidate loop, the
  loop over the answers, the submission object, and the lemmas about totals.

Collaborators that the back end calls but that are not part of this model are
function-typed parameters:

- `evaluate: QueryEvaluation -> real` stands for `QueryEvaluation.evaluate()`
  run on the connected data access object.
- `instantiate: string -> Option<SqlTest>` stands for the reflection in
  `makeTestObject`, with `None` for the null it returns when the lookup throws.

Scores are `real`, because the code only compares and adds them. The catalog is
a `seq` value, so the scan cannot modify it.

Four behaviours of the code are easy to misread. The model keeps each as written.

- An answer without candidates might be expected to earn zero. Instead, the code adds the
  sentinel `-1.0` to the total (lines 216 and 247) and records null. The model keeps
  `-1.0`. `TotalChargesUnmatched` proves that the code's total is the
  zero-credit total minus the number of unmatched answers.
- The sentinel also applies when candidates exist: if no candidate scores above
  `-1.0`, the recorded evaluation is null and `-1.0` is added. The model keeps this
  case (`ChosenIndex`, `Chosen`). `NonNegativeScoresChooseCandidate` shows that it
  cannot happen when every score is at least zero.
- A test class that cannot be resolved raises no error. The code
  appends null to the test list, and the model appends `None`.
- Matching is by prefix, so an answer numbered `1` also matches a question `10a`
  when it lies inside the first run. The result contains every matching question
  when the catalog stores them next to each other (`GroupedCatalogYieldsAllMatches`).
  When a non-matching question lies between two matching ones, at least one match is
  skipped (`GapLosesMatches`, and the concrete case `GapHidesLaterVariant`).

## Model

| member | source | states |
|---|---|---|
| `QuestionMatcher.IndexOfFrom` | src/sqlfe/general/BackEnd.java:141 | the result is -1 or the first position at or after k where the pattern occurs, and no earlier position in range holds an occurrence |
| `QuestionMatcher.IndexOf` | src/sqlfe/general/BackEnd.java:141 | `indexOf` returns 0 exactly when the answer number is a prefix of the question number |
| `QuestionMatcher.FirstMatchFrom` | src/sqlfe/general/BackEnd.java:140-146 | the index of the first catalog question from k that matches, or the catalog size when none does |
| `QuestionMatcher.RunEndFrom` | src/sqlfe/general/BackEnd.java:147-154 | the first index from k whose question does not match; every question before it from k matches |
| `QuestionMatcher.CurrentQuestions` | src/sqlfe/general/BackEnd.java:134-163 | every returned question's number starts with the answer's number; the result is empty exactly when no catalog question matches |
| `QuestionMatcher.FirstRunCharacterization` | src/sqlfe/general/BackEnd.java:140-157 | the candidates are exactly the slice `qs[i..j]` in which i is the first match, all of `[i, j)` match, and `qs[j]` (if any) does not |
| `QuestionMatcher.GetCurrentQuestions` | src/sqlfe/general/BackEnd.java:134-163 | the two-flag scan returns exactly the first contiguous run of prefix matches |
| `QuestionMatcher.GroupedCatalogYieldsAllMatches` | src/sqlfe/general/BackEnd.java:140-157 | when the matching questions are stored contiguously, the scan returns all of them in catalog order |
| `QuestionMatcher.GapLosesMatches` | src/sqlfe/general/BackEnd.java:140-157 | when a non-matching question lies between two matching ones, the scan returns strictly fewer questions than all matches, so it is not all of them |
| `QuestionMatcher.GapHidesLaterVariant` | src/sqlfe/general/BackEnd.java:151-154 | with catalog `1a, 2a, 1b` the answer `1` is matched only to `1a`, though `1b` also matches |
| `TestAssembly.TestClassName` | src/sqlfe/general/BackEnd.java:169 | the class name is the `sqlfe.sqltests.` package followed by the component name |
| `TestAssembly.TestObjects` | src/sqlfe/general/BackEnd.java:171-172 | one test object per component, in order, each the instantiation (possibly null) of that component's class |
| `TestAssembly.Percentages` | src/sqlfe/general/BackEnd.java:174-175 | one percentage per component, in order |
| `TestAssembly.Conditions` | src/sqlfe/general/BackEnd.java:177-178 | one condition per component, in order |
| `TestAssembly.List.Add` | src/sqlfe/general/BackEnd.java:172 | appending to a list adds the element at its end and leaves the rest as it was |
| `TestAssembly.EvaluateTests` | src/sqlfe/general/BackEnd.java:165-180 | each of the three lists is its old contents followed by one entry per component in component order; lists of equal length stay of equal length |
| `SubmissionScoring.BuildEvaluation` | src/sqlfe/general/BackEnd.java:220-235 | the evaluation carries the answer's query, the candidate's reference query and points, and one test, percentage and condition per component of the candidate, in order |
| `SubmissionScoring.CandidateScores` | src/sqlfe/general/BackEnd.java:218-236 | one score per candidate, in order, each the evaluation of the answer against that candidate |
| `SubmissionScoring.Highest` | src/sqlfe/general/BackEnd.java:216-242 | highestPoints ends at least `-1.0`, at least every candidate score, and equal to `-1.0` or to one of the scores |
| `SubmissionScoring.ChosenIndex` | src/sqlfe/general/BackEnd.java:216-242 | maxQE is null exactly when no score exceeds `-1.0`; otherwise it is the first candidate with the highest score, strictly above all earlier ones |
| `SubmissionScoring.ExtendBest` | src/sqlfe/general/BackEnd.java:239-242 | one more candidate replaces the best only when its score is strictly greater |
| `SubmissionScoring.AnswerPoints` | src/sqlfe/general/BackEnd.java:213-247 | an answer contributes at least `-1.0`, and exactly `-1.0` without candidates; at least each candidate's score; either `-1.0` or the score of one of the candidates |
| `SubmissionScoring.Chosen` | src/sqlfe/general/BackEnd.java:216-245 | the recorded evaluation is null exactly when no candidate scores above `-1.0`; otherwise it is the evaluation of the first candidate with the highest score: at least every candidate's score, strictly above every earlier candidate's |
| `SubmissionScoring.ChosenIndexIsFirstBest` | src/sqlfe/general/BackEnd.java:216-242 | the index picked from the candidate scores is the first candidate with the highest score |
| `SubmissionScoring.BestEvaluation` | src/sqlfe/general/BackEnd.java:213-245 | null exactly when no candidate scores above `-1.0`, in particular when there is no candidate; otherwise the evaluation of the first candidate with the highest score, whose score is the answer's points |
| `SubmissionScoring.SubmissionTotal` | src/sqlfe/general/BackEnd.java:196-247 | the total of an empty answer list is zero, and each answer takes at most one point off: the total is at least minus the number of answers |
| `SubmissionScoring.TotalChargesUnmatched` | src/sqlfe/general/BackEnd.java:216-247 | the submission total equals the zero-credit total minus the number of answers without candidates |
| `SubmissionScoring.NonNegativeScoresChooseCandidate` | src/sqlfe/general/BackEnd.java:216-242 | with non-negative scores, an answer with candidates earns at least zero and records the evaluation of one of its candidates |
| `SubmissionScoring.TwoVariantsKeepBetter` | src/sqlfe/general/BackEnd.java:238-242 | candidates `2a` and `2b` scoring 6 and 8: the answer `2` earns 8 and records the evaluation against `2b` |
| `SubmissionScoring.QueryEvals` | src/sqlfe/general/BackEnd.java:197-245 | one recorded evaluation per answer, in answer order |
| `SubmissionScoring.SelectBest` | src/sqlfe/general/BackEnd.java:215-243 | the candidate loop ends with the highest score (or `-1.0`) and the first best evaluation (or null); with no candidates, `-1.0` and null |
| `SubmissionScoring.ScoreAnswers` | src/sqlfe/general/BackEnd.java:196-250 | the answer loop yields the sum of the per-answer points and exactly one recorded evaluation per answer, in order |
| `SubmissionScoring.ProcessSubmission` | src/sqlfe/general/BackEnd.java:206-256 | with an answer list, the submission's total and evaluations are set from its answers; without one, the submission is left unchanged |

## Left out

- The background thread started by `process` (lines 58-67): it adds concurrency without any observable contract.
- `transferData` (lines 70-113): it copies front-end settings, builds folder paths with a foreign helper, creates or clears the evaluations folder, and selects the data access object by DBMS name. These are file-system work and constructors that are not part of this model.
- The grades file: `buildGradesWriter`, the `println` calls and the double `close` in `evaluate` (lines 117-132, 261-265, 286-293). These are I/O.
- The two-decimal `DecimalFormat` formatting and the `outputPointString` it builds (lines 119, 200, 249, 262). This is library formatting of floating-point values.
- `evaluate` (lines 269-297), which reads the assignment properties, collects the submission files and runs `processSubmission` on each. These are file I/O through classes that are not part of this model.
- `dao.connect` and `dao.disconnect`, the progress output, and `submission.writeSubmission` in `processSubmission` (lines 195, 203, 209, 255, 258). These are database and file I/O.
- The "cannot find question" message of `getCurrentQuestions` (lines 159-161). It is console output only.
- `makeTestObject` (lines 182-191): the reflection is not modelled. The model uses the parameter `instantiate`, whose `None` is the null returned when `Class.forName` or `newInstance` throws.
- `QueryEvaluation.evaluate()`: it runs the tests against the database. The model uses the parameter `evaluate`. The two trailing constructor arguments (`null, 0.0`, line 235) are not kept, because the back end never reads them.
- Scores and totals are Java `double` values; the model uses exact `real`. Rounding in `submissionPoints += highestPoints` and NaN scores (which never win under `>`) are not modelled. `TotalChargesUnmatched` and the bound of `SubmissionTotal` hold in exact arithmetic.
- Null catalogs, null question numbers and null evaluation-component lists are not modelled. The code would fail on them with a `NullPointerException`, which it does not handle.
- `SubmissionScoring.Submission`: only the answer list, the total and the recorded evaluations are kept. The student name and file name are used only for output.
