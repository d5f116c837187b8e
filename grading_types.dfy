/** The values the grading core of the SQL file evaluator reads and builds.
    The classes behind them (Question, QuestionAnswer, EvalComponentInQuestion,
    QueryEvaluation, the ISQLTest implementations) are collaborators of the
    back end; only the parts the back end touches are kept here. */
module GradingTypes {

  /** A value or Java's null. */
  datatype Option<+T> = None | Some(value: T)

  /** One evaluation component of a question: the simple name of a test class,
      its weight in percent and the condition that gates it. */
  datatype EvalComponent = EvalComponent(name: string, percent: int, condition: string)

  /** A question of the assignment catalog: its number string (a primary id with an
      optional variant suffix, such as "2b"), its reference query, the points it is
      worth and its evaluation components, in order. */
  datatype Question = Question(qNum: string, desiredQuery: string, points: int, tests: seq<EvalComponent>)

  /** A student's answer: the question number it claims and the submitted query. */
  datatype QuestionAnswer = QuestionAnswer(qNum: string, actualQuery: string)

  /** An instance of a test class, known by its fully qualified class name. */
  datatype SqlTest = SqlTest(className: string)

  /** The evaluation built for one answer against one candidate question: both
      queries, the candidate's points and the three parallel lists of tests
      (None where the class could not be instantiated), percentages and conditions. */
  datatype QueryEvaluation = QueryEvaluation(
    actualQuery: string,
    desiredQuery: string,
    maxPoints: int,
    tests: seq<Option<SqlTest>>,
    percentages: seq<int>,
    conditions: seq<string>)
}
