/** Assembly of the test lists of one candidate question (evaluateTests):
    for each evaluation component, in order, the test object, its percentage
    and its condition are appended to three lists owned by the caller. */
module TestAssembly {
  import opened GradingTypes

  /** The package every test class is looked up in. */
  const TestPackage: string := "sqlfe.sqltests."

  /** The fully qualified class name built for a component (line 169). */
  function TestClassName(componentName: string): (r: string)
    ensures TestPackage <= r
    ensures r[|TestPackage|..] == componentName
  {
    TestPackage + componentName
  }

  /** A Java list that the back end appends to in place. */
  class List<T> {
    var elems: seq<T>

    constructor ()
      ensures elems == []
    {
      elems := [];
    }

    method Add(x: T)
      modifies this
      ensures elems == old(elems) + [x]
    {
      elems := elems + [x];
    }
  }

  /** The test objects of a question's components, in order. `instantiate`
      stands for makeTestObject: Class.forName and newInstance on the given name,
      None where either throws. */
  function TestObjects(comps: seq<EvalComponent>, instantiate: string -> Option<SqlTest>): (r: seq<Option<SqlTest>>)
    ensures |r| == |comps|
    ensures forall k :: 0 <= k < |comps| ==> r[k] == instantiate(TestClassName(comps[k].name))
    decreases |comps|
  {
    if comps == [] then []
    else [instantiate(TestClassName(comps[0].name))] + TestObjects(comps[1..], instantiate)
  }

  /** The percentages of a question's components, in order. */
  function Percentages(comps: seq<EvalComponent>): (r: seq<int>)
    ensures |r| == |comps|
    ensures forall k :: 0 <= k < |comps| ==> r[k] == comps[k].percent
    decreases |comps|
  {
    if comps == [] then [] else [comps[0].percent] + Percentages(comps[1..])
  }

  /** The conditions of a question's components, in order. */
  function Conditions(comps: seq<EvalComponent>): (r: seq<string>)
    ensures |r| == |comps|
    ensures forall k :: 0 <= k < |comps| ==> r[k] == comps[k].condition
    decreases |comps|
  {
    if comps == [] then [] else [comps[0].condition] + Conditions(comps[1..])
  }

  /** evaluateTests (lines 165-180): each list grows by one entry per component,
      in component order, and keeps what it held before. Lists of equal length
      stay of equal length. */
  method EvaluateTests(
    questionTests: List<Option<SqlTest>>,
    questionPercentages: List<int>,
    questionConditions: List<string>,
    questionEvalComps: seq<EvalComponent>,
    instantiate: string -> Option<SqlTest>)
    modifies questionTests, questionPercentages, questionConditions
    ensures questionTests.elems == old(questionTests.elems) + TestObjects(questionEvalComps, instantiate)
    ensures questionPercentages.elems == old(questionPercentages.elems) + Percentages(questionEvalComps)
    ensures questionConditions.elems == old(questionConditions.elems) + Conditions(questionEvalComps)
    ensures |questionTests.elems| - |old(questionTests.elems)| == |questionEvalComps|
    ensures |old(questionTests.elems)| == |old(questionPercentages.elems)| == |old(questionConditions.elems)| ==>
      |questionTests.elems| == |questionPercentages.elems| == |questionConditions.elems|
  {
    ghost var tests0, percentages0, conditions0 := questionTests.elems, questionPercentages.elems, questionConditions.elems;
    ghost var tests, percentages, conditions :=
      TestObjects(questionEvalComps, instantiate), Percentages(questionEvalComps), Conditions(questionEvalComps);
    for k := 0 to |questionEvalComps|
      invariant questionTests.elems == tests0 + tests[..k]
      invariant questionPercentages.elems == percentages0 + percentages[..k]
      invariant questionConditions.elems == conditions0 + conditions[..k]
    {
      var questionEvalComp := questionEvalComps[k];
      var currTestName := TestClassName(questionEvalComp.name);
      questionTests.Add(instantiate(currTestName));
      questionPercentages.Add(questionEvalComp.percent);
      questionConditions.Add(questionEvalComp.condition);
      assert tests[..k + 1] == tests[..k] + [tests[k]];
      assert percentages[..k + 1] == percentages[..k] + [percentages[k]];
      assert conditions[..k + 1] == conditions[..k] + [conditions[k]];
    }
    assert tests[..|questionEvalComps|] == tests;
    assert percentages[..|questionEvalComps|] == percentages;
    assert conditions[..|questionEvalComps|] == conditions;
  }
}
