/** Scoring of one tool-call test result against the expected call, and of a template over all of
    its test results. Scores are exact reals. */
module Scorer {
  import opened Wrappers
  import opened Text
  import opened Json

  /** The outcome of one tool-calling test. `toolName` is `Null` for `None`, `arguments` is
      `NoneValue` for `None`. */
  datatype ToolCallResult = ToolCallResult(
    testName: string,
    success: bool,
    toolName: Value,
    arguments: Json,
    rawOutput: string,
    error: string,
    score: real)

  const NoToolError := "No tool call detected in output"
  const NoArgumentsError := "Expected arguments but none provided"

  function WrongToolError(expected: string, got: string): string {
    "Wrong tool: expected " + expected + ", got " + got
  }

  // ---------------------------------------------------------------------------------------------
  // Arguments

  /** One key's name is contained in the other's, ignoring case. */
  predicate SimilarKeys(key: string, other: string) {
    Contains(Lower(other), Lower(key)) || Contains(Lower(key), Lower(other))
  }

  /** What `for actual_key in arguments` visits: the keys of a dict in insertion order, or the
      characters of a string, each as a one-character string. Other values are never iterated. */
  function ActualKeys(args: Json): seq<string> {
    match args
    case Object(d) => seq(|d|, i requires 0 <= i < |d| => d[i].0)
    case Scalar(Str(a)) => seq(|a|, i requires 0 <= i < |a| => [a[i]])
    case _ => []
  }

  /** `key in arguments`: a key of a dict, or a substring of a string. */
  predicate Present(key: string, args: Json) {
    match args
    case Object(d) => HasKey(d, key)
    case Scalar(Str(a)) => Contains(a, key)
    case _ => false
  }

  /** The per-key comparison runs without raising: the arguments are a dict, or a string that does
      not contain the key (`arguments[key]` on a string would raise). */
  predicate KeyComparable(key: string, args: Json) {
    args.Object? || (args.Scalar? && args.value.Str? && !Contains(args.value.s, key))
  }

  /** The whole per-key loop runs without raising. */
  predicate Comparable(expected: Dict, args: Json) {
    forall i :: 0 <= i < |expected| ==> KeyComparable(expected[i].0, args)
  }

  /** Some visited key is similar to `key`. */
  predicate HasSimilarKey(key: string, keys: seq<string>) {
    exists j :: 0 <= j < |keys| && SimilarKeys(key, keys[j])
  }

  /** The first visited key, from index `j` on, that is similar to `key`: the loop that adds the
      similar-key credit stops there. */
  function FirstSimilarKey(key: string, keys: seq<string>, j: nat): (r: Option<nat>)
    requires j <= |keys|
    ensures r.Some? ==> j <= r.value < |keys| && SimilarKeys(key, keys[r.value])
    ensures r.Some? ==> forall i :: j <= i < r.value ==> !SimilarKeys(key, keys[i])
    ensures r.None? ==> forall i :: j <= i < |keys| ==> !SimilarKeys(key, keys[i])
    decreases |keys| - j
  {
    if j == |keys| then None
    else if SimilarKeys(key, keys[j]) then Some(j)
    else FirstSimilarKey(key, keys, j + 1)
  }

  /** The arguments are a dict holding `v` under `key`. */
  predicate Matches(args: Json, key: string, v: Value) {
    args.Object? && Get(args.fields, key) == Some(v)
  }

  /** The credit for one expected argument: 1 for an equal value, 0.8 for a value whose `str()`
      agrees ignoring case, 0.3 for any other value under the key, 0.2 when the key is missing but a
      similar key exists, and 0 otherwise. */
  function KeyCredit(key: string, expected: Value, args: Json): (r: real)
    requires KeyComparable(key, args)
    ensures 0.0 <= r <= 1.0
    ensures r == 1.0 <==> Matches(args, key, expected)
    ensures r == 0.0 <==> !Present(key, args) && !HasSimilarKey(key, ActualKeys(args))
    ensures Present(key, args) ==> r >= 0.3
    ensures Present(key, args) && !Matches(args, key, expected) ==>
      var v := Get(args.fields, key).value;
      r == (if Lower(ToStr(v)) == Lower(ToStr(expected)) then 0.8 else 0.3)
    ensures !Present(key, args) ==> r == (if HasSimilarKey(key, ActualKeys(args)) then 0.2 else 0.0)
  {
    var similar := if FirstSimilarKey(key, ActualKeys(args), 0).Some? then 0.2 else 0.0;
    match args
    case Object(d) =>
      (match Get(d, key)
       case Some(v) =>
         if v == expected then 1.0
         else if Lower(ToStr(v)) == Lower(ToStr(expected)) then 0.8
         else 0.3
       case None => similar)
    case _ => similar
  }

  /** Every expected argument is present with an equal value. */
  predicate AllMatch(expected: Dict, args: Json) {
    forall i :: 0 <= i < |expected| ==> Matches(args, expected[i].0, expected[i].1)
  }

  /** The sum of the credits of the expected arguments. */
  function CreditSum(expected: Dict, args: Json): (r: real)
    requires Comparable(expected, args)
    ensures 0.0 <= r <= |expected| as real
    ensures r == |expected| as real <==> AllMatch(expected, args)
    decreases |expected|
  {
    if expected == [] then 0.0
    else
      assert Comparable(expected[1..], args) by {
        forall i | 0 <= i < |expected[1..]| ensures KeyComparable(expected[1..][i].0, args) {
          assert expected[1..][i] == expected[i + 1];
        }
      }
      var rest := CreditSum(expected[1..], args);
      assert AllMatch(expected, args) <==>
        Matches(args, expected[0].0, expected[0].1) && AllMatch(expected[1..], args) by {
        if Matches(args, expected[0].0, expected[0].1) && AllMatch(expected[1..], args) {
          forall i | 0 <= i < |expected| ensures Matches(args, expected[i].0, expected[i].1) {
            if i > 0 {
              assert expected[i] == expected[1..][i - 1];
            }
          }
        }
      }
      KeyCredit(expected[0].0, expected[0].1, args) + rest
  }

  /** The argument part of the score: the mean credit scaled to 50. */
  function ArgumentScore(expected: Dict, args: Json): (r: real)
    requires expected != [] && Comparable(expected, args)
    ensures 0.0 <= r <= 50.0
    ensures r == 50.0 <==> AllMatch(expected, args)
  {
    var n := |expected| as real;
    var sum := CreditSum(expected, args);
    FractionAtMostOne(sum, n);
    (sum / n) * 50.0
  }

  /** A part of a positive whole is at most the whole, and is all of it only when equal to it. */
  lemma FractionAtMostOne(part: real, whole: real)
    requires 0.0 <= part && 0.0 < whole
    ensures 0.0 <= part / whole
    ensures part <= whole ==> part / whole <= 1.0
    ensures part / whole == 1.0 <==> part == whole
  {
    assert part == (part / whole) * whole;
  }

  // ---------------------------------------------------------------------------------------------
  // One result

  /** The tool name is a string, or falsy; and arguments that reach the per-key comparison are a
      dict, or a string containing none of the expected keys. (Other combinations make
      `score_result` raise.) */
  predicate Scorable(res: ToolCallResult, expectedTool: string, expectedArgs: Dict) {
    && (Truthy(res.toolName) ==> res.toolName.Str?)
    && ((Truthy(res.toolName) && Lower(res.toolName.s) == Lower(expectedTool)
         && expectedArgs != [] && TruthyJson(res.arguments)) ==> Comparable(expectedArgs, res.arguments))
  }

  /** The points for the tool name: 50 for the exact name, 40 for the name ignoring case. */
  function NameScore(name: string, expectedTool: string): real {
    if name == expectedTool then 50.0 else 40.0
  }

  /** `score_result`: the score starts from 0 and only the score, the success flag and the error
      change; success is never cleared. */
  function ScoreResult(res: ToolCallResult, expectedTool: string, expectedArgs: Dict): (r: ToolCallResult)
    requires Scorable(res, expectedTool, expectedArgs)
    ensures r == res.(score := r.score, success := r.success, error := r.error)
    ensures 0.0 <= r.score <= 100.0
    ensures res.success ==> r.success
    ensures !Truthy(res.toolName) ==> r == res.(score := 0.0, error := NoToolError)
    ensures Truthy(res.toolName) && Lower(res.toolName.s) != Lower(expectedTool) ==>
      r == res.(score := 0.0, error := WrongToolError(expectedTool, res.toolName.s))
    ensures Truthy(res.toolName) && res.toolName.s == expectedTool ==> 50.0 <= r.score
    ensures Truthy(res.toolName) && res.toolName.s != expectedTool && Lower(res.toolName.s) == Lower(expectedTool) ==>
      40.0 <= r.score <= 90.0
    ensures Truthy(res.toolName) && Lower(res.toolName.s) == Lower(expectedTool) && expectedArgs == [] ==>
      r == res.(score := NameScore(res.toolName.s, expectedTool) + 50.0, success := true)
    ensures Truthy(res.toolName) && res.toolName.s != expectedTool && Lower(res.toolName.s) == Lower(expectedTool) && expectedArgs == [] ==>
      r.score == 90.0 && r.success
    ensures Truthy(res.toolName) && Lower(res.toolName.s) == Lower(expectedTool) && expectedArgs != [] && !TruthyJson(res.arguments) ==>
      r == res.(score := NameScore(res.toolName.s, expectedTool), error := NoArgumentsError)
    ensures Truthy(res.toolName) && Lower(res.toolName.s) == Lower(expectedTool) && expectedArgs != [] && TruthyJson(res.arguments) ==>
      && r.score == NameScore(res.toolName.s, expectedTool) + ArgumentScore(expectedArgs, res.arguments)
      && r == res.(score := r.score, success := res.success || r.score >= 50.0)
    ensures r.success && !res.success ==> r.score >= 50.0
    ensures r.score >= 50.0 && r.error != NoArgumentsError ==> r.success
  {
    if !Truthy(res.toolName) then res.(score := 0.0, error := NoToolError)
    else
      var name := res.toolName.s;
      if name == expectedTool then ScoreArguments(res, 50.0, expectedArgs)
      else if Lower(name) == Lower(expectedTool) then ScoreArguments(res, 40.0, expectedArgs)
      else res.(score := 0.0, error := WrongToolError(expectedTool, name))
  }

  /** The second half of `score_result`, once the name has earned `nameScore` points. */
  function ScoreArguments(res: ToolCallResult, nameScore: real, expectedArgs: Dict): (r: ToolCallResult)
    requires nameScore == 40.0 || nameScore == 50.0
    requires expectedArgs != [] && TruthyJson(res.arguments) ==> Comparable(expectedArgs, res.arguments)
    ensures nameScore <= r.score <= nameScore + 50.0
    ensures r == res.(score := r.score, success := r.success, error := r.error)
    ensures expectedArgs == [] ==> r == res.(score := nameScore + 50.0, success := true)
    ensures expectedArgs != [] && !TruthyJson(res.arguments) ==> r == res.(score := nameScore, error := NoArgumentsError)
    ensures expectedArgs != [] && TruthyJson(res.arguments) ==>
      && r.score == nameScore + ArgumentScore(expectedArgs, res.arguments)
      && r == res.(score := r.score, success := res.success || r.score >= 50.0)
  {
    if expectedArgs == [] then res.(score := nameScore + 50.0, success := true)
    else if !TruthyJson(res.arguments) then res.(score := nameScore, error := NoArgumentsError)
    else
      var score := nameScore + ArgumentScore(expectedArgs, res.arguments);
      res.(score := score, success := res.success || score >= 50.0)
  }

  /** A result scores the full 100 exactly when it names the expected tool exactly and every
      expected argument is present with an equal value; such a result succeeds. */
  lemma FullScoreIff(res: ToolCallResult, expectedTool: string, expectedArgs: Dict)
    requires Scorable(res, expectedTool, expectedArgs)
    ensures ScoreResult(res, expectedTool, expectedArgs).score == 100.0 <==>
      && res.toolName == Str(expectedTool) && expectedTool != ""
      && (expectedArgs == [] || (TruthyJson(res.arguments) && AllMatch(expectedArgs, res.arguments)))
    ensures ScoreResult(res, expectedTool, expectedArgs).score == 100.0 ==> ScoreResult(res, expectedTool, expectedArgs).success
  {
    var r := ScoreResult(res, expectedTool, expectedArgs);
    if Truthy(res.toolName) && Lower(res.toolName.s) == Lower(expectedTool) && expectedArgs != [] && TruthyJson(res.arguments) {
      var a := ArgumentScore(expectedArgs, res.arguments);
      assert r.score == NameScore(res.toolName.s, expectedTool) + a;
    }
  }

  /** With the exact tool name, a result whose arguments reach the comparison always succeeds,
      however poorly the arguments match: the name alone is worth 50. */
  lemma ExactNameSucceeds(res: ToolCallResult, expectedTool: string, expectedArgs: Dict)
    requires Scorable(res, expectedTool, expectedArgs)
    requires Truthy(res.toolName) && res.toolName.s == expectedTool
    requires expectedArgs == [] || TruthyJson(res.arguments)
    ensures ScoreResult(res, expectedTool, expectedArgs).success
  {
  }

  /** Arguments that decoded to a string are still scored: no expected key occurs in `"Tokyo"`, so
      the loop visits its characters, and `t` is similar to `location`. The key earns 0.2, the
      arguments 10 and the result 60, a success. */
  lemma StringArgumentsExample()
    ensures var res := ToolCallResult("weather", false, Str("get_weather"), Scalar(Str("Tokyo")), "", "", 0.0);
      && Scorable(res, "get_weather", [("location", Str("Tokyo"))])
      && ScoreResult(res, "get_weather", [("location", Str("Tokyo"))]).score == 60.0
      && ScoreResult(res, "get_weather", [("location", Str("Tokyo"))]).success
  {
    var args := Scalar(Str("Tokyo"));
    var expected := [("location", Str("Tokyo"))];
    assert !Contains("Tokyo", "location");
    assert KeyComparable("location", args);
    assert Comparable(expected, args);
    assert ActualKeys(args)[0] == "T";
    assert Lower("T") == "t" && Lower("location") == "location";
    assert OccursAt("location", "t", 4);
    assert SimilarKeys("location", ActualKeys(args)[0]);
    assert KeyCredit("location", Str("Tokyo"), args) == 0.2;
    assert CreditSum(expected, args) == 0.2 by {
      assert expected[1..] == [];
    }
  }

  // ---------------------------------------------------------------------------------------------
  // A template

  /** How a scored result counts for its template. */
  datatype Verdict = Passed | Partial | Failed

  function VerdictOf(r: ToolCallResult): Verdict {
    if !r.success then Failed
    else if r.score >= 90.0 then Passed
    else Partial
  }

  /** The number of results with verdict `v`. */
  function Count(results: seq<ToolCallResult>, v: Verdict): (n: nat)
    ensures n <= |results|
  {
    if results == [] then 0
    else Count(results[..|results| - 1], v) + (if VerdictOf(results[|results| - 1]) == v then 1 else 0)
  }

  /** The overall score of a template. */
  datatype TemplateScore = TemplateScore(
    templateName: string,
    totalTests: nat,
    passed: nat,
    failed: nat,
    partial: nat,
    results: seq<ToolCallResult>)
  {
    /** Full credit for each pass and half for each partial result, as a percentage of the tests;
        0 when there are none. */
    function Score(): (r: real)
      ensures totalTests == 0 ==> r == 0.0
      ensures passed + partial <= totalTests ==> 0.0 <= r <= 100.0
      ensures totalTests > 0 ==> (r == 100.0 <==> passed as real + partial as real * 0.5 == totalTests as real)
      ensures totalTests > 0 ==> (r == 0.0 <==> passed == 0 && partial == 0)
      ensures totalTests > 0 ==> r * totalTests as real == (passed as real + 0.5 * partial as real) * 100.0
    {
      if totalTests == 0 then 0.0
      else
        var points := passed as real + partial as real * 0.5;
        var t := totalTests as real;
        FractionAtMostOne(points, t);
        (points / t) * 100.0
    }
  }

  /** `score_template`: every result is kept and counted once under its verdict. */
  method ScoreTemplate(results: seq<ToolCallResult>, templateName: string) returns (ts: TemplateScore)
    ensures ts.templateName == templateName && ts.results == results
    ensures ts.totalTests == |results|
    ensures ts.passed == Count(results, Passed)
    ensures ts.partial == Count(results, Partial)
    ensures ts.failed == Count(results, Failed)
  {
    ts := TemplateScore(templateName, 0, 0, 0, 0, []);
    for i := 0 to |results|
      invariant ts.templateName == templateName && ts.results == results[..i]
      invariant ts.totalTests == i
      invariant ts.passed == Count(results[..i], Passed)
      invariant ts.partial == Count(results[..i], Partial)
      invariant ts.failed == Count(results[..i], Failed)
    {
      var r := results[i];
      assert results[..i + 1][..i] == results[..i];
      ts := ts.(totalTests := ts.totalTests + 1, results := ts.results + [r]);
      if r.success {
        if r.score >= 90.0 {
          ts := ts.(passed := ts.passed + 1);
        } else {
          ts := ts.(partial := ts.partial + 1);
        }
      } else {
        ts := ts.(failed := ts.failed + 1);
      }
    }
    assert results[..|results|] == results;
  }

  /** Every result has exactly one verdict, so the three counts add up to the number of results. */
  lemma {:induction false} CountsPartition(results: seq<ToolCallResult>)
    ensures Count(results, Passed) + Count(results, Partial) + Count(results, Failed) == |results|
  {
    if results != [] {
      CountsPartition(results[..|results| - 1]);
    }
  }

  /** `Count` reaches the number of results exactly when every result has that verdict. */
  lemma {:induction false} CountAll(results: seq<ToolCallResult>, v: Verdict)
    ensures Count(results, v) == |results| <==> forall i :: 0 <= i < |results| ==> VerdictOf(results[i]) == v
  {
    if results != [] {
      var init := results[..|results| - 1];
      CountAll(init, v);
      assert forall i :: 0 <= i < |init| ==> init[i] == results[i];
    }
  }

  /** `Count` is 0 exactly when no result has that verdict. */
  lemma {:induction false} CountNone(results: seq<ToolCallResult>, v: Verdict)
    ensures Count(results, v) == 0 <==> forall i :: 0 <= i < |results| ==> VerdictOf(results[i]) != v
  {
    if results != [] {
      var init := results[..|results| - 1];
      CountNone(init, v);
      assert forall i :: 0 <= i < |init| ==> init[i] == results[i];
    }
  }

  /** Two passes, one partial and one failure out of four tests score (2 + 0.5) / 4, that is 62.5. */
  lemma TemplateScoreExample(results: seq<ToolCallResult>)
    ensures TemplateScore("t", 4, 2, 1, 1, results).Score() == 62.5
  {
  }

  /** A template scores 100 exactly when there are tests and every one passed, and 0 exactly when
      there are none or none of them succeeded. */
  lemma TemplateScoreExtremes(results: seq<ToolCallResult>, ts: TemplateScore)
    requires ts.totalTests == |results|
    requires ts.passed == Count(results, Passed)
    requires ts.partial == Count(results, Partial)
    requires ts.failed == Count(results, Failed)
    ensures ts.Score() == 100.0 <==> results != [] && forall i :: 0 <= i < |results| ==> VerdictOf(results[i]) == Passed
    ensures ts.Score() == 0.0 <==> forall i :: 0 <= i < |results| ==> !results[i].success
  {
    CountsPartition(results);
    CountAll(results, Passed);
    CountNone(results, Passed);
    CountNone(results, Partial);
    CountNone(results, Failed);
    assert forall i :: 0 <= i < |results| ==> (!results[i].success <==> VerdictOf(results[i]) == Failed);
    if results != [] && ts.passed as real + ts.partial as real * 0.5 == ts.totalTests as real {
      assert ts.partial == 0;
    }
  }
}
