/** The four pipeline stages, each reduced to what it does with the text the
    language model sends back. A stage's response is an arbitrary string
    (an API failure arrives as "Error: ..." text), and JSON decoding is a
    parameter that either yields a value or fails. */
module Agents {
  import opened Options
  import opened Text

  datatype Priority = High | Medium | Low

  /** One planned micro-task. */
  datatype Task = Task(id: string, task: string, priority: Priority)

  /** The code stage's output; `language` holds the classifier's name. */
  datatype CodeResult = CodeResult(code: string, language: string, description: string)

  /** The review stage's output; the score is not range-checked. */
  datatype Review = Review(score: int, issues: seq<string>, suggestions: seq<string>, approved: bool)

  /** The test stage's output. */
  datatype TestResult = TestResult(testCode: string, language: string, description: string)

  /** A response decoded as JSON, or the failure of decoding it. */
  function ParseOr<T>(response: string, parse: string -> Option<T>, fallback: T): (r: T)
    ensures parse(response).Some? ==> r == parse(response).value
    ensures parse(response).None? ==> r == fallback
  {
    match parse(response)
    case Some(decoded) => decoded
    case None => fallback
  }

  // ---------------------------------------------------------------- planner

  const PlannerFallback: seq<Task> :=
    [Task("1", "Analyze requirements", High), Task("2", "Implement solution", High)]

  /** The planner: the decoded task list, or the two-task fallback when the
      response is not JSON. */
  function Plan(response: string, parse: string -> Option<seq<Task>>): (tasks: seq<Task>)
    ensures parse(response).Some? ==> tasks == parse(response).value
    ensures parse(response).None? ==>
      && |tasks| == 2
      && tasks[0].id == "1" && tasks[1].id == "2"
      && tasks[0].priority == High && tasks[1].priority == High
  {
    ParseOr(response, parse, PlannerFallback)
  }

  // ------------------------------------------------------------- code stage

  const Python := "python"
  const JavaScript := "javascript"
  const Java := "java"

  const JavaScriptKeywords: seq<string> := ["function", "const", "let", "var"]
  const JavaKeywords: seq<string> := ["public class", "private", "import java"]

  /** The keyword classifier: JavaScript keywords are looked for first, Java
      keywords next, and Python is the default. */
  function DetectLanguage(code: string): (language: string)
    ensures language == Python || language == JavaScript || language == Java
    ensures language == JavaScript <==> OccursAny(JavaScriptKeywords, Lower(code))
    ensures language == Java <==>
      !OccursAny(JavaScriptKeywords, Lower(code)) && OccursAny(JavaKeywords, Lower(code))
  {
    var lowered := Lower(code);
    if ContainsAny(lowered, JavaScriptKeywords) then JavaScript
    else if ContainsAny(lowered, JavaKeywords) then Java
    else Python
  }

  /** The classifier in terms of the individual keywords: JavaScript exactly
      when one of its four keywords occurs in the lower-cased code. */
  lemma JavaScriptKeywordsDecide(code: string)
    ensures DetectLanguage(code) == JavaScript <==>
      || Occurs("function", Lower(code)) || Occurs("const", Lower(code))
      || Occurs("let", Lower(code)) || Occurs("var", Lower(code))
  {
    var l := Lower(code);
    if OccursAny(JavaScriptKeywords, l) {
      var k :| 0 <= k < |JavaScriptKeywords| && Occurs(JavaScriptKeywords[k], l);
      assert k in {0, 1, 2, 3};
    }
    if Occurs("function", l) { assert Occurs(JavaScriptKeywords[0], l); }
    if Occurs("const", l) { assert Occurs(JavaScriptKeywords[1], l); }
    if Occurs("let", l) { assert Occurs(JavaScriptKeywords[2], l); }
    if Occurs("var", l) { assert Occurs(JavaScriptKeywords[3], l); }
  }

  /** Java exactly when no JavaScript keyword occurs and one of the three
      Java markers does; Python exactly when neither kind occurs. */
  lemma JavaKeywordsDecide(code: string)
    ensures DetectLanguage(code) == Java <==>
      && DetectLanguage(code) != JavaScript
      && (Occurs("public class", Lower(code)) || Occurs("private", Lower(code))
          || Occurs("import java", Lower(code)))
    ensures DetectLanguage(code) == Python <==>
      && DetectLanguage(code) != JavaScript
      && !Occurs("public class", Lower(code)) && !Occurs("private", Lower(code))
      && !Occurs("import java", Lower(code))
  {
    var l := Lower(code);
    if OccursAny(JavaKeywords, l) {
      var k :| 0 <= k < |JavaKeywords| && Occurs(JavaKeywords[k], l);
      assert k in {0, 1, 2};
    }
    if Occurs("public class", l) { assert Occurs(JavaKeywords[0], l); }
    if Occurs("private", l) { assert Occurs(JavaKeywords[1], l); }
    if Occurs("import java", l) { assert Occurs(JavaKeywords[2], l); }
  }

  /** A JavaScript keyword wins over any Java marker in the same text. */
  lemma JavaScriptTakesPrecedence(code: string, js: nat, java: nat)
    requires js < |JavaScriptKeywords| && java < |JavaKeywords|
    requires Occurs(JavaScriptKeywords[js], Lower(code))
    requires Occurs(JavaKeywords[java], Lower(code))
    ensures DetectLanguage(code) == JavaScript
  {
  }

  /** Classification only sees the lower-cased text, so it ignores case. */
  lemma DetectIgnoresCase(a: string, b: string)
    requires Lower(a) == Lower(b)
    ensures DetectLanguage(a) == DetectLanguage(b)
  {
  }

  /** Lower-casing the code first does not change its classification. */
  lemma DetectOfLowered(code: string)
    ensures DetectLanguage(Lower(code)) == DetectLanguage(code)
  {
    LowerIdempotent(code);
  }

  /** Keywords are matched as substrings, not words: "delete" holds "let",
      so this Python definition is classified as JavaScript. */
  lemma KeywordInsideWord()
    ensures DetectLanguage("def delete(x): pass") == JavaScript
  {
    var l := Lower("def delete(x): pass");
    assert l[6..9] == "let";
    assert OccursAt("let", l, 6);
    JavaScriptKeywordsDecide("def delete(x): pass");
  }

  const DescriptionLength: nat := 100

  /** The code description: the prompt cut to its first hundred characters,
      followed by "...". */
  function Describe(prompt: string): (d: string)
    ensures |d| == (if |prompt| < DescriptionLength then |prompt| else DescriptionLength) + 3
    ensures d[..|d| - 3] <= prompt && d[|d| - 3..] == "..."
    ensures |prompt| <= DescriptionLength ==> d == prompt + "..."
  {
    var kept := Take(prompt, DescriptionLength);
    assert (kept + "...")[..|kept|] == kept;
    kept + "..."
  }

  /** Two prompts get the same description exactly when they agree on their
      first hundred characters. */
  lemma SameDescription(a: string, b: string)
    ensures Describe(a) == Describe(b) <==> Take(a, DescriptionLength) == Take(b, DescriptionLength)
  {
  }

  /** The code stage: the response verbatim, its classified language, and the
      description of the prompt. The task list only shapes the request. */
  function Code(prompt: string, response: string): (r: CodeResult)
    ensures r.code == response
    ensures r.language == DetectLanguage(response)
    ensures r.description == Describe(prompt)
  {
    CodeResult(response, DetectLanguage(response), Describe(prompt))
  }

  /** One bullet of the task summary. */
  function Bullet(t: Task): string
  {
    "- " + t.task
  }

  /** The task summary placed in the code stage's instructions: one bullet
      per task, joined by newlines. */
  function TaskSummary(tasks: seq<Task>): (summary: string)
    ensures summary == "" <==> |tasks| == 0
    ensures |tasks| >= 1 ==> "- " + tasks[0].task <= summary
  {
    var lines := seq(|tasks|, k requires 0 <= k < |tasks| => Bullet(tasks[k]));
    assert |tasks| >= 1 ==> lines[0] == "- " + tasks[0].task;
    JoinLines(lines)
  }

  /** The summary has exactly one line per task, in task order, each line the
      task's text after "- " (provided no task text holds a newline). */
  lemma TaskSummaryLines(tasks: seq<Task>)
    requires |tasks| >= 1
    requires forall k :: 0 <= k < |tasks| ==> '\n' !in tasks[k].task
    ensures |SplitLines(TaskSummary(tasks))| == |tasks|
    ensures forall k :: 0 <= k < |tasks| ==> SplitLines(TaskSummary(tasks))[k] == "- " + tasks[k].task
  {
    var lines := seq(|tasks|, k requires 0 <= k < |tasks| => Bullet(tasks[k]));
    forall k | 0 <= k < |lines|
      ensures '\n' !in lines[k]
    {
      assert lines[k] == "- " + tasks[k].task;
    }
    SplitJoinLines(lines);
  }

  /** No tasks give an empty summary. */
  lemma EmptyTaskSummary()
    ensures TaskSummary([]) == ""
  {
  }

  // ----------------------------------------------------------------- critic

  const ReviewFallback := Review(7, ["Could not parse review"], ["Manual review recommended"], true)

  /** The critic: the decoded review, or an approving score-7 review with one
      issue and one suggestion when the response is not JSON. */
  function Critique(response: string, parse: string -> Option<Review>): (review: Review)
    ensures parse(response).Some? ==> review == parse(response).value
    ensures parse(response).None? ==>
      && review.score == 7 && review.approved
      && |review.issues| == 1 && |review.suggestions| == 1
  {
    ParseOr(response, parse, ReviewFallback)
  }

  // ------------------------------------------------------------ test stage

  /** The test stage: the response verbatim, with the code's language and a
      description derived from the code's description. */
  function Tests(code: CodeResult, response: string): (r: TestResult)
    ensures r.testCode == response
    ensures r.language == code.language
    ensures r.description == "Tests for " + code.description
  {
    TestResult(response, code.language, "Tests for " + code.description)
  }

  /** Along the pipeline, the test description is "Tests for " followed by
      at most a hundred characters of the prompt and "...". */
  lemma TestDescriptionOfPrompt(prompt: string, codeResponse: string, testResponse: string)
    ensures var d := Tests(Code(prompt, codeResponse), testResponse).description;
      && d[..10] == "Tests for "
      && d[10..|d| - 3] <= prompt
      && d[|d| - 3..] == "..."
      && |d| - 13 == (if |prompt| < DescriptionLength then |prompt| else DescriptionLength)
  {
  }
}
