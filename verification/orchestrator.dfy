/** The orchestrator: the four stages run in a fixed order and their outputs
    merged into one result record; and the pure part of saving that record
    (the file extension, the three file names, the metadata entries). */
module Orchestrator {
  import opened Options
  import opened Agents

  /** The text the model sends back at each stage, in call order. */
  datatype Responses = Responses(plan: string, code: string, review: string, tests: string)

  /** The record one run produces. */
  datatype PipelineResult = PipelineResult(
    prompt: string,
    tasks: seq<Task>,
    code: string,
    language: string,
    review: Review,
    tests: string,
    qualityScore: int,
    approved: bool)

  /** Plan, code, review and test in sequence; no stage outcome (a rejecting
      review included) stops the run. */
  function GenerateCode(prompt: string, responses: Responses,
                        parsePlan: string -> Option<seq<Task>>,
                        parseReview: string -> Option<Review>): (r: PipelineResult)
    ensures r.prompt == prompt
    ensures r.tasks == Plan(responses.plan, parsePlan)
    ensures r.code == responses.code && r.tests == responses.tests
    ensures r.language == DetectLanguage(responses.code)
    ensures r.review == Critique(responses.review, parseReview)
    ensures r.qualityScore == r.review.score && r.approved == r.review.approved
  {
    var tasks := Plan(responses.plan, parsePlan);
    var codeResult := Code(prompt, responses.code);
    var review := Critique(responses.review, parseReview);
    var tests := Tests(codeResult, responses.tests);
    PipelineResult(prompt, tasks, codeResult.code, codeResult.language, review,
                   tests.testCode, review.score, review.approved)
  }

  /** When no response decodes, the run still completes: two fallback tasks
      and an approving review with score 7. */
  lemma AllFallbacks(prompt: string, responses: Responses,
                     parsePlan: string -> Option<seq<Task>>,
                     parseReview: string -> Option<Review>)
    requires parsePlan(responses.plan).None? && parseReview(responses.review).None?
    ensures var r := GenerateCode(prompt, responses, parsePlan, parseReview);
      |r.tasks| == 2 && r.qualityScore == 7 && r.approved
  {
  }

  /** With a review that decodes, the reported score and approval are that
      review's own fields. */
  lemma DecodedReviewReported(prompt: string, responses: Responses,
                              parsePlan: string -> Option<seq<Task>>,
                              parseReview: string -> Option<Review>, review: Review)
    requires parseReview(responses.review) == Some(review)
    ensures var r := GenerateCode(prompt, responses, parsePlan, parseReview);
      r.qualityScore == review.score && r.approved == review.approved && r.review == review
  {
  }

  // ------------------------------------------------------------ save_result

  /** The extension of both saved code files: a two-way choice, so Java code
      is saved with the JavaScript extension. */
  function Extension(language: string): (ext: string)
    ensures ext == ".py" || ext == ".js"
    ensures ext == ".py" <==> language == Python
  {
    if language == Python then ".py" else ".js"
  }

  /** Every classified language other than Python, Java included, is saved
      as ".js". */
  lemma ExtensionOfDetected(code: string)
    ensures Extension(DetectLanguage(code)) == ".py" <==> DetectLanguage(code) == Python
    ensures DetectLanguage(code) == Java ==> Extension(DetectLanguage(code)) == ".js"
  {
  }

  /** The three files written for a base name: code, tests, metadata. The
      base is never empty: an empty name is replaced by a time-stamped one. */
  function SavePaths(base: string, language: string): (paths: (string, string, string))
    requires base != ""
    ensures base <= paths.0 && base <= paths.1 && base <= paths.2
    ensures paths.0 != paths.1 && paths.1 != paths.2 && paths.0 != paths.2
  {
    var ext := Extension(language);
    var paths := (base + ext, base + "_test" + ext, base + "_info.json");
    assert paths.0[|base|] == '.' && paths.1[|base|] == '_' && paths.2[|base|] == '_';
    assert paths.1[|base| + 1] == 't' && paths.2[|base| + 1] == 'i';
    paths
  }

  /** A key of the result record's dictionary. */
  datatype Key =
    | PromptKey | TasksKey | CodeKey | LanguageKey
    | ReviewKey | TestsKey | QualityScoreKey | ApprovedKey

  /** The key as it is spelled in the dictionary and the metadata file. */
  function KeyName(k: Key): string
  {
    match k
    case PromptKey => "prompt"
    case TasksKey => "tasks"
    case CodeKey => "code"
    case LanguageKey => "language"
    case ReviewKey => "review"
    case TestsKey => "tests"
    case QualityScoreKey => "quality_score"
    case ApprovedKey => "approved"
  }

  /** Different keys are spelled differently, so filtering by key is
      filtering by key name. */
  lemma KeyNamesDistinct(k1: Key, k2: Key)
    ensures KeyName(k1) == KeyName(k2) ==> k1 == k2
  {
  }

  /** A value of the result record, as stored in its dictionary. */
  datatype Value =
    | Str(str: string)
    | TaskList(tasks: seq<Task>)
    | ReviewValue(review: Review)
    | Number(number: int)
    | Flag(flag: bool)

  /** The result record as its dictionary, entries in insertion order. */
  function Entries(r: PipelineResult): (es: seq<(Key, Value)>)
    ensures |es| == 8
    ensures forall i, j :: 0 <= i < j < |es| ==> es[i].0 != es[j].0
  {
    [ (PromptKey, Str(r.prompt)),
      (TasksKey, TaskList(r.tasks)),
      (CodeKey, Str(r.code)),
      (LanguageKey, Str(r.language)),
      (ReviewKey, ReviewValue(r.review)),
      (TestsKey, Str(r.tests)),
      (QualityScoreKey, Number(r.qualityScore)),
      (ApprovedKey, Flag(r.approved)) ]
  }

  /** The entries whose key is not in `drop`, order kept. */
  function WithoutKeys(entries: seq<(Key, Value)>, drop: set<Key>): (kept: seq<(Key, Value)>)
    ensures |kept| <= |entries|
    ensures forall i :: 0 <= i < |kept| ==> kept[i].0 !in drop
  {
    if |entries| == 0 then []
    else
      var rest := WithoutKeys(entries[1..], drop);
      if entries[0].0 in drop then rest else [entries[0]] + rest
  }

  /** The filter keeps exactly the entries whose key is not dropped. */
  lemma {:induction false} WithoutKeysMembers(entries: seq<(Key, Value)>, drop: set<Key>, e: (Key, Value))
    ensures e in WithoutKeys(entries, drop) <==> e in entries && e.0 !in drop
    decreases |entries|
  {
    if |entries| > 0 {
      WithoutKeysMembers(entries[1..], drop, e);
      assert e in entries <==> e == entries[0] || e in entries[1..];
    }
  }

  /** The keys the metadata file leaves out: they get files of their own. */
  const SavedSeparately: set<Key> := {CodeKey, TestsKey}

  /** The metadata written to the information file. */
  function Metadata(r: PipelineResult): (meta: seq<(Key, Value)>)
    ensures forall i :: 0 <= i < |meta| ==> meta[i].0 != CodeKey && meta[i].0 != TestsKey
  {
    WithoutKeys(Entries(r), SavedSeparately)
  }

  /** The metadata is the record minus exactly its code and tests, the other
      six entries kept unchanged and in order. */
  lemma MetadataOfResult(r: PipelineResult)
    ensures Metadata(r) ==
      [ (PromptKey, Str(r.prompt)),
        (TasksKey, TaskList(r.tasks)),
        (LanguageKey, Str(r.language)),
        (ReviewKey, ReviewValue(r.review)),
        (QualityScoreKey, Number(r.qualityScore)),
        (ApprovedKey, Flag(r.approved)) ]
  {
    var es, drop := Entries(r), SavedSeparately;
    assert es[8..] == [];
    KeepStep(es, 7, drop);
    KeepStep(es, 6, drop);
    SkipStep(es, 5, drop);
    var tail := WithoutKeys(es[5..], drop);
    assert tail == [es[6], es[7]];
    KeepStep(es, 4, drop);
    KeepStep(es, 3, drop);
    SkipStep(es, 2, drop);
    tail := WithoutKeys(es[2..], drop);
    assert tail == [es[3], es[4], es[6], es[7]];
    KeepStep(es, 1, drop);
    KeepStep(es, 0, drop);
    assert es[0..] == es;
  }

  /** A kept entry heads the filtered rest. */
  lemma KeepStep(es: seq<(Key, Value)>, i: nat, drop: set<Key>)
    requires i < |es| && es[i].0 !in drop
    ensures WithoutKeys(es[i..], drop) == [es[i]] + WithoutKeys(es[i + 1..], drop)
  {
  }

  /** A dropped entry leaves no trace. */
  lemma SkipStep(es: seq<(Key, Value)>, i: nat, drop: set<Key>)
    requires i < |es| && es[i].0 in drop
    ensures WithoutKeys(es[i..], drop) == WithoutKeys(es[i + 1..], drop)
  {
  }
}
