# CodeCraft-AI core, modelled in Dafny

CodeCraft-AI chains four calls to a hosted language model: a planner breaks a
goal into micro-tasks, a code generator writes code, a critic reviews it, and a
test generator writes unit tests. An orchestrator runs the four in sequence and
merges their outputs into one result record, which can be saved as three files.
The repository also ships one program the pipeline generated: a password
validator.

This project models the deterministic parts of both.

- `password.dfy` (module `Password`): the generated `validate_password`. It
  checks five requirements in a fixed order: length at least 8, an ASCII
  upper-case letter, an ASCII lower-case letter, an ASCII digit, and one of
  `_`, `@`, `$`. It returns the message of the first requirement that fails,
  or "Password is valid.". The requirements are also stated independently
  (`Satisfies`, `FirstFailing`), and the validator is proved to agree with them.
- `agents.dfy` (module `Agents`): the four stages, reduced to what they do with
  the model's reply. These are the planner and critic parse-or-fallback rule,
  the keyword language classifier, the code description, the task-summary
  bullet list, and the test record.
- `orchestrator.dfy` (module `Orchestrator`): `generate_code`'s result record,
  and the pure parts of `save_result`. Those are the extension choice, the
  three file names and the metadata entries.
- `text.dfy` (module `Text`): ASCII lower-casing, substring search (proved
  against an existential definition of "occurs"), and newline join/split
  (proved to round-trip).
- `options.dfy` (module `Options`): the `Option` type standing for the outcome
  of JSON decoding.

Each stage's reply from the model is a plain string parameter. The model calls
are network I/O, and an API failure comes back as "Error: ..." text, so any
string may arrive. JSON decoding is a parameter of type `string -> Option<T>`:
it either yields a value or fails. The model covers both branches.

The extension choice is two-way: `"python"` gives `.py` and anything else gives
`.js`. So code classified as `"java"` is saved with the `.js` extension. The
model keeps this behaviour as written; `Orchestrator.ExtensionOfDetected`
states it.

On two points the code is looser than one might expect, and the model
follows the code:
- The critic is asked for a score from 1 to 10. The code passes any decoded score
  through unchecked, so `Review.score` is an unconstrained `int`.
- The classifier checks the two keyword lists one after the other, so any
  JavaScript keyword wins over every Java marker, wherever each occurs
  (`Agents.JavaScriptTakesPrecedence`).

## Model

| member | source | states |
|---|---|---|
| Password.ValidatePassword | generated/script.py:5-29 | The result is always one of the six fixed messages. A password shorter than 8 gets the length message. The result is "Password is valid." exactly when all five requirements hold. It is requirement k's message exactly when requirement k is the first failing one in the order length, upper, lower, digit, special. |
| Password.Message | generated/script.py:15-27 | The failure message of each requirement, as the source spells it; no failure message equals the success message. |
| Password.Search | generated/script.py:17-27 | A class search is true exactly when some character of the password lies in the class: [A-Z], [a-z], [0-9] or one of `_@$`. |
| Password.MessagesDistinct | generated/script.py:15-29 | The five failure messages are pairwise different and none equals the success message, so the message identifies the failed requirement. |
| Password.PresenceDecides | generated/script.py:14-29 | The outcome depends only on whether the length is at least 8 and on which character classes are present. |
| Password.NeutralCharacter | generated/script.py:14-29 | In a password of length at least 8, inserting a character of no class (such as a space) at any position never changes the outcome. |
| Password.AcceptedExamples | generated/script_test.py:9-25 | "Password1$" and "Password 1$" are valid. |
| Password.ShortExamples | generated/script_test.py:21-23 | "Pass1$" and the empty string get the length message. |
| Password.NoUpperExample | generated/script_test.py:11 | "password1$" gets the upper-case message. |
| Password.NoLowerExample | generated/script_test.py:13 | "PASSWORD1$" gets the lower-case message. |
| Password.NoDigitExample | generated/script_test.py:15 | "Password$" gets the number message. |
| Password.NoSpecialExample | generated/script_test.py:17 | "Password1" gets the special-character message. |
| Text.Lower | ai_agents.py:89 | Lower-casing keeps the length, maps each ASCII capital to its small letter and keeps every other character. |
| Text.LowerHasNoUpper | ai_agents.py:89 | No ASCII capital is left after lower-casing. |
| Text.LowerIdempotent | ai_agents.py:89-91 | Lower-casing twice is the same as lower-casing once. |
| Text.Contains | ai_agents.py:89-91 | `kw in s` is true exactly when kw occurs in s at some offset. |
| Text.ContainsAny | ai_agents.py:89-91 | `any(kw in s ...)` is true exactly when some keyword of the list occurs in s. |
| Text.Take | ai_agents.py:97 | `s[:n]` is a prefix of s of length min(n, \|s\|). |
| Text.JoinLines | ai_agents.py:71 | Joining no lines gives ""; otherwise the result starts with the first line. Its inverse on newline-free lines is stated by `Text.SplitJoinLines`. |
| Text.SplitJoinLines | ai_agents.py:71 | Splitting a newline-join of one or more newline-free lines gives back exactly those lines. |
| Agents.ParseOr | ai_agents.py:56-61 | The try-decode-or-fallback pattern: a reply that decodes yields the decoded value unchanged, and a reply that does not yields the fallback. The critic uses the same pattern. |
| Agents.Plan | ai_agents.py:55-61 | A decoded plan is returned unchanged. Otherwise the plan is exactly two tasks, ids "1" and "2", both priority high. |
| Agents.DetectLanguage | ai_agents.py:87-92 | The result is "python", "javascript" or "java". It is "javascript" exactly when a JavaScript keyword occurs in the lower-cased code. It is "java" exactly when none does and a Java marker does. |
| Agents.JavaScriptKeywordsDecide | ai_agents.py:89-90 | "javascript" exactly when "function", "const", "let" or "var" occurs in the lower-cased code. |
| Agents.JavaKeywordsDecide | ai_agents.py:88-92 | "java" exactly when the result is not "javascript" and "public class", "private" or "import java" occurs. "python" exactly when neither kind occurs. |
| Agents.JavaScriptTakesPrecedence | ai_agents.py:89-91 | Code holding both a JavaScript keyword and a Java marker is classified "javascript". |
| Agents.DetectIgnoresCase | ai_agents.py:89-91 | Codes with the same lower-cased text get the same classification. |
| Agents.DetectOfLowered | ai_agents.py:89-91 | Lower-casing the code first never changes its classification. |
| Agents.KeywordInsideWord | ai_agents.py:89-90 | Keywords match as substrings: "def delete(x): pass" is classified "javascript" because "delete" holds "let". |
| Agents.Describe | ai_agents.py:97 | The description is the first min(100, \|prompt\|) characters of the prompt followed by "...". A prompt of at most 100 characters appears whole. |
| Agents.SameDescription | ai_agents.py:97 | Two prompts get the same description exactly when their first 100 characters agree. |
| Agents.Code | ai_agents.py:85-98 | The code result holds the reply verbatim, its classified language and the prompt's description. |
| Agents.TaskSummary | ai_agents.py:71 | The summary is empty exactly when there are no tasks, and otherwise starts with "- " and the first task's text. |
| Agents.TaskSummaryLines | ai_agents.py:71 | For one or more tasks without newlines in their text, the summary has one line per task, in order, and line k is "- " followed by task k's text. |
| Agents.EmptyTaskSummary | ai_agents.py:71 | No tasks give an empty summary. |
| Agents.Critique | ai_agents.py:124-135 | A decoded review is returned unchanged. Otherwise the review has score 7, is approved, and has exactly one issue and one suggestion. |
| Agents.Tests | ai_agents.py:155-161 | The test result holds the reply verbatim, the code's language, and "Tests for " followed by the code's description. |
| Agents.TestDescriptionOfPrompt | ai_agents.py:157-161 | Along the pipeline, the test description is "Tests for ", then at most 100 characters of the prompt, then "...". Its length is 13 + min(100, \|prompt\|). |
| Orchestrator.GenerateCode | ai_agents.py:173-208 | The record carries the prompt and the planner's tasks. Code and tests are the replies verbatim. The language is the classifier's. The review is the critic's. quality_score and approved are the review's score and approval. |
| Orchestrator.AllFallbacks | ai_agents.py:178-208 | When no reply decodes, the run still completes with two tasks, quality score 7 and approved true. |
| Orchestrator.DecodedReviewReported | ai_agents.py:199-208 | When the review reply decodes, the record's quality score, approval and review are exactly that review's. |
| Orchestrator.Extension | ai_agents.py:218 | The extension is ".py" or ".js", and it is ".py" exactly when the language is "python". |
| Orchestrator.ExtensionOfDetected | ai_agents.py:218 | A classified language gets ".py" exactly when it is "python". Java-classified code gets ".js". |
| Orchestrator.SavePaths | ai_agents.py:212-228 | For a non-empty base name (an empty one is replaced by a time-stamped name first), the code, test and metadata file names all start with the base name and are pairwise different, so the three writes never target the same file. |
| Orchestrator.KeyNamesDistinct | ai_agents.py:199-208 | The eight record keys have pairwise different spellings. |
| Orchestrator.Entries | ai_agents.py:199-208 | The result record as a dictionary: eight entries, no key twice, in the source's insertion order (which `Orchestrator.MetadataOfResult` relies on). |
| Orchestrator.WithoutKeys | ai_agents.py:227 | Filtering never lengthens the entries, and no kept entry has a dropped key. |
| Orchestrator.WithoutKeysMembers | ai_agents.py:227 | An entry survives the filter exactly when it is in the record and its key is not dropped. |
| Orchestrator.Metadata | ai_agents.py:226-227 | No metadata entry has the key "code" or "tests". |
| Orchestrator.MetadataOfResult | ai_agents.py:199-227 | The metadata is exactly the record's prompt, tasks, language, review, quality_score and approved entries, with unchanged values and in the record's order. |

## Left out

- The model-client construction and the chat-completion request, including the prompts and system messages sent: this is network I/O. Each stage's reply is a parameter, and the "Error: ..." text of a failed call is just one possible reply.
- `json.loads` and `json.dump` internals: foreign library calls. Decoding is a `string -> Option<T>` parameter; writing the metadata file is not modelled.
- Agents.Plan: a decoded plan is typed as a list of `Task` (string id and text, priority high, medium or low). The source returns any decoded JSON value unchecked, and the orchestrator then fails on most values that are not such a list. A number, `true`, `false` or `null` has no length and fails at `len(tasks)` (ai_agents.py:181). A non-empty string, a non-empty object, or a list with an element that is not a dictionary with a "task" key fails when the task summary is built (ai_agents.py:71, reached from ai_agents.py:185). Only `[]`, `""`, `{}` and lists of dictionaries that each have "task" reach the result record. The model covers `[]` and well-formed task lists; the other shapes (an empty string or object, a numeric id, an unknown or missing priority, extra keys) are not modelled.
- Agents.Critique: a decoded review is typed as a `Review`. The source returns any decoded JSON value, and the orchestrator fails on a value that is not a dictionary with a "score" key (ai_agents.py:191), and on one with "score" but without "approved" (ai_agents.py:207). Those failure paths, and reviews whose fields have other JSON types, are not modelled.
- Agents.Code: the task list enters the stage only through the summary placed in the request text (ai_agents.py:71), and that request is not modelled. So the stage takes the prompt and the reply alone, and the summary is modelled separately as `Agents.TaskSummary` over well-formed tasks. The summary can also fail on an ill-formed plan; that failure is covered under Agents.Plan above.
- Text.Lower: ASCII lower-casing only. Python's `str.lower` also maps non-ASCII letters, so the lowered text can differ. The classification does not: the only non-ASCII characters that lower to ASCII text are U+0130 (to "i" and a combining dot) and U+212A (to "k"); no keyword contains "k", and every "i" in a keyword is followed by an ASCII letter, so neither can create or break a match.
- Agents.TaskSummaryLines: the one-line-per-task round trip holds only when no task text contains a newline.
- `save_result`'s default file name built from the current time: it reads the clock. The base name of `Orchestrator.SavePaths` is the name after that substitution, so it is never empty.
- The file writes themselves and their lack of atomicity across the three files: I/O.
- `main`, argument parsing, the API-key check, console output and the usage text: command-line I/O.
- The top-level `print` calls of the generated validator: console output. Their comments claim several missing requirements are reported at once; the function returns only the first failure, and the model follows the function.
- The validator's tests that pass a number or `None`: Dafny's types rule such arguments out.
