# Template trainer core, modelled in Dafny

The template trainer improves the chat template of a language model so that the model calls tools
reliably. The model covers three parts of it.

- **Scorer.** `parse_tool_call` finds a tool call in a model's output. It tries four textual
  conventions in a fixed order; each is a regular expression searched with `re.search`, and its
  payload is decoded with `json.loads`. `score_result` grades the call against the expected tool
  name and arguments. `score_template` counts passes, partial passes and failures over all tests.
  `TemplateScore.score` turns those counts into a percentage.
- **Optimizer.** The catalogue of five instruction texts (`TEMPLATE_MUTATIONS`) and their injection
  into a template (`add_system_instructions`, `mutate_template`). The variants generated from a base
  template (`generate_variants`) and mutations applied in sequence (`combine_mutations`). The
  extraction of the system prompt from a template (`extract_system_prompt`).
- **Fetcher.** The family table (`TEMPLATE_MAPPINGS`) and the family guessed from a model name. The
  chat template picked out of a repository's tokenizer configuration. The choice between that
  template and a built-in one in `get_template_for_model`.

Modules:

- `Wrappers`: `Option`.
- `Text`: Python string helpers: `strip`, `lower`, `in`, greedy character runs.
- `Json`: decoded values, Python truthiness, `str()`, and `json.loads` as a decoder parameter.
- `Patterns`: the four regular expressions, as scanners proved equal to declarative shapes, plus
  the leftmost search.
- `Extract`: `parse_tool_call`.
- `Scorer`: scoring.
- `Optimizer` and `SystemPrompt`: mutations and `extract_system_prompt`.
- `Fetcher`: template choice.

Each regular expression is modelled twice:

- a scanner function that computes the match at a position;
- a declarative `...Shape` predicate that says which spans of the text form a match.

`...Meaning` lemmas prove the two agree in both directions. For the bare-object convention, whose
pattern can backtrack, the split is into `...Sound` and `...Complete` lemmas. `SearchIsLeftmost`
proves that the search returns exactly the leftmost match.

The system-prompt pattern of `extract_system_prompt` follows the same plan. `OpenerShape` describes
the opening tag, and `OpenerEndMeaning` proves the scanner agrees with it. The lazy body is
described by `FirstEndifMeaning`, `BlockAtMeaning` and `FindBlockMeaning`.

Where the project's documentation and the code disagree, the model follows the code:

- A wrong tool name does not clear `success`. `score_result` never sets `success` to false; it only
  sets the score and the error.
- When the expected arguments are not empty but the result has none, `score_result` returns with the
  name score (50 or 40) and leaves `success` as it was. So a score of 50 is not always a success.
- With no expected arguments, an exact name scores 50 + 50 = 100, not 50. A case-insensitive name
  scores 40 + 50 = 90.
- `<tool_call={"name": "f", "arguments": {"k": "v"}}>` is not matched by the `<tool_call=...>`
  convention, because its payload pattern `\{[^}]+\}` stops at the first `}`. The bare-object
  convention then matches the whole JSON object inside the tag, from its first `{`. Its name is `f`
  and its arguments are the nested object (`Extract.NestedArgumentsFallThrough`).

## Model

| member | source | states |
|---|---|---|
| Scorer.ScoreResult | template_trainer/scorer.py:101-158 | only score, success and error change; the score stays in 0..100; success is never cleared; no name gives 0 and the no-tool error; a name that differs even ignoring case gives 0 and the wrong-tool error; an exact name earns at least 50, a case-insensitive one 40 to 90; no expected arguments give 100 (exact name) or 90 (case-insensitive name) and success; missing arguments give the name score and their error; otherwise the score is the name score plus the argument score; a result newly marked successful has at least 50, and a score of 50 or more without the missing-arguments error is a success |
| Scorer.ScoreArguments | template_trainer/scorer.py:118-158 | the score lies between the name score and 50 more; empty expected arguments add 50 and set success; falsy arguments keep the name score and set the missing-arguments error; otherwise the score is the name score plus the argument score, and success becomes true when it reaches 50 and is otherwise kept |
| Scorer.KeyCredit | template_trainer/scorer.py:134-148 | a key's credit lies in 0..1; it is 1 exactly when the arguments are a dict holding the expected value under the key; a present key with another value earns 0.8 when the values' `str()` agree ignoring case and 0.3 otherwise; a missing key earns 0.2 when some visited key (a dict key, or a character of string arguments) is similar to it, and 0 otherwise |
| Scorer.FirstSimilarKey | template_trainer/scorer.py:145-148 | the inner loop stops at the first visited key similar to the expected one, ignoring case, or finds none |
| Scorer.CreditSum | template_trainer/scorer.py:130-149 | the summed credit lies between 0 and the number of expected arguments, and reaches it exactly when every expected argument is present with an equal value |
| Scorer.ArgumentScore | template_trainer/scorer.py:150 | the argument score lies in 0..50 and is 50 exactly when every expected argument matches |
| Scorer.StringArgumentsExample | template_trainer/scorer.py:134-156 | arguments that decoded to the string `"Tokyo"` are scored without raising: against the expected `{"location": "Tokyo"}` the character `T` is a similar key, so the call scores 60 and succeeds |
| Scorer.FullScoreIff | template_trainer/scorer.py:101-158 | a result scores 100 exactly when it names the expected (non-empty) tool exactly and all expected arguments match, or none are expected; such a result succeeds |
| Scorer.ExactNameSucceeds | template_trainer/scorer.py:110-156 | with the exact tool name, a result whose arguments reach the comparison always succeeds |
| Scorer.TemplateScore.Score | template_trainer/scorer.py:31-38 | 0 with no tests; otherwise the score times the number of tests is 100 times (passes + half the partial results); within 0..100 when the counts fit the total; 100 exactly when full and half credit add up to the total; 0 exactly when nothing passed or partially passed |
| Scorer.TemplateScoreExample | template_trainer/scorer.py:31-38 | 2 passes, 1 partial and 1 failure out of 4 tests score 62.5 |
| Scorer.ScoreTemplate | template_trainer/scorer.py:161-177 | every result is kept in order and counted once, under passed, partial or failed according to its success flag and its score |
| Scorer.CountsPartition | template_trainer/scorer.py:165-175 | passed, partial and failed counts add up to the number of results |
| Scorer.CountAll | template_trainer/scorer.py:165-175 | a count equals the number of results exactly when every result has that verdict |
| Scorer.CountNone | template_trainer/scorer.py:165-175 | a count is 0 exactly when no result has that verdict |
| Scorer.TemplateScoreExtremes | template_trainer/scorer.py:161-177 | a template scores 100 exactly when there are tests and all passed, and 0 exactly when no result succeeded |
| Json.Get | template_trainer/scorer.py:55 | `d.get(key)` yields a value exactly when the key is present, and the pair is in the dict |
| Json.LoadsObject | template_trainer/scorer.py:54 | `json.loads` of text that opens with `{`: the decoded object, and nothing exactly when the decoder fails. The source makes no type check: the model assumes the decoder yields an object for such text, and reads any other outcome as a failure |
| Patterns.ToolCallTagMeaning | template_trainer/scorer.py:50-51 | the scanner finds a `<tool_call={...}>` match at `i` exactly when a span starting at `i` has that shape: opener, a non-empty run without `}`, then `}>`, with the group from `{` to `}` |
| Patterns.NameValueMeaning | template_trainer/scorer.py:60 | the `"name"` part is found at `p` exactly when a colon gap and a non-empty quoted string without inner quotes follow the key there |
| Patterns.KeyBackSound | template_trainer/scorer.py:60 | a key found scanning back from the `{` of the arguments is the quoted `"arguments"` key with a colon gap, after brace-free text |
| Patterns.KeyBackComplete | template_trainer/scorer.py:60 | every such key is the one the backward scan finds |
| Patterns.ObjectCloseMeaning | template_trainer/scorer.py:60 | the tail is found at `b` exactly when a flat `{...}` object starts there, followed by brace-free text and `}` |
| Patterns.ArgumentsTailSound | template_trainer/scorer.py:60 | what the tail scanner finds is an `"arguments"` key followed by a flat object and the closing brace |
| Patterns.ArgumentsTailComplete | template_trainer/scorer.py:60 | every such tail is the one the scanner finds |
| Patterns.ObjectFromSound | template_trainer/scorer.py:60 | the object built for a `"name"` key at `p` has the name part at `p` and an arguments tail after it |
| Patterns.ObjectFromComplete | template_trainer/scorer.py:60 | every object with its name key at `p` is the one built for `p` |
| Patterns.LastSomeBound | template_trainer/scorer.py:60 | the greedy leading run, backtracking, stops at a key no earlier than any key that yields an object |
| Patterns.KeysWithinRun | template_trainer/scorer.py:60 | every bare object at `a` has its key inside the brace-free run after `a`, no later than the key the scan stops at |
| Patterns.BareObjectSound | template_trainer/scorer.py:60-61 | what the bare-object scanner finds is a bare object whose `"name"` key is the last one possible, as the greedy `[^{}]*` makes it |
| Patterns.BareObjectComplete | template_trainer/scorer.py:60-61 | every bare object with the last possible key is the one the scanner finds where it starts |
| Patterns.CallKeywordAt | template_trainer/scorer.py:71-72 | `tool_call` or `function_call`, in any case, starts at `i`, and its end is the only possible one |
| Patterns.ParenArgsMeaning | template_trainer/scorer.py:71 | after the name, optional spaces, `(`, a run without `)` and `)` are found exactly when present |
| Patterns.CallFromMeaning | template_trainer/scorer.py:71 | after the keyword, separators, a word and the parenthesised arguments are found exactly when present |
| Patterns.CallSyntaxMeaning | template_trainer/scorer.py:71-72 | the call-syntax scanner finds a match at `i` exactly when a span starting at `i` has the `keyword[: ]+name(args)` shape |
| Patterns.FunctionTagMeaning | template_trainer/scorer.py:87-88 | the scanner finds `<function=name>body</function>` at `i` exactly when a span starting at `i` has that shape, with no `<` in the body |
| Patterns.MatchAtSound | template_trainer/scorer.py:50-88 | a match a convention's scanner finds at `i` starts at `i` and has that convention's shape |
| Patterns.MatchAtComplete | template_trainer/scorer.py:50-88 | every shaped match is found by its convention's scanner where it starts |
| Patterns.ShapeWellFormed | template_trainer/scorer.py:50-88 | a shaped match is a non-empty span of the text with its groups inside it |
| Patterns.Search | template_trainer/scorer.py:51 | the search returns the match at the first position from `from` where the scanner succeeds, and nothing when it succeeds nowhere |
| Patterns.SearchIsLeftmost | template_trainer/scorer.py:50-51 | `re.search` from the start returns exactly the leftmost shaped match, and nothing exactly when there is no shaped match |
| Extract.CallArguments | template_trainer/scorer.py:74-84 | the arguments of the call syntax are a dict: the decoded object when the stripped text opens with `{` and decodes, `{"raw": text}` otherwise |
| Extract.TagArguments | template_trainer/scorer.py:89-96 | the arguments of the function tag: `{}` for an empty stripped body, the decoded body when it decodes, `{"raw": body}` otherwise |
| Extract.Build | template_trainer/scorer.py:52-96 | the call of an accepted match: the raw text is the whole match; for the tool-call tag the name and arguments come from the decoded payload, with `{}` for missing arguments; otherwise the name is group 1 and the arguments follow the convention's rule |
| Extract.AttemptMeaning | template_trainer/scorer.py:49-96 | a convention yields the call of its leftmost match when that match is accepted, and nothing exactly when no leftmost match is accepted |
| Extract.AttemptFound | template_trainer/scorer.py:49-96 | a call a convention yields is non-empty text of the output, and the name of conventions 2 to 4 is a non-empty string |
| Extract.ParseToolCall | template_trainer/scorer.py:41-98 | `(None, None, "")` exactly when no convention yields a call; otherwise a call whose matched text is non-empty text of the output |
| Extract.ParseToolCallFirst | template_trainer/scorer.py:41-98 | when some convention yields a call, `parse_tool_call` returns the call of the first one in the order tried |
| Extract.AttemptDecides | template_trainer/scorer.py:47-98 | when the earlier conventions fail and this one succeeds, its accepted leftmost match decides the outcome |
| Extract.ParseToolCallNotFound | template_trainer/scorer.py:41-98 | nothing is found exactly when no convention's leftmost match yields a call |
| Extract.ParseToolCallFound | template_trainer/scorer.py:41-98 | what is found is the call built from the leftmost match of the first convention whose leftmost match is accepted |
| Extract.NestedArgumentsFallThrough | template_trainer/scorer.py:49-68 | for `<tool_call={"name":"f","arguments":{"k":"v"}}>`, the tag convention finds no match at all. When the nested object decodes, the call is name `f` with the nested object as arguments, and its raw text is the whole object inside the tag |
| Optimizer.NewVariant | template_trainer/optimizer.py:11-22 | a variant keeps its fields, and a missing mutation list becomes the empty list |
| Optimizer.NamesDistinct | template_trainer/optimizer.py:26-41 | the five catalogue names are distinct |
| Optimizer.MutationText | template_trainer/optimizer.py:26-41 | a name has an instruction text exactly when it is in the catalogue, and it is the text declared with that name |
| Optimizer.NoPercentInCatalogue | template_trainer/optimizer.py:26-41 | no catalogue text contains `%` |
| Optimizer.AddSystemInstructions | template_trainer/optimizer.py:59-70 | the result is the injected instructions followed by the template, so it is longer than the template |
| Optimizer.AddSystemInstructionsShape | template_trainer/optimizer.py:59-70 | the template is a suffix of the result; the text in front contains the instructions, and is a `{% set system_message = ... %}` assignment exactly when the template contains the message loop |
| Optimizer.MessageLoopPreserved | template_trainer/optimizer.py:64-70 | for instructions without `%`, the result contains the message loop exactly when the template does |
| Optimizer.MutateTemplate | template_trainer/optimizer.py:73-92 | an unknown name leaves the template unchanged; a catalogue name injects its own text |
| Optimizer.MutateChangesIff | template_trainer/optimizer.py:73-92 | a mutation changes the template exactly when its name is in the catalogue |
| Optimizer.GenerateVariants | template_trainer/optimizer.py:95-118 | the variants are, in order, the children of exactly the tried names that are in the catalogue; by default the catalogue names are tried |
| Optimizer.VariantsStep | template_trainer/optimizer.py:107-116 | one more name adds its child exactly when its mutation changes the base |
| Optimizer.VariantsAreChildren | template_trainer/optimizer.py:107-116 | every variant is unscored, one generation on, with the given parent, made by one catalogue mutation from the tried names, and differs from the base |
| Optimizer.VariantsOnePerName | template_trainer/optimizer.py:107-116 | with catalogue names only, there is one variant per name, in the names' order |
| Optimizer.VariantsSkipUnknown | template_trainer/optimizer.py:107-116 | names outside the catalogue produce no variants |
| Optimizer.DefaultVariants | template_trainer/optimizer.py:102-103 | by default there are five variants, one per catalogue entry in catalogue order |
| Optimizer.CombineMutations | template_trainer/optimizer.py:121-126 | combining never shortens the base |
| Optimizer.CombineAppend | template_trainer/optimizer.py:121-126 | applying `a` and then `b` is applying `a + b` |
| Optimizer.CombineIdentityIff | template_trainer/optimizer.py:121-126 | combining leaves the base unchanged exactly when no name is in the catalogue |
| Optimizer.CombineKeepsBranch | template_trainer/optimizer.py:121-126 | every intermediate result contains the message loop exactly when the base does, so every step injects the same way |
| SystemPrompt.FirstEndifMeaning | template_trainer/optimizer.py:48 | the lazy body ends at `e` exactly when a closing `{% endif %}` tag starts at `e` and none starts earlier |
| SystemPrompt.OpenerEndMeaning | template_trainer/optimizer.py:47-48 | the scanner finds an opening tag ending at `r` exactly when `s[i..r]` is `{%`, spaces, `if`, at least one space, `message[`, a quote, `role`, a quote, `]`, spaces, `==`, spaces, a quote, `system`, a quote, a run of the gap class and `%}`. This holds for any gap class without `%`, so the as-written `s*` and the intended `\s*` are both covered |
| SystemPrompt.BlockAtMeaning | template_trainer/optimizer.py:47-51 | a block body runs from the end of an opening tag to the first closing tag after it |
| SystemPrompt.FindBlockMeaning | template_trainer/optimizer.py:47-51 | the search finds the leftmost block start, and nothing exactly when no block starts anywhere |
| SystemPrompt.ExtractMeaning | template_trainer/optimizer.py:44-56 | the prompt is empty without a block; otherwise it is the stripped body of the leftmost block |
| SystemPrompt.ExtractSystemPrompt | template_trainer/optimizer.py:44-56 | with the pattern as written, the template is returned unchanged and a non-empty prompt is text of the template; `ExtractMeaning` gives the prompt itself, and `AsWrittenMissesSystemBlock` shows it empty for the usual system block |
| SystemPrompt.ExtractSystemPromptIntended | template_trainer/optimizer.py:44-56 | the same with `\s*` in front of `%}`, the evidently intended pattern |
| SystemPrompt.CorrectedReadsSystemBlock | template_trainer/optimizer.py:47-54 | with `\s*` in front of `%}`, the block `{% if message['role'] == 'system' %}body{% endif %}` yields its stripped body |
| SystemPrompt.AsWrittenMissesSystemBlock | template_trainer/optimizer.py:47-56 | with the pattern as written (`s*` in front of `%}`), the same block yields an empty prompt |
| Fetcher.GuessTemplateFamily | template_trainer/fetcher.py:59-67 | `generic` exactly when no table key occurs in the lower-cased name; otherwise a family from the table |
| Fetcher.GuessIsFirstKey | template_trainer/fetcher.py:63-65 | the family is that of the first key, in table order, contained in the lower-cased name |
| Fetcher.GuessIgnoresCase | template_trainer/fetcher.py:61 | names that lower-case alike get the same family |
| Fetcher.LlamaExample | template_trainer/fetcher.py:12-25 | `Llama-3.1-8B` gets family `llama-3`, because the `llama-3` key comes first in the table |
| Fetcher.NoFamilyIsGeneric | template_trainer/fetcher.py:12-25 | no family in the table is called `generic` |
| Fetcher.FromList | template_trainer/fetcher.py:48-54 | an empty list gives nothing and the result is never `null`; `DefaultEntryWins` and `FirstEntryOtherwise` say which entry supplies it |
| Fetcher.FirstDefault | template_trainer/fetcher.py:50-52 | the loop stops at the first dict entry named `default`, or finds none |
| Fetcher.SelectChatTemplate | template_trainer/fetcher.py:38-56 | no `chat_template` gives nothing; a string is returned as it is; a list goes through the list rule; other values give nothing; the result is never `null` |
| Fetcher.DefaultEntryWins | template_trainer/fetcher.py:50-52 | in a list, the first entry named `default` supplies the template, wherever it stands |
| Fetcher.FirstEntryOtherwise | template_trainer/fetcher.py:53-54 | without a default entry, the first entry supplies it: its `template` when it is a dict, itself otherwise |
| Fetcher.GetTemplateForModel | template_trainer/fetcher.py:85-101 | with a non-empty repository id and a truthy template from it, that template and `fetched from <repo>`; otherwise the built-in template of the guessed family and `built-in <family> template` |
| Fetcher.DescriptionNamesSource | template_trainer/fetcher.py:85-101 | the description starts with `fetched from ` exactly when the repository's template is used |

## Left out

- Network and files:
  - Fetching `tokenizer_config.json` (`fetch_tokenizer_config`) is the parameter `configOf` of `Fetcher.GetTemplateForModel`. An HTTP error response reads as an empty configuration, as in the source. Other failures (an unreachable host, a timeout, a body that is not JSON) raise out of `get_template_for_model`; the model does not represent them.
  - Reading built-in templates (`load_builtin_template`) is the parameter `builtin`.
  - `template_diff` (difflib), `save_template` and `load_template` are file and formatting utilities and are not modelled.
- `json.loads` is the parameter `dec` (a `Decoder`). Decoded argument values are strings, integers and `null`. Booleans, floats, lists and nested objects inside arguments are not modelled.
  - Python's `True == 1` is therefore not modelled either.
  - Json.LoadsObject: a `Decoder` that returns a non-object value for text opening with `{` is read as a decoding failure. Python's `json.loads` on such text returns a dict or raises, so the source has no such case and makes no type check.
  - A dict's keys are taken to be unique. `Get` and `Lookup` return the first binding, while Python keeps the last.
- Scorer.ScoreResult: requires `Scorable`: a string (or falsy) tool name and, where the per-key comparison is reached, arguments that are a dict or a string containing none of the expected keys. For the other inputs the source raises (`lower()` on a non-string name, `in` on a number, indexing a string by a key it contains), and the model does not represent the exception.
- Scorer.ScoreResult: scores are exact reals. Python's float rounding (for example of `0.8 + 0.3`) is not modelled, so a score that lands within rounding of 50 or 90 may be classified differently.
- Regular expressions:
  - `\s` and `strip()` use Python's full whitespace set (`str.isspace`). `\w` and `re.IGNORECASE` are read with ASCII meaning: Python's Unicode word characters and case folding (for example `ſ` matching `s`) are not modelled.
  - `lower()` lower-cases only `A` to `Z`.
- `ToolCallResult` and `TemplateScore` default values are constructor arguments. `score_result` sets `score`, `success` and `error` on the result it is given and returns that same object; `Scorer.ScoreResult` returns a new record with those fields changed instead, so aliasing is not modelled. Likewise `score_template` builds a new record rather than mutating one.
- Other parts of the repository are not part of this model: the llama-server process handling, the test runner, the evaluation loop and the compatibility layer.

## Findings

| source | as written | input that shows it | evidently intended | confidence | as-written member | corrected member |
|---|---|---|---|---|---|---|
| template_trainer/optimizer.py:48 | the pattern ends the opening tag with `["\']s*%}`, a run of the letter `s` before `%}` | `{% if message['role'] == 'system' %}Be brief.{% endif %}`: the space before `%}` is not an `s`, so no system prompt is found | `["\']\s*%}`, whitespace before `%}`, giving the prompt `Be brief.` | not executed | SystemPrompt.AsWrittenMissesSystemBlock | SystemPrompt.CorrectedReadsSystemBlock |
