# LLM Bayesian-optimisation ability evaluation, modelled in Dafny

The evaluation harness tests large language models on banks of written
Bayesian-optimisation and hyperparameter-tuning problems. This project models
the logic around the remote calls:

- cutting a markdown problem bank into problems and answers, both as the
  runner reads it and as the partition script writes it out;
- merging reference answers into saved experiment records by position;
- building the search-space text blocks of the tuning agent's system prompt;
- choosing a vendor client from a model name, sending a prompt and turning
  an exception into text;
- the five registered connection profiles;
- picking problem files by experiment type;
- the runner's main loop: configuration lookup, truncation, prompt, one
  result record per problem, and the output file name.

It also proves properties of each of these.

Modules:

| module | models |
|---|---|
| `Text` | `Option`/`Result`, and Python's `strip`, `find`, `join`, `split`, `lower`/`upper` and `str(int)`/`int(str)` on ASCII digits |
| `PyValue` | the values `yaml.safe_load` yields; `isinstance`, truth value, `dict.get`, `str()`/`repr()` |
| `FileSystem` | a file system as a map from path to content; `os.path.join`, `basename`, `fnmatch` wildcards, `glob`, `sorted` |
| `QuestionMarkers` | recognising `<lead><digits>.` markers, and `re.split` with one capturing group on them |
| `MarkdownBank` | `parse_markdown_file` and `load_all_problems` of `main.py` |
| `Partition` | `partition_problem_set` |
| `AnswerMerge` | `add_answers_to_experiments` |
| `SearchSpace` | `_infer_type_from_spec`, `_format_hyperparameter_spec`, `build_search_space_strings` |
| `ProblemLoader` | `ProblemSetLoader.load_problem_files` of `problem_loader.py` |
| `Routing` | the name-based vendor choice and call-path choice shared by both testers; requests, defaults, error-to-text |
| `Tester` | the `LLMTester` class of `llm_tester.py` |
| `EvalMain` | the `LLMTester` class of `main.py` and the body of `main` |
| `Registry`, `ModelNames` | `llm_configs.py`, and facts about its five model names |

`LLMTester` appears twice, as in the repository:

- `llm_tester.py` builds its tester from one profile keyed by `model`.
- `main.py` looks its profile up by `llm_name` in a list of configurations.
- `main.py` builds a Gemini model without a system instruction. Its Claude and
  OpenAI-compatible calls still send the fixed system prompt.

Both testers choose the client in one order: gpt/o4, then gemini, claude,
deepseek/qwen. They choose the call path in another: gemini, then claude,
then the OpenAI-compatible path. `Routing.PathMatchesClient` says exactly when
the two choices agree. `Routing.MixedNameMismatch` exhibits a name where they
disagree. All five registered names agree.

External effects are parameters:

- A vendor SDK is a `Transport` function from client and request to a reply
  or a raised message.
- The environment that `llm_configs.py` reads is an `Env` map.
- Files are a `Files` map.

## Model

| member | source | states |
|---|---|---|
| `QuestionMarkers.ReSplit` | src/llm_bo_ability_eval/main.py:108 | the split yields the content alone exactly when it holds no `<lead><digits>.` marker |
| `QuestionMarkers.SplitLayout` | src/llm_bo_ability_eval/main.py:108 | a bank laid out as preamble plus marked sections splits into the preamble followed by each section's digits and body, in order |
| `QuestionMarkers.FirstMarker` | src/llm_bo_ability_eval/main.py:108 | in such a bank the first marker is at the end of the preamble, and there is none when there are no sections |
| `QuestionMarkers.MarkersDisjoint` | src/llm_bo_ability_eval/main.py:108 | no marker starts inside another, so scanning match by match finds every marker |
| `QuestionMarkers.Decompose` | src/llm_bo_ability_eval/main.py:108 | every text is a marker-free preamble, up to the first marker, followed by well-formed sections, each running to the next marker |
| `QuestionMarkers.SplitAny` | src/llm_bo_ability_eval/main.py:108 | the split of any text is its preamble followed by each section's digits and body, in order |
| `QuestionMarkers.SplitDigits` | src/llm_bo_ability_eval/main.py:111-113 | every odd-numbered piece of the split is a run of digits, so `int(question_num)` cannot fail |
| `MarkdownBank.ProblemText` | src/llm_bo_ability_eval/main.py:117-119 | there is a problem text exactly when the section mentions `**Answer` |
| `MarkdownBank.ProblemTextClean` | src/llm_bo_ability_eval/main.py:117-119 | the problem text never contains `**Answer`: it stops before the first one |
| `MarkdownBank.AnswerEnd` | src/llm_bo_ability_eval/main.py:122 | the lazy capture ends at a `\n---` rule or at the end of the section |
| `MarkdownBank.AnswerTextClean` | src/llm_bo_ability_eval/main.py:122-123 | the answer never runs past a `\n---` rule |
| `MarkdownBank.AnswerText` | src/llm_bo_ability_eval/main.py:123 | the answer is `""` when the `**Answer…:**` pattern is absent |
| `MarkdownBank.ParseSection` | src/llm_bo_ability_eval/main.py:125-130 | a record carries the file name and the integer value of the marker's digits |
| `MarkdownBank.ParseSectionSpec` | src/llm_bo_ability_eval/main.py:117-130 | a section yields a record iff it mentions `**Answer`; the record's problem has no `**Answer` and its answer no `\n---` |
| `MarkdownBank.ParseMarkdownFile` | src/llm_bo_ability_eval/main.py:101-132 | the loop over the split pieces yields what the `ParseMarkdown` function does on the file's basename and content |
| `MarkdownBank.ParseSections` | src/llm_bo_ability_eval/main.py:111-130 | the loop over pieces 1, 3, 5 … appends exactly the records of `ParseParts` |
| `MarkdownBank.ParseLayout` | src/llm_bo_ability_eval/main.py:108-132 | for a bank of well-formed sections after a marker-free preamble, the preamble is discarded and the records are those of the sections, in document order |
| `MarkdownBank.ParseAny` | src/llm_bo_ability_eval/main.py:108-132 | every bank parses to the problems of its sections, in document order, with the preamble discarded |
| `MarkdownBank.NoMarkerNoProblems` | src/llm_bo_ability_eval/main.py:110 | content with no `\n## Q<n>.` marker yields no problems |
| `MarkdownBank.ProblemsOnePerSection` | src/llm_bo_ability_eval/main.py:111-130 | when every section mentions `**Answer`, there is exactly one record per section, the k-th record made from the k-th section |
| `MarkdownBank.AtMostOnePerSection` | src/llm_bo_ability_eval/main.py:111-112 | there are fewer than half as many records as split pieces: at most one per marker |
| `MarkdownBank.LoadAllProblems` | src/llm_bo_ability_eval/main.py:90-99 | the records of all `*.md` files of the directory, concatenated in sorted path order |
| `Partition.SplitAtFirstRule` | src/llm_bo_ability_eval/problem_set/partition_problem_set.py:32-39 | the content is cut at the first `---` only; introduction and problem section are each stripped, and the introduction holds no `---` |
| `Partition.SplitWithoutRule` | src/llm_bo_ability_eval/problem_set/partition_problem_set.py:33-36 | without `---` the introduction is the whole content, unstripped, and the problem section is empty |
| `Partition.DollarAt` | src/llm_bo_ability_eval/problem_set/partition_problem_set.py:51 | `$` in the lookahead first matches at the end, or just before a final newline |
| `Partition.SegmentsEmpty` | src/llm_bo_ability_eval/problem_set/partition_problem_set.py:51-52 | `findall` finds no segment exactly when the problem section has no `## Q<digits>.` marker |
| `Partition.SegmentsHeads` | src/llm_bo_ability_eval/problem_set/partition_problem_set.py:51-52 | every segment found starts with a `## Q<digits>.` marker |
| `Partition.SegmentsLayout` | src/llm_bo_ability_eval/problem_set/partition_problem_set.py:51-52 | for marked sections after a marker-free preamble, there is exactly one segment per marker, from the marker to the next one or the end, in order; the preamble is ignored |
| `Partition.SegmentsAny` | src/llm_bo_ability_eval/problem_set/partition_problem_set.py:51-52 | any text without a final newline has exactly one segment per marker, from that marker to the next one or the end, in order |
| `Partition.RemoveAnswerSpec` | src/llm_bo_ability_eval/problem_set/partition_problem_set.py:63-64 | the text is cut exactly at the first `**Answer (steps):**`, and kept whole when that tag is absent |
| `Partition.CleanHasNoAnswer` | src/llm_bo_ability_eval/problem_set/partition_problem_set.py:60-67 | a cleaned problem never contains `**Answer (steps):**` |
| `Partition.CleanKeepsText` | src/llm_bo_ability_eval/problem_set/partition_problem_set.py:60-67 | without the answer tag, cleaning only trims characters from the two ends |
| `Partition.CleanKeepsMarker` | src/llm_bo_ability_eval/problem_set/partition_problem_set.py:60-67 | a cleaned segment still begins with its marker, with the same digits |
| `Partition.StemDropsSuffix` | src/llm_bo_ability_eval/problem_set/partition_problem_set.py:42 | `Path.stem` drops the final extension |
| `Partition.NamesDistinct` | src/llm_bo_ability_eval/problem_set/partition_problem_set.py:42-56 | problem file names are distinct for distinct numbers and never equal the introduction's name |
| `Partition.ProblemNumber` | src/llm_bo_ability_eval/problem_set/partition_problem_set.py:56 | the digits between `<stem>_problem_` and `.md` read back as the problem's number, padded to at least three |
| `Partition.PartitionedDistinct` | src/llm_bo_ability_eval/problem_set/partition_problem_set.py:42-71 | no two files written share a name |
| `Partition.NoRuleOnlyIntroduction` | src/llm_bo_ability_eval/problem_set/partition_problem_set.py:33-49 | without `---`, only `<stem>_introduction.md` is made, holding the whole content |
| `Partition.ProblemFilesShape` | src/llm_bo_ability_eval/problem_set/partition_problem_set.py:55-67 | file k (counting from 1) is `<stem>_problem_k`, begins with `## Q<digits>.` and has no answer tag |
| `Partition.PartitionLayout` | src/llm_bo_ability_eval/problem_set/partition_problem_set.py:32-71 | for a bank of marked sections: the introduction first, then one cleaned file per section, numbered from 1 in document order |
| `Partition.PartitionAny` | src/llm_bo_ability_eval/problem_set/partition_problem_set.py:32-71 | every bank with a `---` gives the introduction first, then one cleaned file per section of its problem part, numbered from 1 in document order |
| `Partition.WriteAllSpec` | src/llm_bo_ability_eval/problem_set/partition_problem_set.py:44-70 | writing files with distinct names stores each named content and leaves every other path as it was |
| `Partition.PartitionProblemSet` | src/llm_bo_ability_eval/problem_set/partition_problem_set.py:10-76 | a missing input fails; otherwise the output directory receives exactly the partitioned files |
| `Partition.PartitionWrites` | src/llm_bo_ability_eval/problem_set/partition_problem_set.py:41-71 | after partitioning, each output path holds its file's content and no other path changed |
| `AnswerMerge.AnswerKeyInjective` | src/llm_bo_ability_eval/problem_set/add_answer_after_response.py:40 | distinct problem indexes give distinct answer keys `Q<n>` |
| `AnswerMerge.MergedAt` | src/llm_bo_ability_eval/problem_set/add_answer_after_response.py:38-46 | entry k gets `answer` set to the answer for `problem_indexes[k]` when that key exists; otherwise, and at every position past the indexes, it is unchanged |
| `AnswerMerge.MergedProblem` | src/llm_bo_ability_eval/problem_set/add_answer_after_response.py:38-42 | matching is positional: entry k is updated from key `"Q" + str(problem_indexes[k])` and nothing else |
| `AnswerMerge.MergedFrame` | src/llm_bo_ability_eval/problem_set/add_answer_after_response.py:37-46 | every field other than `answer` of every entry keeps its presence and its value |
| `AnswerMerge.MergedIdempotent` | src/llm_bo_ability_eval/problem_set/add_answer_after_response.py:42 | merging twice gives the same records as merging once |
| `AnswerMerge.MergedExtend` | src/llm_bo_ability_eval/problem_set/add_answer_after_response.py:38-46 | one further index updates only its own position, or nothing past the end of the list |
| `AnswerMerge.WarningsSpec` | src/llm_bo_ability_eval/problem_set/add_answer_after_response.py:43-46 | a missing-answer warning is logged for exactly the in-range keys absent from the answers, and an out-of-range warning for exactly the positions past the list |
| `AnswerMerge.MergeInPlace` | src/llm_bo_ability_eval/problem_set/add_answer_after_response.py:38-46 | the loop leaves the array equal to `Merged` of its old contents, and logs exactly `Warnings` |
| `AnswerMerge.AddAnswersToExperiments` | src/llm_bo_ability_eval/problem_set/add_answer_after_response.py:18-50 | a list is saved merged, any other value is saved unchanged; the log ends with the count of indexes |
| `SearchSpace.InferType` | src/llm_bo_ability_eval/simple_query/tuning_agent_system_prompt.py:29-50 | `"any"` iff there are neither non-empty choices nor min/max; otherwise the first choice decides, bool before int before float; for a range, `"int"` iff both bounds are ints |
| `SearchSpace.SpecLinesAt` | src/llm_bo_ability_eval/simple_query/tuning_agent_system_prompt.py:55-64 | the header `"  key:"`, then one line per attribute in dictionary order |
| `SearchSpace.SpecTextLines` | src/llm_bo_ability_eval/simple_query/tuning_agent_system_prompt.py:55-66 | when no key or value holds a newline, splitting the block at newlines gives back its lines |
| `SearchSpace.FormatHyperparameterSpec` | src/llm_bo_ability_eval/simple_query/tuning_agent_system_prompt.py:53-66 | the loop builds the text of `SpecText` |
| `SearchSpace.RelatedSpec` | src/llm_bo_ability_eval/simple_query/tuning_agent_system_prompt.py:96 | the related keys are exactly the search-space keys with the prefix that are not yet processed, without repeats |
| `SearchSpace.StepSpec` | src/llm_bo_ability_eval/simple_query/tuning_agent_system_prompt.py:88-100 | one HPO key emits itself or its `<key>_` keys, each only when unprocessed, without repeats |
| `SearchSpace.EmittedSpec` | src/llm_bo_ability_eval/simple_query/tuning_agent_system_prompt.py:86-100 | a key is emitted iff it is in the search space, unprocessed, and is an HPO key or `<hpo key>_`-prefixed |
| `SearchSpace.EmittedNoDup` | src/llm_bo_ability_eval/simple_query/tuning_agent_system_prompt.py:86-100 | no search-space key is formatted twice |
| `SearchSpace.EmitKey` | src/llm_bo_ability_eval/simple_query/tuning_agent_system_prompt.py:89-100 | one iteration appends the blocks of that key's step and marks its keys processed |
| `SearchSpace.BuildSpecBlocks` | src/llm_bo_ability_eval/simple_query/tuning_agent_system_prompt.py:86-100 | the loop's lines are the blocks of the emitted keys, in order |
| `SearchSpace.AnyKeyStartsWith` | src/llm_bo_ability_eval/simple_query/tuning_agent_system_prompt.py:103 | true iff some key starts with the prefix |
| `SearchSpace.TextBlockRule` | src/llm_bo_ability_eval/simple_query/tuning_agent_system_prompt.py:103-111 | the text block ends with the precision rule iff `learning_rate` is truthy or some key starts with `learning_rate_` |
| `SearchSpace.BuildTextBlock` | src/llm_bo_ability_eval/simple_query/tuning_agent_system_prompt.py:86-111 | the method builds the text of `TextBlock` |
| `SearchSpace.SpecFor` | src/llm_bo_ability_eval/simple_query/tuning_agent_system_prompt.py:116-123 | the key's own spec when it is present; the first related key's spec otherwise |
| `SearchSpace.JsonLinesShape` | src/llm_bo_ability_eval/simple_query/tuning_agent_system_prompt.py:114-145 | `{`, one line per HPO key in order, then the strategy and thoughts lines, then `}` |
| `SearchSpace.JsonLineNamesKey` | src/llm_bo_ability_eval/simple_query/tuning_agent_system_prompt.py:126-139 | each JSON line starts with its quoted key |
| `SearchSpace.BuildJsonLines` | src/llm_bo_ability_eval/simple_query/tuning_agent_system_prompt.py:114-144 | the loop builds the lines of `JsonLines` |
| `SearchSpace.FriendlyRoundTrip` | src/llm_bo_ability_eval/simple_query/tuning_agent_system_prompt.py:159 | an all-lowercase optimizer choice is shown with no lower-case letters, and lower-casing it gives the choice back |
| `SearchSpace.RecommendLinesShape` | src/llm_bo_ability_eval/simple_query/tuning_agent_system_prompt.py:148-177 | one bullet per HPO key in order, each starting with the key in backticks |
| `SearchSpace.RecommendWithoutSpec` | src/llm_bo_ability_eval/simple_query/tuning_agent_system_prompt.py:170-175 | a key without a spec gets a bare bullet; `epochs` gets its hint |
| `SearchSpace.BuildRecommendLines` | src/llm_bo_ability_eval/simple_query/tuning_agent_system_prompt.py:148-175 | the loop builds the lines of `RecommendLines` |
| `SearchSpace.BackticksHoldKeys` | src/llm_bo_ability_eval/simple_query/tuning_agent_system_prompt.py:180 | every HPO key occurs backtick-quoted in the list |
| `SearchSpace.FieldChoiceTypes` | src/llm_bo_ability_eval/simple_query/tuning_agent_system_prompt.py:199-205 | non-optimizer choices that are all bool give `<bool>`; int choices with no other kind give `<int>` |
| `SearchSpace.MixedChoices` | src/llm_bo_ability_eval/simple_query/tuning_agent_system_prompt.py:125-205 | bool-first choices mixed with ints read as `bool` in the JSON example but as `<int>` in the field template |
| `SearchSpace.FieldLinesShape` | src/llm_bo_ability_eval/simple_query/tuning_agent_system_prompt.py:183-219 | one field line per HPO key in order, each starting with its quoted key |
| `SearchSpace.BuildFieldLines` | src/llm_bo_ability_eval/simple_query/tuning_agent_system_prompt.py:183-219 | the loop builds the lines of `FieldLines` |
| `SearchSpace.BuildSearchSpaceStrings` | src/llm_bo_ability_eval/simple_query/tuning_agent_system_prompt.py:69-223 | the five strings are the text block, JSON example, recommend text, backtick list and field template defined above |
| `ProblemLoader.PatternFor` | src/llm_bo_ability_eval/problem_loader.py:13-18 | `"100"` and `"24"` select `*<type>*part*.md`; any other type is an error |
| `ProblemLoader.UnknownTypeRejected` | src/llm_bo_ability_eval/problem_loader.py:17-18 | an unknown experiment type fails before any file is read |
| `ProblemLoader.NeverEmpty` | src/llm_bo_ability_eval/problem_loader.py:23-24 | a successful load is never empty, and an empty match fails with the pattern |
| `ProblemLoader.LoadedEntries` | src/llm_bo_ability_eval/problem_loader.py:21-34 | one entry per matched path, in sorted order, with the path's basename and the unchanged content |
| `ProblemLoader.ReadEntries` | src/llm_bo_ability_eval/problem_loader.py:28-34 | the loop reads entry i from path i |
| `ProblemLoader.LoadProblemFiles` | src/llm_bo_ability_eval/problem_loader.py:11-36 | the method returns what `Loaded` describes |
| `FileSystem.Glob` | src/llm_bo_ability_eval/problem_loader.py:21 | exactly the non-hidden files of the directory whose names match the pattern |
| `FileSystem.SortPaths` | src/llm_bo_ability_eval/problem_loader.py:21 | the paths, each once, in strictly increasing order |
| `FileSystem.BasenameOfJoin` | src/llm_bo_ability_eval/problem_loader.py:32 | the basename of a path joined to a directory is the name joined |
| `FileSystem.StarSuffix` | src/llm_bo_ability_eval/main.py:92 | a name matches `*<tail>` iff it ends with the tail |
| `PyValue.Get` | src/llm_bo_ability_eval/simple_query/tuning_agent_system_prompt.py:116 | the value stored under the key, and `None` when the key is absent |
| `PyValue.GetOr` | src/llm_bo_ability_eval/llm_tester.py:41-42 | the stored value when the key is present, even `None`; the default otherwise |
| `PyValue.ReprOneLine` | src/llm_bo_ability_eval/simple_query/tuning_agent_system_prompt.py:60 | `repr` of any value is a single line |
| `Routing.ClientVendor` | src/llm_bo_ability_eval/llm_tester.py:20-36 | gpt/o4 wins first; gemini only without gpt/o4; claude only without the earlier two; anything else is unsupported |
| `Routing.CallPath` | src/llm_bo_ability_eval/llm_tester.py:45-57 | the Gemini path iff the name mentions gemini; Anthropic iff claude and not gemini |
| `Routing.PathMatchesClient` | src/llm_bo_ability_eval/llm_tester.py:20-57 | the call path agrees with the client iff the name does not combine gpt/o4 with gemini or claude |
| `Routing.MixedNameMismatch` | src/llm_bo_ability_eval/llm_tester.py:20-47 | `gpt-gemini` gets an OpenAI client but takes the Gemini call path |
| `Routing.MakeClient` | src/llm_bo_ability_eval/llm_tester.py:20-36 | succeeds iff the name is supported and `api_key` (and `base_url` for OpenAI) is present; the client uses those values, and a Gemini model gets the name and system instruction; a missing `base_url` is reported before a missing `api_key` |
| `Routing.RequestFor` | src/llm_bo_ability_eval/llm_tester.py:45-67 | the request belongs to the call path the name selects |
| `Routing.RequestCarries` | src/llm_bo_ability_eval/llm_tester.py:40-67 | exactly one user message with the prompt; the system prompt except on the Gemini path; model, `max_tokens` and `temperature` with their 5000/0.8 defaults |
| `Routing.ErrorTextRoundTrip` | src/llm_bo_ability_eval/llm_tester.py:68-69 | an exception's text starts with `Error generating response: ` followed by its message |
| `Tester.ModelName` | src/llm_bo_ability_eval/llm_tester.py:16 | the model name when `model` is text; a missing key fails |
| `Tester.Setup` | src/llm_bo_ability_eval/llm_tester.py:13-36 | the profile's model name read, then the client built for it with the system prompt |
| `Tester.SystemPromptPlacement` | src/llm_bo_ability_eval/llm_tester.py:27-62 | a Gemini model receives the system prompt at construction and its calls carry only the prompt; every other call carries the system prompt and one user message |
| `Tester.LLMTester.Init` | src/llm_bo_ability_eval/llm_tester.py:6-10 | no profile and no client yet; the system prompt stored |
| `Tester.LLMTester.SetupLlm` | src/llm_bo_ability_eval/llm_tester.py:13-36 | fails iff `Setup` fails, with its error; the profile is recorded once `model` was read; the client is set only on success |
| `Tester.LLMTester.GenerateResponse` | src/llm_bo_ability_eval/llm_tester.py:38-69 | the reply on the selected path, or the prefixed error text; the tester is unchanged |
| `Tester.NewTester` | src/llm_bo_ability_eval/llm_tester.py:5-11 | construction succeeds iff `Setup` does, leaving the profile, system prompt and built client |
| `Registry.EnvGet` | src/llm_bo_ability_eval/llm_configs.py:6 | the variable's text, or `None` when unset |
| `Registry.MappingAliases` | src/llm_bo_ability_eval/llm_configs.py:38-44 | exactly the aliases gpt, gemini, claude, deepseek and qwen, once each, in order, each mapped to a profile |
| `Registry.Profile` | src/llm_bo_ability_eval/llm_configs.py:38-44 | an alias has a profile iff it is a key of the mapping |
| `Registry.AliasProfiles` | src/llm_bo_ability_eval/llm_configs.py:38-44 | each alias leads to its own profile |
| `Registry.OpenAIReasoningSetUp` | src/llm_bo_ability_eval/llm_configs.py:3-7 | the `o4-mini` profile builds an OpenAI client for the OpenAI endpoint with the environment's key, and calls take the same path |
| `Registry.GeminiSetUp` | src/llm_bo_ability_eval/llm_configs.py:9-13 | the Gemini profile builds a Gemini model with the system prompt, and calls take the Gemini path |
| `Registry.ClaudeSetUp` | src/llm_bo_ability_eval/llm_configs.py:15-20 | the Claude profile builds an Anthropic client, and calls take the Anthropic path |
| `Registry.DeepseekR1SetUp` | src/llm_bo_ability_eval/llm_configs.py:22-28 | the DeepSeek profile builds an OpenAI-compatible client for the lab server, and calls take that path |
| `Registry.QwenSetUp` | src/llm_bo_ability_eval/llm_configs.py:30-36 | the Qwen profile builds an OpenAI-compatible client for the lab server, and calls take that path |
| `Registry.HostedDefaults` | src/llm_bo_ability_eval/llm_configs.py:3-13 | the gpt and gemini profiles leave `max_tokens` and `temperature` at the tester's defaults 5000 and 0.8 |
| `Registry.ConfiguredLimits` | src/llm_bo_ability_eval/llm_configs.py:15-36 | claude, deepseek and qwen ask for 15000 tokens at temperature 0.7 |
| `Registry.HostedKeys` | src/llm_bo_ability_eval/llm_configs.py:3-20 | the three hosted profiles take their key from `OPENAI_API_KEY` |
| `Registry.SelfHostedShare` | src/llm_bo_ability_eval/llm_configs.py:22-36 | deepseek and qwen share the lab `base_url` and the key `dummy_api_key` |
| `Registry.ClaudeWithoutBaseUrl` | src/llm_bo_ability_eval/llm_configs.py:15-20 | the Claude profile has no `base_url` |
| `ModelNames.O4MiniRoutes` | src/llm_bo_ability_eval/llm_configs.py:4 | `o4-mini` gets an OpenAI-compatible client and call path |
| `ModelNames.GeminiRoutes` | src/llm_bo_ability_eval/llm_configs.py:10 | `gemini-2.5-pro` gets a Gemini client and call path |
| `ModelNames.ClaudeRoutes` | src/llm_bo_ability_eval/llm_configs.py:16 | `claude-3-5-sonnet-20241022` gets an Anthropic client and call path |
| `ModelNames.DeepseekR1Routes` | src/llm_bo_ability_eval/llm_configs.py:23 | `deepseek-r1:70b` gets an OpenAI-compatible client and call path |
| `ModelNames.QwenRoutes` | src/llm_bo_ability_eval/llm_configs.py:31 | `qwen3:32b` gets an OpenAI-compatible client and call path |
| `EvalMain.FindConfig` | src/llm_bo_ability_eval/main.py:26 | a configuration found is one of the list and names the model |
| `EvalMain.FindConfigSpec` | src/llm_bo_ability_eval/main.py:26-28 | found iff some configuration names the model with every earlier one having `llm_name`, and then it is the first such; not configured iff all have the key and none names it; otherwise `KeyError` on `llm_name` |
| `EvalMain.NextConfig` | src/llm_bo_ability_eval/main.py:26 | the generator's scan returns what `FindConfig` describes |
| `EvalMain.SetupFor` | src/llm_bo_ability_eval/main.py:26-49 | succeeds iff the lookup finds a configuration and the client builds from it for the name, with no system instruction; a failed lookup is that error, and a failed build after a successful lookup is the build's error |
| `EvalMain.LLMTester.constructor` | src/llm_bo_ability_eval/main.py:16-21 | the configurations stored; no current profile and no client |
| `EvalMain.LLMTester.SetupLlm` | src/llm_bo_ability_eval/main.py:23-49 | fails iff `SetupFor` fails; the profile is recorded once found; the client set only on success, after which the tester is ready for that name |
| `EvalMain.LLMTester.GenerateResponse` | src/llm_bo_ability_eval/main.py:51-82 | the reply on the path `llm_name` selects, with the fixed system prompt and the 5000/0.8 defaults, or the prefixed error text |
| `EvalMain.Truncate` | src/llm_bo_ability_eval/main.py:161-162 | always a prefix; `None` or 0 keeps everything; a positive bound keeps that many; a negative one drops that many from the end |
| `EvalMain.Prompt` | src/llm_bo_ability_eval/main.py:172-176 | the problem text sits whole between the fixed head and tail |
| `EvalMain.PromptInjective` | src/llm_bo_ability_eval/main.py:172-176 | different problems give different prompts |
| `EvalMain.ProblemIdInjective` | src/llm_bo_ability_eval/main.py:183 | `file + "_Q" + question_num` determines both the file and the number |
| `EvalMain.ResultsFollowProblems` | src/llm_bo_ability_eval/main.py:167-191 | one result per problem, in order, each copying its problem's fields and carrying the reply to its prompt and the model name |
| `EvalMain.TestProblems` | src/llm_bo_ability_eval/main.py:167-191 | the loop's results are `Results` of the problems |
| `EvalMain.ResultsNameClean` | src/llm_bo_ability_eval/main.py:195 | the results file name has no `:` and ends with `_results.yaml`; only `:` is replaced, so it holds a `/` exactly when the model name does |
| `EvalMain.OutputFileName` | src/llm_bo_ability_eval/main.py:195-196 | the output file lies directly in the output directory exactly when the model name has no `/`, and is then named by the model with `:` replaced; its last component never holds `:`, and the path ends with `_results.yaml` |
| `EvalMain.EvalRun` | src/llm_bo_ability_eval/main.py:135-201 | a run succeeds iff setup does; it writes to the output file, one result per kept problem |
| `EvalMain.Evaluate` | src/llm_bo_ability_eval/main.py:146-198 | `main` returns what `EvalRun` describes |

## Left out

- File contents, directories and environment variables are maps passed in.
  Opening, reading, writing, `mkdir` and YAML parsing and dumping are not modelled.
  The results file's YAML text and the saved experiments' YAML text are not modelled.
- `main.py` reads its configuration list from a YAML file in `__init__`. The list is passed in already loaded.
- The vendor SDKs are not modelled; their replies are a `Transport` parameter.
  `genai.configure`'s global state is not modelled.
- `argparse`, `print` and progress messages are not modelled.
  The answer merge's warnings are a returned log.
- Error messages other than the `ValueError` texts are not modelled. A `KeyError` or `AttributeError` is an error value naming the key.
- Floats are kept as their printed text. No float arithmetic takes place in the modelled code.
- `lower()`, `upper()`, `islower()`, `\d` and `int()` are modelled on ASCII only.
- `repr` of strings escapes as Python does for Latin-1 characters. Beyond Latin-1, every character is taken as printable.
- `AnswerMerge.AddAnswersToExperiments` takes the answers as a mapping and every list element as a record (a dictionary). Other shapes are not modelled. When the experiments are not a list, or no position is in range, Python never looks at the answers and saves the experiments unchanged, as the model does. Otherwise, for each in-range position: answers loaded as `None` or a scalar make `answer_key in answers` raise `TypeError`; answers loaded as a list or a string are tested by list membership or as a substring, so an absent key only warns and the run goes on, while a present key makes `answers[answer_key]` raise `TypeError`; an element that receives an answer but is not a dictionary makes the assignment to its `answer` raise `TypeError`. A raise stops the run before anything is saved. Those `TypeError` paths are not modelled.
- `EvalMain.LLMTester` takes its configuration as a list of dictionaries. An empty configuration file (`None`), or an element that is not a dictionary, makes `setup_llm` raise `TypeError`. That path is not modelled.
- A Python `dict` is an ordered association list. The merge's records are maps, because `yaml.dump` sorts keys.
- `SearchSpace.InferType`: the requires `ChoicesAreLists` demands that a `choices` value be a list. Python treats the other shapes as follows. A non-empty string gives `"str"`, as its first character is a string. An empty string or an empty dictionary skips the choices test and goes on to `min`/`max`. A non-empty dictionary looks up the key `0`: it types the value stored there, or raises `KeyError` when there is none. `None`, a boolean, an integer or a float makes `len` raise `TypeError`. None of these is modelled.
- `build_search_space_strings` takes `search_space` and `HPO_keys` already extracted. The `(hp_cfg or {})` defaulting and type checks are not modelled.
- The module-level constants of `tuning_agent_system_prompt.py` are not modelled. Those are the import-time configuration loading, the pacing floats and their `:.2` formatting, and the large prompt templates.
- `partition_problem_set` is given an output directory. Defaulting it to the input's parent is not modelled.
- Paths are plain strings joined with `/`. `pathlib`'s normalisation is not modelled.
- `LoadAllProblems` globs `*.md` in a directory.
  Directory entries that are not files are not modelled.
  The file system is flat: every path maps to a file's content.
- `llm_system_prompt.py`, `random_trials/prompts.py`, `simple_query.py` and `simple_query_test.py` hold prompt text or thin scripts. They are not part of this model.
- A `--llm` value holding `/`, such as `qwen/qwen3-32b`, is accepted and routed like any other. Its results path then lies in a subdirectory of the output directory (`EvalMain.OutputFileName` states when), and `open` raises `FileNotFoundError` after every query was sent unless that subdirectory exists. The write and its failure are not modelled.
- `EvalMain.EvalRun`: the contract states the output file and the number of results. Each result's fields are stated by `EvalMain.ResultsFollowProblems`.
