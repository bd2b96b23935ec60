/**
 * The evaluation script `main.py`: the `LLMTester` that picks a profile by
 * name from the loaded configuration list, and `main`, which sets the model
 * up, loads the problem bank, keeps at most `--max-problems` problems, asks
 * the model about each in turn and collects one result record per problem
 * under a results file named after the model.
 *
 * The configuration file arrives already loaded, as a list of dictionaries.
 * The command line arrives as `Args`. Writing the results file is not
 * modelled; its path and contents are returned.
 */
module EvalMain {
  import opened Text
  import opened PyValue
  import opened Routing
  import opened FileSystem
  import opened MarkdownBank

  /** The system prompt of every Claude and OpenAI-compatible call. */
  const SystemPrompt := "You are a helpful assistant specialized in Bayesian Optimization and hyperparameter optimization."

  // ---------------------------------------------------------------------------
  // Finding the profile

  /** `c['llm_name'] == llm_name`: only a string equal to the name matches. */
  predicate Names(c: Entries, llmName: string) {
    Get(c, "llm_name") == Str(llmName)
  }

  /** Profile `i` is the first to name the model, and every profile before it has an `llm_name`. */
  predicate FirstNaming(configs: seq<Entries>, llmName: string, i: nat) {
    i < |configs| && Names(configs[i], llmName)
    && forall j :: 0 <= j < i ==> HasKey(configs[j], "llm_name") && !Names(configs[j], llmName)
  }

  /**
   * `next((c for c in configs if c['llm_name'] == llm_name), None)` followed
   * by the `not config` test: the first profile naming the model. Looking at
   * a profile without `llm_name` before that raises `KeyError`.
   */
  function FindConfig(configs: seq<Entries>, llmName: string): (r: Result<Entries, SetupError>)
    ensures r.Ok? ==> Names(r.value, llmName) && r.value in configs
  {
    if configs == [] then Err(NotConfigured(llmName))
    else if !HasKey(configs[0], "llm_name") then Err(MissingKey("llm_name"))
    else if Names(configs[0], llmName) then Ok(configs[0])
    else FindConfig(configs[1..], llmName)
  }

  lemma {:induction false} FindConfigSpec(configs: seq<Entries>, llmName: string)
    ensures FindConfig(configs, llmName).Ok? <==> exists i: nat :: FirstNaming(configs, llmName, i)
    ensures forall i: nat :: FirstNaming(configs, llmName, i) ==> FindConfig(configs, llmName) == Ok(configs[i])
    ensures FindConfig(configs, llmName) == Err(NotConfigured(llmName))
      <==> forall i :: 0 <= i < |configs| ==> HasKey(configs[i], "llm_name") && !Names(configs[i], llmName)
    ensures FindConfig(configs, llmName).Err? ==>
      FindConfig(configs, llmName) == Err(NotConfigured(llmName)) || FindConfig(configs, llmName) == Err(MissingKey("llm_name"))
    decreases |configs|
  {
    if configs != [] {
      var tail := configs[1..];
      FindConfigSpec(tail, llmName);
      forall i | 1 <= i < |configs| ensures configs[i] == tail[i - 1] {
      }
      if HasKey(configs[0], "llm_name") && !Names(configs[0], llmName) {
        forall i: nat | FirstNaming(configs, llmName, i) ensures i >= 1 && FirstNaming(tail, llmName, i - 1) {
        }
        forall i: nat | FirstNaming(tail, llmName, i) ensures FirstNaming(configs, llmName, i + 1) {
        }
      } else if !HasKey(configs[0], "llm_name") {
        assert forall i: nat :: !FirstNaming(configs, llmName, i);
      } else {
        assert FirstNaming(configs, llmName, 0);
        forall i: nat | FirstNaming(configs, llmName, i) ensures i == 0 {
        }
      }
    }
  }

  /** The loop `next` runs over the configuration list. */
  method NextConfig(configs: seq<Entries>, llmName: string) returns (r: Result<Entries, SetupError>)
    ensures r == FindConfig(configs, llmName)
  {
    var i := 0;
    assert configs[0..] == configs;
    while i < |configs|
      invariant 0 <= i <= |configs|
      invariant FindConfig(configs[i..], llmName) == FindConfig(configs, llmName)
    {
      var c := configs[i];
      if !HasKey(c, "llm_name") {
        return Err(MissingKey("llm_name"));
      }
      if Get(c, "llm_name") == Str(llmName) {
        return Ok(c);
      }
      assert configs[i..][1..] == configs[i + 1..];
      i := i + 1;
    }
    return Err(NotConfigured(llmName));
  }

  /** What `setup_llm(llm_name)` settles on: the profile and the client built from the name. Gemini gets no system instruction here. */
  function SetupFor(configs: seq<Entries>, llmName: string): (r: Result<(Entries, Client), SetupError>)
    ensures r.Ok? ==> FindConfig(configs, llmName) == Ok(r.value.0) && MakeClient(llmName, r.value.0, None) == Ok(r.value.1)
    ensures FindConfig(configs, llmName).Err? ==> r == Err(FindConfig(configs, llmName).error)
    ensures r.Ok? <==> FindConfig(configs, llmName).Ok? && MakeClient(llmName, FindConfig(configs, llmName).value, None).Ok?
    ensures FindConfig(configs, llmName).Ok? && MakeClient(llmName, FindConfig(configs, llmName).value, None).Err? ==>
      r == Err(MakeClient(llmName, FindConfig(configs, llmName).value, None).error)
  {
    match FindConfig(configs, llmName)
    case Err(e) => Err(e)
    case Ok(config) =>
      match MakeClient(llmName, config, None)
      case Err(e) => Err(e)
      case Ok(client) => Ok((config, client))
  }

  class LLMTester {
    var llmConfigs: seq<Entries>
    var currentConfig: Option<Entries>
    var client: Option<Client>

    /** Set up: the profile names a model, and the client is the one that name calls for. */
    ghost predicate Ready()
      reads this
    {
      currentConfig.Some? && client.Some? && Get(currentConfig.value, "llm_name").Str?
      && MakeClient(Get(currentConfig.value, "llm_name").s, currentConfig.value, None) == Ok(client.value)
    }

    /** `current_config['llm_name']`. */
    function LlmName(): string
      reads this
      requires Ready()
    {
      Get(currentConfig.value, "llm_name").s
    }

    /** `LLMTester(config_path)`, given the loaded list: no profile chosen, no client. */
    constructor (llmConfigs: seq<Entries>)
      ensures this.llmConfigs == llmConfigs && currentConfig == None && client == None
    {
      this.llmConfigs := llmConfigs;
      currentConfig := None;
      client := None;
    }

    /**
     * `setup_llm(llm_name)`: records the first profile naming the model, then
     * builds its client or fails. An unknown model changes nothing; an
     * unsupported one leaves its profile recorded and the client as it was.
     */
    method SetupLlm(llmName: string) returns (err: Option<SetupError>)
      modifies this
      ensures err.None? <==> SetupFor(llmConfigs, llmName).Ok?
      ensures err.Some? ==> err.value == SetupFor(llmConfigs, llmName).error
      ensures llmConfigs == old(llmConfigs)
      ensures currentConfig == if FindConfig(llmConfigs, llmName).Ok? then Some(FindConfig(llmConfigs, llmName).value) else old(currentConfig)
      ensures client == if err.None? then Some(SetupFor(llmConfigs, llmName).value.1) else old(client)
      ensures err.None? ==> Ready() && LlmName() == llmName
    {
      var found := NextConfig(llmConfigs, llmName);
      if found.Err? {
        return Some(found.error);
      }
      var config := found.value;
      currentConfig := Some(config);
      var made := MakeClient(llmName, config, None);
      if made.Err? {
        return Some(made.error);
      }
      client := Some(made.value);
      return None;
    }

    /**
     * `generate_response`: as in the other tester, with the fixed system
     * prompt; the model name is the profile's `llm_name`. It changes nothing.
     */
    method GenerateResponse(prompt: string, transport: Transport) returns (text: string)
      requires Ready()
      ensures text == Respond(LlmName(), currentConfig.value, SystemPrompt, prompt, client.value, transport)
    {
      var config := currentConfig.value;
      var llmName := LlmName();
      var maxTokens := GetOr(config, "max_tokens", Int(5000));
      var temperature := GetOr(config, "temperature", Float("0.8"));
      var request;
      if Mentions(llmName, "gemini") {
        request := GenerateContent(prompt);
      } else if Mentions(llmName, "claude") {
        request := MessagesCreate(llmName, maxTokens, temperature, SystemPrompt, [Turn("user", prompt)]);
      } else {
        request := ChatCompletionsCreate(llmName, [Turn("system", SystemPrompt), Turn("user", prompt)], maxTokens, temperature);
      }
      var outcome := transport(client.value, request);
      match outcome
      case Reply(reply) =>
        text := reply;
      case Raised(message) =>
        text := "Error generating response: " + message;
    }
  }

  // ---------------------------------------------------------------------------
  // The problems kept

  /** `all_problems[:n]` when `n` is truthy: a prefix, a negative `n` counting from the end. */
  function Truncate<T>(xs: seq<T>, maxProblems: Option<int>): (r: seq<T>)
    ensures |r| <= |xs| && r == xs[..|r|]
    ensures maxProblems.None? || maxProblems.value == 0 ==> r == xs
    ensures maxProblems.Some? && maxProblems.value > 0 ==> |r| == if maxProblems.value < |xs| then maxProblems.value else |xs|
    ensures maxProblems.Some? && maxProblems.value < 0 ==> |r| == if |xs| + maxProblems.value > 0 then |xs| + maxProblems.value else 0
  {
    if maxProblems.Some? && maxProblems.value != 0 then
      var n := maxProblems.value;
      var stop := if n >= 0 then (if n < |xs| then n else |xs|) else (if |xs| + n > 0 then |xs| + n else 0);
      xs[..stop]
    else xs
  }

  // ---------------------------------------------------------------------------
  // Results

  const PromptHead := "Please solve this Bayesian Optimization problem step by step:\n\n"
  const PromptTail := "\n\nPlease provide a detailed step-by-step solution following the same format as shown in the examples."

  /** The prompt for one problem: the problem text between a fixed request and a fixed closing. */
  function Prompt(problem: string): (r: string)
    ensures |r| == |PromptHead| + |problem| + |PromptTail|
    ensures r[|PromptHead|..|PromptHead| + |problem|] == problem
  {
    PromptHead + problem + PromptTail
  }

  /** Different problem texts give different prompts. */
  lemma PromptInjective(a: string, b: string)
    ensures Prompt(a) == Prompt(b) ==> a == b
  {
    if Prompt(a) == Prompt(b) {
      assert |a| == |b|;
    }
  }

  /** `f"{file}_Q{question_num}"`. */
  function ProblemId(file: string, questionNum: nat): string {
    file + "_Q" + IntToString(questionNum)
  }

  /**
   * The file and the number can be read back from the identifier: the
   * number has no underscore, so the last underscore is the separator.
   */
  lemma ProblemIdInjective(file1: string, q1: nat, file2: string, q2: nat)
    ensures ProblemId(file1, q1) == ProblemId(file2, q2) ==> file1 == file2 && q1 == q2
  {
    if ProblemId(file1, q1) == ProblemId(file2, q2) {
      ProblemIdSplits(file1, q1);
      ProblemIdSplits(file2, q2);
      ParseNatToString(q1);
      ParseNatToString(q2);
    }
  }

  lemma ProblemIdSplits(file: string, q: nat)
    ensures var id := ProblemId(file, q);
      LastIndex(id, '_', |id|) == Some(|file|) && id[..|file|] == file && id[|file| + 2..] == NatToString(q)
  {
    var id := ProblemId(file, q);
    var digits := NatToString(q);
    NatToStringDigits(q);
    assert id == file + "_Q" + digits;
    forall k | |file| < k < |id| ensures id[k] != '_' {
      if k > |file| + 1 {
        assert id[k] == digits[k - |file| - 2];
      }
    }
    assert id[|file|] == '_';
    assert id[|file| + 2..] == digits;
  }

  /** One result record. */
  datatype EvalResult = EvalResult(
    problemId: string,
    file: string,
    questionNum: nat,
    problem: string,
    expectedAnswer: string,
    llmResponse: string,
    llmName: string)

  /** The record for one problem, given the model's response. */
  function ResultFor(llm: string, p: Problem, response: string): EvalResult {
    EvalResult(ProblemId(p.file, p.questionNum), p.file, p.questionNum, p.problem, p.answer, response, llm)
  }

  /** The record of the set-up model answering one problem. */
  function ResultOf(llm: string, config: Entries, client: Client, transport: Transport): Problem -> EvalResult {
    (p: Problem) => ResultFor(llm, p, Respond(llm, config, SystemPrompt, Prompt(p.problem), client, transport))
  }

  function Results(llm: string, config: Entries, client: Client, transport: Transport, problems: seq<Problem>): seq<EvalResult> {
    Map(ResultOf(llm, config, client, transport), problems)
  }

  /**
   * One record per problem, in problem order, each carrying its problem's
   * fields, its identifier, the model's response to its prompt and the
   * model's name.
   */
  lemma ResultsFollowProblems(llm: string, config: Entries, client: Client, transport: Transport, problems: seq<Problem>)
    ensures |Results(llm, config, client, transport, problems)| == |problems|
    ensures forall k :: 0 <= k < |problems| ==>
      var r := Results(llm, config, client, transport, problems)[k];
      r.problemId == ProblemId(problems[k].file, problems[k].questionNum)
      && r.file == problems[k].file && r.questionNum == problems[k].questionNum
      && r.problem == problems[k].problem && r.expectedAnswer == problems[k].answer
      && r.llmResponse == Respond(llm, config, SystemPrompt, Prompt(problems[k].problem), client, transport)
      && r.llmName == llm
  {
    MapAt(ResultOf(llm, config, client, transport), problems);
  }

  lemma ResultsSnoc(llm: string, config: Entries, client: Client, transport: Transport, problems: seq<Problem>, i: nat)
    requires i < |problems|
    ensures Results(llm, config, client, transport, problems[..i + 1])
      == Results(llm, config, client, transport, problems[..i]) + [ResultOf(llm, config, client, transport)(problems[i])]
  {
    MapSnoc(ResultOf(llm, config, client, transport), problems, i);
  }

  // ---------------------------------------------------------------------------
  // The script

  const ResultsSuffix := "_results.yaml"

  /** `f"{llm.replace(':', '_')}_results.yaml"`. */
  function ResultsName(llm: string): string {
    ReplaceChar(llm, ':', '_') + ResultsSuffix
  }

  /** `output_dir / ResultsName(llm)`. */
  function OutputFile(outputDir: string, llm: string): string {
    JoinPath(outputDir, ResultsName(llm))
  }

  /**
   * The results file's name has no colon and ends with the suffix. Only `:`
   * is replaced, so the name holds a slash exactly when the model name does.
   */
  lemma ResultsNameClean(llm: string)
    ensures ':' !in ResultsName(llm)
    ensures '/' in ResultsName(llm) <==> '/' in llm
    ensures EndsWith(ResultsName(llm), ResultsSuffix)
  {
    var name := ResultsName(llm);
    forall i | 0 <= i < |name| ensures name[i] != ':' && (name[i] == '/' ==> '/' in llm) {
      if i < |llm| {
        assert name[i] == ReplaceChar(llm, ':', '_')[i];
        assert llm[i] in llm;
      } else {
        assert name[i] == ResultsSuffix[i - |llm|];
      }
    }
    if '/' in llm {
      var k :| 0 <= k < |llm| && llm[k] == '/';
      assert name[k] == '/';
    }
  }

  /**
   * The results file lies directly in the output directory, under that name,
   * exactly when the model name has no slash; a model name such as
   * `qwen/qwen3-32b` puts it in a subdirectory instead.
   */
  lemma OutputFileName(outputDir: string, llm: string)
    ensures InDir(OutputFile(outputDir, llm), outputDir) <==> '/' !in llm
    ensures '/' !in llm ==> Basename(OutputFile(outputDir, llm)) == ResultsName(llm)
    ensures ':' !in Basename(OutputFile(outputDir, llm))
    ensures EndsWith(OutputFile(outputDir, llm), ResultsSuffix)
  {
    var name := ResultsName(llm);
    var path := OutputFile(outputDir, llm);
    ResultsNameClean(llm);
    assert path[|outputDir| + 1..] == name;
    assert |name| > 0 by { assert |name| >= |ResultsSuffix|; }
    if '/' !in llm {
      BasenameOfJoin(outputDir, name);
    }
    var b := Basename(path);
    forall i | 0 <= i < |b| ensures b[i] != ':' {
      assert b[i] == name[|name| - |b| + i];
    }
    EndsWithConcat(outputDir + "/", name, ResultsSuffix);
  }

  /** The command line: `--llm`, `--problems`, `--output`, `--max-problems`. */
  datatype Args = Args(llm: string, problems: string, output: string, maxProblems: Option<int>)

  /** What a run produces: the results file's path and the records written to it. */
  datatype Run = Run(outputFile: string, results: seq<EvalResult>)

  /** The run `main` performs, or the error that stops it at setup. */
  ghost function EvalRun(fs: Files, llmConfigs: seq<Entries>, args: Args, transport: Transport): (r: Result<Run, SetupError>)
    ensures r.Ok? <==> SetupFor(llmConfigs, args.llm).Ok?
    ensures r.Ok? ==> r.value.outputFile == OutputFile(args.output, args.llm)
    ensures r.Ok? ==> |r.value.results| == |Truncate(AllProblems(fs, args.problems), args.maxProblems)|
  {
    match SetupFor(llmConfigs, args.llm)
    case Err(e) => Err(e)
    case Ok((config, client)) =>
      var problems := Truncate(AllProblems(fs, args.problems), args.maxProblems);
      ResultsFollowProblems(args.llm, config, client, transport, problems);
      Ok(Run(OutputFile(args.output, args.llm), Results(args.llm, config, client, transport, problems)))
  }

  /** The loop of `main`: the set-up tester answers each problem in turn; it is left as it was. */
  method TestProblems(tester: LLMTester, problems: seq<Problem>, transport: Transport) returns (results: seq<EvalResult>)
    requires tester.Ready()
    ensures results == Results(tester.LlmName(), tester.currentConfig.value, tester.client.value, transport, problems)
  {
    var llm := tester.LlmName();
    results := [];
    for i := 0 to |problems|
      invariant results == Results(llm, tester.currentConfig.value, tester.client.value, transport, problems[..i])
    {
      var problem := problems[i];
      var prompt := Prompt(problem.problem);
      var response := tester.GenerateResponse(prompt, transport);
      var result := EvalResult(ProblemId(problem.file, problem.questionNum), problem.file, problem.questionNum,
        problem.problem, problem.answer, response, llm);
      ResultsSnoc(llm, tester.currentConfig.value, tester.client.value, transport, problems, i);
      results := results + [result];
    }
    assert problems[..|problems|] == problems;
  }

  /** `main`: set up the model, load and truncate the problems, and test each in turn. */
  method Evaluate(fs: Files, llmConfigs: seq<Entries>, args: Args, transport: Transport) returns (r: Result<Run, SetupError>)
    ensures r == EvalRun(fs, llmConfigs, args, transport)
  {
    var tester := new LLMTester(llmConfigs);
    var err := tester.SetupLlm(args.llm);
    if err.Some? {
      return Err(err.value);
    }
    assert SetupFor(llmConfigs, args.llm) == Ok((tester.currentConfig.value, tester.client.value));
    var allProblems := LoadAllProblems(fs, args.problems);
    allProblems := Truncate(allProblems, args.maxProblems);
    var results := TestProblems(tester, allProblems, transport);
    r := Ok(Run(OutputFile(args.output, args.llm), results));
  }
}
