/**
 * `llm_configs.py`: the five connection profiles and `LLM_MAPPING`, the
 * dictionary from a short alias to a profile. Profiles that read the API key
 * from the environment take the environment as a parameter.
 */
module Registry {
  import opened Text
  import opened PyValue
  import opened Routing
  import opened Tester
  import opened ModelNames

  /** The process environment. */
  type Env = map<string, string>

  /** `os.environ.get(name, None)`. */
  function EnvGet(env: Env, name: string): (r: Value)
    ensures name in env ==> r == Str(env[name])
    ensures name !in env ==> r == Null
  {
    if name in env then Str(env[name]) else Null
  }

  const KeyVariable := "OPENAI_API_KEY"
  const LabBaseUrl := "http://hc4.isl.lab.nycu.edu.tw:11434/v1/"
  const DummyKey := "dummy_api_key"

  function OpenAIReasoningConfig(env: Env): Entries {
    [("model", Str("o4-mini")),
     ("base_url", Str("https://api.openai.com/v1")),
     ("api_key", EnvGet(env, KeyVariable))]
  }

  function GeminiConfig(env: Env): Entries {
    [("model", Str("gemini-2.5-pro")),
     ("base_url", Str("https://generativelanguage.googleapis.com/v1beta/openai/")),
     ("api_key", EnvGet(env, KeyVariable))]
  }

  function ClaudeConfig(env: Env): Entries {
    [("model", Str("claude-3-5-sonnet-20241022")),
     ("temperature", Float("0.7")),
     ("max_tokens", Int(15000)),
     ("api_key", EnvGet(env, KeyVariable))]
  }

  function DeepseekR1Config(): Entries {
    [("model", Str("deepseek-r1:70b")),
     ("temperature", Float("0.7")),
     ("max_tokens", Int(15000)),
     ("base_url", Str(LabBaseUrl)),
     ("api_key", Str(DummyKey))]
  }

  function QwenConfig(): Entries {
    [("model", Str("qwen3:32b")),
     ("temperature", Float("0.7")),
     ("max_tokens", Int(15000)),
     ("base_url", Str(LabBaseUrl)),
     ("api_key", Str(DummyKey))]
  }

  const Aliases: seq<string> := ["gpt", "gemini", "claude", "deepseek", "qwen"]

  /** `LLM_MAPPING`. */
  function LlmMapping(env: Env): Entries {
    [("gpt", Dict(OpenAIReasoningConfig(env))),
     ("gemini", Dict(GeminiConfig(env))),
     ("claude", Dict(ClaudeConfig(env))),
     ("deepseek", Dict(DeepseekR1Config())),
     ("qwen", Dict(QwenConfig()))]
  }

  /** The profile an alias names, if any. */
  function Profile(env: Env, alias: string): (r: Option<Entries>)
    ensures r.Some? <==> HasKey(LlmMapping(env), alias)
    ensures r.Some? ==> Get(LlmMapping(env), alias) == Dict(r.value)
  {
    if HasKey(LlmMapping(env), alias) then Some(Get(LlmMapping(env), alias).entries) else None
  }

  /** The mapping has exactly the five aliases, once each, in order, and every value is a profile. */
  lemma MappingAliases(env: Env)
    ensures DistinctKeys(LlmMapping(env))
    ensures |LlmMapping(env)| == |Aliases|
    ensures forall k :: 0 <= k < |Aliases| ==> LlmMapping(env)[k].0 == Aliases[k] && LlmMapping(env)[k].1.Dict?
    ensures forall alias :: HasKey(LlmMapping(env), alias) <==> alias in Aliases
  {
  }

  /** Each alias leads to its own profile. */
  lemma AliasProfiles(env: Env)
    ensures Profile(env, "gpt") == Some(OpenAIReasoningConfig(env))
    ensures Profile(env, "gemini") == Some(GeminiConfig(env))
    ensures Profile(env, "claude") == Some(ClaudeConfig(env))
    ensures Profile(env, "deepseek") == Some(DeepseekR1Config())
    ensures Profile(env, "qwen") == Some(QwenConfig())
  {
    var m := LlmMapping(env);
    MappingAliases(env);
    GetAt(m, 0);
    GetAt(m, 1);
    GetAt(m, 2);
    GetAt(m, 3);
    GetAt(m, 4);
  }

  // ---------------------------------------------------------------------------
  // Each profile sets a tester up, on the client and call path its name selects

  /** The `o4-mini` profile gets an OpenAI client for the OpenAI endpoint, with the key from the environment. */
  lemma OpenAIReasoningSetUp(env: Env, systemPrompt: string)
    ensures Setup(OpenAIReasoningConfig(env), systemPrompt)
      == Ok(OpenAIClient(Str("https://api.openai.com/v1"), EnvGet(env, KeyVariable)))
    ensures CallPath("o4-mini") == OpenAICompatible
  {
    var config := OpenAIReasoningConfig(env);
    ProfileKeysDistinct(env);
    GetAt(config, 1);
    GetAt(config, 2);
    SetupByName(config, systemPrompt, "o4-mini");
    O4MiniRoutes();
  }

  /** The Gemini profile gets a Gemini model of that name, given the system prompt; its `base_url` is not used. */
  lemma GeminiSetUp(env: Env, systemPrompt: string)
    ensures Setup(GeminiConfig(env), systemPrompt)
      == Ok(GeminiModel(EnvGet(env, KeyVariable), "gemini-2.5-pro", Some(systemPrompt)))
    ensures CallPath("gemini-2.5-pro") == Gemini
  {
    var config := GeminiConfig(env);
    ProfileKeysDistinct(env);
    GetAt(config, 2);
    SetupByName(config, systemPrompt, "gemini-2.5-pro");
    GeminiRoutes();
  }

  /** The Claude profile gets an Anthropic client. */
  lemma ClaudeSetUp(env: Env, systemPrompt: string)
    ensures Setup(ClaudeConfig(env), systemPrompt) == Ok(AnthropicClient(EnvGet(env, KeyVariable)))
    ensures CallPath("claude-3-5-sonnet-20241022") == Anthropic
  {
    var config := ClaudeConfig(env);
    ProfileKeysDistinct(env);
    GetAt(config, 3);
    SetupByName(config, systemPrompt, "claude-3-5-sonnet-20241022");
    ClaudeRoutes();
  }

  /** The two self-hosted profiles get OpenAI-compatible clients for the lab server. */
  lemma DeepseekR1SetUp(systemPrompt: string)
    ensures Setup(DeepseekR1Config(), systemPrompt) == Ok(OpenAIClient(Str(LabBaseUrl), Str(DummyKey)))
    ensures CallPath("deepseek-r1:70b") == OpenAICompatible
  {
    SelfHostedShare();
    SetupByName(DeepseekR1Config(), systemPrompt, "deepseek-r1:70b");
    DeepseekR1Routes();
  }

  lemma QwenSetUp(systemPrompt: string)
    ensures Setup(QwenConfig(), systemPrompt) == Ok(OpenAIClient(Str(LabBaseUrl), Str(DummyKey)))
    ensures CallPath("qwen3:32b") == OpenAICompatible
  {
    SelfHostedShare();
    SetupByName(QwenConfig(), systemPrompt, "qwen3:32b");
    QwenRoutes();
  }

  // ---------------------------------------------------------------------------
  // Limits and keys

  /** Every profile's keys differ in length, so no two are equal. */
  lemma ProfileKeysDistinct(env: Env)
    ensures DistinctKeys(OpenAIReasoningConfig(env)) && DistinctKeys(GeminiConfig(env)) && DistinctKeys(ClaudeConfig(env))
    ensures DistinctKeys(DeepseekR1Config()) && DistinctKeys(QwenConfig())
  {
    KeysByLength(OpenAIReasoningConfig(env));
    KeysByLength(GeminiConfig(env));
    KeysByLength(ClaudeConfig(env));
    KeysByLength(DeepseekR1Config());
    KeysByLength(QwenConfig());
  }

  /** The two hosted OpenAI-API profiles leave the limits at the tester's defaults. */
  lemma HostedDefaults(env: Env)
    ensures MaxTokens(OpenAIReasoningConfig(env)) == DefaultMaxTokens && Temperature(OpenAIReasoningConfig(env)) == DefaultTemperature
    ensures MaxTokens(GeminiConfig(env)) == DefaultMaxTokens && Temperature(GeminiConfig(env)) == DefaultTemperature
  {
    var g := OpenAIReasoningConfig(env);
    var m := GeminiConfig(env);
    forall i | 0 <= i < 3 ensures g[i].0 != "max_tokens" && g[i].0 != "temperature" && m[i].0 != "max_tokens" && m[i].0 != "temperature" {
      assert |g[i].0| < 10 && |m[i].0| < 10;
    }
  }

  /** Claude and the self-hosted profiles ask for 15000 tokens at temperature 0.7. */
  lemma ConfiguredLimits(env: Env)
    ensures MaxTokens(ClaudeConfig(env)) == Int(15000) && Temperature(ClaudeConfig(env)) == Float("0.7")
    ensures MaxTokens(DeepseekR1Config()) == Int(15000) && Temperature(DeepseekR1Config()) == Float("0.7")
    ensures MaxTokens(QwenConfig()) == Int(15000) && Temperature(QwenConfig()) == Float("0.7")
  {
    ProfileKeysDistinct(env);
    GetAt(ClaudeConfig(env), 1);
    GetAt(ClaudeConfig(env), 2);
    GetAt(DeepseekR1Config(), 1);
    GetAt(DeepseekR1Config(), 2);
    GetAt(QwenConfig(), 1);
    GetAt(QwenConfig(), 2);
  }

  /** The hosted profiles all take their key from `OPENAI_API_KEY`. */
  lemma HostedKeys(env: Env)
    ensures Get(OpenAIReasoningConfig(env), "api_key") == EnvGet(env, KeyVariable)
    ensures Get(GeminiConfig(env), "api_key") == EnvGet(env, KeyVariable)
    ensures Get(ClaudeConfig(env), "api_key") == EnvGet(env, KeyVariable)
  {
    ProfileKeysDistinct(env);
    GetAt(OpenAIReasoningConfig(env), 2);
    GetAt(GeminiConfig(env), 2);
    GetAt(ClaudeConfig(env), 3);
  }

  /** The two self-hosted profiles share the lab server and a placeholder key. */
  lemma SelfHostedShare()
    ensures Get(DeepseekR1Config(), "api_key") == Get(QwenConfig(), "api_key") == Str(DummyKey)
    ensures Get(DeepseekR1Config(), "base_url") == Get(QwenConfig(), "base_url") == Str(LabBaseUrl)
  {
    ProfileKeysDistinct(map[]);
    GetAt(DeepseekR1Config(), 3);
    GetAt(DeepseekR1Config(), 4);
    GetAt(QwenConfig(), 3);
    GetAt(QwenConfig(), 4);
  }

  /** The Claude profile has no `base_url`, which its client does not need. */
  lemma ClaudeWithoutBaseUrl(env: Env)
    ensures !HasKey(ClaudeConfig(env), "base_url")
  {
    var c := ClaudeConfig(env);
    forall i | 0 <= i < |c| ensures c[i].0 != "base_url" {
      assert |c[i].0| != 8;
    }
  }
}
