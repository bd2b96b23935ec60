/**
 * `LLMTester` of `llm_tester.py`: a tester built from one connection
 * profile (a dictionary with `model`, `api_key` and optionally `base_url`,
 * `max_tokens`, `temperature`) and a system prompt. Construction chooses the
 * client from the model name; `generate_response` sends a prompt on the
 * path that name selects and always returns text.
 */
module Tester {
  import opened Text
  import opened PyValue
  import opened Routing

  /** `llm_config['model']`, which must be text for `.lower()` to apply. */
  function ModelName(config: Entries): (r: Result<string, SetupError>)
    ensures r.Ok? <==> Get(config, "model").Str?
    ensures r.Ok? ==> Get(config, "model") == Str(r.value)
    ensures !HasKey(config, "model") ==> r == Err(MissingKey("model"))
  {
    if !HasKey(config, "model") then Err(MissingKey("model"))
    else if !Get(config, "model").Str? then Err(NotText("model"))
    else Ok(Get(config, "model").s)
  }

  /** What `_setup_llm` builds: the client for the profile's model; a Gemini model also gets the system prompt. */
  function Setup(config: Entries, systemPrompt: string): (r: Result<Client, SetupError>)
    ensures r.Ok? ==> ModelName(config).Ok? && r == MakeClient(ModelName(config).value, config, Some(systemPrompt))
    ensures ModelName(config).Err? ==> r == Err(ModelName(config).error)
  {
    match ModelName(config)
    case Err(e) => Err(e)
    case Ok(name) => MakeClient(name, config, Some(systemPrompt))
  }

  /** A profile whose model is text sets up exactly as its client is built. */
  lemma SetupByName(config: Entries, systemPrompt: string, name: string)
    requires Get(config, "model") == Str(name)
    ensures Setup(config, systemPrompt) == MakeClient(name, config, Some(systemPrompt))
  {
  }

  /**
   * A Gemini model receives the system prompt once, when it is built; its
   * calls then carry only the prompt. Every other client is built without it
   * and every call on its path carries it.
   */
  lemma SystemPromptPlacement(config: Entries, systemPrompt: string, prompt: string)
    requires Setup(config, systemPrompt).Ok?
    ensures var client := Setup(config, systemPrompt).value;
      var request := RequestFor(ModelName(config).value, config, systemPrompt, prompt);
      (client.GeminiModel? ==> client.systemInstruction == Some(systemPrompt))
      && (client.GeminiModel? && CallPath(ModelName(config).value) == Gemini ==> SystemTexts(request) == [])
      && (CallPath(ModelName(config).value) != Gemini ==> SystemTexts(request) == [systemPrompt])
      && UserTexts(request) == [prompt]
  {
    RequestCarries(ModelName(config).value, config, systemPrompt, prompt);
  }

  class LLMTester {
    var currentConfig: Option<Entries>
    var systemPrompt: string
    var client: Option<Client>

    /** Set up: the stored client is the one the stored profile and system prompt call for. */
    ghost predicate Valid()
      reads this
    {
      currentConfig.Some? && client.Some? && Setup(currentConfig.value, systemPrompt) == Ok(client.value)
    }

    /** The model name of a set-up tester. */
    function Model(): string
      reads this
      requires Valid()
    {
      ModelName(currentConfig.value).value
    }

    /** `__init__` before `_setup_llm` runs: no profile and no client yet. */
    constructor Init(systemPrompt: string)
      ensures this.currentConfig == None && this.systemPrompt == systemPrompt && this.client == None
    {
      this.currentConfig := None;
      this.systemPrompt := systemPrompt;
      this.client := None;
    }

    /**
     * `_setup_llm`: reads the model name, records the profile, then builds
     * the client or fails. A profile without `model` fails before it is
     * recorded; any later failure leaves it recorded and the client as it was.
     */
    method SetupLlm(llmConfig: Entries, systemPrompt: string) returns (err: Option<SetupError>)
      modifies this
      ensures err.None? <==> Setup(llmConfig, systemPrompt).Ok?
      ensures err.Some? ==> err.value == Setup(llmConfig, systemPrompt).error
      ensures currentConfig == if HasKey(llmConfig, "model") then Some(llmConfig) else old(currentConfig)
      ensures client == if err.None? then Some(Setup(llmConfig, systemPrompt).value) else old(client)
      ensures this.systemPrompt == old(this.systemPrompt)
    {
      if !HasKey(llmConfig, "model") {
        return Some(MissingKey("model"));
      }
      var llmName := Get(llmConfig, "model");
      currentConfig := Some(llmConfig);
      if !llmName.Str? {
        return Some(NotText("model"));
      }
      var name := llmName.s;
      if Mentions(name, "gpt") || Mentions(name, "o4") {
        if !HasKey(llmConfig, "base_url") {
          return Some(MissingKey("base_url"));
        }
        if !HasKey(llmConfig, "api_key") {
          return Some(MissingKey("api_key"));
        }
        client := Some(OpenAIClient(Get(llmConfig, "base_url"), Get(llmConfig, "api_key")));
      } else if Mentions(name, "gemini") {
        if !HasKey(llmConfig, "api_key") {
          return Some(MissingKey("api_key"));
        }
        client := Some(GeminiModel(Get(llmConfig, "api_key"), name, Some(systemPrompt)));
      } else if Mentions(name, "claude") {
        if !HasKey(llmConfig, "api_key") {
          return Some(MissingKey("api_key"));
        }
        client := Some(AnthropicClient(Get(llmConfig, "api_key")));
      } else if Mentions(name, "deepseek") || Mentions(name, "qwen") {
        if !HasKey(llmConfig, "base_url") {
          return Some(MissingKey("base_url"));
        }
        if !HasKey(llmConfig, "api_key") {
          return Some(MissingKey("api_key"));
        }
        client := Some(OpenAIClient(Get(llmConfig, "base_url"), Get(llmConfig, "api_key")));
      } else {
        return Some(UnsupportedModel(name));
      }
      return None;
    }

    /**
     * `generate_response`: sends `prompt` on the path the model name selects,
     * with `max_tokens` and `temperature` defaulting to 5000 and 0.8, and
     * returns the reply, or the prefixed message of whatever the call raised.
     * It changes nothing in the tester.
     */
    method GenerateResponse(prompt: string, transport: Transport) returns (text: string)
      requires Valid()
      ensures text == Respond(Model(), currentConfig.value, systemPrompt, prompt, client.value, transport)
    {
      var config := currentConfig.value;
      var llmName := Model();
      var maxTokens := GetOr(config, "max_tokens", Int(5000));
      var temperature := GetOr(config, "temperature", Float("0.8"));
      var request;
      if Mentions(llmName, "gemini") {
        request := GenerateContent(prompt);
      } else if Mentions(llmName, "claude") {
        request := MessagesCreate(llmName, maxTokens, temperature, systemPrompt, [Turn("user", prompt)]);
      } else {
        request := ChatCompletionsCreate(llmName, [Turn("system", systemPrompt), Turn("user", prompt)], maxTokens, temperature);
      }
      var outcome := transport(client.value, request);
      match outcome
      case Reply(reply) =>
        text := reply;
      case Raised(message) =>
        text := "Error generating response: " + message;
    }
  }

  /** `LLMTester(llm_config, system_prompt)`: a set-up tester, or the error its construction raises. */
  method NewTester(llmConfig: Entries, systemPrompt: string) returns (r: Result<LLMTester, SetupError>)
    ensures r.Ok? <==> Setup(llmConfig, systemPrompt).Ok?
    ensures r.Err? ==> r.error == Setup(llmConfig, systemPrompt).error
    ensures r.Ok? ==> fresh(r.value) && r.value.Valid()
    ensures r.Ok? ==> r.value.currentConfig == Some(llmConfig) && r.value.systemPrompt == systemPrompt
    ensures r.Ok? ==> r.value.client == Some(Setup(llmConfig, systemPrompt).value)
  {
    var tester := new LLMTester.Init(systemPrompt);
    var err := tester.SetupLlm(llmConfig, systemPrompt);
    if err.Some? {
      r := Err(err.value);
    } else {
      r := Ok(tester);
    }
  }
}
