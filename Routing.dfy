/**
 * What the two `LLMTester` classes share:
 *   - which SDK serves a model name, i.e. the client chosen when the tester is set up;
 *   - which call path `generate_response` takes, and the request each path sends;
 *   - the defaults for `max_tokens` and `temperature`;
 *   - how a failed call becomes text.
 *
 * The vendor SDKs are not modelled. A client is the data it is built from.
 * The call itself is a `Transport` function supplied by the caller; it
 * returns the reply text, or the message of the exception it raised.
 */
module Routing {
  import opened Text
  import opened PyValue

  /** `word in name.lower()`. */
  predicate Mentions(name: string, word: string) {
    Contains(Lower(name), word)
  }

  /** A name in which neither case of some character of `word` appears does not mention `word`. */
  lemma Unmentioned(name: string, word: string, c: char)
    requires c in word && c !in name && UpperChar(c) !in name
    ensures !Mentions(name, word)
  {
    forall i | 0 <= i < |name| ensures Lower(name)[i] != c {
      assert name[i] in name;
    }
    MissingCharNotContains(Lower(name), word, c);
  }

  /** A name without capitals in which `a` is never followed by `b` does not mention `[a, b]`. */
  lemma UnmentionedPair(name: string, a: char, b: char)
    requires forall i :: 0 <= i < |name| ==> !('A' <= name[i] <= 'Z')
    requires forall i :: 0 <= i < |name| - 1 && name[i] == a ==> name[i + 1] != b
    ensures !Mentions(name, [a, b])
  {
    LowerUnchanged(name);
    PairNotContains(name, a, b);
  }

  /** A name holding `word`, which has no capitals, at index `i` mentions it. */
  lemma MentionedAt(name: string, word: string, i: nat)
    requires i + |word| <= |name| && name[i..i + |word|] == word
    requires forall k :: 0 <= k < |word| ==> !('A' <= word[k] <= 'Z')
    ensures Mentions(name, word)
  {
    forall k | 0 <= k < |word| ensures Lower(name)[i..i + |word|][k] == word[k] {
      assert name[i + k] == word[k];
    }
    assert Lower(name)[i..i + |word|] == word;
    OccursContains(Lower(name), word, i);
  }

  /** The first rule of the classification: an OpenAI model. */
  predicate MentionsOpenAI(name: string) {
    Mentions(name, "gpt") || Mentions(name, "o4")
  }

  /** The last rule: a self-hosted model behind the OpenAI-compatible API. */
  predicate MentionsSelfHosted(name: string) {
    Mentions(name, "deepseek") || Mentions(name, "qwen")
  }

  /** The SDK a client comes from. */
  datatype Vendor = OpenAICompatible | Gemini | Anthropic

  /**
   * The client `setup_llm` builds for a model name. The rules are tried in
   * order and the first match decides; a name that matches none is unsupported.
   */
  function ClientVendor(name: string): (r: Option<Vendor>)
    ensures r.Some? <==> MentionsOpenAI(name) || Mentions(name, "gemini") || Mentions(name, "claude") || MentionsSelfHosted(name)
    ensures MentionsOpenAI(name) ==> r == Some(OpenAICompatible)
    ensures r == Some(Gemini) <==> !MentionsOpenAI(name) && Mentions(name, "gemini")
    ensures r == Some(Anthropic) <==> !MentionsOpenAI(name) && !Mentions(name, "gemini") && Mentions(name, "claude")
  {
    if MentionsOpenAI(name) then Some(OpenAICompatible)
    else if Mentions(name, "gemini") then Some(Gemini)
    else if Mentions(name, "claude") then Some(Anthropic)
    else if MentionsSelfHosted(name) then Some(OpenAICompatible)
    else None
  }

  /** The branch `generate_response` takes: gemini first, then claude, otherwise the OpenAI-compatible call. */
  function CallPath(name: string): (r: Vendor)
    ensures r == Gemini <==> Mentions(name, "gemini")
    ensures r == Anthropic <==> !Mentions(name, "gemini") && Mentions(name, "claude")
  {
    if Mentions(name, "gemini") then Gemini
    else if Mentions(name, "claude") then Anthropic
    else OpenAICompatible
  }

  /** An OpenAI name that mentions neither "gemini" nor "claude" gets an OpenAI client and call. */
  lemma OpenAIRoute(name: string)
    requires MentionsOpenAI(name) && !Mentions(name, "gemini") && !Mentions(name, "claude")
    ensures ClientVendor(name) == Some(OpenAICompatible) && CallPath(name) == OpenAICompatible
  {
  }

  /** A Gemini name that is not an OpenAI one gets a Gemini model and call. */
  lemma GeminiRoute(name: string)
    requires !MentionsOpenAI(name) && Mentions(name, "gemini")
    ensures ClientVendor(name) == Some(Gemini) && CallPath(name) == Gemini
  {
  }

  /** A Claude name that is neither an OpenAI nor a Gemini one gets an Anthropic client and call. */
  lemma AnthropicRoute(name: string)
    requires !MentionsOpenAI(name) && !Mentions(name, "gemini") && Mentions(name, "claude")
    ensures ClientVendor(name) == Some(Anthropic) && CallPath(name) == Anthropic
  {
  }

  /** A self-hosted model's name that matches no hosted vendor's word gets an OpenAI-compatible client and call. */
  lemma SelfHostedRoute(name: string)
    requires !MentionsOpenAI(name) && !Mentions(name, "gemini") && !Mentions(name, "claude") && MentionsSelfHosted(name)
    ensures ClientVendor(name) == Some(OpenAICompatible) && CallPath(name) == OpenAICompatible
  {
  }

  /**
   * For a supported name, the call path matches the client exactly when the
   * name does not combine an OpenAI word with "gemini" or "claude".
   */
  lemma PathMatchesClient(name: string)
    requires ClientVendor(name).Some?
    ensures CallPath(name) == ClientVendor(name).value
      <==> !(MentionsOpenAI(name) && (Mentions(name, "gemini") || Mentions(name, "claude")))
  {
  }

  /** A name such as "gpt-gemini" gets an OpenAI client but takes the Gemini call path. */
  lemma MixedNameMismatch()
    ensures ClientVendor("gpt-gemini") == Some(OpenAICompatible)
    ensures CallPath("gpt-gemini") == Gemini
  {
    MentionedAt("gpt-gemini", "gpt", 0);
    MentionedAt("gpt-gemini", "gemini", 4);
  }

  // ---------------------------------------------------------------------------
  // Clients

  /** A client, as the data it was built from. */
  datatype Client =
    | OpenAIClient(baseUrl: Value, apiKey: Value)
    | GeminiModel(apiKey: Value, modelName: string, systemInstruction: Option<string>)
    | AnthropicClient(apiKey: Value)

  function VendorOf(c: Client): Vendor {
    match c
    case OpenAIClient(_, _) => OpenAICompatible
    case GeminiModel(_, _, _) => Gemini
    case AnthropicClient(_) => Anthropic
  }

  /** Why setting up a tester fails. */
  datatype SetupError =
    | MissingKey(key: string)          // `config[key]` raises `KeyError`
    | NotText(key: string)             // the value has no `.lower()`: `AttributeError`
    | UnsupportedModel(name: string)   // `ValueError`
    | NotConfigured(name: string)      // `ValueError`

  /** The text of the two `ValueError`s. */
  function ValueErrorText(e: SetupError): string
    requires e.UnsupportedModel? || e.NotConfigured?
  {
    match e
    case UnsupportedModel(name) => "Unsupported LLM type: " + name
    case NotConfigured(name) => "LLM '" + name + "' not found in configuration"
  }

  /** The key every client is built with. */
  function ApiKey(c: Client): Value {
    match c
    case OpenAIClient(_, key) => key
    case GeminiModel(key, _, _) => key
    case AnthropicClient(key) => key
  }

  /**
   * The client for `name`, built from `config`. Keyword arguments are read
   * in order, `base_url` before `api_key`. Only a Gemini model is given a
   * system instruction.
   */
  function MakeClient(name: string, config: Entries, systemInstruction: Option<string>): (r: Result<Client, SetupError>)
    ensures r.Ok? <==> (ClientVendor(name).Some? && HasKey(config, "api_key")
      && (ClientVendor(name) == Some(OpenAICompatible) ==> HasKey(config, "base_url")))
    ensures ClientVendor(name).None? ==> r == Err(UnsupportedModel(name))
    ensures r.Ok? ==> VendorOf(r.value) == ClientVendor(name).value && ApiKey(r.value) == Get(config, "api_key")
    ensures r.Ok? && r.value.OpenAIClient? ==> r.value.baseUrl == Get(config, "base_url")
    ensures r.Ok? && r.value.GeminiModel? ==> r.value.modelName == name && r.value.systemInstruction == systemInstruction
    ensures ClientVendor(name) == Some(OpenAICompatible) && !HasKey(config, "base_url") ==> r == Err(MissingKey("base_url"))
    ensures ClientVendor(name).Some? && (ClientVendor(name) != Some(OpenAICompatible) || HasKey(config, "base_url")) && !HasKey(config, "api_key")
      ==> r == Err(MissingKey("api_key"))
  {
    match ClientVendor(name)
    case None => Err(UnsupportedModel(name))
    case Some(OpenAICompatible) =>
      if !HasKey(config, "base_url") then Err(MissingKey("base_url"))
      else if !HasKey(config, "api_key") then Err(MissingKey("api_key"))
      else Ok(OpenAIClient(Get(config, "base_url"), Get(config, "api_key")))
    case Some(Gemini) =>
      if !HasKey(config, "api_key") then Err(MissingKey("api_key"))
      else Ok(GeminiModel(Get(config, "api_key"), name, systemInstruction))
    case Some(Anthropic) =>
      if !HasKey(config, "api_key") then Err(MissingKey("api_key"))
      else Ok(AnthropicClient(Get(config, "api_key")))
  }

  // ---------------------------------------------------------------------------
  // Calls

  const DefaultMaxTokens := Int(5000)
  const DefaultTemperature := Float("0.8")

  /** `config.get('max_tokens', 5000)`. */
  function MaxTokens(config: Entries): Value {
    GetOr(config, "max_tokens", DefaultMaxTokens)
  }

  /** `config.get('temperature', 0.8)`. */
  function Temperature(config: Entries): Value {
    GetOr(config, "temperature", DefaultTemperature)
  }

  /** One chat message. */
  datatype Turn = Turn(role: string, content: string)

  /** The three SDK calls. */
  datatype Request =
    | GenerateContent(prompt: string)
    | MessagesCreate(model: string, maxTokens: Value, temperature: Value, system: string, messages: seq<Turn>)
    | ChatCompletionsCreate(model: string, messages: seq<Turn>, maxTokens: Value, temperature: Value)

  /** The request of the call path for `name`. */
  function RequestFor(name: string, config: Entries, system: string, prompt: string): (r: Request)
    ensures VendorOfRequest(r) == CallPath(name)
  {
    match CallPath(name)
    case Gemini => GenerateContent(prompt)
    case Anthropic =>
      MessagesCreate(name, MaxTokens(config), Temperature(config), system, [Turn("user", prompt)])
    case OpenAICompatible =>
      ChatCompletionsCreate(name, [Turn("system", system), Turn("user", prompt)], MaxTokens(config), Temperature(config))
  }

  function VendorOfRequest(r: Request): Vendor {
    match r
    case GenerateContent(_) => Gemini
    case MessagesCreate(_, _, _, _, _) => Anthropic
    case ChatCompletionsCreate(_, _, _, _) => OpenAICompatible
  }

  /** What the vendor sees as the user's words, in order. */
  function UserTexts(r: Request): seq<string> {
    match r
    case GenerateContent(prompt) => [prompt]
    case MessagesCreate(_, _, _, _, messages) => ContentsOf(messages, "user")
    case ChatCompletionsCreate(_, messages, _, _) => ContentsOf(messages, "user")
  }

  /** What the vendor sees as system instructions in the request itself. */
  function SystemTexts(r: Request): seq<string> {
    match r
    case GenerateContent(_) => []
    case MessagesCreate(_, _, _, system, messages) => [system] + ContentsOf(messages, "system")
    case ChatCompletionsCreate(_, messages, _, _) => ContentsOf(messages, "system")
  }

  /** The contents of the messages with the given role, in order. */
  function ContentsOf(messages: seq<Turn>, role: string): seq<string> {
    if messages == [] then []
    else (if messages[0].role == role then [messages[0].content] else []) + ContentsOf(messages[1..], role)
  }

  /**
   * Every call sends the prompt exactly once, as the only user text. Claude
   * and the OpenAI-compatible calls also send the system prompt once, with
   * the model name and the configured limits. A Gemini call sends the prompt
   * alone: its system prompt was given when the model was built.
   */
  lemma RequestCarries(name: string, config: Entries, system: string, prompt: string)
    ensures UserTexts(RequestFor(name, config, system, prompt)) == [prompt]
    ensures SystemTexts(RequestFor(name, config, system, prompt)) == if CallPath(name) == Gemini then [] else [system]
    ensures !RequestFor(name, config, system, prompt).GenerateContent? ==>
      RequestFor(name, config, system, prompt).model == name
      && RequestFor(name, config, system, prompt).maxTokens == MaxTokens(config)
      && RequestFor(name, config, system, prompt).temperature == Temperature(config)
  {
    var r := RequestFor(name, config, system, prompt);
    match CallPath(name)
    case Gemini =>
    case Anthropic =>
      assert ContentsOf([Turn("user", prompt)], "user") == [prompt] by {
        assert ContentsOf([Turn("user", prompt)][1..], "user") == [];
      }
      assert ContentsOf([Turn("user", prompt)], "system") == [] by {
        assert ContentsOf([Turn("user", prompt)][1..], "system") == [];
      }
    case OpenAICompatible =>
      var turns := [Turn("system", system), Turn("user", prompt)];
      assert turns[1..] == [Turn("user", prompt)];
      assert turns[1..][1..] == [];
      assert r == ChatCompletionsCreate(name, turns, MaxTokens(config), Temperature(config));
      assert ContentsOf(turns[1..], "system") == [] by { assert |"user"| != |"system"|; }
      assert ContentsOf(turns[1..], "user") == [prompt];
      assert ContentsOf(turns, "system") == [system];
      assert ContentsOf(turns, "user") == [prompt] by { assert |"system"| != |"user"|; }
  }

  /** What a call returns: the reply text, or the message of the exception raised. */
  datatype Outcome = Reply(text: string) | Raised(message: string)

  /** The vendor SDK, as a function of the client and the request. */
  type Transport = (Client, Request) -> Outcome

  const ErrorPrefix := "Error generating response: "

  /** The text `generate_response` returns for an outcome: it never raises. */
  function ResponseText(o: Outcome): string {
    match o
    case Reply(text) => text
    case Raised(message) => ErrorPrefix + message
  }

  /** The exception's message can be read back after the prefix. */
  lemma ErrorTextRoundTrip(message: string)
    ensures StartsWith(ResponseText(Raised(message)), ErrorPrefix)
    ensures ResponseText(Raised(message))[|ErrorPrefix|..] == message
  {
  }

  /** `generate_response(prompt)` on a set-up tester. */
  function Respond(name: string, config: Entries, system: string, prompt: string, client: Client, transport: Transport): string {
    ResponseText(transport(client, RequestFor(name, config, system, prompt)))
  }

}
