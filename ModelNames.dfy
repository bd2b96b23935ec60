/**
 * How the classification of `LLMTester` treats the five model names of the
 * profiles: which words each name mentions, and so which client it gets and
 * which call path it takes. Each name's facts are proved in small steps:
 * the letters it lacks, the words it therefore does not mention, and the
 * one word it starts with.
 */
module ModelNames {
  import opened Text
  import opened Routing

  // o4-mini

  lemma O4MiniRoutes()
    ensures ClientVendor("o4-mini") == Some(OpenAICompatible)
    ensures CallPath("o4-mini") == OpenAICompatible
  {
    O4MiniAbsent();
    O4MiniMentions();
    OpenAIRoute("o4-mini");
  }

  lemma O4MiniLetters()
    ensures 'g' !in "o4-mini" && 'G' !in "o4-mini" && 'c' !in "o4-mini" && 'C' !in "o4-mini"
  {
  }

  lemma O4MiniAbsent()
    ensures !Mentions("o4-mini", "gemini") && !Mentions("o4-mini", "claude")
  {
    O4MiniLetters();
    Unmentioned("o4-mini", "gemini", 'g');
    Unmentioned("o4-mini", "claude", 'c');
  }

  lemma O4MiniMentions()
    ensures Mentions("o4-mini", "o4")
  {
    MentionedAt("o4-mini", "o4", 0);
  }

  // gemini-2.5-pro

  lemma GeminiRoutes()
    ensures ClientVendor("gemini-2.5-pro") == Some(Gemini)
    ensures CallPath("gemini-2.5-pro") == Gemini
  {
    GeminiAbsent();
    GeminiMentions();
    GeminiRoute("gemini-2.5-pro");
  }

  lemma GeminiLetters()
    ensures 't' !in "gemini-2.5-pro" && 'T' !in "gemini-2.5-pro" && '4' !in "gemini-2.5-pro"
  {
  }

  lemma GeminiAbsent()
    ensures !MentionsOpenAI("gemini-2.5-pro")
  {
    GeminiLetters();
    Unmentioned("gemini-2.5-pro", "gpt", 't');
    Unmentioned("gemini-2.5-pro", "o4", '4');
  }

  lemma GeminiMentions()
    ensures Mentions("gemini-2.5-pro", "gemini")
  {
    MentionedAt("gemini-2.5-pro", "gemini", 0);
  }

  // claude-3-5-sonnet-20241022

  lemma ClaudeRoutes()
    ensures ClientVendor("claude-3-5-sonnet-20241022") == Some(Anthropic)
    ensures CallPath("claude-3-5-sonnet-20241022") == Anthropic
  {
    ClaudeAbsent();
    ClaudeNoO4();
    ClaudeMentions();
    AnthropicRoute("claude-3-5-sonnet-20241022");
  }

  lemma ClaudeLetters()
    ensures 'g' !in "claude-3-5-sonnet-20241022" && 'G' !in "claude-3-5-sonnet-20241022"
  {
  }

  lemma ClaudeAbsent()
    ensures !Mentions("claude-3-5-sonnet-20241022", "gpt") && !Mentions("claude-3-5-sonnet-20241022", "gemini")
  {
    ClaudeLetters();
    Unmentioned("claude-3-5-sonnet-20241022", "gpt", 'g');
    Unmentioned("claude-3-5-sonnet-20241022", "gemini", 'g');
  }

  /** The name has an "o" (in "sonnet") and a "4", but no "o" followed by "4". */
  lemma ClaudeNoO4()
    ensures !Mentions("claude-3-5-sonnet-20241022", "o4")
  {
    UnmentionedPair("claude-3-5-sonnet-20241022", 'o', '4');
  }

  lemma ClaudeMentions()
    ensures Mentions("claude-3-5-sonnet-20241022", "claude")
  {
    MentionedAt("claude-3-5-sonnet-20241022", "claude", 0);
  }

  // deepseek-r1:70b

  lemma DeepseekR1Routes()
    ensures ClientVendor("deepseek-r1:70b") == Some(OpenAICompatible)
    ensures CallPath("deepseek-r1:70b") == OpenAICompatible
  {
    DeepseekR1Absent();
    DeepseekR1Mentions();
    SelfHostedRoute("deepseek-r1:70b");
  }

  lemma DeepseekR1Letters()
    ensures 'g' !in "deepseek-r1:70b" && 'G' !in "deepseek-r1:70b"
    ensures 'o' !in "deepseek-r1:70b" && 'O' !in "deepseek-r1:70b"
    ensures 'c' !in "deepseek-r1:70b" && 'C' !in "deepseek-r1:70b"
  {
  }

  /** No "g", "o" or "c": none of the hosted vendors' words. */
  lemma DeepseekR1Absent()
    ensures !MentionsOpenAI("deepseek-r1:70b")
    ensures !Mentions("deepseek-r1:70b", "gemini") && !Mentions("deepseek-r1:70b", "claude")
  {
    DeepseekR1Letters();
    Unmentioned("deepseek-r1:70b", "gpt", 'g');
    Unmentioned("deepseek-r1:70b", "o4", 'o');
    Unmentioned("deepseek-r1:70b", "gemini", 'g');
    Unmentioned("deepseek-r1:70b", "claude", 'c');
  }

  lemma DeepseekR1Mentions()
    ensures Mentions("deepseek-r1:70b", "deepseek")
  {
    MentionedAt("deepseek-r1:70b", "deepseek", 0);
  }

  // qwen3:32b

  lemma QwenRoutes()
    ensures ClientVendor("qwen3:32b") == Some(OpenAICompatible)
    ensures CallPath("qwen3:32b") == OpenAICompatible
  {
    QwenAbsent();
    QwenMentions();
    SelfHostedRoute("qwen3:32b");
  }

  lemma QwenLetters()
    ensures 'g' !in "qwen3:32b" && 'G' !in "qwen3:32b"
    ensures 'o' !in "qwen3:32b" && 'O' !in "qwen3:32b"
    ensures 'c' !in "qwen3:32b" && 'C' !in "qwen3:32b"
  {
  }

  /** No "g", "o" or "c": none of the hosted vendors' words. */
  lemma QwenAbsent()
    ensures !MentionsOpenAI("qwen3:32b")
    ensures !Mentions("qwen3:32b", "gemini") && !Mentions("qwen3:32b", "claude")
  {
    QwenLetters();
    Unmentioned("qwen3:32b", "gpt", 'g');
    Unmentioned("qwen3:32b", "o4", 'o');
    Unmentioned("qwen3:32b", "gemini", 'g');
    Unmentioned("qwen3:32b", "claude", 'c');
  }

  /** The last rule's second word: "deepseek" is not needed. */
  lemma QwenMentions()
    ensures Mentions("qwen3:32b", "qwen")
  {
    MentionedAt("qwen3:32b", "qwen", 0);
  }
}
