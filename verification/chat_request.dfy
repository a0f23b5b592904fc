/**
 * The request arguments `__chat` hands to the worker thread, and the
 * settings setters whose values feed them.  Spin-box values are taken as
 * already rounded numbers.
 */
module ChatRequest {
  import opened Base

  /** The window's generation settings, including the stray `__topp` attribute. */
  datatype Settings = Settings(
    engine: string,
    temperature: real,
    maxTokens: int,
    topP: real,
    frequencyPenalty: real,
    presencePenalty: real,
    stream: bool,
    rememberPastConv: bool,
    strayTopp: Option<real>)

  /** The values `__initVal` starts from. */
  const Initial: Settings := Settings("gpt-3.5-turbo", 0.0, 256, 1.0, 0.0, 0.0, true, false, None)

  /** One settings widget signal. */
  datatype SettingChange =
    | ModelChanged(model: string)
    | TemperatureChanged(t: real)
    | MaxTokensChanged(n: int)
    | ToppChanged(p: real)
    | FrequencyPenaltyChanged(f: real)
    | PresencePenaltyChanged(q: real)
    | StreamChecked(on: bool)
    | RememberToggled(on: bool)

  /**
   * The slot connected to each signal: each writes its own attribute and no
   * other; no slot touches `__top_p` or the remember flag.
   */
  function Apply(s: Settings, c: SettingChange): (r: Settings)
    ensures r.topP == s.topP && r.rememberPastConv == s.rememberPastConv
    ensures c.ModelChanged? ==> r == s.(engine := c.model)
    ensures c.TemperatureChanged? ==> r == s.(temperature := c.t)
    ensures c.MaxTokensChanged? ==> r == s.(maxTokens := c.n)
    ensures c.ToppChanged? ==> r == s.(strayTopp := Some(c.p))
    ensures c.FrequencyPenaltyChanged? ==> r == s.(frequencyPenalty := c.f)
    ensures c.PresencePenaltyChanged? ==> r == s.(presencePenalty := c.q)
    ensures c.StreamChecked? ==> r == s.(stream := c.on)
    ensures c.RememberToggled? ==> r == s
  {
    match c
    case ModelChanged(m) => s.(engine := m)
    case TemperatureChanged(t) => s.(temperature := t)
    case MaxTokensChanged(n) => s.(maxTokens := n)
    // the slot assigns `__topp`, an attribute nothing reads
    case ToppChanged(p) => s.(strayTopp := Some(p))
    case FrequencyPenaltyChanged(f) => s.(frequencyPenalty := f)
    case PresencePenaltyChanged(q) => s.(presencePenalty := q)
    case StreamChecked(on) => s.(stream := on)
    // the slot stores the checkbox in the settings file only
    case RememberToggled(_) => s
  }

  /** The signals in the order they fire; none of them, the remember checkbox included, reaches the remember flag. */
  function ApplyAll(s: Settings, cs: seq<SettingChange>): (r: Settings)
    ensures |cs| == 0 ==> r == s
    ensures r.rememberPastConv == s.rememberPastConv
    decreases |cs|
  {
    if |cs| == 0 then s else ApplyAll(Apply(s, cs[0]), cs[1..])
  }

  /** The last signal is applied last, to the settings the earlier ones left. */
  lemma {:induction false} ApplyAllLast(s: Settings, cs: seq<SettingChange>, c: SettingChange)
    ensures ApplyAll(s, cs + [c]) == Apply(ApplyAll(s, cs), c)
    decreases |cs|
  {
    if |cs| == 0 {
      assert cs + [c] == [c];
      assert [c][1..] == [];
    } else {
      assert (cs + [c])[1..] == cs[1..] + [c];
      ApplyAllLast(Apply(s, cs[0]), cs[1..], c);
    }
  }

  datatype ChatMessage = ChatMessage(role: string, content: string)

  /** The three shapes of `openai_arg`; `NoArg` is the initial empty string `''`. */
  datatype OpenAIArg =
    | NoArg
    | ChatArgs(model: string, messages: seq<ChatMessage>, stream: bool)
    | CompletionArgs(engine: string, prompt: string, temperature: real, maxTokens: int,
                     topP: real, frequencyPenalty: real, presencePenalty: real)
    | ImageArgs(prompt: string, n: int, size: string)

  const ChatModels: seq<string> := ["gpt-3.5-turbo", "gpt-3.5-turbo-0301"]
  const SystemPrompt: string := "You are a helpful assistant."
  const ImageSize: string := "1024x1024"

  /**
   * `openai_arg` for combo-box index `idx`, the browser's whole text and the
   * user's input line.
   */
  function BuildArgs(idx: int, s: Settings, browserText: string, input: string): (a: OpenAIArg)
    ensures a.ChatArgs? <==> idx == 0 && s.engine in ChatModels
    ensures a.CompletionArgs? <==> idx == 0 && s.engine !in ChatModels
    ensures a.ImageArgs? <==> idx == 1
    ensures a.NoArg? <==> idx != 0 && idx != 1
    ensures a.ChatArgs? ==> a.model == s.engine && a.stream == s.stream
    ensures a.ChatArgs? ==>
              && |a.messages| == 3
              && a.messages[0] == ChatMessage("system", SystemPrompt)
              && a.messages[1] == ChatMessage("assistant", browserText)
              && a.messages[2] == ChatMessage("user", input)
    ensures a.CompletionArgs? ==>
              && a.engine == s.engine && a.prompt == input && a.topP == s.topP
              && a.temperature == s.temperature && a.maxTokens == s.maxTokens
              && a.frequencyPenalty == s.frequencyPenalty
              && a.presencePenalty == s.presencePenalty
    ensures a.ImageArgs? ==> a.prompt == input && a.n == 1 && a.size == ImageSize
  {
    if idx == 0 then
      if s.engine in ChatModels then
        ChatArgs(s.engine,
                 [ChatMessage("system", SystemPrompt),
                  ChatMessage("assistant", browserText),
                  ChatMessage("user", input)],
                 s.stream)
      else
        CompletionArgs(s.engine, input, s.temperature, s.maxTokens, s.topP,
                       s.frequencyPenalty, s.presencePenalty)
    else if idx == 1 then
      ImageArgs(input, 1, ImageSize)
    else
      NoArg
  }

  /** No sequence of settings signals moves `__top_p` away from its initial 1.0. */
  lemma {:induction false} TopPNeverChanges(s: Settings, cs: seq<SettingChange>)
    ensures ApplyAll(s, cs).topP == s.topP
    decreases |cs|
  {
    if |cs| > 0 {
      TopPNeverChanges(Apply(s, cs[0]), cs[1..]);
    }
  }

  /** Hence every completion request carries `top_p` 1.0, whatever the user set. */
  lemma CompletionTopPIsInitial(cs: seq<SettingChange>, browserText: string, input: string)
    requires ApplyAll(Initial, cs).engine !in ChatModels
    ensures BuildArgs(0, ApplyAll(Initial, cs), browserText, input).CompletionArgs?
    ensures BuildArgs(0, ApplyAll(Initial, cs), browserText, input).topP == 1.0
  {
    TopPNeverChanges(Initial, cs);
  }

  /** Every other setting does reach the request: the last temperature set is the one sent. */
  lemma {:induction false} TemperatureReachesRequest(s: Settings, cs: seq<SettingChange>, t: real)
    ensures ApplyAll(s, cs + [TemperatureChanged(t)]).temperature == t
    decreases |cs|
  {
    if |cs| > 0 {
      assert (cs + [TemperatureChanged(t)])[1..] == cs[1..] + [TemperatureChanged(t)];
      TemperatureReachesRequest(Apply(s, cs[0]), cs[1..], t);
    }
  }
}
