/** The pure helpers of the AI provider base class (`AIProvider` in
    `ai/base.py`): the model default taken from the configuration, the
    redacted model information, the whitespace token count, and the merge
    of a provider's configuration with per-request parameters. */
module Provider {
  import opened Wrappers
  import opened Text

  /** A configuration value; the source keeps `Dict[str, Any]`. */
  datatype Value =
    | Null
    | Bool(b: bool)
    | Int(i: int)
    | Str(s: string)
    | List(items: seq<Value>)

  type Config = map<string, Value>

  /** The roles of a message in a conversation, with their wire names. */
  datatype MessageRole = System | User | Assistant {
    function Name(): string {
      match this
      case System => "system"
      case User => "user"
      case Assistant => "assistant"
    }
  }

  /** The enum lookup `MessageRole(s)`: defined exactly for the three wire
      names. */
  function ParseRole(s: string): (r: Option<MessageRole>)
    ensures r.Some? ==> r.value.Name() == s
  {
    if s == "system" then Some(System)
    else if s == "user" then Some(User)
    else if s == "assistant" then Some(Assistant)
    else None
  }

  lemma RoleNamesRoundTrip(role: MessageRole)
    ensures ParseRole(role.Name()) == Some(role)
  {
  }

  /** A provider after `AIProvider.__init__`: its configuration and model. */
  datatype AIProvider = AIProvider(config: Config, model: Value)

  const DefaultModel: Value := Str("unknown")

  /** `__init__`: the model is the configuration's `model` entry, or
      `"unknown"` when it has none. */
  function NewProvider(config: Config): (p: AIProvider)
    ensures p.config == config
    ensures "model" in config ==> p.model == config["model"]
    ensures "model" !in config ==> p.model == DefaultModel
  {
    AIProvider(config, if "model" in config then config["model"] else DefaultModel)
  }

  /** A configuration key hidden from model information: its lower-cased
      form contains `key`. */
  predicate Secret(k: string) {
    Contains(Lower(k), "key")
  }

  /** The configuration with every secret key removed. */
  function Redact(config: Config): (r: Config)
    ensures forall k :: k in r <==> k in config && !Secret(k)
    ensures forall k :: k in r ==> r[k] == config[k]
  {
    map k | k in config && !Secret(k) :: config[k]
  }

  /** The result of `get_model_info`: the model, the provider's class name
      and the redacted configuration. */
  datatype ModelInfo = ModelInfo(model: Value, provider: string, config: Config)

  function GetModelInfo(p: AIProvider, className: string): (info: ModelInfo)
    ensures info.model == p.model && info.provider == className
    ensures info.config.Keys <= p.config.Keys
    ensures forall k :: k in info.config ==> !Secret(k) && info.config[k] == p.config[k]
    ensures forall k :: k in p.config && !Secret(k) ==> k in info.config
  {
    ModelInfo(p.model, className, Redact(p.config))
  }

  /** Redacting twice removes nothing more. */
  lemma RedactIdempotent(config: Config)
    ensures Redact(Redact(config)) == Redact(config)
  {
  }

  /** Model information never shows a key spelled with `key` in any ASCII
      case, such as `api_key` or `API_KEY`, and shows every other key. */
  lemma ModelInfoHidesKeys(config: Config, className: string, k: string)
    requires k in config
    ensures var info := GetModelInfo(NewProvider(config), className);
      k in info.config <==> !Contains(Lower(k), "key")
  {
  }

  lemma ApiKeyHidden()
    ensures Secret("api_key") && Secret("API_KEY") && !Secret("model")
  {
    assert OccursAt(Lower("api_key"), "key", 4);
    assert OccursAt(Lower("API_KEY"), "key", 4);
    var m := Lower("model");
    assert m == "model";
    forall i: nat | i <= |m| - 3
      ensures !OccursAt(m, "key", i)
    {
      assert m[i] != 'k';
    }
  }

  /** `_merge_config`: a copy of the configuration updated with the request
      parameters, which win on a shared key.  The provider's own
      configuration is a value here and so stays as it was. */
  function MergeConfig(p: AIProvider, kwargs: Config): (merged: Config)
    ensures merged.Keys == p.config.Keys + kwargs.Keys
    ensures forall k :: k in kwargs ==> merged[k] == kwargs[k]
    ensures forall k :: k in p.config && k !in kwargs ==> merged[k] == p.config[k]
  {
    p.config + kwargs
  }

  /** Merging in no parameters gives the configuration back. */
  lemma MergeNothing(p: AIProvider)
    ensures MergeConfig(p, map[]) == p.config
  {
  }

  /** Merging twice is merging once with the later parameters winning. */
  lemma MergeTwice(p: AIProvider, first: Config, second: Config)
    ensures MergeConfig(AIProvider(MergeConfig(p, first), p.model), second)
      == MergeConfig(p, first + second)
  {
  }

  /** Redacting a merged configuration is merging the redacted parts. */
  lemma RedactMerge(p: AIProvider, kwargs: Config)
    ensures Redact(MergeConfig(p, kwargs)) == Redact(p.config) + Redact(kwargs)
  {
  }

  // ------------------------------------------------------------ usage

  /** The token usage `_calculate_usage` reports. */
  datatype Usage = Usage(promptTokens: nat, completionTokens: nat, totalTokens: nat)

  /** `len(text.split())`: the number of whitespace-separated words. */
  function CountTokens(text: string): (n: nat)
    ensures n == RunCount(text, false)
  {
    TokensCountRuns(text);
    |Tokens(text)|
  }

  function CalculateUsage(prompt: string, response: string): (u: Usage)
    ensures u.promptTokens == CountTokens(prompt)
    ensures u.completionTokens == CountTokens(response)
    ensures u.totalTokens == u.promptTokens + u.completionTokens
  {
    var p, c := CountTokens(prompt), CountTokens(response);
    Usage(p, c, p + c)
  }

  /** Text that is empty or all whitespace has no tokens. */
  lemma BlankHasNoTokens(text: string)
    requires forall i :: 0 <= i < |text| ==> IsSpace(text[i])
    ensures CountTokens(text) == 0
  {
    TokensAllSpace(text);
  }

  /** Counting is additive across a whitespace boundary. */
  lemma CountAcrossSpace(a: string, b: string)
    ensures CountTokens(a + " " + b) == CountTokens(a) + CountTokens(b)
  {
    assert a + " " + b == a + (" " + b);
    TokensConcat(a, " " + b);
    TokensConcat(" ", b);
    TokensAllSpace(" ");
  }

  /** Stripping the ends of a text does not change its count. */
  lemma CountIgnoresEnds(text: string)
    ensures CountTokens(Strip(text)) == CountTokens(text)
  {
    TokensStrip(text);
  }
}
