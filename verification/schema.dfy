/** The request and response models of the API (`api/models.py`): the
    field constraints Pydantic enforces on the OpenAI-compatible requests,
    the declared defaults, the generated response ids, and the enumerated
    fields of the project, board, stage and slide models. */
module Schema {
  import opened Seqs
  import opened Wrappers
  import opened Text
  import opened Provider

  // ------------------------------------------------------------ requests

  /** `ChatMessage`; `role` must be one of the three literals. */
  datatype ChatMessage = ChatMessage(role: string, content: string, name: Option<string>)

  predicate ValidMessage(m: ChatMessage) {
    m.role == "system" || m.role == "user" || m.role == "assistant"
  }

  /** The `role` literals are exactly the wire names of `MessageRole`. */
  lemma MessageRoleIsRole(m: ChatMessage)
    ensures ValidMessage(m) <==> ParseRole(m.role).Some?
  {
  }

  /** `stop`: one stop sequence or a list of them. */
  datatype Stop = OneStop(text: string) | StopList(texts: seq<string>)

  /** `prompt` of a completion request: one prompt or a list of them. */
  datatype Prompt = OnePrompt(text: string) | PromptList(texts: seq<string>)

  /** The sampling fields both request models declare, with the same
      constraints; `None` is an explicit `null`. */
  datatype Sampling = Sampling(
    temperature: Option<real>,
    maxTokens: Option<int>,
    topP: Option<real>,
    n: Option<int>,
    stream: Option<bool>,
    stop: Option<Stop>,
    presencePenalty: Option<real>,
    frequencyPenalty: Option<real>,
    user: Option<string>)

  datatype ChatCompletionRequest = ChatCompletionRequest(model: string, messages: seq<ChatMessage>, sampling: Sampling)

  datatype CompletionRequest = CompletionRequest(model: string, prompt: Prompt, sampling: Sampling)

  /** `ge=lo, le=hi` on an optional field: a null passes. */
  predicate Within(x: Option<real>, lo: real, hi: real) {
    x.None? || (lo <= x.value <= hi)
  }

  predicate WithinInt(x: Option<int>, lo: int, hi: int) {
    x.None? || (lo <= x.value <= hi)
  }

  /** `gt=0` on an optional field. */
  predicate PositiveOrNull(x: Option<int>) {
    x.None? || x.value > 0
  }

  /** The constraints of the sampling fields, as one conjunction. */
  predicate ValidSampling(s: Sampling) {
    && Within(s.temperature, 0.0, 2.0)
    && PositiveOrNull(s.maxTokens)
    && Within(s.topP, 0.0, 1.0)
    && WithinInt(s.n, 1, 128)
    && Within(s.presencePenalty, -2.0, 2.0)
    && Within(s.frequencyPenalty, -2.0, 2.0)
  }

  /** The constrained sampling fields, with their wire names. */
  datatype Field = Temperature | MaxTokens | TopP | N | PresencePenalty | FrequencyPenalty {
    function Name(): string {
      match this
      case Temperature => "temperature"
      case MaxTokens => "max_tokens"
      case TopP => "top_p"
      case N => "n"
      case PresencePenalty => "presence_penalty"
      case FrequencyPenalty => "frequency_penalty"
    }
  }

  /** The fields in declaration order. */
  const AllFields: seq<Field> := [Temperature, MaxTokens, TopP, N, PresencePenalty, FrequencyPenalty]

  lemma AllFieldsListed()
    ensures forall f: Field :: f in AllFields
  {
    forall f: Field
      ensures f in AllFields
    {
      match f
      case Temperature => assert AllFields[0] == f;
      case MaxTokens => assert AllFields[1] == f;
      case TopP => assert AllFields[2] == f;
      case N => assert AllFields[3] == f;
      case PresencePenalty => assert AllFields[4] == f;
      case FrequencyPenalty => assert AllFields[5] == f;
    }
  }

  /** Whether field `f` of `s` meets its own constraint. */
  predicate Holds(s: Sampling, f: Field) {
    match f
    case Temperature => Within(s.temperature, 0.0, 2.0)
    case MaxTokens => PositiveOrNull(s.maxTokens)
    case TopP => Within(s.topP, 0.0, 1.0)
    case N => WithinInt(s.n, 1, 128)
    case PresencePenalty => Within(s.presencePenalty, -2.0, 2.0)
    case FrequencyPenalty => Within(s.frequencyPenalty, -2.0, 2.0)
  }

  /** The sampling fields that fail their constraint, in declaration order,
      as Pydantic reports them. */
  function SamplingErrors(s: Sampling): (errs: seq<Field>)
    ensures |errs| <= |AllFields|
    ensures forall f :: f in errs <==> !Holds(s, f)
  {
    var fails := (f: Field) => !Holds(s, f);
    FilterMembers(fails, AllFields);
    AllFieldsListed();
    Filter(fails, AllFields)
  }

  /** Validation reports no error exactly when every constraint holds. */
  lemma SamplingErrorsIff(s: Sampling)
    ensures SamplingErrors(s) == [] <==> ValidSampling(s)
  {
    var errs := SamplingErrors(s);
    if errs != [] {
      assert errs[0] in errs;
    }
    if !ValidSampling(s) {
      if !Holds(s, Temperature) { assert Temperature in errs; }
      else if !Holds(s, MaxTokens) { assert MaxTokens in errs; }
      else if !Holds(s, TopP) { assert TopP in errs; }
      else if !Holds(s, N) { assert N in errs; }
      else if !Holds(s, PresencePenalty) { assert PresencePenalty in errs; }
      else { assert FrequencyPenalty in errs; }
    }
  }

  predicate ValidChatRequest(r: ChatCompletionRequest) {
    && (forall k :: 0 <= k < |r.messages| ==> ValidMessage(r.messages[k]))
    && ValidSampling(r.sampling)
  }

  predicate ValidCompletionRequest(r: CompletionRequest) {
    ValidSampling(r.sampling)
  }

  /** The declared defaults of the sampling fields; only `max_tokens`
      differs between the two request models. */
  function DefaultSampling(maxTokens: Option<int>): (s: Sampling)
    ensures s.temperature == Some(1.0) && s.topP == Some(1.0) && s.n == Some(1)
    ensures s.stream == Some(false) && s.stop.None? && s.user.None?
    ensures s.presencePenalty == Some(0.0) && s.frequencyPenalty == Some(0.0)
    ensures s.maxTokens == maxTokens
  {
    Sampling(Some(1.0), maxTokens, Some(1.0), Some(1), Some(false), None, Some(0.0), Some(0.0), None)
  }

  /** A chat request with every optional field left out. */
  function NewChatRequest(model: string, messages: seq<ChatMessage>): (r: ChatCompletionRequest)
    ensures r.model == model && r.messages == messages
    ensures r.sampling.maxTokens.None?
  {
    ChatCompletionRequest(model, messages, DefaultSampling(None))
  }

  /** A completion request with every optional field left out. */
  function NewCompletionRequest(model: string, prompt: Prompt): (r: CompletionRequest)
    ensures r.model == model && r.prompt == prompt
    ensures r.sampling.maxTokens == Some(16)
  {
    CompletionRequest(model, prompt, DefaultSampling(Some(16)))
  }

  /** The defaults satisfy the constraints: a chat request is valid as soon
      as its messages are, a completion request always. */
  lemma DefaultRequestsValid(model: string, messages: seq<ChatMessage>, prompt: Prompt)
    ensures ValidChatRequest(NewChatRequest(model, messages))
      <==> forall k :: 0 <= k < |messages| ==> ValidMessage(messages[k])
    ensures ValidCompletionRequest(NewCompletionRequest(model, prompt))
  {
  }

  // ------------------------------------------------------------ response ids

  predicate IsLowerHex(c: char) {
    ('0' <= c <= '9') || ('a' <= c <= 'f')
  }

  predicate AllLowerHex(s: string) {
    forall i :: 0 <= i < |s| ==> IsLowerHex(s[i])
  }

  function HexDigit(d: nat): (c: char)
    requires d < 16
    ensures IsLowerHex(c)
  {
    if d < 10 then ('0' as int + d) as char else ('a' as int + d - 10) as char
  }

  function HexValue(c: char): (d: nat)
    requires IsLowerHex(c)
    ensures d < 16
    ensures HexDigit(d) == c
  {
    if c <= '9' then c as int - '0' as int else c as int - 'a' as int + 10
  }

  function Pow16(k: nat): (p: nat)
    ensures p >= 1
  {
    if k == 0 then 1 else 16 * Pow16(k - 1)
  }

  /** `n` written with exactly `width` lower-case hex digits, most
      significant first, as `UUID.hex` writes 128 bits in 32 digits. */
  function Hex(n: nat, width: nat): (s: string)
    ensures |s| == width && AllLowerHex(s)
  {
    if width == 0 then "" else Hex(n / 16, width - 1) + [HexDigit(n % 16)]
  }

  function ParseHex(s: string): nat
    requires AllLowerHex(s)
  {
    if |s| == 0 then 0 else 16 * ParseHex(s[..|s| - 1]) + HexValue(s[|s| - 1])
  }

  /** Reading the digits back gives the number, when it fits the width. */
  lemma {:induction false} ParseHexRoundTrip(n: nat, width: nat)
    requires n < Pow16(width)
    ensures ParseHex(Hex(n, width)) == n
  {
    if width > 0 {
      var s := Hex(n, width);
      assert s[..|s| - 1] == Hex(n / 16, width - 1);
      assert n / 16 < Pow16(width - 1);
      ParseHexRoundTrip(n / 16, width - 1);
      assert HexValue(HexDigit(n % 16)) == n % 16;
    }
  }

  /** A 128-bit UUID, given as a number below `16^32`. */
  type Uuid = u: nat | u < Pow16(32)

  const IdHexLength: nat := 29

  /** `prefix + uuid.hex[:29]`. */
  function ResponseId(prefix: string, u: Uuid): (id: string)
    ensures |id| == |prefix| + IdHexLength
    ensures StartsWith(id, prefix)
    ensures AllLowerHex(id[|prefix|..])
    ensures id[|prefix|..] == Hex(u, 32)[..IdHexLength]
  {
    var id := prefix + Hex(u, 32)[..IdHexLength];
    assert id[..|prefix|] == prefix;
    id
  }

  /** The choices and usage block of both response models. */
  datatype ChatChoice = ChatChoice(index: int, message: ChatMessage, finishReason: Option<string>)
  datatype TextChoice = TextChoice(text: string, index: int, finishReason: Option<string>)
  datatype UsageInfo = UsageInfo(promptTokens: int, completionTokens: int, totalTokens: int)

  datatype ChatCompletionResponse = ChatCompletionResponse(
    id: string, objectType: string, created: int, model: string, choices: seq<ChatChoice>, usage: UsageInfo)

  datatype CompletionResponse = CompletionResponse(
    id: string, objectType: string, created: int, model: string, choices: seq<TextChoice>, usage: UsageInfo)

  const ChatIdPrefix := "chatcmpl-"
  const TextIdPrefix := "cmpl-"

  /** A chat response with its generated fields filled from the UUID `u`
      and the clock reading `clock` (`int(time.time())`). */
  function NewChatResponse(u: Uuid, clock: int, model: string, choices: seq<ChatChoice>, usage: UsageInfo)
    : (r: ChatCompletionResponse)
    ensures |r.id| == 38 && StartsWith(r.id, ChatIdPrefix) && AllLowerHex(r.id[9..])
    ensures r.objectType == "chat.completion"
    ensures r.created == clock && r.model == model && r.choices == choices && r.usage == usage
  {
    ChatCompletionResponse(ResponseId(ChatIdPrefix, u), "chat.completion", clock, model, choices, usage)
  }

  function NewCompletionResponse(u: Uuid, clock: int, model: string, choices: seq<TextChoice>, usage: UsageInfo)
    : (r: CompletionResponse)
    ensures |r.id| == 34 && StartsWith(r.id, TextIdPrefix) && AllLowerHex(r.id[5..])
    ensures r.objectType == "text_completion"
    ensures r.created == clock && r.model == model && r.choices == choices && r.usage == usage
  {
    CompletionResponse(ResponseId(TextIdPrefix, u), "text_completion", clock, model, choices, usage)
  }

  /** The usage block of a response as `_calculate_usage` computes it. */
  function UsageFor(prompt: string, response: string): (info: UsageInfo)
    ensures info.totalTokens == info.promptTokens + info.completionTokens
    ensures info.promptTokens == CountTokens(prompt) && info.completionTokens == CountTokens(response)
  {
    var u := CalculateUsage(prompt, response);
    UsageInfo(u.promptTokens, u.completionTokens, u.totalTokens)
  }

  // ------------------------------------------------------------ tasks and projects

  type Json = map<string, Value>

  predicate ValidStageStatus(s: string) {
    s == "pending" || s == "running" || s == "completed" || s == "failed"
  }

  /** `TodoStage`; `progress` is declared without bounds.  Each of the two
      clock fields has its own `time.time()` default, so a constructor takes
      two readings, `created` and `updated`, which may differ. */
  datatype TodoStage = TodoStage(
    id: string, name: string, description: string, status: string, progress: real,
    subtasks: seq<string>, result: Option<Json>, createdAt: real, updatedAt: real)

  function NewTodoStage(id: string, name: string, description: string, created: real, updated: real)
    : (s: TodoStage)
    ensures s.id == id && s.name == name && s.description == description
    ensures s.status == "pending" && s.progress == 0.0 && s.subtasks == [] && s.result.None?
    ensures s.createdAt == created && s.updatedAt == updated
  {
    TodoStage(id, name, description, "pending", 0.0, [], None, created, updated)
  }

  predicate ValidStage(s: TodoStage) {
    ValidStageStatus(s.status)
  }

  datatype TodoBoard = TodoBoard(
    taskId: string, title: string, stages: seq<TodoStage>, currentStageIndex: int,
    overallProgress: real, createdAt: real, updatedAt: real)

  function NewTodoBoard(taskId: string, title: string, stages: seq<TodoStage>, created: real, updated: real)
    : (b: TodoBoard)
    ensures b.taskId == taskId && b.title == title && b.stages == stages
    ensures b.currentStageIndex == 0 && b.overallProgress == 0.0
    ensures b.createdAt == created && b.updatedAt == updated
  {
    TodoBoard(taskId, title, stages, 0, 0.0, created, updated)
  }

  /** A board validates when each of its stages does; the index is not
      checked against the number of stages. */
  predicate ValidBoard(b: TodoBoard) {
    forall k :: 0 <= k < |b.stages| ==> ValidStage(b.stages[k])
  }

  /** Fresh stages make a valid board: whatever names and clock readings
      they are given, each new stage is `pending` at progress 0, inside the
      allowed literals and range. */
  lemma NewBoardValid(taskId: string, title: string, names: seq<string>, clocks: seq<real>,
                      created: real, updated: real)
    requires |clocks| == 2 * |names|
    ensures ValidBoard(NewTodoBoard(taskId, title,
      seq(|names|, k requires 0 <= k < |names| =>
        NewTodoStage(names[k], names[k], "", clocks[2 * k], clocks[2 * k + 1])), created, updated))
  {
  }

  predicate ValidProjectStatus(s: string) {
    s == "draft" || s == "in_progress" || s == "completed" || s == "archived"
  }

  datatype PPTProject = PPTProject(
    projectId: string, title: string, scenario: string, topic: string,
    requirements: Option<string>, status: string, outline: Option<Json>,
    slidesHtml: Option<string>, slidesData: Option<seq<Json>>,
    confirmedRequirements: Option<Json>, projectMetadata: Option<Json>,
    todoBoard: Option<TodoBoard>, version: int, versions: seq<Json>,
    createdAt: real, updatedAt: real)

  function NewProject(projectId: string, title: string, scenario: string, topic: string,
                      created: real, updated: real)
    : (p: PPTProject)
    ensures p.projectId == projectId && p.title == title && p.scenario == scenario && p.topic == topic
    ensures p.status == "draft" && p.version == 1 && p.versions == []
    ensures p.requirements.None? && p.outline.None? && p.slidesHtml.None? && p.slidesData.None?
    ensures p.confirmedRequirements.None? && p.projectMetadata.None? && p.todoBoard.None?
    ensures p.createdAt == created && p.updatedAt == updated
  {
    PPTProject(projectId, title, scenario, topic, None, "draft", None, None, None, None, None, None, 1, [],
      created, updated)
  }

  predicate ValidProject(p: PPTProject) {
    && ValidProjectStatus(p.status)
    && (p.todoBoard.Some? ==> ValidBoard(p.todoBoard.value))
  }

  lemma NewProjectValid(projectId: string, title: string, scenario: string, topic: string,
                        created: real, updated: real)
    ensures ValidProject(NewProject(projectId, title, scenario, topic, created, updated))
  {
  }

  /** A project stays valid when a valid board is attached. */
  lemma AttachBoardValid(p: PPTProject, b: TodoBoard)
    requires ValidProject(p) && ValidBoard(b)
    ensures ValidProject(p.(todoBoard := Some(b)))
  {
  }

  predicate ValidSlideType(t: string) {
    || t == "title" || t == "content" || t == "image" || t == "chart" || t == "list"
    || t == "thankyou" || t == "agenda" || t == "section" || t == "conclusion"
  }

  datatype SlideContent = SlideContent(
    slideType: string, title: string, subtitle: Option<string>, content: Option<string>,
    bulletPoints: Option<seq<string>>, imageSuggestions: Option<seq<string>>,
    chartData: Option<Json>, layout: string, locked: bool)

  function NewSlide(slideType: string, title: string): (s: SlideContent)
    ensures s.slideType == slideType && s.title == title
    ensures s.layout == "default" && !s.locked
    ensures s.subtitle.None? && s.content.None? && s.bulletPoints.None?
    ensures s.imageSuggestions.None? && s.chartData.None?
  {
    SlideContent(slideType, title, None, None, None, None, None, "default", false)
  }

  predicate ValidSlide(s: SlideContent) {
    ValidSlideType(s.slideType)
  }

  /** A slide built with the defaults is valid exactly when its type is one
      of the nine literals. */
  lemma NewSlideValid(slideType: string, title: string)
    ensures ValidSlide(NewSlide(slideType, title)) <==> ValidSlideType(slideType)
  {
  }
}
