/**
 * The model side of src/models.rs: the `ModelBuilder` and `AIModel` builders and
 * the way `AIModel::prompt` turns a message list into one combined system prompt
 * and one conversation string before handing them to the chat model.
 */
module Models {
  import opened Wrappers
  import opened Text
  import opened Rag

  datatype ModelType = Llama

  /** Where the weights come from: a local file or a Hugging Face repository. */
  datatype FileSource =
    | Local(path: string)
    | HuggingFace(modelId: string, revision: string, file: string)

  datatype ModelBuilder = ModelBuilder(modelType: ModelType, fileSource: Option<FileSource>)

  /** `ModelBuilder::new`: the given model type and no file source. */
  function NewBuilder(modelType: ModelType): (b: ModelBuilder)
    ensures b.modelType == modelType && b.fileSource.None?
  {
    ModelBuilder(modelType, None)
  }

  /** `with_local`: the source becomes the local path; the model type is kept. */
  function WithLocal(b: ModelBuilder, path: string): (r: ModelBuilder)
    ensures r.modelType == b.modelType && r.fileSource == Some(Local(path))
  {
    b.(fileSource := Some(Local(path)))
  }

  /** `with_huggingface`: the source becomes the repository file; the model type is kept. */
  function WithHuggingface(b: ModelBuilder, repoId: string, revision: string, file: string): (r: ModelBuilder)
    ensures r.modelType == b.modelType && r.fileSource == Some(HuggingFace(repoId, revision, file))
  {
    b.(fileSource := Some(HuggingFace(repoId, revision, file)))
  }

  /** The source setters overwrite one another: only the last call counts. */
  lemma LastSourceWins(b: ModelBuilder, path: string, repoId: string, revision: string, file: string)
    ensures WithLocal(WithHuggingface(b, repoId, revision, file), path) == WithLocal(b, path)
    ensures WithHuggingface(WithLocal(b, path), repoId, revision, file) == WithHuggingface(b, repoId, revision, file)
  {
  }

  /** A loaded chat model (`model`, an opaque handle), its optional session and the default-prompt switch. */
  datatype AIModel = AIModel(model: nat, session: Option<nat>, includeDefaultPrompt: bool)

  /** `AIModel::new`: no session, and the default system prompt switched on. */
  function NewModel(model: nat): (m: AIModel)
    ensures m.model == model && m.session.None? && m.includeDefaultPrompt
  {
    AIModel(model, None, true)
  }

  /** `include_default_prompt`: sets the switch and nothing else. */
  function IncludeDefaultPrompt(m: AIModel, on: bool): (r: AIModel)
    ensures r.includeDefaultPrompt == on
    ensures r.model == m.model && r.session == m.session
  {
    m.(includeDefaultPrompt := on)
  }

  const DefaultSystemPrompt := "You are an NPC.\n\nAnswer questions using only these facts. Do not invent anything. Do not explain. Do not add details.\n\nKeep responses short and factual."

  /** The texts of the system messages, in message order. */
  function SystemTexts(messages: seq<AiMessage>): seq<string>
    decreases |messages|
  {
    if messages == [] then []
    else
      var last := messages[|messages| - 1];
      SystemTexts(messages[..|messages| - 1]) + (if last.System? then [last.text] else [])
  }

  /** The pieces of the combined system prompt: the default prompt when switched on, then the system texts. */
  function SystemParts(includeDefault: bool, messages: seq<AiMessage>): seq<string> {
    (if includeDefault then [DefaultSystemPrompt] else []) + SystemTexts(messages)
  }

  /** One `User: <text>` line per user message, in message order; other messages add nothing. */
  function ConversationParts(messages: seq<AiMessage>): seq<string>
    decreases |messages|
  {
    if messages == [] then []
    else
      var last := messages[|messages| - 1];
      ConversationParts(messages[..|messages| - 1]) + (if last.User? then [UserPrefix + last.text] else [])
  }

  /**
   * The message-to-prompt assembly inside `AIModel::prompt`: two passes over the
   * messages, the first collecting system texts, the second user lines. The match
   * of the second pass has no arm for payload messages, so they are excluded here.
   */
  method AssemblePrompt(m: AIModel, messages: seq<AiMessage>) returns (systemPrompt: string, conversation: string)
    requires forall i :: 0 <= i < |messages| ==> !messages[i].Payload?
    ensures systemPrompt == Join(SystemParts(m.includeDefaultPrompt, messages), "\n\n")
    ensures conversation == Join(ConversationParts(messages), "\n")
  {
    var systemParts: seq<string> := if m.includeDefaultPrompt then [DefaultSystemPrompt] else [];
    var i := 0;
    while i < |messages|
      invariant 0 <= i <= |messages|
      invariant systemParts == SystemParts(m.includeDefaultPrompt, messages[..i])
    {
      assert messages[..i + 1][..i] == messages[..i];
      if messages[i].System? {
        systemParts := systemParts + [messages[i].text];
      }
      i := i + 1;
    }
    assert messages[..i] == messages;
    systemPrompt := Join(systemParts, "\n\n");

    var conversationParts: seq<string> := [];
    i := 0;
    while i < |messages|
      invariant 0 <= i <= |messages|
      invariant conversationParts == ConversationParts(messages[..i])
    {
      assert messages[..i + 1][..i] == messages[..i];
      if messages[i].User? {
        conversationParts := conversationParts + [UserPrefix + messages[i].text];
      }
      i := i + 1;
    }
    assert messages[..i] == messages;
    conversation := Join(conversationParts, "\n");
  }

  lemma {:induction false} SystemTextsAppend(a: seq<AiMessage>, b: seq<AiMessage>)
    ensures SystemTexts(a + b) == SystemTexts(a) + SystemTexts(b)
    decreases |b|
  {
    if b == [] {
      assert a + b == a;
    } else {
      var b' := b[..|b| - 1];
      assert (a + b)[..|a + b| - 1] == a + b';
      SystemTextsAppend(a, b');
    }
  }

  lemma {:induction false} ConversationPartsAppend(a: seq<AiMessage>, b: seq<AiMessage>)
    ensures ConversationParts(a + b) == ConversationParts(a) + ConversationParts(b)
    decreases |b|
  {
    if b == [] {
      assert a + b == a;
    } else {
      var b' := b[..|b| - 1];
      assert (a + b)[..|a + b| - 1] == a + b';
      ConversationPartsAppend(a, b');
    }
  }

  /** The system prompt starts with the default prompt when the switch is on, and otherwise holds only the messages' own texts. */
  lemma DefaultPromptFirst(includeDefault: bool, messages: seq<AiMessage>)
    ensures includeDefault ==> SystemParts(includeDefault, messages)[0] == DefaultSystemPrompt
    ensures !includeDefault ==> SystemParts(includeDefault, messages) == SystemTexts(messages)
    ensures |SystemParts(includeDefault, messages)| == |SystemTexts(messages)| + (if includeDefault then 1 else 0)
  {
  }

  /** When every message is a system message, their texts are taken one for one, in order. */
  lemma {:induction false} AllSystemTexts(messages: seq<AiMessage>)
    requires forall i :: 0 <= i < |messages| ==> messages[i].System?
    ensures |SystemTexts(messages)| == |messages|
    ensures forall i :: 0 <= i < |messages| ==> SystemTexts(messages)[i] == messages[i].text
    ensures ConversationParts(messages) == []
    decreases |messages|
  {
    if messages != [] {
      AllSystemTexts(messages[..|messages| - 1]);
    }
  }

  /**
   * The shape the dialogue systems send (context system messages followed by one
   * user prompt): the conversation is the single line `User: <prompt>`, and the
   * system prompt is built from the context texts alone.
   */
  lemma ContextThenPrompt(context: seq<AiMessage>, prompt: string)
    requires forall i :: 0 <= i < |context| ==> context[i].System?
    ensures Join(ConversationParts(context + [User(prompt)]), "\n") == UserPrefix + prompt
    ensures SystemTexts(context + [User(prompt)]) == SystemTexts(context)
  {
    AllSystemTexts(context);
    ConversationPartsAppend(context, [User(prompt)]);
    SystemTextsAppend(context, [User(prompt)]);
    assert ConversationParts([User(prompt)]) == [UserPrefix + prompt] by {
      assert [User(prompt)][..0] == [];
    }
    assert SystemTexts([User(prompt)]) == [] by {
      assert [User(prompt)][..0] == [];
    }
  }

  /**
   * The model layer gives the sentinel no special meaning: it reaches the system
   * prompt as an ordinary text, after the default prompt.
   */
  lemma SentinelIsOrdinaryText()
    ensures SystemParts(true, [NoDefaultSystemContext()]) == [DefaultSystemPrompt, NoDefaultSystemContextText]
  {
    assert [NoDefaultSystemContext()][..0] == [];
  }
}
