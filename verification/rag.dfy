/**
 * Messages and per-entity context of src/rag.rs: the `AiMessage` variants, their
 * constructors and rendering, the sentinel that asks for no default system
 * prompt, and the append-only `AiContext` component.
 */
module Rag {
  import opened Wrappers
  import opened Json
  import opened ActionPayloads

  datatype AiMessage =
    | System(text: string)
    | User(text: string)
    | Assistant(text: string)
    | Payload(payload: ActionPayload)

  /** The constructors wrap their argument in the matching variant, unchanged. */
  function SystemMessage(text: string): (m: AiMessage)
    ensures m.System? && m.text == text
  {
    System(text)
  }

  function UserMessage(text: string): (m: AiMessage)
    ensures m.User? && m.text == text
  {
    User(text)
  }

  function AssistantMessage(text: string): (m: AiMessage)
    ensures m.Assistant? && m.text == text
  {
    Assistant(text)
  }

  function PayloadMessage(action: ActionPayload): (m: AiMessage)
    ensures m.Payload? && m.payload == action
  {
    Payload(action)
  }

  /** `From<String>`: a bare string is a user message. */
  function FromString(s: string): (m: AiMessage)
    ensures m.User? && m.text == s
  {
    User(s)
  }

  const NoDefaultSystemContextText := "Forget the context."

  /** `no_default_system_context`: the sentinel is a system message with the fixed text. */
  function NoDefaultSystemContext(): (m: AiMessage)
    ensures m.System? && m.text == NoDefaultSystemContextText
  {
    SystemMessage(NoDefaultSystemContextText)
  }

  const SystemPrefix := "System: "
  const UserPrefix := "User: "
  const AssistantPrefix := "Assistant: "
  const PayloadPrefix := "Payload: "

  /**
   * `Display for AiMessage`: a prefix naming the variant, then the text; a payload
   * shows its name, a space and its parameters as `render` (serde_json's
   * `Display`) writes them.
   */
  function Display(m: AiMessage, render: Json -> string): (r: string)
    ensures !m.Payload? ==> r == PrefixOf(m) + m.text
    ensures m.Payload? ==> r == PayloadPrefix + m.payload.name + " " + render(m.payload.params)
  {
    match m
    case System(text) => SystemPrefix + text
    case User(text) => UserPrefix + text
    case Assistant(text) => AssistantPrefix + text
    case Payload(p) => PayloadPrefix + p.name + " " + render(p.params)
  }

  function PrefixOf(m: AiMessage): string {
    match m
    case System(_) => SystemPrefix
    case User(_) => UserPrefix
    case Assistant(_) => AssistantPrefix
    case Payload(_) => PayloadPrefix
  }

  /**
   * Reads a rendered text message back: the prefix names the variant, and
   * what follows its prefix is the text.
   */
  function ParseDisplayed(s: string): (r: Option<AiMessage>)
    ensures r.Some? ==> !r.value.Payload?
  {
    if |s| >= |SystemPrefix| && s[..|SystemPrefix|] == SystemPrefix then Some(System(s[|SystemPrefix|..]))
    else if |s| >= |UserPrefix| && s[..|UserPrefix|] == UserPrefix then Some(User(s[|UserPrefix|..]))
    else if |s| >= |AssistantPrefix| && s[..|AssistantPrefix|] == AssistantPrefix then Some(Assistant(s[|AssistantPrefix|..]))
    else None
  }

  /** Rendering loses nothing for the three text variants: the message can be read back. */
  lemma DisplayRoundTrip(m: AiMessage, render: Json -> string)
    requires !m.Payload?
    ensures ParseDisplayed(Display(m, render)) == Some(m)
  {
    var s := Display(m, render);
    match m
    case System(t) =>
      assert s[..|SystemPrefix|] == SystemPrefix;
      assert s[|SystemPrefix|..] == t;
    case User(t) =>
      assert s[0] == 'U';
      assert s[..|UserPrefix|] == UserPrefix;
      assert s[|UserPrefix|..] == t;
    case Assistant(t) =>
      assert s[0] == 'A';
      assert s[..|AssistantPrefix|] == AssistantPrefix;
      assert s[|AssistantPrefix|..] == t;
  }

  /** Two text messages with the same rendering are the same message. */
  lemma DisplayInjective(m1: AiMessage, m2: AiMessage, render: Json -> string)
    requires !m1.Payload? && !m2.Payload?
    requires Display(m1, render) == Display(m2, render)
    ensures m1 == m2
  {
    DisplayRoundTrip(m1, render);
    DisplayRoundTrip(m2, render);
  }

  /** `AiContext`: the context messages of one entity, only ever extended through `add_context`. */
  class AiContext {
    var messages: seq<AiMessage>

    /** Every stored message is a system message, as `add_context` is the only writer. */
    ghost predicate Valid()
      reads this
    {
      forall i :: 0 <= i < |messages| ==> messages[i].System?
    }

    /** `AiContext::new`: no messages. */
    constructor ()
      ensures Valid() && messages == []
    {
      messages := [];
    }

    /** `add_context`: exactly one system message at the end, the earlier ones untouched. */
    method AddContext(text: string)
      requires Valid()
      modifies this
      ensures Valid()
      ensures messages == old(messages) + [SystemMessage(text)]
    {
      messages := messages + [SystemMessage(text)];
    }

    /** `messages`: the stored messages in insertion order. */
    method Messages() returns (r: seq<AiMessage>)
      requires Valid()
      ensures r == messages
      ensures forall i :: 0 <= i < |r| ==> r[i].System?
    {
      r := messages;
    }

    /** `clear`: no messages afterwards. */
    method Clear()
      modifies this
      ensures Valid() && messages == []
    {
      messages := [];
    }
  }
}
