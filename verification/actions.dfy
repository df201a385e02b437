/**
 * The action side of src/actions.rs: the registry that maps action names to
 * handler systems, the runner that hands every pending action to its handler,
 * and `prompt_typed_action`, which asks the backend for a typed action and
 * queues it.
 *
 * Handler systems are abstract. Running one is recorded as an `Effect` in a
 * ghost log, which is what the contracts speak about.
 */
module Actions {
  import opened Wrappers
  import opened Json
  import opened ActionPayloads
  import opened Rag
  import opened Parse
  import opened Dialogue

  /**
   * A registered handler system, by identity. A typed one wraps a user system
   * that runs only when the action's parameters deserialise (`decodes`).
   */
  datatype Handler =
    | RawHandler(id: nat)
    | TypedHandler(id: nat, decodes: Json -> bool)

  /** What running one handler leaves behind: its system ran, or a typed handler logged a deserialisation error. */
  datatype Effect =
    | Ran(handler: nat, event: AiActionEvent)
    | DeserializeFailed(name: string, event: AiActionEvent)

  /** `AiActionRegistry`. */
  class AiActionRegistry {
    var handlers: map<string, Handler>

    constructor ()
      ensures handlers == map[]
    {
      handlers := map[];
    }

    /** `register`: the handler is stored under `name`, replacing any earlier one; other names keep theirs. */
    method Register(name: string, handler: Handler)
      modifies this
      ensures handlers == old(handlers)[name := handler]
    {
      handlers := handlers[name := handler];
    }

    /** `register_typed`: a wrapper around the user system, registered through `register` under the same name. */
    method RegisterTyped(name: string, id: nat, decodes: Json -> bool)
      modifies this
      ensures handlers == old(handlers)[name := TypedHandler(id, decodes)]
    {
      Register(name, TypedHandler(id, decodes));
    }
  }

  /** `PendingAiActions`: the actions waiting for their handlers, oldest first. */
  class PendingAiActions {
    var actions: seq<AiActionEvent>

    constructor ()
      ensures actions == []
    {
      actions := [];
    }
  }

  /** What handling one event produces: nothing without a handler; otherwise the handler's outcome. */
  function EffectOf(handlers: map<string, Handler>, e: AiActionEvent): seq<Effect> {
    if e.action.name !in handlers then []
    else match handlers[e.action.name]
      case RawHandler(id) => [Ran(id, e)]
      case TypedHandler(id, decodes) =>
        if decodes(e.action.params) then [Ran(id, e)] else [DeserializeFailed(e.action.name, e)]
  }

  /** The effects of handling `events` in order. */
  function Dispatch(handlers: map<string, Handler>, events: seq<AiActionEvent>): seq<Effect>
    decreases |events|
  {
    if events == [] then []
    else Dispatch(handlers, events[..|events| - 1]) + EffectOf(handlers, events[|events| - 1])
  }

  /** The events whose action name has a handler, in order. */
  function Registered(handlers: map<string, Handler>, events: seq<AiActionEvent>): (r: seq<AiActionEvent>)
    ensures forall k :: 0 <= k < |r| ==> r[k] in events && r[k].action.name in handlers
    decreases |events|
  {
    if events == [] then []
    else (if events[0].action.name in handlers then [events[0]] else []) + Registered(handlers, events[1..])
  }

  /** The world as `run_registered_actions_world` sees it. */
  class ActionWorld {
    /** The `PendingAiActions` resource, or `null` when it is missing. */
    var pending: PendingAiActions?
    /** `CurrentAiAction`: present only while a handler runs. */
    var current: Option<AiActionEvent>
    const registry: AiActionRegistry
    /** Every handler run so far. */
    ghost var log: seq<Effect>

    constructor (registry: AiActionRegistry, pending: PendingAiActions?)
      ensures this.registry == registry && this.pending == pending
      ensures current.None? && log == []
    {
      this.registry := registry;
      this.pending := pending;
      current := None;
      log := [];
    }

    /** One handler run, reading the current action as the handler systems do. */
    method RunHandler(handler: Handler)
      requires current.Some?
      modifies this`log
      ensures log == old(log) + (match handler
        case RawHandler(id) => [Ran(id, current.value)]
        case TypedHandler(id, decodes) =>
          if decodes(current.value.action.params) then [Ran(id, current.value)]
          else [DeserializeFailed(current.value.action.name, current.value)])
    {
      match handler
      case RawHandler(id) =>
        log := log + [Ran(id, current.value)];
      case TypedHandler(id, decodes) =>
        if decodes(current.value.action.params) {
          log := log + [Ran(id, current.value)];
        } else {
          log := log + [DeserializeFailed(current.value.action.name, current.value)];
        }
    }

    /**
     * `run_registered_actions_world`: takes every pending action, leaving the queue
     * empty, and handles them in order; `CurrentAiAction` is set around each handler
     * run and removed afterwards. With nothing pending, nothing happens.
     */
    method RunRegisteredActions()
      modifies this, pending
      ensures pending == old(pending) && registry.handlers == old(registry.handlers)
      ensures pending != null ==> pending.actions == []
      ensures var taken := if pending == null then [] else old(pending.actions);
        if taken == [] then current == old(current) && log == old(log)
        else current.None? && log == old(log) + Dispatch(registry.handlers, taken)
    {
      var taken: seq<AiActionEvent> := [];
      if pending != null {
        taken := pending.actions;
        pending.actions := [];
      }
      if taken == [] {
        return;
      }
      var i := 0;
      while i < |taken|
        invariant 0 <= i <= |taken|
        invariant log == old(log) + Dispatch(registry.handlers, taken[..i])
        invariant i > 0 ==> current.None?
        invariant pending == old(pending)
        invariant pending != null ==> pending.actions == []
      {
        RunAction(taken[i]);
        assert taken[..i + 1][..i] == taken[..i];
        i := i + 1;
      }
      assert taken[..i] == taken;
    }

    /**
     * One turn of the runner: `evt` becomes the current action, its handler (if
     * one is registered) runs, and the current action is removed again.
     */
    method RunAction(evt: AiActionEvent)
      modifies this`current, this`log
      ensures current.None? && log == old(log) + EffectOf(registry.handlers, evt)
    {
      current := Some(evt);
      if evt.action.name in registry.handlers {
        RunHandler(registry.handlers[evt.action.name]);
      }
      current := None;
    }
  }

  lemma {:induction false} DispatchAppend(handlers: map<string, Handler>, a: seq<AiActionEvent>, b: seq<AiActionEvent>)
    ensures Dispatch(handlers, a + b) == Dispatch(handlers, a) + Dispatch(handlers, b)
    decreases |b|
  {
    if b == [] {
      assert a + b == a;
    } else {
      var b' := b[..|b| - 1];
      assert (a + b)[..|a + b| - 1] == a + b';
      DispatchAppend(handlers, a, b');
    }
  }

  /**
   * Handling visits the events in queue order and skips exactly those without a
   * handler: there is one effect per registered event, about that event, in order.
   */
  lemma {:induction false} DispatchFollowsQueue(handlers: map<string, Handler>, events: seq<AiActionEvent>)
    ensures |Dispatch(handlers, events)| == |Registered(handlers, events)|
    ensures forall k :: 0 <= k < |Dispatch(handlers, events)| ==> Dispatch(handlers, events)[k].event == Registered(handlers, events)[k]
    decreases |events|
  {
    if events != [] {
      var e, rest := events[0], events[1..];
      DispatchFollowsQueue(handlers, rest);
      assert events == [e] + rest;
      DispatchAppend(handlers, [e], rest);
      assert Dispatch(handlers, [e]) == EffectOf(handlers, e) by {
        assert [e][..0] == [];
      }
      var head := EffectOf(handlers, e);
      var hd := if e.action.name in handlers then [e] else [];
      assert Registered(handlers, events) == hd + Registered(handlers, rest);
      EventsOfConcat(head, hd, Dispatch(handlers, rest), Registered(handlers, rest));
    }
  }

  /** Effects that match their events one for one still do after concatenation. */
  lemma EventsOfConcat(d1: seq<Effect>, r1: seq<AiActionEvent>, d2: seq<Effect>, r2: seq<AiActionEvent>)
    requires |d1| == |r1| && forall k :: 0 <= k < |d1| ==> d1[k].event == r1[k]
    requires |d2| == |r2| && forall k :: 0 <= k < |d2| ==> d2[k].event == r2[k]
    ensures |d1 + d2| == |r1 + r2| && forall k :: 0 <= k < |d1 + d2| ==> (d1 + d2)[k].event == (r1 + r2)[k]
  {
    forall k | 0 <= k < |d1 + d2|
      ensures (d1 + d2)[k].event == (r1 + r2)[k]
    {
      if k >= |d1| {
        assert (d1 + d2)[k] == d2[k - |d1|] && (r1 + r2)[k] == r2[k - |r1|];
      }
    }
  }


  /** A typed handler's user system runs exactly when the action's parameters deserialise. */
  lemma TypedHandlerRunsOnlyOnDecode(handlers: map<string, Handler>, e: AiActionEvent, id: nat, decodes: Json -> bool)
    requires e.action.name in handlers && handlers[e.action.name] == TypedHandler(id, decodes)
    ensures EffectOf(handlers, e) == [Ran(id, e)] <==> decodes(e.action.params)
    ensures !decodes(e.action.params) ==> EffectOf(handlers, e) == [DeserializeFailed(e.action.name, e)]
  {
  }

  /**
   * What `prompt_typed_action` returns: the backend's error, the parse error, or
   * the parsed value with the raw response. The backend receives one user message,
   * the typed prompt built from `schema` and the request.
   */
  function TypedPromptOutcome<T>(backend: Backend, respond: Respond, schema: string, userMessage: string,
                                 decode: string -> Option<T>, parse: ValueParser): Result<(T, string), string>
  {
    match respond(backend, [UserMessage(BuildTypedPrompt(schema, userMessage))])
    case Err(e) => Err(e)
    case Ok(response) =>
      match ExtractAndParseJson(response, decode, parse)
      case Err(e) => Err(e)
      case Ok(v) => Ok((v, response))
  }

  /**
   * `prompt_typed_action`: on success exactly one event, for `entity` and the
   * parsed value's payload, joins the end of the queue; on any error the queue
   * is left as it was.
   */
  method PromptTypedAction<T>(backend: Backend, respond: Respond, schema: string, userMessage: string, entity: Entity,
                              decode: string -> Option<T>, parse: ValueParser, toPayload: T -> ActionPayload,
                              pending: PendingAiActions)
    returns (r: Result<(T, string), string>)
    modifies pending
    ensures r == TypedPromptOutcome(backend, respond, schema, userMessage, decode, parse)
    ensures r.Ok? ==> pending.actions == old(pending.actions) + [AiActionEvent(entity, toPayload(r.value.0))]
    ensures r.Err? ==> pending.actions == old(pending.actions)
  {
    var formatted := BuildTypedPrompt(schema, userMessage);
    var messages := [UserMessage(formatted)];
    var response := respond(backend, messages);
    if response.Err? {
      return Err(response.error);
    }
    var parsed := ExtractAndParseJson(response.value, decode, parse);
    if parsed.Err? {
      return Err(parsed.error);
    }
    var action := toPayload(parsed.value);
    pending.actions := pending.actions + [AiActionEvent(entity, action)];
    r := Ok((parsed.value, response.value));
  }

  /**
   * The error cases of `prompt_typed_action`: a backend error comes back as is;
   * a response nothing can be decoded from gives the parse failure message.
   */
  lemma TypedPromptErrors<T>(backend: Backend, respond: Respond, schema: string, userMessage: string,
                             decode: string -> Option<T>, parse: ValueParser)
    ensures var answer := respond(backend, [UserMessage(BuildTypedPrompt(schema, userMessage))]);
      var out := TypedPromptOutcome(backend, respond, schema, userMessage, decode, parse);
      (answer.Err? ==> out == Err(answer.error)) &&
      (answer.Ok? && ExtractAndParseJson(answer.value, decode, parse).Err? ==>
         out == Err(FailurePrefix + Excerpt(answer.value)))
  {
    var answer := respond(backend, [UserMessage(BuildTypedPrompt(schema, userMessage))]);
    if answer.Ok? {
      ParseReturnsFirstSuccess(answer.value, decode, parse);
    }
  }
}
