/**
 * The per-frame dialogue pipeline of src/dialogue.rs.
 *
 * - `handle_dialogue_requests` drains the request queue. A receiver with a
 *   preprogrammed line is answered at once. Any other request signals a context
 *   gather and starts a backend call on the entity's context plus the prompt.
 * - `poll_responses_receiver` drains the response channel into the receivers.
 * - `apply_loaded_model` swaps in a backend whose loading finished.
 *
 * The response channel is a FIFO sequence. A background thread's call is an
 * entry of `calls` until `Deliver` completes it; the backend itself is the
 * `Respond` function, which the caller supplies.
 */
module Dialogue {
  import opened Wrappers
  import opened Text
  import opened ActionPayloads
  import opened Rag
  import opened Models
  import opened Context

  /** A `LocalAi` backend, by identity: the built-in mock or a loaded model. */
  datatype Backend = MockAi | Loaded(id: nat)

  /** `LocalAi::prompt`: what a backend answers to a message list. */
  type Respond = (Backend, seq<AiMessage>) -> Result<string, string>

  datatype DialogueReceiver = DialogueReceiver(preprogrammed: Option<string>, lastResponse: Option<string>)

  /** `DialogueReceiver::new`: no preprogrammed line and no response yet. */
  function NewReceiver(): (r: DialogueReceiver)
    ensures r.preprogrammed.None? && r.lastResponse.None?
  {
    DialogueReceiver(None, None)
  }

  datatype DialogueRequest = DialogueRequest(entity: Entity, prompt: string)
  datatype DialogueResponse = DialogueResponse(entity: Entity, response: string)

  /** A backend call running on its own thread: whom it answers, which backend, which messages. */
  datatype BackendCall = BackendCall(entity: Entity, backend: Backend, messages: seq<AiMessage>)

  /** A `ModelLoadComplete` tracker entity and what its result channel holds (`None`: nothing yet). */
  datatype LoadTracker = LoadTracker(entity: Entity, result: Option<Result<Backend, string>>)

  /** `AIDialoguePlugin`. */
  datatype DialoguePlugin = DialoguePlugin(backend: Option<Backend>, builder: Option<ModelBuilder>, gatherConfig: GatherConfig)

  /** `AIDialoguePlugin::default`: the mock backend, no builder, radius 5 and eight documents. */
  function DefaultPlugin(): (p: DialoguePlugin)
    ensures p.backend == Some(MockAi) && p.builder.None?
    ensures p.gatherConfig.radius == 5.0 && p.gatherConfig.maxDocs == 8
  {
    DialoguePlugin(Some(MockAi), None, GatherConfig(5.0, 8))
  }

  /** `AIDialoguePlugin::with_backend`. */
  function WithBackend(b: Backend): (p: DialoguePlugin)
    ensures p.backend == Some(b) && p.builder.None? && p.gatherConfig == DefaultPlugin().gatherConfig
  {
    DefaultPlugin().(backend := Some(b), builder := None)
  }

  /** `AIDialoguePlugin::with_builder`. */
  function WithBuilder(builder: ModelBuilder): (p: DialoguePlugin)
    ensures p.backend.None? && p.builder == Some(builder) && p.gatherConfig == DefaultPlugin().gatherConfig
  {
    DefaultPlugin().(backend := None, builder := Some(builder))
  }

  /**
   * The backend `build` installs. `built` is what building the model from the
   * builder gives (it is only looked at when there is a builder).
   */
  function SelectBackend(plugin: DialoguePlugin, built: Result<Backend, string>): Backend {
    if plugin.builder.Some? then
      (if built.Ok? then built.value else MockAi)
    else if plugin.backend.Some? then plugin.backend.value
    else MockAi
  }

  /**
   * The choice, case by case: a builder decides alone (the model, or the mock when
   * building fails); without one the given backend is used, or the mock.
   */
  lemma SelectBackendCases(plugin: DialoguePlugin, built: Result<Backend, string>)
    ensures plugin.builder.Some? && built.Ok? ==> SelectBackend(plugin, built) == built.value
    ensures plugin.builder.Some? && built.Err? ==> SelectBackend(plugin, built) == MockAi
    ensures plugin.builder.None? && plugin.backend.Some? ==> SelectBackend(plugin, built) == plugin.backend.value
    ensures plugin.builder.None? && plugin.backend.None? ==> SelectBackend(plugin, built) == MockAi
    ensures SelectBackend(plugin, built) == MockAi || plugin.backend == Some(SelectBackend(plugin, built)) ||
            built == Ok(SelectBackend(plugin, built))
  {
  }

  /** The response text of a finished call: the answer, or the error wrapped as `(ai error: <e>)`. */
  function ResponseText(r: Result<string, string>): (t: string)
    ensures r.Ok? ==> t == r.value
    ensures r.Err? ==> t == ErrorText(r.error)
  {
    match r
    case Ok(s) => s
    case Err(e) => ErrorText(e)
  }

  const ErrorOpen := "(ai error: "

  function ErrorText(e: string): string {
    ErrorOpen + e + ")"
  }

  /** The error is recoverable from its wrapped text: the part between `(ai error: ` and the final `)`. */
  lemma ErrorTextRoundTrip(e: string)
    ensures var t := ErrorText(e);
      |t| == |e| + 12 && t[..11] == ErrorOpen && t[|t| - 1] == ')' && t[11..|t| - 1] == e
  {
  }

  /** The messages of one backend call: the entity's context messages, then the prompt as one user message. */
  function RequestMessages(context: seq<AiMessage>, prompt: string): (r: seq<AiMessage>)
    ensures |r| == |context| + 1 && r[..|context|] == context
    ensures r[|r| - 1] == UserMessage(prompt)
  {
    context + [UserMessage(prompt)]
  }

  /** The context messages of `e`, or none when it has no `AiContext`. */
  function ContextOf(contexts: map<Entity, seq<AiMessage>>, e: Entity): seq<AiMessage> {
    if e in contexts then contexts[e] else []
  }

  /** The preprogrammed line for `e`, when it has a receiver that holds one. */
  function PreprogrammedFor(receivers: map<Entity, DialogueReceiver>, e: Entity): Option<string> {
    if e in receivers then receivers[e].preprogrammed else None
  }

  /** What one pass of `handle_dialogue_requests` produces: responses sent, calls started, the gather request. */
  datatype Outbox = Outbox(sent: seq<DialogueResponse>, calls: seq<BackendCall>, gather: Option<Option<Entity>>)

  /** The state the pass reads and does not change. */
  datatype Inputs = Inputs(receivers: map<Entity, DialogueReceiver>, contexts: map<Entity, seq<AiMessage>>, backend: Backend)

  /** One request: a preprogrammed reply is sent; otherwise the gather is signalled (when the resource exists) and a call starts. */
  function HandleOne(inp: Inputs, out: Outbox, req: DialogueRequest): Outbox {
    match PreprogrammedFor(inp.receivers, req.entity)
    case Some(pre) => out.(sent := out.sent + [DialogueResponse(req.entity, pre)])
    case None =>
      out.(gather := if out.gather.Some? then Some(Some(req.entity)) else None,
           calls := out.calls + [BackendCall(req.entity, inp.backend, RequestMessages(ContextOf(inp.contexts, req.entity), req.prompt))])
  }

  /** The requests handled in queue order. */
  function HandleAll(inp: Inputs, out: Outbox, reqs: seq<DialogueRequest>): Outbox
    decreases |reqs|
  {
    if reqs == [] then out else HandleOne(inp, HandleAll(inp, out, reqs[..|reqs| - 1]), reqs[|reqs| - 1])
  }

  /** The immediate replies of a pass, in queue order: one per request whose receiver is preprogrammed. */
  function PreprogrammedReplies(receivers: map<Entity, DialogueReceiver>, reqs: seq<DialogueRequest>): seq<DialogueResponse>
    decreases |reqs|
  {
    if reqs == [] then []
    else
      var rest := PreprogrammedReplies(receivers, reqs[1..]);
      match PreprogrammedFor(receivers, reqs[0].entity)
      case Some(pre) => [DialogueResponse(reqs[0].entity, pre)] + rest
      case None => rest
  }

  /** The backend calls of a pass, in queue order: one per request whose receiver is not preprogrammed. */
  function CallsFor(inp: Inputs, reqs: seq<DialogueRequest>): seq<BackendCall>
    decreases |reqs|
  {
    if reqs == [] then []
    else
      var rest := CallsFor(inp, reqs[1..]);
      if PreprogrammedFor(inp.receivers, reqs[0].entity).Some? then rest
      else [BackendCall(reqs[0].entity, inp.backend, ContextOf(inp.contexts, reqs[0].entity) + [User(reqs[0].prompt)])] + rest
  }

  /** The entity of the last request in `reqs` that is not preprogrammed, if any. */
  function LastAsked(receivers: map<Entity, DialogueReceiver>, reqs: seq<DialogueRequest>): (r: Option<Entity>)
    ensures r.Some? ==> exists k :: 0 <= k < |reqs| && reqs[k].entity == r.value &&
                          PreprogrammedFor(receivers, reqs[k].entity).None? &&
                          forall j :: k < j < |reqs| ==> PreprogrammedFor(receivers, reqs[j].entity).Some?
    ensures r.None? ==> forall j :: 0 <= j < |reqs| ==> PreprogrammedFor(receivers, reqs[j].entity).Some?
    decreases |reqs|
  {
    if reqs == [] then None
    else if PreprogrammedFor(receivers, reqs[|reqs| - 1].entity).None? then Some(reqs[|reqs| - 1].entity)
    else
      var r := LastAsked(receivers, reqs[..|reqs| - 1]);
      assert forall j :: 0 <= j < |reqs| - 1 ==> reqs[..|reqs| - 1][j] == reqs[j];
      r
  }

  lemma {:induction false} PreprogrammedRepliesAppend(receivers: map<Entity, DialogueReceiver>, a: seq<DialogueRequest>, b: seq<DialogueRequest>)
    ensures PreprogrammedReplies(receivers, a + b) == PreprogrammedReplies(receivers, a) + PreprogrammedReplies(receivers, b)
    decreases |a|
  {
    if a == [] {
      assert a + b == b;
    } else {
      assert (a + b)[1..] == a[1..] + b;
      PreprogrammedRepliesAppend(receivers, a[1..], b);
    }
  }

  lemma {:induction false} CallsForAppend(inp: Inputs, a: seq<DialogueRequest>, b: seq<DialogueRequest>)
    ensures CallsFor(inp, a + b) == CallsFor(inp, a) + CallsFor(inp, b)
    decreases |a|
  {
    if a == [] {
      assert a + b == b;
    } else {
      assert (a + b)[1..] == a[1..] + b;
      CallsForAppend(inp, a[1..], b);
    }
  }

  /**
   * A pass sends exactly the preprogrammed replies and starts exactly the calls
   * of the other requests, each in queue order; the gather request, when the
   * resource exists, names the last request that was not preprogrammed.
   */
  lemma HandleAllMeaning(inp: Inputs, out: Outbox, reqs: seq<DialogueRequest>)
    ensures HandleAll(inp, out, reqs).sent == out.sent + PreprogrammedReplies(inp.receivers, reqs)
    ensures HandleAll(inp, out, reqs).calls == out.calls + CallsFor(inp, reqs)
    ensures HandleAll(inp, out, reqs).gather ==
      if out.gather.None? then None
      else match LastAsked(inp.receivers, reqs)
        case Some(e) => Some(Some(e))
        case None => out.gather
  {
    HandleAllSent(inp, out, reqs);
    HandleAllCalls(inp, out, reqs);
    HandleAllGather(inp, out, reqs);
  }

  lemma {:induction false} HandleAllSent(inp: Inputs, out: Outbox, reqs: seq<DialogueRequest>)
    ensures HandleAll(inp, out, reqs).sent == out.sent + PreprogrammedReplies(inp.receivers, reqs)
    decreases |reqs|
  {
    if reqs != [] {
      var init, last := reqs[..|reqs| - 1], reqs[|reqs| - 1];
      assert reqs == init + [last];
      HandleAllSent(inp, out, init);
      PreprogrammedRepliesAppend(inp.receivers, init, [last]);
      HandleOneMeaning(inp, HandleAll(inp, out, init), last);
    }
  }

  lemma {:induction false} HandleAllCalls(inp: Inputs, out: Outbox, reqs: seq<DialogueRequest>)
    ensures HandleAll(inp, out, reqs).calls == out.calls + CallsFor(inp, reqs)
    decreases |reqs|
  {
    if reqs != [] {
      var init, last := reqs[..|reqs| - 1], reqs[|reqs| - 1];
      assert reqs == init + [last];
      HandleAllCalls(inp, out, init);
      CallsForAppend(inp, init, [last]);
      HandleOneMeaning(inp, HandleAll(inp, out, init), last);
    }
  }

  lemma {:induction false} HandleAllGather(inp: Inputs, out: Outbox, reqs: seq<DialogueRequest>)
    ensures HandleAll(inp, out, reqs).gather ==
      if out.gather.None? then None
      else match LastAsked(inp.receivers, reqs)
        case Some(e) => Some(Some(e))
        case None => out.gather
    decreases |reqs|
  {
    if reqs != [] {
      var init, last := reqs[..|reqs| - 1], reqs[|reqs| - 1];
      assert reqs == init + [last];
      HandleAllGather(inp, out, init);
      HandleOneMeaning(inp, HandleAll(inp, out, init), last);
      LastAskedSnoc(inp.receivers, init, last);
    }
  }

  lemma LastAskedSnoc(receivers: map<Entity, DialogueReceiver>, init: seq<DialogueRequest>, last: DialogueRequest)
    ensures LastAsked(receivers, init + [last]) ==
      if PreprogrammedFor(receivers, last.entity).None? then Some(last.entity) else LastAsked(receivers, init)
  {
    assert (init + [last])[..|init|] == init;
  }

  /** One request in terms of the one-element replies and calls. */
  lemma HandleOneMeaning(inp: Inputs, out: Outbox, req: DialogueRequest)
    ensures HandleOne(inp, out, req).sent == out.sent + PreprogrammedReplies(inp.receivers, [req])
    ensures HandleOne(inp, out, req).calls == out.calls + CallsFor(inp, [req])
    ensures HandleOne(inp, out, req).gather ==
      if out.gather.None? || PreprogrammedFor(inp.receivers, req.entity).Some? then out.gather else Some(Some(req.entity))
  {
    assert [req][1..] == [];
  }

  /** Every call a pass starts carries the entity's context in order, then the prompt as the one final user message. */
  lemma CallsEndWithPrompt(inp: Inputs, reqs: seq<DialogueRequest>)
    ensures forall c :: c in CallsFor(inp, reqs) ==>
      c.backend == inp.backend && |c.messages| >= 1 &&
      c.messages[..|c.messages| - 1] == ContextOf(inp.contexts, c.entity) &&
      c.messages[|c.messages| - 1].User? &&
      exists k :: 0 <= k < |reqs| && reqs[k].entity == c.entity && c.messages[|c.messages| - 1].text == reqs[k].prompt
  {
    forall c | c in CallsFor(inp, reqs)
      ensures c.backend == inp.backend && |c.messages| >= 1
      ensures c.messages[..|c.messages| - 1] == ContextOf(inp.contexts, c.entity) && c.messages[|c.messages| - 1].User?
      ensures exists k :: 0 <= k < |reqs| && reqs[k].entity == c.entity && c.messages[|c.messages| - 1].text == reqs[k].prompt
    {
      CallComesFromRequest(inp, reqs, c);
      var k :| 0 <= k < |reqs| && c == CallOf(inp, reqs[k]);
      assert c.messages[..|c.messages| - 1] == ContextOf(inp.contexts, c.entity);
    }
  }

  /** The backend call a request that is not preprogrammed starts. */
  function CallOf(inp: Inputs, req: DialogueRequest): BackendCall {
    BackendCall(req.entity, inp.backend, ContextOf(inp.contexts, req.entity) + [User(req.prompt)])
  }

  /** Each call of a pass is the call of one of its requests, one whose receiver is not preprogrammed. */
  lemma {:induction false} CallComesFromRequest(inp: Inputs, reqs: seq<DialogueRequest>, c: BackendCall)
    requires c in CallsFor(inp, reqs)
    ensures exists k :: 0 <= k < |reqs| && PreprogrammedFor(inp.receivers, reqs[k].entity).None? && c == CallOf(inp, reqs[k])
    decreases |reqs|
  {
    if PreprogrammedFor(inp.receivers, reqs[0].entity).None? && c == CallOf(inp, reqs[0]) {
      assert 0 < |reqs|;
    } else {
      assert c in CallsFor(inp, reqs[1..]);
      CallComesFromRequest(inp, reqs[1..], c);
      var k :| 0 <= k < |reqs[1..]| && PreprogrammedFor(inp.receivers, reqs[1..][k].entity).None? && c == CallOf(inp, reqs[1..][k]);
      assert reqs[1..][k] == reqs[k + 1];
    }
  }

  /** A preprogrammed receiver is answered with exactly its line: no call, no gather signal. */
  lemma PreprogrammedShortCircuit(inp: Inputs, out: Outbox, req: DialogueRequest, pre: string)
    requires req.entity in inp.receivers && inp.receivers[req.entity].preprogrammed == Some(pre)
    ensures HandleOne(inp, out, req).sent == out.sent + [DialogueResponse(req.entity, pre)]
    ensures HandleOne(inp, out, req).calls == out.calls
    ensures HandleOne(inp, out, req).gather == out.gather
  {
  }

  /**
   * What `poll_responses_receiver` does with the responses, oldest first: each one
   * for an entity with a receiver becomes its last response (trimmed when `trim`
   * holds); the others are dropped.
   */
  function ApplyResponses(receivers: map<Entity, DialogueReceiver>, resps: seq<DialogueResponse>, trim: bool): (r: map<Entity, DialogueReceiver>)
    ensures r.Keys == receivers.Keys
    decreases |resps|
  {
    if resps == [] then receivers
    else ApplyResponse(ApplyResponses(receivers, resps[..|resps| - 1], trim), resps[|resps| - 1], trim)
  }

  /** One response: the receiver of its entity, if there is one, takes it as its last response. */
  function ApplyResponse(receivers: map<Entity, DialogueReceiver>, r: DialogueResponse, trim: bool): map<Entity, DialogueReceiver> {
    if r.entity in receivers then receivers[r.entity := receivers[r.entity].(lastResponse := Some(if trim then Trim(r.response) else r.response))]
    else receivers
  }

  lemma ApplyResponsesSnoc(receivers: map<Entity, DialogueReceiver>, resps: seq<DialogueResponse>, r: DialogueResponse, trim: bool)
    ensures ApplyResponses(receivers, resps + [r], trim) == ApplyResponse(ApplyResponses(receivers, resps, trim), r, trim)
  {
    assert (resps + [r])[..|resps|] == resps;
  }

  /** The text of the newest response for `e`, if there is one. */
  function LastResponseFor(resps: seq<DialogueResponse>, e: Entity): (r: Option<string>)
    ensures r.None? <==> forall k :: 0 <= k < |resps| ==> resps[k].entity != e
    ensures r.Some? ==>
      exists k :: 0 <= k < |resps| && resps[k] == DialogueResponse(e, r.value) &&
        forall j :: k < j < |resps| ==> resps[j].entity != e
    decreases |resps|
  {
    if resps == [] then None
    else if resps[|resps| - 1].entity == e then Some(resps[|resps| - 1].response)
    else
      var r := LastResponseFor(resps[..|resps| - 1], e);
      NewestCarriesOver(resps, resps[..|resps| - 1], resps[|resps| - 1], e, r);
      r
  }

  /** A response for another entity at the end of the channel leaves the newest one for `e` where it was. */
  lemma NewestCarriesOver(resps: seq<DialogueResponse>, init: seq<DialogueResponse>, last: DialogueResponse, e: Entity, r: Option<string>)
    requires resps == init + [last] && last.entity != e
    requires r.None? <==> forall k :: 0 <= k < |init| ==> init[k].entity != e
    requires r.Some? ==>
      exists k :: 0 <= k < |init| && init[k] == DialogueResponse(e, r.value) &&
        forall j :: k < j < |init| ==> init[j].entity != e
    ensures r.None? <==> forall k :: 0 <= k < |resps| ==> resps[k].entity != e
    ensures r.Some? ==>
      exists k :: 0 <= k < |resps| && resps[k] == DialogueResponse(e, r.value) &&
        forall j :: k < j < |resps| ==> resps[j].entity != e
  {
    assert forall k :: 0 <= k < |init| ==> resps[k] == init[k];
    if r.Some? {
      var k :| 0 <= k < |init| && init[k] == DialogueResponse(e, r.value) &&
        forall j :: k < j < |init| ==> init[j].entity != e;
      assert resps[k] == DialogueResponse(e, r.value);
    }
  }

  /**
   * After a poll, the receivers are the same entities with the same preprogrammed
   * lines; each one's last response is its newest response in the channel (trimmed
   * when `trim` holds), or what it was when the channel held none for it.
   */
  lemma {:induction false} ApplyResponsesMeaning(receivers: map<Entity, DialogueReceiver>, resps: seq<DialogueResponse>, trim: bool)
    ensures forall e :: e in receivers ==>
      ApplyResponses(receivers, resps, trim)[e].preprogrammed == receivers[e].preprogrammed &&
      ApplyResponses(receivers, resps, trim)[e].lastResponse ==
        match LastResponseFor(resps, e)
        case None => receivers[e].lastResponse
        case Some(t) => Some(if trim then Trim(t) else t)
    decreases |resps|
  {
    if resps != [] {
      var init, last := resps[..|resps| - 1], resps[|resps| - 1];
      ApplyResponsesMeaning(receivers, init, trim);
      var before := ApplyResponses(receivers, init, trim);
      assert ApplyResponses(receivers, resps, trim) == ApplyResponse(before, last, trim);
      forall e | e in receivers
        ensures ApplyResponses(receivers, resps, trim)[e].preprogrammed == receivers[e].preprogrammed
        ensures ApplyResponses(receivers, resps, trim)[e].lastResponse ==
          match LastResponseFor(resps, e)
          case None => receivers[e].lastResponse
          case Some(t) => Some(if trim then Trim(t) else t)
      {
        assert LastResponseFor(resps, e) == if last.entity == e then Some(last.response) else LastResponseFor(init, e);
      }
    }
  }

  /** The Bevy world as the dialogue systems see it. */
  class DialogueWorld {
    /** Whether a `LocalAiHandle` exists. */
    var hasHandle: bool
    /** `LocalAiHandle.backend`. */
    var backend: Backend
    /** `DialogueRequestQueue`, front first. */
    var queue: seq<DialogueRequest>
    /** The `DialogueReceiver` components. */
    var receivers: map<Entity, DialogueReceiver>
    /** The messages of each entity's `AiContext`. */
    var contexts: map<Entity, seq<AiMessage>>
    /** `ContextGatherRequest`: `None` when the resource is missing. */
    var gatherRequest: Option<Option<Entity>>
    /** `ContextGatherConfig`, as `build` installs it. */
    var gatherConfig: Option<GatherConfig>
    /** The response channel, oldest first. */
    var responses: seq<DialogueResponse>
    /** Backend calls started and not yet answered. */
    var calls: seq<BackendCall>
    /** `ModelLoadComplete` trackers, in query order. */
    var loads: seq<LoadTracker>

    /**
     * `AIDialoguePlugin::build`. With a handle already present nothing changes.
     * Otherwise the handle gets the selected backend and a new, empty channel, and
     * an empty queue, the configuration and an empty gather request are installed.
     */
    method Build(plugin: DialoguePlugin, built: Result<Backend, string>)
      modifies this
      ensures old(hasHandle) ==> unchanged(this)
      ensures !old(hasHandle) ==>
        hasHandle && backend == SelectBackend(plugin, built) && responses == [] && queue == [] &&
        gatherConfig == Some(plugin.gatherConfig) && gatherRequest == Some(None) &&
        receivers == old(receivers) && contexts == old(contexts) && calls == old(calls) && loads == old(loads)
    {
      if hasHandle {
        return;
      }
      backend := SelectBackend(plugin, built);
      hasHandle := true;
      responses := [];
      queue := [];
      gatherConfig := Some(plugin.gatherConfig);
      gatherRequest := Some(None);
    }

    /** `handle_dialogue_requests`: the whole queue, front to back, one request at a time. */
    method HandleDialogueRequests()
      modifies this
      ensures queue == []
      ensures Outbox(responses, calls, gatherRequest) ==
        HandleAll(Inputs(receivers, contexts, backend), Outbox(old(responses), old(calls), old(gatherRequest)), old(queue))
      ensures backend == old(backend) && receivers == old(receivers) && contexts == old(contexts)
      ensures loads == old(loads) && hasHandle == old(hasHandle) && gatherConfig == old(gatherConfig)
    {
      ghost var inp := Inputs(receivers, contexts, backend);
      ghost var start := Outbox(responses, calls, gatherRequest);
      ghost var done: seq<DialogueRequest> := [];
      while queue != []
        invariant old(queue) == done + queue
        invariant Outbox(responses, calls, gatherRequest) == HandleAll(inp, start, done)
        invariant inp == Inputs(receivers, contexts, backend)
        invariant loads == old(loads) && hasHandle == old(hasHandle) && gatherConfig == old(gatherConfig)
        decreases |queue|
      {
        var req := queue[0];
        queue := queue[1..];
        assert (done + [req])[..|done|] == done;
        assert HandleAll(inp, start, done + [req]) == HandleOne(inp, HandleAll(inp, start, done), req);
        done := done + [req];
        HandleRequest(req);
      }
      assert done == old(queue);
    }

    /** The body of the loop in `handle_dialogue_requests`, for one popped request. */
    method HandleRequest(req: DialogueRequest)
      modifies this
      ensures Outbox(responses, calls, gatherRequest) ==
        HandleOne(Inputs(receivers, contexts, backend), Outbox(old(responses), old(calls), old(gatherRequest)), req)
      ensures backend == old(backend) && receivers == old(receivers) && contexts == old(contexts) && queue == old(queue)
      ensures loads == old(loads) && hasHandle == old(hasHandle) && gatherConfig == old(gatherConfig)
    {
      var pre := if req.entity in receivers then receivers[req.entity].preprogrammed else None;
      if pre.Some? {
        responses := responses + [DialogueResponse(req.entity, pre.value)];
        return;
      }
      if gatherRequest.Some? {
        gatherRequest := Some(Some(req.entity));
      }
      var messages := if req.entity in contexts then contexts[req.entity] else [];
      messages := messages + [UserMessage(req.prompt)];
      calls := calls + [BackendCall(req.entity, backend, messages)];
    }

    /**
     * A background call finishes: its answer, or its error as `(ai error: <e>)`,
     * joins the channel for its entity, and the call is gone.
     */
    method Deliver(i: nat, respond: Respond)
      requires i < |calls|
      modifies this
      ensures calls == old(calls[..i] + calls[i + 1..])
      ensures responses == old(responses) +
        [DialogueResponse(old(calls[i].entity), ResponseText(respond(old(calls[i].backend), old(calls[i].messages))))]
      ensures backend == old(backend) && queue == old(queue) && receivers == old(receivers) && contexts == old(contexts)
      ensures gatherRequest == old(gatherRequest) && loads == old(loads) && hasHandle == old(hasHandle) && gatherConfig == old(gatherConfig)
    {
      var c := calls[i];
      var result := respond(c.backend, c.messages);
      var text := match result case Ok(s) => s case Err(e) => ErrorText(e);
      calls := calls[..i] + calls[i + 1..];
      responses := responses + [DialogueResponse(c.entity, text)];
    }

    /** `poll_responses_receiver`: drains the channel; receivers keep the trimmed text. */
    method PollResponsesReceiver()
      modifies this
      ensures responses == []
      ensures receivers == ApplyResponses(old(receivers), old(responses), true)
      ensures backend == old(backend) && queue == old(queue) && contexts == old(contexts) && calls == old(calls)
      ensures gatherRequest == old(gatherRequest) && loads == old(loads) && hasHandle == old(hasHandle) && gatherConfig == old(gatherConfig)
    {
      ghost var taken: seq<DialogueResponse> := [];
      while responses != []
        invariant old(responses) == taken + responses
        invariant receivers == ApplyResponses(old(receivers), taken, true)
        invariant backend == old(backend) && queue == old(queue) && contexts == old(contexts) && calls == old(calls)
        invariant gatherRequest == old(gatherRequest) && loads == old(loads) && hasHandle == old(hasHandle) && gatherConfig == old(gatherConfig)
        decreases |responses|
      {
        var resp := ReceiveOldest(true);
        ApplyResponsesSnoc(old(receivers), taken, resp, true);
        taken := taken + [resp];
      }
      assert taken == old(responses);
    }

    /**
     * One turn of the polling loop: the oldest response leaves the channel and the
     * receiver of its entity, if any, takes it as its last response (trimmed when
     * `trim` holds). Nothing else changes.
     */
    method ReceiveOldest(trim: bool) returns (resp: DialogueResponse)
      requires responses != []
      modifies this
      ensures resp == old(responses)[0] && responses == old(responses)[1..]
      ensures receivers == ApplyResponse(old(receivers), resp, trim)
      ensures backend == old(backend) && queue == old(queue) && contexts == old(contexts) && calls == old(calls)
      ensures gatherRequest == old(gatherRequest) && loads == old(loads) && hasHandle == old(hasHandle) && gatherConfig == old(gatherConfig)
    {
      resp := responses[0];
      responses := responses[1..];
      receivers := ApplyResponse(receivers, resp, trim);
    }

    /**
     * `apply_loaded_model`: every tracker whose result arrived is despawned; a
     * successful load replaces the backend, a failed one leaves it.
     */
    method ApplyLoadedModel()
      modifies this
      ensures (backend, loads) == ApplyLoads(old(backend), old(loads))
      ensures queue == old(queue) && receivers == old(receivers) && contexts == old(contexts) && calls == old(calls)
      ensures responses == old(responses) && gatherRequest == old(gatherRequest) && hasHandle == old(hasHandle) && gatherConfig == old(gatherConfig)
    {
      var kept: seq<LoadTracker> := [];
      var i := 0;
      while i < |loads|
        invariant 0 <= i <= |loads| && loads == old(loads)
        invariant (backend, kept) == ApplyLoads(old(backend), loads[..i])
        invariant queue == old(queue) && receivers == old(receivers) && contexts == old(contexts) && calls == old(calls)
        invariant responses == old(responses) && gatherRequest == old(gatherRequest) && hasHandle == old(hasHandle) && gatherConfig == old(gatherConfig)
      {
        assert loads[..i + 1][..i] == loads[..i];
        var t := loads[i];
        if t.result.Some? {
          if t.result.value.Ok? {
            backend := t.result.value.value;
          }
        } else {
          kept := kept + [t];
        }
        i := i + 1;
      }
      assert loads[..i] == loads;
      loads := kept;
    }
  }

  /** The backend and the trackers left after `apply_loaded_model` has visited `loads` in order. */
  function ApplyLoads(backend: Backend, loads: seq<LoadTracker>): (Backend, seq<LoadTracker>)
    decreases |loads|
  {
    if loads == [] then (backend, [])
    else
      var (b, kept) := ApplyLoads(backend, loads[..|loads| - 1]);
      var t := loads[|loads| - 1];
      match t.result
      case None => (b, kept + [t])
      case Some(Ok(nb)) => (nb, kept)
      case Some(Err(_)) => (b, kept)
  }

  /** The backend of the last tracker in `loads` whose load succeeded, if any. */
  function LastLoaded(loads: seq<LoadTracker>): (r: Option<Backend>)
    ensures r.Some? ==>
      exists k :: 0 <= k < |loads| && loads[k].result == Some(Ok(r.value)) &&
        forall j :: k < j < |loads| ==> !(loads[j].result.Some? && loads[j].result.value.Ok?)
    ensures r.None? ==> forall k :: 0 <= k < |loads| ==> !(loads[k].result.Some? && loads[k].result.value.Ok?)
    decreases |loads|
  {
    if loads == [] then None
    else
      var t := loads[|loads| - 1];
      if t.result.Some? && t.result.value.Ok? then Some(t.result.value.value)
      else
        var r := LastLoaded(loads[..|loads| - 1]);
        assert forall k :: 0 <= k < |loads| - 1 ==> loads[..|loads| - 1][k] == loads[k];
        r
  }

  /**
   * After `apply_loaded_model` the backend is the last successfully loaded one, or
   * the old one when none succeeded; exactly the trackers still waiting remain, in order.
   */
  lemma {:induction false} ApplyLoadsMeaning(backend: Backend, loads: seq<LoadTracker>)
    ensures ApplyLoads(backend, loads).0 == (match LastLoaded(loads) case Some(b) => b case None => backend)
    ensures forall t :: t in ApplyLoads(backend, loads).1 <==> t in loads && t.result.None?
    ensures |ApplyLoads(backend, loads).1| <= |loads|
    decreases |loads|
  {
    if loads != [] {
      var init := loads[..|loads| - 1];
      assert loads == init + [loads[|loads| - 1]];
      ApplyLoadsMeaning(backend, init);
    }
  }
}
