# bevy-real-ai in Dafny

A Dafny model of the core of bevy-real-ai. This is a Bevy plugin that lets game
entities talk to a language model and act on what it answers. The model covers:

- **Parsing.** It covers how JSON is pulled out of a free-form model answer:
  - the whole trimmed text;
  - a ```` ```json ```` or plain ```` ``` ```` code block;
  - the first balanced `{...}` object found by a string-aware brace scanner;
  - a heuristic repair that closes an unclosed `[`.

  It also covers the order of these fallbacks, the failure message, the typed
  prompt and the schema type names.
- **Action payloads.** `new`, `with_param`, `get_raw`, and the conversion from
  JSON values into payloads.
- **Actions.** The registry mapping action names to handler systems, the runner
  that drains the pending actions through their handlers, and
  `prompt_typed_action`.
- **The derive macro.** `to_snake_case`, the generated `schema_description` text,
  the field sequence of the generated `into_action_payload`, and the generated
  `register`.
- **Messages and context.** The `AiMessage` constructors and their `Display` form,
  and the `AiContext` component.
- **Context gathering.** `gather_on_request_world`: nearby AI-aware entities are
  summarised by the registered extractors, subject to a document cap, and the
  result is stored as one system message on the requester.
- **Dialogue.** The plugin's backend choice, request handling, the response
  channel, polling of responses (trimmed, and untrimmed in the older NPC variant),
  and the hand-over of a loaded model.
- **Model layer.** The model builders, and the way `AIModel::prompt` turns messages
  into one system prompt and one `User: ...` conversation.

How the code is modelled:

- Code that changes state is modelled as classes:
  - the registries;
  - `AiContext`;
  - the Bevy world as each system sees it (`GatherWorld`, `DialogueWorld`,
    `ActionWorld`).

  Their methods are proved against specification functions.
- Loops are kept as loops, with invariants.
- Pure code is modelled as functions and lemmas.
- The pieces the core calls but does not define are function parameters:
  - the serde JSON parser (`ValueParser`) and typed decoders;
  - a backend's `prompt` (`Respond`);
  - extractor callbacks;
  - a typed handler's deserialisation test.
- Entities are natural numbers.
- Strings are sequences of ASCII characters.

## Model

| member | source | states |
|---|---|---|
| Text.Trim | src/parse.rs:129 | the input is the result with only whitespace before and after it, and the result neither starts nor ends with whitespace |
| Text.TrimIs | src/parse.rs:129 | that description fixes the result: any string so placed in the input is the trimmed text |
| Text.FindFrom | src/parse.rs:168-183 | the first occurrence at or after the start index: it occurs there and nowhere earlier, or nowhere at all |
| Text.RFind | src/parse.rs:297 | the last occurrence of a character, or none |
| Text.ReplaceKeepsClosers | src/parse.rs:285 | replacing `,]` by `]` keeps every `]` of the input |
| Parse.ExtractJsonObject | src/parse.rs:192-219 | the scanning loop returns exactly the span from the first `{` to the first structural `}` that brings the depth back to zero, or `None` |
| Parse.RestartAgrees | src/parse.rs:198-206 | a string/escape scan restarted at a structural position agrees with the scan from the start |
| Parse.FirstClose | src/parse.rs:207-212 | the first closing position: it closes, nothing before it closes, or nothing closes |
| Parse.DepthStaysPositive | src/parse.rs:207-212 | inside the extracted span the brace depth stays at least 1 until the last character |
| Parse.ExtractedObjectIsBalanced | src/parse.rs:192-219 | an extracted object starts at the first `{` of the text, ends with `}`, is balanced, and no proper prefix of it is balanced |
| Parse.ExtractObjectNone | src/parse.rs:192-219 | extraction fails exactly when the text has no `{` or the depth never returns to zero |
| Parse.LastOpenAt | src/parse.rs:234-257 | the first pass of the repair remembers a `[` position before the scanned prefix |
| Parse.LastOpenMeaning | src/parse.rs:250-256 | the remembered `[` is structural and not followed by any structural `]`; none is remembered exactly when every structural `[` is later closed |
| Parse.FirstBraceFrom | src/parse.rs:264-278 | the second pass finds the first `}` after the open bracket that is structural for a scan restarted there |
| Parse.FindLastOpenArray | src/parse.rs:230-257 | the first loop ends holding the last structural `[` not followed by a structural `]` |
| Parse.FindBraceAfter | src/parse.rs:262-294 | the second loop stops at the first `}` that is outside strings for a scan restarted at the `[`, or finds none |
| Parse.TryRepairJson | src/parse.rs:224-314 | the two-pass repair method returns what the repair function defines |
| Parse.RepairChangesOnlyOpenArrays | src/parse.rs:224-313 | the repair changes the text exactly when it does not parse and has an unclosed `[`, and then adds exactly one `]` |
| Parse.CloseArrayAddsOne | src/parse.rs:278-309 | each of the three placements of `]`, `,]` clean-up included, adds exactly one `]` |
| Parse.RepairPlacement | src/parse.rs:278-309 | where the `]` goes: after the first structural `}` past the `[`; otherwise before the last `}`; otherwise at the end |
| Parse.TaggedBlockMeaning | src/parse.rs:168-173 | the ```` ```json ```` branch returns the trimmed text between the first ```` ```json ```` and the first ```` ``` ```` after its tag, and nothing exactly when no such pair exists |
| Parse.PlainBlockMeaning | src/parse.rs:176-186 | the plain branch returns the trimmed text from just past the first line feed after the first ```` ``` ```` (or right after it when no line feed follows) to the next ```` ``` ````, and nothing exactly when there is no such closing fence |
| Parse.ExtractCodeBlockMeaning | src/parse.rs:166-189 | the result is the content of a tagged fence or of a plain fence as above; nothing means neither kind exists |
| Parse.TaggedFenceWins | src/parse.rs:168-172 | with a ```` ```json ```` tag and a closing fence, the result is the trimmed text between them |
| Parse.PlainFenceWins | src/parse.rs:176-186 | when no ```` ```json ```` tag is closed, the result is the trimmed content of the first plain fence, from past its first line to the next ```` ``` ```` |
| Parse.UnclosedFenceIsNone | src/parse.rs:176-188 | a text with only one fence yields no code block |
| Parse.Excerpt | src/parse.rs:155-162 | the quoted response is the whole response up to 200 characters, otherwise its first 200 characters and `...` |
| Parse.FirstDecoded | src/parse.rs:127-153 | the decoding of the first candidate that decodes; `None` exactly when none decodes |
| Parse.FallbackIsFirstSuccess | src/parse.rs:127-163 | the fallback chain returns the first successful candidate: whole text, code block, object, then the repaired object when it differs; otherwise the failure text |
| Parse.ParseReturnsFirstSuccess | src/parse.rs:127-163 | `extract_and_parse_json` is the first success among its candidates, or the failure message with the excerpt |
| Parse.WholeResponseFirst | src/parse.rs:129-131 | a response that decodes as a whole is returned as such, whatever else it holds |
| Parse.BuildTypedPrompt | src/parse.rs:317-323 | the prompt is the fixed head, the schema, the fixed middle, the request and the fixed tail, in that order |
| Parse.TypeName | src/parse.rs:36-119 | the type name is one of five; `integer` exactly for the integer types and options of them |
| Parse.OptionsAreTransparent | src/parse.rs:114-118 | any nesting of `Option` keeps the inner type's name |
| ActionPayloads.New | src/actions.rs:15-20 | a new payload has the name and null parameters, so no key is present |
| ActionPayloads.WithParam | src/actions.rs:22-31 | the key maps to the value, other keys are unchanged, the key set grows by the key, and the parameters become an object even from null |
| ActionPayloads.GetRaw | src/actions.rs:33-39 | a value exactly when the parameters are an object holding the key |
| ActionPayloads.ValueToAction | src/actions.rs:67-75 | a payload exactly when the value is an object with a string `name`; its parameters are `params`, or null when missing |
| ActionPayloads.ValueToActionRoundTrip | src/actions.rs:67-75 | a payload written as `{name, params}` converts back to itself |
| ActionPayloads.WithParamOverwrites | src/actions.rs:22-31 | setting a key twice keeps the last value |
| ActionPayloads.WithParamCommutes | src/actions.rs:22-31 | setting two different keys in either order gives the same payload |
| Actions.AiActionRegistry.constructor | src/actions.rs:123-125 | a new registry has no handlers |
| Actions.AiActionRegistry.Register | src/actions.rs:131-136 | the handler replaces any earlier one under the same name; other names keep theirs |
| Actions.AiActionRegistry.RegisterTyped | src/actions.rs:142-173 | a typed wrapper is registered through `register` under the given name |
| Actions.ActionWorld.RunRegisteredActions | src/actions.rs:185-215 | the queue is emptied; with nothing pending nothing happens; otherwise the handlers run in queue order, and the current action is cleared at the end |
| Actions.ActionWorld.RunAction | src/actions.rs:197-212 | one event becomes the current action, its registered handler (if any) runs, and the current action is cleared |
| Actions.ActionWorld.RunHandler | src/actions.rs:157-169 | a raw handler runs on the current action; a typed one runs when the parameters deserialise and logs an error otherwise |
| Actions.DispatchFollowsQueue | src/actions.rs:197-209 | one handler run per event whose name is registered, about that event, in queue order; unregistered events are skipped |
| Actions.DispatchAppend | src/actions.rs:197 | handling two batches is handling their concatenation |
| Actions.TypedHandlerRunsOnlyOnDecode | src/actions.rs:158-167 | a typed handler's system runs exactly when the parameters deserialise |
| Actions.PromptTypedAction | src/actions.rs:247-271 | the result is the backend's error, the parse error, or the value with the raw response; on success exactly one event for the entity and the value's payload is queued, and on error the queue is unchanged |
| Actions.TypedPromptErrors | src/actions.rs:261-264 | a backend error is returned as is; an undecodable answer gives the parse failure message |
| Derive.ToSnakeCase | bevy_real_ai_derive/src/lib.rs:12-24 | the loop computes the snake-case function |
| Derive.SnakeCaseLength | bevy_real_ai_derive/src/lib.rs:12-24 | output length is input length plus the number of uppercase letters after position 0 |
| Derive.SnakeCaseHasNoUpper | bevy_real_ai_derive/src/lib.rs:15-19 | no uppercase letter survives |
| Derive.SnakeCaseKeepsLower | bevy_real_ai_derive/src/lib.rs:20-22 | a string without uppercase letters maps to itself |
| Derive.SnakeCaseIsLoweredPlusUnderscores | bevy_real_ai_derive/src/lib.rs:14-23 | without underscores, the output is the input with uppercase letters lowercased |
| Derive.SnakeCaseAppendWord | bevy_real_ai_derive/src/lib.rs:15-19 | a capitalised word gets `_` before its lowercased initial unless it comes first, consecutive capitals included |
| Derive.SnakeCaseSpawnEntityAction | bevy_real_ai_derive/src/lib.rs:36-37 | `SpawnEntityAction` becomes `spawn_entity_action` |
| Derive.SnakeCaseSpawnAction | tests/structured_parser.rs:65 | `SpawnAction` becomes `spawn_action` |
| Derive.SchemaDescription | bevy_real_ai_derive/src/lib.rs:141-151 | the schema text starts with the header and ends with the closing brace line |
| Derive.AddFieldAppendsLine | bevy_real_ai_derive/src/lib.rs:141-151 | one more field adds its `  "name": <type>` line after `,\n`, just before the closing brace, so lines follow declaration order |
| Derive.NoFieldsSchema | bevy_real_ai_derive/src/lib.rs:141-151 | a struct without named fields gets an empty field block |
| Derive.SpawnActionSchema | tests/structured_parser.rs:77-96 | the exact schema text of `SpawnAction { name: String, x: i32, y: i32 }` |
| Derive.IntoActionPayload | bevy_real_ai_derive/src/lib.rs:170-173 | the payload carries the action name |
| Derive.PayloadHasOneKeyPerField | bevy_real_ai_derive/src/lib.rs:80-91 | no fields give null parameters; otherwise an object with exactly one key per field, each holding that field's value |
| Derive.Register | bevy_real_ai_derive/src/lib.rs:186-195 | the typed handler is registered under the snake-case name of the struct |
| Rag.SystemMessage | src/rag.rs:18-20 | a system message with the text |
| Rag.UserMessage | src/rag.rs:29-31 | a user message with the text |
| Rag.AssistantMessage | src/rag.rs:34-36 | an assistant message with the text |
| Rag.PayloadMessage | src/rag.rs:39-41 | a payload message with the payload |
| Rag.FromString | src/rag.rs:44-48 | a bare string becomes a user message |
| Rag.NoDefaultSystemContext | src/rag.rs:25-27 | the sentinel is a system message with the text `Forget the context.` |
| Rag.Display | src/rag.rs:50-59 | `System: `, `User: `, `Assistant: ` prefix the text; a payload shows its name and rendered parameters |
| Rag.DisplayRoundTrip | src/rag.rs:50-59 | every text message is recovered from its displayed form |
| Rag.DisplayInjective | src/rag.rs:50-59 | two text messages that display alike are equal |
| Rag.AiContext.constructor | src/rag.rs:139-141 | a new context is empty |
| Rag.AiContext.AddContext | src/rag.rs:144-146 | appends one system message with the text and keeps every message a system message |
| Rag.AiContext.Messages | src/rag.rs:150-152 | returns the messages, all system messages |
| Rag.AiContext.Clear | src/rag.rs:154-156 | the context becomes empty |
| Models.NewBuilder | src/models.rs:25-30 | the model type and no file source |
| Models.WithLocal | src/models.rs:32-35 | the source becomes the local path; the type is kept |
| Models.WithHuggingface | src/models.rs:37-40 | the source becomes the repository file; the type is kept |
| Models.LastSourceWins | src/models.rs:32-40 | each source setter overwrites the other |
| Models.NewModel | src/models.rs:76-82 | no session and the default prompt switched on |
| Models.IncludeDefaultPrompt | src/models.rs:89-92 | sets the switch and nothing else |
| Models.AssemblePrompt | src/models.rs:114-144 | the system prompt joins the default prompt (when on) and every system text with blank lines; the conversation joins one `User: ` line per user message with newlines |
| Models.DefaultPromptFirst | src/models.rs:114-118 | the first part of the system prompt is the default prompt exactly when the switch is on; the other parts are the system texts |
| Models.AllSystemTexts | src/models.rs:119-123 | system messages contribute their texts one for one, in order, and no conversation line |
| Models.ContextThenPrompt | src/models.rs:119-144 | context messages followed by one prompt give the conversation `User: <prompt>` and a system prompt from the context alone |
| Models.SentinelIsOrdinaryText | src/models.rs:119-123 | the no-default sentinel is passed on as an ordinary system text after the default prompt |
| Context.DefaultGatherConfig | src/context.rs:17-21 | radius 10 and at most 8 documents |
| Context.RunExtractor | src/context.rs:54-56 | an extractor yields nothing for an entity without its component |
| Context.ContextExtractorRegistry.constructor | src/context.rs:47 | a new registry is empty |
| Context.ContextExtractorRegistry.Register | src/context.rs:50-58 | appends one extractor |
| Context.TransformFrom | src/context.rs:86-99 | the requester's transform is that of a record for the requester, or none when it has no record with a transform |
| Context.Observations | src/context.rs:130-135 | one observation per entity, its summaries joined with `. ` |
| Context.GatherWorld.GatherOnRequest | src/context.rs:68-142 | the request is taken; without an outcome nothing else changes; otherwise the requester gets a fresh context holding one system message, the scene description |
| Context.SummariesBound | src/context.rs:115-121 | an entity adds summaries until the running count reaches the cap |
| Context.GroupsBound | src/context.rs:109-124 | the total number of summaries never exceeds the cap (one when the cap is zero) |
| Context.GatherRespectsCap | src/context.rs:115-123 | every gather outcome respects the cap |
| Context.SummariesComeFromExtractors | src/context.rs:115-117 | every summary is the output of a registered extractor for that entity |
| Context.GroupsAreEligible | src/context.rs:109-112 | every described entity is AI-aware, has a transform and lies within the radius |
| Context.RequesterNeverDescribed | src/context.rs:110 | the requester is never described, and each described entity is a nearby AI-aware one |
| Context.NoRequestNoChange | src/context.rs:68-128 | no request, no configuration, no registry, no requester transform or nothing found means no outcome |
| Context.TotalSummariesAppend | src/context.rs:115-123 | summary counts add up over concatenated groups |
| Dialogue.NewReceiver | src/dialogue.rs:58-65 | no preprogrammed line and no response |
| Dialogue.DefaultPlugin | src/dialogue.rs:164-177 | the mock backend, no builder, radius 5 and 8 documents |
| Dialogue.WithBackend | src/dialogue.rs:145-151 | the given backend, no builder, the default configuration |
| Dialogue.WithBuilder | src/dialogue.rs:155-161 | no backend, the builder, the default configuration |
| Dialogue.SelectBackendCases | src/dialogue.rs:186-199 | a builder wins, falling back to the mock when building fails; otherwise the given backend or the mock |
| Dialogue.ErrorTextRoundTrip | src/dialogue.rs:374-376 | the backend error is recoverable from `(ai error: <e>)` |
| Dialogue.RequestMessages | src/dialogue.rs:362-366 | the entity's context messages followed by the prompt as one user message |
| Dialogue.DialogueWorld.Build | src/dialogue.rs:180-206 | with a handle present nothing changes; otherwise the selected backend, a new channel, an empty queue, the configuration and an empty gather request |
| Dialogue.DialogueWorld.HandleDialogueRequests | src/dialogue.rs:337-383 | the queue is emptied and the outputs are the request-by-request handling of the old queue |
| Dialogue.DialogueWorld.HandleRequest | src/dialogue.rs:345-381 | one popped request: a preprogrammed receiver gets its reply on the channel and nothing else happens; otherwise the gather request names the requester and one backend call is made with its context messages followed by the prompt |
| Dialogue.HandleAllMeaning | src/dialogue.rs:344-382 | immediate replies for preprogrammed receivers, calls for the others, and a gather request for the last non-preprogrammed one, all in queue order |
| Dialogue.LastAsked | src/dialogue.rs:357-359 | the last request whose receiver is not preprogrammed, or none when every one is |
| Dialogue.PreprogrammedShortCircuit | src/dialogue.rs:346-353 | a preprogrammed receiver is answered at once, with no call and no gather |
| Dialogue.CallsEndWithPrompt | src/dialogue.rs:362-366 | every backend call ends with its request's prompt |
| Dialogue.CallComesFromRequest | src/dialogue.rs:345-366 | every backend call is the call of one request in the queue whose receiver is not preprogrammed |
| Dialogue.DialogueWorld.Deliver | src/dialogue.rs:373-381 | a finished call puts its answer, or its error text, on the channel for its entity |
| Dialogue.DialogueWorld.PollResponsesReceiver | src/dialogue.rs:386-393 | the channel is drained and receivers get their trimmed responses |
| Dialogue.DialogueWorld.ReceiveOldest | src/dialogue.rs:387-391 | one turn of the loop: the oldest response leaves the channel and its receiver takes it; nothing else changes |
| Dialogue.ApplyResponses | src/dialogue.rs:388-392 | polling keeps the set of receivers |
| Dialogue.LastResponseFor | src/dialogue.rs:388-392 | the newest response on the channel for the entity, with no later one for it; none exactly when the channel holds nothing for the entity |
| Dialogue.ApplyResponsesMeaning | src/dialogue.rs:388-392 | each receiver ends with the last response sent to it (trimmed or not), or keeps its old one |
| Dialogue.DialogueWorld.ApplyLoadedModel | src/dialogue.rs:229-249 | trackers with a result are removed; the backend is that of the last successful load |
| Dialogue.LastLoaded | src/dialogue.rs:234-241 | the backend of the last successful load, with no later load succeeding; none exactly when no load succeeded |
| Dialogue.ApplyLoadsMeaning | src/dialogue.rs:229-249 | the new backend is the last successful one or the old one; exactly the unfinished trackers remain |
| NpcDialogue.PollResponsesReceiverUntrimmed | src/npc_dialogue.rs:196-203 | the channel is drained and receivers get their responses as sent |
| NpcDialogue.TrimIsTheOnlyDifference | src/npc_dialogue.rs:200 | the two polling systems differ only in trimming |
| NpcDialogue.SilentReceiverUnchanged | src/npc_dialogue.rs:198-202 | a receiver with no response on the channel is unchanged |

## Left out

- The serde JSON parser and typed deserialisation are parameters, not defined here. So are the `json_parser` constrained-generation parser in src/parse.rs and `ActionPayload::get<T>`.
- Threads and channels: a background call is a pending `BackendCall` that `Deliver` completes in any order. Interleavings with the Bevy schedule are not modelled.
- `MockAi::prompt`, `ChatHistory`, `AIModel::with_session` and the session handling inside `AIModel::prompt` are not modelled. Nor are `ModelBuilder::build` and the kalosm calls, model download progress and `spawn_model_load_tracker`. src/app_ext.rs, the examples and src/test_helpers.rs are not part of this model.
- The NPC variant's `handle_dialogue_requests` (src/npc_dialogue.rs) matches the one in src/dialogue.rs apart from a debug `eprintln`, so it is modelled there once.
- The NPC variant's `build` (src/npc_dialogue.rs:122-135) is not modelled. Unlike the `build` in src/dialogue.rs, it has no early return when a handle exists and no builder, and it uses the plugin's non-optional backend. It also inserts a `ContextExtractorRegistry` rather than an `AiSystemContextStore`, and it schedules `gather_on_request_world` without ordering.
- Models.AssemblePrompt: requires no payload messages, because the conversation `match` at src/models.rs:130-140 has no arm for `AiMessage::Payload`.
- Context.GatherWorld.GatherOnRequest: the radius is a real number, not an `f32`, so rounding is not modelled. Positions are given per entity record.
- Query order and `HashMap` iteration order are modelled as sequence order. The per-entity groups keep first-visit order, which is one of the orders the hash map permits.
- Actions.ActionWorld.RunRegisteredActions: handler systems are abstract, so their own effects on the world are not modelled, including queueing new actions. A missing `AiActionRegistry` resource makes `resource_scope` panic; the model takes the registry as always present.
- Despawning of load trackers goes through deferred `Commands`; the model removes them at once.
- The systems' dependence on an existing `LocalAiHandle` is modelled only in `Build`. The other systems take it as present.
- The `i32` depth counter of `extract_json_object` cannot overflow in the model, because integers are unbounded.
- Characters are ASCII: whitespace, uppercase letters and byte slicing in the source are taken on characters.
- The derive macro's generated `Default` impl, its where-clause merging and `type_name` are token plumbing and are not modelled.
- The backend handle is not optional, and polling does not parse actions: the systems in src/dialogue.rs only store the response text.
