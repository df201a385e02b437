/**
 * The action value of src/actions.rs: `ActionPayload` (a name and a JSON
 * parameter object), its builder, its lookup, its conversion from a JSON value,
 * and the `AiActionEvent` that carries it to an entity. Kept apart from the
 * registry so that the message type (src/rag.rs) can embed a payload.
 */
module ActionPayloads {
  import opened Wrappers
  import opened Json

  /** Bevy entities are opaque identifiers. */
  type Entity = nat

  datatype ActionPayload = ActionPayload(name: string, params: Json)

  /** `AiActionEvent`: an action addressed to an entity. */
  datatype AiActionEvent = AiActionEvent(entity: Entity, action: ActionPayload)

  /** `ActionPayload::new`: the given name and no parameters at all (`Null`, not an empty object). */
  function New(name: string): (p: ActionPayload)
    ensures p.name == name && p.params.Null?
    ensures forall key :: GetRaw(p, key).None?
  {
    ActionPayload(name, Null)
  }

  /**
   * `ActionPayload::with_param`: sets one key. An object keeps its other keys;
   * any other `params` value is discarded in favour of a one-key object.
   */
  function WithParam(p: ActionPayload, key: string, value: Json): (r: ActionPayload)
    ensures r.name == p.name && r.params.Object?
    ensures GetRaw(r, key) == Some(value)
    ensures forall k :: k != key ==> GetRaw(r, k) == GetRaw(p, k)
    ensures r.params.fields.Keys == (if p.params.Object? then p.params.fields.Keys else {}) + {key}
  {
    if p.params.Object? then p.(params := Object(p.params.fields[key := value]))
    else p.(params := Object(map[key := value]))
  }

  /** `ActionPayload::get_raw`: the value under `key`, only when `params` is an object holding it. */
  function GetRaw(p: ActionPayload, key: string): (r: Option<Json>)
    ensures r.Some? <==> p.params.Object? && key in p.params.fields
    ensures r.Some? ==> r.value == p.params.fields[key]
  {
    if p.params.Object? && key in p.params.fields then Some(p.params.fields[key]) else None
  }

  /**
   * `value_to_action`: an object whose `"name"` is a string becomes an action with
   * that name and the `"params"` member (or `Null` when it is missing); anything else is `None`.
   */
  function ValueToAction(v: Json): (r: Option<ActionPayload>)
    ensures r.Some? <==> v.Object? && "name" in v.fields && v.fields["name"].Str?
    ensures r.Some? ==> r.value.name == v.fields["name"].s
    ensures r.Some? ==> r.value.params == (if "params" in v.fields then v.fields["params"] else Null)
  {
    if v.Object? && "name" in v.fields && v.fields["name"].Str? then
      Some(ActionPayload(v.fields["name"].s, if "params" in v.fields then v.fields["params"] else Null))
    else None
  }

  /** The JSON object `{"name": .., "params": ..}` that describes an action. */
  function ActionToValue(p: ActionPayload): Json {
    Object(map["name" := Str(p.name), "params" := p.params])
  }

  /** Every action survives the trip through its JSON description. */
  lemma ValueToActionRoundTrip(p: ActionPayload)
    ensures ValueToAction(ActionToValue(p)) == Some(p)
  {
    var fields := ActionToValue(p).fields;
    assert fields["name"] == Str(p.name);
    assert "params" in fields && fields["params"] == p.params;
  }

  /** Setting the same key twice keeps only the second value; the builder is last-write-wins. */
  lemma WithParamOverwrites(p: ActionPayload, key: string, v1: Json, v2: Json)
    ensures WithParam(WithParam(p, key, v1), key, v2) == WithParam(p, key, v2)
  {
    var a := WithParam(WithParam(p, key, v1), key, v2);
    var b := WithParam(p, key, v2);
    assert a.params.fields == b.params.fields;
  }

  /** Setting two different keys gives the same payload in either order. */
  lemma WithParamCommutes(p: ActionPayload, k1: string, v1: Json, k2: string, v2: Json)
    requires k1 != k2
    ensures WithParam(WithParam(p, k1, v1), k2, v2) == WithParam(WithParam(p, k2, v2), k1, v1)
  {
    var a := WithParam(WithParam(p, k1, v1), k2, v2);
    var b := WithParam(WithParam(p, k2, v2), k1, v1);
    assert a.params.fields == b.params.fields;
  }
}
