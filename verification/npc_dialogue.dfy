/**
 * The older dialogue systems of src/npc_dialogue.rs. Its request handling and
 * its receiver are those of src/dialogue.rs, line for line, and are modelled
 * there (`Dialogue.DialogueWorld.HandleDialogueRequests`, `Dialogue.NewReceiver`).
 * Its polling system differs: it keeps each response exactly as sent, with no
 * trimming.
 */
module NpcDialogue {
  import opened Wrappers
  import opened Text
  import opened ActionPayloads
  import opened Dialogue

  /** `poll_responses_receiver` (npc variant): drains the channel; receivers keep the text as sent. */
  method PollResponsesReceiverUntrimmed(w: DialogueWorld)
    modifies w
    ensures w.responses == []
    ensures w.receivers == ApplyResponses(old(w.receivers), old(w.responses), false)
    ensures w.backend == old(w.backend) && w.queue == old(w.queue) && w.contexts == old(w.contexts) && w.calls == old(w.calls)
    ensures w.gatherRequest == old(w.gatherRequest) && w.loads == old(w.loads)
    ensures w.hasHandle == old(w.hasHandle) && w.gatherConfig == old(w.gatherConfig)
  {
    ghost var taken: seq<DialogueResponse> := [];
    while w.responses != []
      invariant old(w.responses) == taken + w.responses
      invariant w.receivers == ApplyResponses(old(w.receivers), taken, false)
      invariant w.backend == old(w.backend) && w.queue == old(w.queue) && w.contexts == old(w.contexts) && w.calls == old(w.calls)
      invariant w.gatherRequest == old(w.gatherRequest) && w.loads == old(w.loads)
      invariant w.hasHandle == old(w.hasHandle) && w.gatherConfig == old(w.gatherConfig)
      decreases |w.responses|
    {
      var resp := w.ReceiveOldest(false);
      ApplyResponsesSnoc(old(w.receivers), taken, resp, false);
      taken := taken + [resp];
    }
    assert taken == old(w.responses);
  }

  /**
   * Trimming is the one difference between the two polling systems: from the same
   * receivers and responses, every receiver that got a response holds the trimmed
   * text under src/dialogue.rs and the text as sent under src/npc_dialogue.rs.
   */
  lemma TrimIsTheOnlyDifference(receivers: map<Entity, DialogueReceiver>, resps: seq<DialogueResponse>, e: Entity)
    requires e in receivers
    requires LastResponseFor(resps, e).Some?
    ensures ApplyResponses(receivers, resps, false)[e].lastResponse == LastResponseFor(resps, e)
    ensures ApplyResponses(receivers, resps, true)[e].lastResponse == Some(Trim(LastResponseFor(resps, e).value))
  {
    ApplyResponsesMeaning(receivers, resps, false);
    ApplyResponsesMeaning(receivers, resps, true);
  }

  /** A receiver the channel says nothing about keeps its last response under both systems. */
  lemma SilentReceiverUnchanged(receivers: map<Entity, DialogueReceiver>, resps: seq<DialogueResponse>, e: Entity, trim: bool)
    requires e in receivers
    requires forall k :: 0 <= k < |resps| ==> resps[k].entity != e
    ensures ApplyResponses(receivers, resps, trim)[e] == receivers[e]
  {
    ApplyResponsesMeaning(receivers, resps, trim);
  }
}
