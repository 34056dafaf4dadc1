/**
 * The in-memory chat sequence shared by the dashboard (dashboard.jsx) and the
 * history page (history.jsx): a normal send appends the assistant's reply; a
 * regeneration overwrites the element at `messages.map(m => m.message_type).lastIndexOf('assistant')`
 * and leaves the sequence as it is when there is no assistant message.
 */
module Conversation {
  import opened Wrappers
  import opened Seqs
  import opened Entities

  /** The fields of the model's chat answer that the pages keep. */
  datatype Reply = Reply(answer: string, contextUsed: string)

  /** The record `ChatMessage.create` stores for a question typed by the user. */
  function UserMessage(id: nat, sid: nat, text: string): ChatMessage
  {
    ChatMessage(id, sid, text, User, "", false)
  }

  /** The record `ChatMessage.create` stores for an answer; a failed call yields no answer. */
  function AssistantMessage(id: nat, sid: nat, response: Outcome<Reply>): ChatMessage
  {
    if response.Ok? then ChatMessage(id, sid, response.value.answer, Assistant, response.value.contextUsed, false)
    else ChatMessage(id, sid, "", Assistant, "", false)
  }

  predicate IsUser(m: ChatMessage)
  {
    m.messageType == User
  }

  predicate IsAssistant(m: ChatMessage)
  {
    m.messageType == Assistant
  }

  /** The index of the last assistant message, or -1. */
  function LastAssistantIndex(ms: seq<ChatMessage>): int
  {
    LastIndexWhere(ms, IsAssistant)
  }

  /** The regenerated sequence: copy `ms`, then overwrite its last assistant message by `reply`. */
  function ReplaceLastAssistant(ms: seq<ChatMessage>, reply: ChatMessage): (r: seq<ChatMessage>)
    ensures |r| == |ms|
    ensures (forall j :: 0 <= j < |ms| ==> !IsAssistant(ms[j])) ==> r == ms
    ensures forall k :: 0 <= k < |ms| && IsAssistant(ms[k]) && (forall j :: k < j < |ms| ==> !IsAssistant(ms[j])) ==>
              r[k] == reply && forall i :: 0 <= i < |ms| && i != k ==> r[i] == ms[i]
  {
    var k := LastAssistantIndex(ms);
    if k < 0 then ms else ms[k := reply]
  }

  /** The sequence after the reply has arrived. */
  function WithReply(ms: seq<ChatMessage>, reply: ChatMessage, isRegeneration: bool): seq<ChatMessage>
  {
    if isRegeneration then ReplaceLastAssistant(ms, reply) else ms + [reply]
  }

  /** Regenerating never changes how many user messages are shown. */
  lemma RegenerationKeepsUserMessages(ms: seq<ChatMessage>, reply: ChatMessage)
    requires IsAssistant(reply)
    ensures Count(ReplaceLastAssistant(ms, reply), IsUser) == Count(ms, IsUser)
    ensures Count(ReplaceLastAssistant(ms, reply), IsAssistant) == Count(ms, IsAssistant)
  {
    var k := LastAssistantIndex(ms);
    if k >= 0 {
      assert IsAssistant(ms[k]);
      CountUpdate(ms, k, reply, IsUser);
      CountUpdate(ms, k, reply, IsAssistant);
    }
  }

  /** A normal send shows one more user message and one more assistant message, in that order. */
  lemma SendAppendsUserThenAssistant(ms: seq<ChatMessage>, question: ChatMessage, reply: ChatMessage)
    requires IsUser(question) && IsAssistant(reply)
    ensures var r := WithReply(ms + [question], reply, false);
            |r| == |ms| + 2 && r[..|ms|] == ms && r[|ms|] == question && r[|ms| + 1] == reply
    ensures Count(WithReply(ms + [question], reply, false), IsUser) == Count(ms, IsUser) + 1
    ensures Count(WithReply(ms + [question], reply, false), IsAssistant) == Count(ms, IsAssistant) + 1
  {
    CountAppend(ms, question, IsUser);
    CountAppend(ms + [question], reply, IsUser);
    CountAppend(ms, question, IsAssistant);
    CountAppend(ms + [question], reply, IsAssistant);
  }

  /** Regenerating on [user "Q1", assistant "A1"] shows [user "Q1", assistant "A2"]. */
  lemma RegenerateExample(sid: nat)
    ensures var q := ChatMessage(0, sid, "Q1", User, "", false);
            var a1 := ChatMessage(1, sid, "A1", Assistant, "", false);
            var a2 := ChatMessage(2, sid, "A2", Assistant, "", false);
            WithReply([q, a1], a2, true) == [q, a2]
  {
    var q := ChatMessage(0, sid, "Q1", User, "", false);
    var a1 := ChatMessage(1, sid, "A1", Assistant, "", false);
    var a2 := ChatMessage(2, sid, "A2", Assistant, "", false);
    assert IsAssistant([q, a1][1]);
  }
}
