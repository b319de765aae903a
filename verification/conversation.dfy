/** The graph's state: the message history, the retrieved documents and the
    two flags the nodes set, together with the partial updates nodes return
    and the `add_messages` reducer that merges them. */
module Conversation {
  import opened Text

  /** One entry of an AI message's `tool_calls`, with its JSON arguments
      already decoded to the `query` argument. */
  datatype ToolCall = ToolCall(name: string, query: string, id: string)

  datatype Message =
    | Human(content: string)
    | Ai(content: string, toolCalls: seq<ToolCall>)
    | Tool(content: string, toolCallId: string)

  /** A retrieved or ingested document: page text plus string metadata. */
  datatype Document = Document(pageContent: string, metadata: map<string, string>)

  /** The graph state. Keys that no node has written yet are `None`.
      `shouldGenerate` is written by the agent node although the declared
      state type does not list it. */
  datatype AgentState = AgentState(
    messages: seq<Message>,
    docs: Option<seq<Document>>,
    retrievalAttempted: Option<bool>,
    shouldGenerate: Option<bool>)

  /** What a node returns: new messages to append and the keys it sets. */
  datatype Update = Update(
    messages: seq<Message>,
    docs: Option<seq<Document>>,
    retrievalAttempted: Option<bool>,
    shouldGenerate: Option<bool>)

  function Overwrite<T>(old_: Option<T>, new_: Option<T>): Option<T> {
    if new_.Some? then new_ else old_
  }

  /** Merges a node's update into the state: messages are appended (the
      `add_messages` reducer), the other keys present in the update replace
      the previous values. */
  function Apply(s: AgentState, u: Update): AgentState {
    AgentState(
      s.messages + u.messages,
      Overwrite(s.docs, u.docs),
      Overwrite(s.retrievalAttempted, u.retrievalAttempted),
      Overwrite(s.shouldGenerate, u.shouldGenerate))
  }

  /** Index of the last human message, scanning from the end. */
  function LastHumanIndex(msgs: seq<Message>): (r: Option<nat>)
    ensures r.Some? ==> r.value < |msgs| && msgs[r.value].Human?
    ensures r.Some? ==> forall j :: r.value < j < |msgs| ==> !msgs[j].Human?
    ensures r.None? ==> forall j :: 0 <= j < |msgs| ==> !msgs[j].Human?
  {
    if |msgs| == 0 then None
    else if msgs[|msgs| - 1].Human? then Some(|msgs| - 1)
    else LastHumanIndex(msgs[..|msgs| - 1])
  }

  /** The question lookup shared by the routing test, the grading chain, rewrite and
      generate: the content of the most recent human message, or of the first
      message when there is none; nothing for an empty history. */
  function QuestionLookup(msgs: seq<Message>): (q: Option<string>)
    ensures q.None? <==> |msgs| == 0
    ensures forall i :: 0 <= i < |msgs| && msgs[i].Human? && (forall j :: i < j < |msgs| ==> !msgs[j].Human?)
                        ==> q == Some(msgs[i].content)
    ensures |msgs| > 0 && (forall j :: 0 <= j < |msgs| ==> !msgs[j].Human?) ==> q == Some(msgs[0].content)
  {
    match LastHumanIndex(msgs)
    case Some(i) => Some(msgs[i].content)
    case None => if |msgs| == 0 then None else Some(msgs[0].content)
  }

  /** Appending messages none of which is a human message leaves the
      question lookup unchanged, provided the history was not empty. */
  lemma AppendNonHumanKeepsQuestion(msgs: seq<Message>, extra: seq<Message>)
    requires |msgs| > 0
    requires forall j :: 0 <= j < |extra| ==> !extra[j].Human?
    ensures QuestionLookup(msgs + extra) == QuestionLookup(msgs)
  {
    var all := msgs + extra;
    match LastHumanIndex(msgs)
    case Some(i) =>
      assert all[i] == msgs[i];
      assert forall j :: i < j < |all| ==> !all[j].Human? by {
        forall j | i < j < |all| ensures !all[j].Human? {
          if j >= |msgs| { assert all[j] == extra[j - |msgs|]; }
        }
      }
    case None =>
      assert forall j :: 0 <= j < |all| ==> !all[j].Human? by {
        forall j | 0 <= j < |all| ensures !all[j].Human? {
          if j >= |msgs| { assert all[j] == extra[j - |msgs|]; }
        }
      }
      assert all[0] == msgs[0];
  }

  /** Appending a human message makes it the question. */
  lemma AppendHumanIsQuestion(msgs: seq<Message>, content: string)
    ensures QuestionLookup(msgs + [Human(content)]) == Some(content)
  {
    var all := msgs + [Human(content)];
    assert all[|all| - 1] == Human(content);
  }
}
