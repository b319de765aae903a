/** The four graph nodes. Each returns a partial update; the chat model,
    the retriever, the grading chain, the rewriting model and the answer chain are
    passed in as functions. */
module Nodes {
  import opened Text
  import opened Conversation
  import opened Citations

  const KnowledgeBaseTool := "gov_knowledge_base"
  const RetrievalNotice := "Documents retrieved."
  const SourcesHeading := "\n\nSources:\n"

  /** The tool-bound chat model's reply: its text and its tool calls. */
  datatype ModelReply = ModelReply(content: string, toolCalls: seq<ToolCall>)

  /** The knowledge-base calls among a reply's tool calls, in call order. */
  function KnowledgeBaseCalls(calls: seq<ToolCall>): seq<ToolCall> {
    if |calls| == 0 then []
    else KnowledgeBaseCalls(calls[..|calls| - 1])
         + (if calls[|calls| - 1].name == KnowledgeBaseTool then [calls[|calls| - 1]] else [])
  }

  /** The tool message's text for one knowledge-base call. */
  function RetrievalSummary(count: nat, query: string): string {
    "Retrieved " + NatToString(count) + " documents related to '" + query + "'."
  }

  function ToolReply(call: ToolCall, retrieve: string -> seq<Document>): Message {
    Tool(RetrievalSummary(|retrieve(call.query)|, call.query), call.id)
  }

  function ToolReplies(calls: seq<ToolCall>, retrieve: string -> seq<Document>): seq<Message> {
    seq(|calls|, i requires 0 <= i < |calls| => ToolReply(calls[i], retrieve))
  }

  /** The agent node's update for a given model reply: the reply, then one
      tool message per knowledge-base call; `docs` and both flags only when
      such a call ran, `docs` from the last one. */
  function AgentUpdate(reply: ModelReply, retrieve: string -> seq<Document>): Update {
    var calls := KnowledgeBaseCalls(reply.toolCalls);
    var response := Ai(reply.content, reply.toolCalls);
    if |calls| == 0 then Update([response], None, None, None)
    else Update([response] + ToolReplies(calls, retrieve),
                Some(retrieve(calls[|calls| - 1].query)), Some(true), Some(true))
  }

  /** `agent`: asks the model, then dispatches its tool calls in order. */
  method Agent(messages: seq<Message>, model: seq<Message> -> ModelReply, retrieve: string -> seq<Document>)
    returns (u: Update)
    ensures u == AgentUpdate(model(messages), retrieve)
  {
    var reply := model(messages);
    var response := Ai(reply.content, reply.toolCalls);
    var newMessages := [response];
    var toolResponseDocs: Option<seq<Document>> := None;
    var retrievalAttempted := false;
    var shouldGenerate := false;
    if |reply.toolCalls| > 0 {
      var toolMessages: seq<Message> := [];
      for k := 0 to |reply.toolCalls|
        invariant toolMessages == ToolReplies(KnowledgeBaseCalls(reply.toolCalls[..k]), retrieve)
        invariant var done := KnowledgeBaseCalls(reply.toolCalls[..k]);
          && retrievalAttempted == shouldGenerate == (|done| > 0)
          && toolResponseDocs == if |done| > 0 then Some(retrieve(done[|done| - 1].query)) else None
      {
        var call := reply.toolCalls[k];
        KnowledgeBaseCallsStep(reply.toolCalls, k);
        if call.name == KnowledgeBaseTool {
          ToolRepliesSnoc(KnowledgeBaseCalls(reply.toolCalls[..k]), call, retrieve);
          var docs := retrieve(call.query);
          toolResponseDocs := Some(docs);
          toolMessages := toolMessages + [Tool(RetrievalSummary(|docs|, call.query), call.id)];
          retrievalAttempted := true;
          shouldGenerate := true;
        }
      }
      assert reply.toolCalls[..|reply.toolCalls|] == reply.toolCalls;
      newMessages := newMessages + toolMessages;
    }
    u := Update(newMessages, toolResponseDocs,
                if retrievalAttempted then Some(true) else None,
                if shouldGenerate then Some(true) else None);
  }

  /** The agent's update: the model's reply first, then one tool message per
      knowledge-base call in call order, each reporting how many documents
      that call's query retrieved; `docs` holds the last call's documents,
      and both flags are set exactly when some knowledge-base call ran. */
  lemma AgentUpdateSpec(reply: ModelReply, retrieve: string -> seq<Document>)
    ensures var u := AgentUpdate(reply, retrieve); var calls := KnowledgeBaseCalls(reply.toolCalls);
      && |u.messages| == 1 + |calls|
      && u.messages[0] == Ai(reply.content, reply.toolCalls)
      && (forall i :: 0 <= i < |calls| ==>
            u.messages[i + 1] == Tool(RetrievalSummary(|retrieve(calls[i].query)|, calls[i].query), calls[i].id))
      && (u.docs.Some? <==> |calls| > 0)
      && (|calls| > 0 ==> u.docs == Some(retrieve(calls[|calls| - 1].query)))
      && u.retrievalAttempted == u.shouldGenerate == (if |calls| > 0 then Some(true) else None)
  {
    var calls := KnowledgeBaseCalls(reply.toolCalls);
    var replies := ToolReplies(calls, retrieve);
    forall i | 0 <= i < |calls| ensures ([Ai(reply.content, reply.toolCalls)] + replies)[i + 1] == ToolReply(calls[i], retrieve) {
      assert ([Ai(reply.content, reply.toolCalls)] + replies)[i + 1] == replies[i];
    }
  }

  /** A reply without tool calls is passed through alone, with nothing else
      updated. */
  lemma AgentWithoutToolCalls(reply: ModelReply, retrieve: string -> seq<Document>)
    requires reply.toolCalls == []
    ensures AgentUpdate(reply, retrieve) == Update([Ai(reply.content, [])], None, None, None)
  {
    assert KnowledgeBaseCalls([]) == [];
  }

  lemma KnowledgeBaseCallsStep(calls: seq<ToolCall>, k: nat)
    requires k < |calls|
    ensures KnowledgeBaseCalls(calls[..k + 1])
         == KnowledgeBaseCalls(calls[..k]) + (if calls[k].name == KnowledgeBaseTool then [calls[k]] else [])
  {
    assert calls[..k + 1][..k] == calls[..k];
  }

  lemma ToolRepliesSnoc(calls: seq<ToolCall>, c: ToolCall, retrieve: string -> seq<Document>)
    ensures ToolReplies(calls + [c], retrieve) == ToolReplies(calls, retrieve) + [ToolReply(c, retrieve)]
  {
    assert forall i :: 0 <= i < |calls| ==> (calls + [c])[i] == calls[i];
  }

  /** Filtering keeps call order: the knowledge-base calls of a concatenation
      are those of the first part followed by those of the second. */
  lemma {:induction false} KnowledgeBaseCallsConcat(a: seq<ToolCall>, b: seq<ToolCall>)
    ensures KnowledgeBaseCalls(a + b) == KnowledgeBaseCalls(a) + KnowledgeBaseCalls(b)
  {
    if |b| > 0 {
      assert (a + b)[..|a + b| - 1] == a + b[..|b| - 1];
      KnowledgeBaseCallsConcat(a, b[..|b| - 1]);
    } else {
      assert a + b == a;
    }
  }

  /** Exactly the calls named `gov_knowledge_base` are dispatched; calls to
      other tools add nothing. */
  lemma {:induction false} KnowledgeBaseCallsMembers(calls: seq<ToolCall>)
    ensures forall c :: c in KnowledgeBaseCalls(calls) <==> c in calls && c.name == KnowledgeBaseTool
    ensures |KnowledgeBaseCalls(calls)| == CountIf(calls, (c: ToolCall) => c.name == KnowledgeBaseTool)
  {
    if |calls| > 0 {
      KnowledgeBaseCallsMembers(calls[..|calls| - 1]);
      assert calls == calls[..|calls| - 1] + [calls[|calls| - 1]];
    }
  }

  /** `retrieve_and_store`: queries with the last message's content, appends
      the fixed notice as a human message and sets `retrieval_attempted`. An
      empty history raises (`None`). */
  function RetrieveAndStore(s: AgentState, retrieve: string -> seq<Document>): (u: Option<Update>)
    ensures u.None? <==> |s.messages| == 0
  {
    if |s.messages| == 0 then None
    else Some(Update([Human(RetrievalNotice)], Some(retrieve(s.messages[|s.messages| - 1].content)), Some(true), None))
  }

  const RewritePromptHead := "\n    Look at the input and try to reason about the underlying semantic intent / meaning.\n    Here is the initial question:\n    \n ------- \n\n    "
  const RewritePromptTail := "\n    \n ------- \n\n    Formulate an improved question: "

  /** The rewriting prompt: the fixed instructions with the question quoted
      between them; a missing question is rendered as Python renders
      `None`. */
  function RewritePrompt(question: Option<string>): (p: string)
    ensures var q := question.GetOr("None");
      && StartsWith(p, RewritePromptHead) && EndsWith(p, RewritePromptTail)
      && |p| == |RewritePromptHead| + |q| + |RewritePromptTail|
      && p[|RewritePromptHead|..|p| - |RewritePromptTail|] == q
      && Contains(p, q)
  {
    var q := question.GetOr("None");
    var p := RewritePromptHead + q + RewritePromptTail;
    assert p[|RewritePromptHead|..|RewritePromptHead| + |q|] == q;
    ContainsAt(p, q, |RewritePromptHead|);
    p
  }

  /** `rewrite`: appends the rewriting model's reply to the prompt quoting
      the looked-up question, as one AI message without tool calls, and
      writes no other key. */
  function Rewrite(s: AgentState, rewriter: string -> string): (u: Update)
    ensures u.messages == [Ai(rewriter(RewritePrompt(QuestionLookup(s.messages))), [])]
    ensures u.docs.None? && u.retrievalAttempted.None? && u.shouldGenerate.None?
  {
    Update([Ai(rewriter(RewritePrompt(QuestionLookup(s.messages))), [])], None, None, None)
  }

  /** The final answer text: the chain's answer untouched, then the heading,
      then the sources text, which is "No sources found." exactly when no
      document has a url. */
  function FullResponse(answer: string, docs: seq<Document>): (r: string)
    ensures StartsWith(r, answer + SourcesHeading)
    ensures r[|answer + SourcesHeading|..] == CollectSources(docs)
    ensures r[|answer + SourcesHeading|..] == NoSources <==> forall d :: d in docs ==> CitationLine(d).None?
  {
    answer + SourcesHeading + CollectSources(docs)
  }

  /** `generate`: the chain always runs, on the formatted `docs` (default
      empty) and the looked-up question; the node appends one AI message
      without tool calls and writes no other key. */
  function Generate(s: AgentState, rag: (string, Option<string>) -> string): (u: Update)
    ensures var docs := s.docs.GetOr([]);
      u.messages == [Ai(FullResponse(rag(FormatDocs(docs), QuestionLookup(s.messages)), docs), [])]
    ensures u.docs.None? && u.retrievalAttempted.None? && u.shouldGenerate.None?
  {
    var docs := s.docs.GetOr([]);
    Update([Ai(FullResponse(rag(FormatDocs(docs), QuestionLookup(s.messages)), docs), [])], None, None, None)
  }
}
