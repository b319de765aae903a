/** The compiled graph: `agent -> {generate | retrieve | END}`,
    `retrieve -> {generate | rewrite}`, `rewrite -> agent`,
    `generate -> END`, driven by the external calls in `Oracles`, and the
    per-user history kept by the checkpointer. */
module Graph {
  import opened Text
  import opened Conversation
  import opened Routing
  import opened Citations
  import opened Nodes

  /** The external calls the nodes make. */
  datatype Oracles = Oracles(
    model: seq<Message> -> ModelReply,         // tool-bound chat model on the history
    toolsCondition: AgentState -> ToolsRoute,  // LangGraph's `tools_condition`
    retrieve: string -> seq<Document>,         // the retriever
    grader: (string, string) -> string,        // grading chain on (question, document)
    rewriter: string -> string,                // rewriting model on its prompt
    rag: (string, Option<string>) -> string)   // answer chain on (context, question)

  datatype Node = AgentNode | RetrieveNode | RewriteNode | GenerateNode | EndNode

  datatype Transition = Transition(next: Node, state: AgentState)

  /** The agent node followed by its conditional edge. The edge never
      raises: the node has appended the model's reply before the override
      looks up the question. */
  function AgentStep(s: AgentState, o: Oracles): (r: Option<Transition>)
    ensures r.Some?
  {
    var t := Apply(s, AgentUpdate(o.model(s.messages), o.retrieve));
    match AgentEdge(t, o.toolsCondition(t))
    case None => None
    case Some(target) => Some(Transition(AgentSuccessor(target), t))
  }

  function AgentSuccessor(target: AgentTarget): Node {
    match target
    case ToGenerate => GenerateNode
    case ToRetrieve => RetrieveNode
    case ToFinish => EndNode
  }

  function GradedSuccessor(v: Verdict): Node {
    match v
    case GoGenerate => GenerateNode
    case GoRewrite => RewriteNode
  }

  /** The retrieve node followed by the relevance check; `None` when either
      raises (empty history). */
  function RetrieveStep(s: AgentState, o: Oracles): Option<Transition> {
    match RetrieveAndStore(s, o.retrieve)
    case None => None
    case Some(u) =>
      var t := Apply(s, u);
      match CheckDocumentRelevance(t.messages, o.grader)
      case None => None
      case Some(v) => Some(Transition(GradedSuccessor(v), t))
  }

  /** The wiring of the compiled graph: agent to generate, retrieve or END;
      retrieve to generate or rewrite; rewrite to agent; generate to END. */
  predicate Edge(from: Node, to: Node) {
    match from
    case AgentNode => to == GenerateNode || to == RetrieveNode || to == EndNode
    case RetrieveNode => to == GenerateNode || to == RewriteNode
    case RewriteNode => to == AgentNode
    case GenerateNode => to == EndNode
    case EndNode => false
  }

  /** One node run followed by its outgoing edge; `None` when the node or the
      edge raises, which only the retrieve node does, on an empty history.
      Nothing runs at END. Every step follows an edge of the graph. */
  function Step(node: Node, s: AgentState, o: Oracles): (r: Option<Transition>)
    ensures r.None? <==> node == EndNode || (node == RetrieveNode && |s.messages| == 0)
    ensures r.Some? ==> Edge(node, r.value.next)
  {
    match node
    case AgentNode => AgentStep(s, o)
    case RetrieveNode => RetrieveStep(s, o)
    case RewriteNode => Some(Transition(AgentNode, Apply(s, Rewrite(s, o.rewriter))))
    case GenerateNode => Some(Transition(EndNode, Apply(s, Generate(s, o.rag))))
    case EndNode => None
  }

  /** How a run ends: it reached END, a node raised, or the step budget ran
      out. Each carries the last state reached. */
  datatype RunResult = Finished(state: AgentState) | Raised(state: AgentState) | OutOfSteps(state: AgentState)

  /** The executor over a transition function: run nodes and follow edges
      until END, an exception, or `fuel` node runs. */
  function Drive(next: (Node, AgentState) -> Option<Transition>, node: Node, s: AgentState, fuel: nat): RunResult
    decreases fuel
  {
    if node == EndNode then Finished(s)
    else if fuel == 0 then OutOfSteps(s)
    else match next(node, s)
      case None => Raised(s)
      case Some(tr) => Drive(next, tr.next, tr.state, fuel - 1)
  }

  function RunFrom(node: Node, s: AgentState, o: Oracles, fuel: nat): RunResult {
    Drive((n, st) => Step(n, st, o), node, s, fuel)
  }

  /** `graph.invoke`: start at the agent node with at most `fuel` node runs.
      The history only grows, and a turn that reaches END ends with an AI
      message: the generated answer or the model's own reply. */
  function Run(s: AgentState, o: Oracles, fuel: nat): (r: RunResult)
    ensures s.messages <= r.state.messages
    ensures r.Finished? ==> EndsWithAiMessage(r.state)
  {
    RunExtendsHistory(AgentNode, s, o, fuel);
    RunEndsWithAiMessage(s, o, fuel);
    RunFrom(AgentNode, s, o, fuel)
  }

  predicate EndsWithAiMessage(s: AgentState) {
    |s.messages| > 0 && s.messages[|s.messages| - 1].Ai?
  }

  /** A run from a node other than END finishes only through a step into
      END, so it finishes in a state such a step produced. */
  lemma {:induction false} DriveFinishesThroughEnd(next: (Node, AgentState) -> Option<Transition>,
                                                   p: AgentState -> bool, node: Node, s: AgentState, fuel: nat)
    requires node != EndNode
    requires forall n, st :: next(n, st).Some? && next(n, st).value.next == EndNode ==> p(next(n, st).value.state)
    ensures Drive(next, node, s, fuel).Finished? ==> p(Drive(next, node, s, fuel).state)
    decreases fuel
  {
    if fuel > 0 && next(node, s).Some? {
      var tr := next(node, s).value;
      if tr.next != EndNode {
        DriveFinishesThroughEnd(next, p, tr.next, tr.state, fuel - 1);
      }
    }
  }

  /** The two steps into END, from the agent and from generate, both leave
      an AI message last. */
  lemma StepIntoEnd(n: Node, st: AgentState, o: Oracles)
    requires Step(n, st, o).Some? && Step(n, st, o).value.next == EndNode
    ensures EndsWithAiMessage(Step(n, st, o).value.state)
  {
    if n == AgentNode {
      var u := AgentUpdate(o.model(st.messages), o.retrieve);
      var t := Apply(st, u);
      assert AgentEdge(t, o.toolsCondition(t)) == Some(ToFinish);
      assert t.shouldGenerate != Some(true);
      assert |KnowledgeBaseCalls(o.model(st.messages).toolCalls)| == 0;
      assert t.messages == st.messages + [Ai(o.model(st.messages).content, o.model(st.messages).toolCalls)];
    }
  }

  lemma RunEndsWithAiMessage(s: AgentState, o: Oracles, fuel: nat)
    ensures RunFrom(AgentNode, s, o, fuel).Finished? ==> EndsWithAiMessage(RunFrom(AgentNode, s, o, fuel).state)
  {
    forall n, st | Step(n, st, o).Some? && Step(n, st, o).value.next == EndNode
      ensures EndsWithAiMessage(Step(n, st, o).value.state)
    {
      StepIntoEnd(n, st, o);
    }
    DriveFinishesThroughEnd((n, st) => Step(n, st, o), EndsWithAiMessage, AgentNode, s, fuel);
  }

  /** A run whose every step extends the history ends with an extension of
      the history it started from. */
  lemma {:induction false} DriveExtendsHistory(next: (Node, AgentState) -> Option<Transition>, node: Node, s: AgentState, fuel: nat)
    requires forall n, st :: next(n, st).Some? ==> st.messages <= next(n, st).value.state.messages
    ensures s.messages <= Drive(next, node, s, fuel).state.messages
    decreases fuel
  {
    if node != EndNode && fuel > 0 && next(node, s).Some? {
      var tr := next(node, s).value;
      DriveExtendsHistory(next, tr.next, tr.state, fuel - 1);
    }
  }

  /** Every node appends at least one message and never rewrites earlier ones. */
  lemma StepExtendsHistory(node: Node, s: AgentState, o: Oracles)
    requires Step(node, s, o).Some?
    ensures s.messages < Step(node, s, o).value.state.messages
  {
  }

  /** History is append-only over a whole run, however it ends. */
  lemma RunExtendsHistory(node: Node, s: AgentState, o: Oracles, fuel: nat)
    ensures s.messages <= RunFrom(node, s, o, fuel).state.messages
  {
    forall n, st | Step(n, st, o).Some? ensures st.messages <= Step(n, st, o).value.state.messages {
      StepExtendsHistory(n, st, o);
    }
    DriveExtendsHistory((n, st) => Step(n, st, o), node, s, fuel);
  }

  /** Neither flag holds `False`, and a flag once `True` stays `True`. */
  predicate FlagsNeverFalse(s: AgentState) {
    s.retrievalAttempted != Some(false) && s.shouldGenerate != Some(false)
  }

  predicate FlagsKept(s: AgentState, t: AgentState) {
    (s.retrievalAttempted == Some(true) ==> t.retrievalAttempted == Some(true))
    && (s.shouldGenerate == Some(true) ==> t.shouldGenerate == Some(true))
  }

  lemma {:induction false} DriveKeepsFlags(next: (Node, AgentState) -> Option<Transition>, node: Node, s: AgentState, fuel: nat)
    requires forall n, st :: FlagsNeverFalse(st) && next(n, st).Some? ==>
               FlagsNeverFalse(next(n, st).value.state) && FlagsKept(st, next(n, st).value.state)
    requires FlagsNeverFalse(s)
    ensures FlagsNeverFalse(Drive(next, node, s, fuel).state)
    ensures FlagsKept(s, Drive(next, node, s, fuel).state)
    decreases fuel
  {
    if node != EndNode && fuel > 0 && next(node, s).Some? {
      var tr := next(node, s).value;
      DriveKeepsFlags(next, tr.next, tr.state, fuel - 1);
    }
  }

  /** No node writes `False` to either flag. */
  lemma StepNeverWritesFalse(node: Node, s: AgentState, o: Oracles)
    requires Step(node, s, o).Some? && FlagsNeverFalse(s)
    ensures FlagsNeverFalse(Step(node, s, o).value.state)
    ensures FlagsKept(s, Step(node, s, o).value.state)
  {
  }

  lemma RunNeverWritesFalse(node: Node, s: AgentState, o: Oracles, fuel: nat)
    requires FlagsNeverFalse(s)
    ensures FlagsNeverFalse(RunFrom(node, s, o, fuel).state)
    ensures FlagsKept(s, RunFrom(node, s, o, fuel).state)
  {
    forall n, st | FlagsNeverFalse(st) && Step(n, st, o).Some?
      ensures FlagsNeverFalse(Step(n, st, o).value.state) && FlagsKept(st, Step(n, st, o).value.state)
    {
      StepNeverWritesFalse(n, st, o);
    }
    DriveKeepsFlags((n, st) => Step(n, st, o), node, s, fuel);
  }

  /** The agent's messages are AI and tool messages, never human ones. */
  lemma AgentUpdateAddsNoHumanMessage(reply: ModelReply, retrieve: string -> seq<Document>)
    ensures forall j :: 0 <= j < |AgentUpdate(reply, retrieve).messages| ==> !AgentUpdate(reply, retrieve).messages[j].Human?
  {
  }

  /** Override invariant: when the looked-up question, lower-cased, is a
      keyword question and `should_generate` is not set, the agent step
      either retrieved through the tool (and goes to generate) or goes to
      the retrieve node, whatever the model decided. */
  lemma KeywordQuestionForcesRetrieval(s: AgentState, o: Oracles, q: string)
    requires QuestionLookup(s.messages) == Some(q) && ForcesRetrieval(Lower(q))
    requires s.shouldGenerate != Some(true)
    ensures AgentStep(s, o).Some?
    ensures var tr := AgentStep(s, o).value;
      tr.next == RetrieveNode
      || (tr.next == GenerateNode && tr.state.retrievalAttempted == Some(true) && tr.state.docs.Some?)
  {
    var u := AgentUpdate(o.model(s.messages), o.retrieve);
    AgentUpdateAddsNoHumanMessage(o.model(s.messages), o.retrieve);
    AppendNonHumanKeepsQuestion(s.messages, u.messages);
  }

  /** `should_generate` short-circuits the agent edge for good: once set in
      the state, a run is agent then generate, the override and the
      retrieve node are never reached, and the answer is built from
      whatever `docs` hold. The state here keeps the key although
      `AgentState` does not declare it. */
  lemma StickyShouldGenerate(s: AgentState, o: Oracles, fuel: nat)
    requires s.shouldGenerate == Some(true) && fuel >= 2
    ensures var t := Apply(s, AgentUpdate(o.model(s.messages), o.retrieve));
      Run(s, o, fuel) == Finished(Apply(t, Generate(t, o.rag)))
  {
    var t := Apply(s, AgentUpdate(o.model(s.messages), o.retrieve));
    var next := (n, st) => Step(n, st, o);
    AgentStepSticky(s, o);
    DriveStep(next, AgentNode, s, fuel);
    assert next(GenerateNode, t) == Some(Transition(EndNode, Apply(t, Generate(t, o.rag))));
    DriveStep(next, GenerateNode, t, fuel - 1);
  }

  lemma AgentStepSticky(s: AgentState, o: Oracles)
    requires s.shouldGenerate == Some(true)
    ensures AgentStep(s, o) == Some(Transition(GenerateNode, Apply(s, AgentUpdate(o.model(s.messages), o.retrieve))))
  {
    var u := AgentUpdate(o.model(s.messages), o.retrieve);
    assert u.shouldGenerate == None || u.shouldGenerate == Some(true);
  }

  /** One step of the executor from a node other than END. */
  lemma DriveStep(next: (Node, AgentState) -> Option<Transition>, node: Node, s: AgentState, fuel: nat)
    requires node != EndNode && fuel > 0 && next(node, s).Some?
    ensures Drive(next, node, s, fuel) == Drive(next, next(node, s).value.next, next(node, s).value.state, fuel - 1)
  {
  }

  /** `retrieve_and_store` appends exactly the human notice, stores the
      retriever's answer to the last message's content and sets
      `retrieval_attempted`; `should_generate` is untouched. */
  lemma RetrieveNodeEffect(s: AgentState, retrieve: string -> seq<Document>)
    requires |s.messages| > 0
    ensures var t := Apply(s, RetrieveAndStore(s, retrieve).value);
      && t.messages == s.messages + [Human(RetrievalNotice)]
      && t.docs == Some(retrieve(s.messages[|s.messages| - 1].content))
      && t.retrievalAttempted == Some(true)
      && t.shouldGenerate == s.shouldGenerate
  {
  }

  /** After the retrieve node, the grading chain's question and its "document" are
      both the notice text, so the verdict does not depend on the user's
      question or on the documents retrieved. */
  lemma RelevanceCheckSeesOnlyNotice(s: AgentState, o: Oracles)
    requires |s.messages| > 0
    ensures RetrieveStep(s, o).Some?
    ensures RetrieveStep(s, o).value.next == GradedSuccessor(RelevanceVerdict(o.grader(RetrievalNotice, RetrievalNotice)))
  {
    var t := Apply(s, RetrieveAndStore(s, o.retrieve).value);
    AppendHumanIsQuestion(s.messages, RetrievalNotice);
    assert t.messages == s.messages + [Human(RetrievalNotice)];
  }

  /** `rewrite` appends one AI message, so the question seen by the next
      agent step, the override and the grading chain is still the old one. */
  lemma RewriteKeepsQuestion(s: AgentState, rewriter: string -> string)
    requires |s.messages| > 0
    ensures var t := Apply(s, Rewrite(s, rewriter));
      && |t.messages| == |s.messages| + 1 && !t.messages[|s.messages|].Human?
      && QuestionLookup(t.messages) == QuestionLookup(s.messages)
      && t.docs == s.docs && t.retrievalAttempted == s.retrievalAttempted && t.shouldGenerate == s.shouldGenerate
  {
    AppendNonHumanKeepsQuestion(s.messages, Rewrite(s, rewriter).messages);
  }

  /** `generate` appends one AI message: the chain's answer on the formatted
      documents (none when `docs` is unset) and the looked-up question,
      then the sources heading, then the sources text; no other key
      changes. */
  lemma GenerateAppendsAnswer(s: AgentState, rag: (string, Option<string>) -> string)
    ensures var t := Apply(s, Generate(s, rag));
      var docs := if s.docs.Some? then s.docs.value else [];
      var answer := rag(FormatDocs(docs), QuestionLookup(s.messages));
      && t.messages == s.messages + [Ai(t.messages[|s.messages|].content, [])]
      && t.messages[|s.messages|].content == answer + SourcesHeading + CollectSources(docs)
      && (s.docs.None? ==> t.messages[|s.messages|].content == answer + SourcesHeading + NoSources)
      && t.docs == s.docs && t.retrievalAttempted == s.retrievalAttempted && t.shouldGenerate == s.shouldGenerate
  {
  }

  /** A run that stays inside a set of states none of which is END and from
      none of which a step raises never finishes: it uses up its budget. */
  lemma {:induction false} DriveNeverEnds(next: (Node, AgentState) -> Option<Transition>,
                                          inv: (Node, AgentState) -> bool, node: Node, s: AgentState, fuel: nat)
    requires inv(node, s)
    requires forall n, st :: inv(n, st) ==>
               n != EndNode && next(n, st).Some? && inv(next(n, st).value.next, next(n, st).value.state)
    ensures Drive(next, node, s, fuel).OutOfSteps?
    decreases fuel
  {
    if fuel > 0 {
      var tr := next(node, s).value;
      DriveNeverEnds(next, inv, tr.next, tr.state, fuel - 1);
    }
  }

  /** The conditions under which the graph cycles: the model never calls the
      knowledge base, `tools_condition` always answers "tools" and the grading chain
      rejects the notice. */
  ghost predicate Stalls(o: Oracles) {
    && (forall m :: KnowledgeBaseCalls(o.model(m).toolCalls) == [])
    && (forall st :: o.toolsCondition(st) == ToTools)
    && GradedSuccessor(RelevanceVerdict(o.grader(RetrievalNotice, RetrievalNotice))) == RewriteNode
  }

  /** The states of the agent -> retrieve -> rewrite cycle. */
  predicate InCycle(node: Node, s: AgentState) {
    s.shouldGenerate != Some(true)
    && (node == AgentNode || ((node == RetrieveNode || node == RewriteNode) && |s.messages| > 0))
  }

  lemma AgentStepStalls(s: AgentState, o: Oracles)
    requires KnowledgeBaseCalls(o.model(s.messages).toolCalls) == []
    requires s.shouldGenerate != Some(true)
    ensures var t := Apply(s, AgentUpdate(o.model(s.messages), o.retrieve));
      o.toolsCondition(t) == ToTools ==> AgentStep(s, o) == Some(Transition(RetrieveNode, t))
    ensures |AgentStep(s, o).value.state.messages| > 0
  {
  }

  lemma RetrieveStepStaysInCycle(s: AgentState, o: Oracles)
    requires InCycle(RetrieveNode, s)
    ensures RetrieveStep(s, o).Some? && InCycle(RewriteNode, RetrieveStep(s, o).value.state)
  {
    RelevanceCheckSeesOnlyNotice(s, o);
  }

  lemma RetrieveStepStalls(s: AgentState, o: Oracles)
    requires GradedSuccessor(RelevanceVerdict(o.grader(RetrievalNotice, RetrievalNotice))) == RewriteNode
    requires InCycle(RetrieveNode, s)
    ensures RetrieveStep(s, o).Some? && RetrieveStep(s, o).value.next == RewriteNode
    ensures InCycle(RewriteNode, RetrieveStep(s, o).value.state)
  {
    RelevanceCheckSeesOnlyNotice(s, o);
    RetrieveStepStaysInCycle(s, o);
  }

  /** From a cycle state, one step raises nothing and lands in the cycle. */
  lemma CycleStep(n: Node, st: AgentState, o: Oracles)
    requires Stalls(o) && InCycle(n, st)
    ensures n != EndNode && Step(n, st, o).Some? && InCycle(Step(n, st, o).value.next, Step(n, st, o).value.state)
  {
    match n
    case AgentNode =>
      var t := Apply(st, AgentUpdate(o.model(st.messages), o.retrieve));
      assert KnowledgeBaseCalls(o.model(st.messages).toolCalls) == [];
      assert o.toolsCondition(t) == ToTools;
      AgentStepStalls(st, o);
    case RetrieveNode =>
      RetrieveStepStalls(st, o);
    case RewriteNode =>
  }

  /** The notice the retrieve node appends, lower-cased, is not a question,
      so the keyword override never fires on it. */
  lemma NoticeNeverForcesRetrieval()
    ensures !ForcesRetrieval(Lower(RetrievalNotice))
  {
    var low := Lower(RetrievalNotice);
    assert low[0] == 'd' && low[2] == 'c' && low[|low| - 1] == '.';
    assert Strip(low) == low;
  }

  /** Once the retrieve node has run, the question is the notice: a later
      agent step without a knowledge-base call follows `tools_condition`
      alone, so a keyword question forces the retrieve node at most once. */
  lemma AgentDefersAfterRetrieve(s: AgentState, o: Oracles)
    requires QuestionLookup(s.messages) == Some(RetrievalNotice)
    requires s.shouldGenerate != Some(true)
    requires KnowledgeBaseCalls(o.model(s.messages).toolCalls) == []
    ensures var t := Apply(s, AgentUpdate(o.model(s.messages), o.retrieve));
      AgentStep(s, o) == Some(Transition(if o.toolsCondition(t) == ToTools then RetrieveNode else EndNode, t))
  {
    var u := AgentUpdate(o.model(s.messages), o.retrieve);
    AgentUpdateAddsNoHumanMessage(o.model(s.messages), o.retrieve);
    AppendNonHumanKeepsQuestion(s.messages, u.messages);
    NoticeNeverForcesRetrieval();
  }

  /** The rewrite cycle has no bound of its own: with a model that answers
      without the knowledge base, a `tools_condition` that asks for tools and
      a grading chain that rejects the notice, no step budget is ever enough. */
  lemma RewriteCycleUnbounded(s: AgentState, o: Oracles, fuel: nat)
    requires s.shouldGenerate != Some(true)
    requires Stalls(o)
    ensures Run(s, o, fuel).OutOfSteps?
  {
    forall n, st | InCycle(n, st)
      ensures n != EndNode && Step(n, st, o).Some? && InCycle(Step(n, st, o).value.next, Step(n, st, o).value.state)
    {
      CycleStep(n, st, o);
    }
    DriveNeverEnds((n, st) => Step(n, st, o), (n, st) => InCycle(n, st), AgentNode, s, fuel);
  }

  /** The input state of `run_graph_with_memory`: the prior messages are
      kept in order with exactly one human message after them, which
      becomes the question; the prior keys carry over, and a first turn
      starts with none. */
  function InitialState(prior: Option<AgentState>, userQuery: string): (s: AgentState)
    ensures var before := if prior.Some? then prior.value.messages else [];
      && s.messages == before + [Human(userQuery)]
      && QuestionLookup(s.messages) == Some(userQuery)
      && (prior.Some? ==> s.docs == prior.value.docs && s.shouldGenerate == prior.value.shouldGenerate
                          && s.retrievalAttempted == prior.value.retrievalAttempted)
      && (prior.None? ==> s.docs.None? && s.shouldGenerate.None? && s.retrievalAttempted.None?)
  {
    AppendHumanIsQuestion(if prior.Some? then prior.value.messages else [], userQuery);
    match prior
    case None => AgentState([Human(userQuery)], None, None, None)
    case Some(p) => p.(messages := p.messages + [Human(userQuery)])
  }

  /** Once a turn of a session has set `should_generate` and the stored
      state kept it, every later turn of that session goes agent then
      generate: new questions are never routed to the retrieve node or
      graded. */
  lemma LaterTurnsSkipRetrieval(prior: AgentState, userQuery: string, o: Oracles, fuel: nat)
    requires prior.shouldGenerate == Some(true) && fuel >= 2
    ensures Run(InitialState(Some(prior), userQuery), o, fuel).Finished?
    ensures Step(AgentNode, InitialState(Some(prior), userQuery), o).value.next == GenerateNode
  {
    StickyShouldGenerate(InitialState(Some(prior), userQuery), o, fuel);
  }

  /** The checkpointer: the last state reached for each thread (user). */
  class Checkpointer {
    var threads: map<string, AgentState>

    constructor ()
      ensures threads == map[]
    {
      threads := map[];
    }

    /** `run_graph_with_memory`: runs the graph on the user's history
        extended by the new query and stores the state reached. */
    method RunGraphWithMemory(userId: string, userQuery: string, o: Oracles, fuel: nat) returns (r: RunResult)
      modifies this
      ensures r == Run(InitialState(if userId in old(threads) then Some(old(threads)[userId]) else None, userQuery), o, fuel)
      ensures threads == old(threads)[userId := r.state]
      ensures userId in old(threads) ==> old(threads)[userId].messages + [Human(userQuery)] <= threads[userId].messages
      ensures userId !in old(threads) ==> [Human(userQuery)] <= threads[userId].messages
    {
      var prior: Option<AgentState> := None;
      if userId in threads {
        prior := Some(threads[userId]);
      }
      var initial := InitialState(prior, userQuery);
      r := Run(initial, o, fuel);
      RunExtendsHistory(AgentNode, initial, o, fuel);
      threads := threads[userId := r.state];
    }
  }
}
