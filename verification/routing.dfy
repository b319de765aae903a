/** The graph's decision points: the keyword-and-question override in
    `debug_tools_condition`, the conditional edge leaving the agent node and
    the relevance verdict of `check_document_relevance`. */
module Routing {
  import opened Text
  import opened Conversation

  const FarmingGrantKeywords: seq<string> := [
    "farm", "farming", "grant", "grants", "agriculture", "agricultural",
    "rural", "defra", "funding", "support scheme"]

  const QuestionStarters: seq<string> := [
    "what", "how", "which", "when", "where", "who", "does", "do", "can",
    "is", "are", "should", "could", "would"]

  /** What LangGraph's `tools_condition` answers: go to the tools, or end. */
  datatype ToolsRoute = ToTools | ToEnd

  /** The question-shape test on the lower-cased query: after stripping it
      ends in `?` or starts with a listed starter followed by a space. */
  predicate IsQuestion(query: string) {
    EndsWith(Strip(query), "?")
    || exists starter :: starter in QuestionStarters && StartsWith(Strip(query), starter + " ")
  }

  /** The keyword test: some listed keyword occurs anywhere in the query
      (the query itself, not its stripped form). */
  predicate MentionsKeyword(query: string) {
    exists keyword :: keyword in FarmingGrantKeywords && Contains(query, keyword)
  }

  /** Both tests together force the retriever tool. */
  predicate ForcesRetrieval(query: string) {
    IsQuestion(query) && MentionsKeyword(query)
  }

  /** `debug_tools_condition`: `llmRoute` is what `tools_condition(state)`
      returns. An empty history has no query to lower-case, so the source
      raises there; that is `None`. */
  function DebugToolsCondition(messages: seq<Message>, llmRoute: ToolsRoute): (r: Option<ToolsRoute>)
    ensures r.None? <==> |messages| == 0
    ensures r == Some(ToTools) <==>
              |messages| > 0 && (ForcesRetrieval(Lower(QuestionLookup(messages).value)) || llmRoute == ToTools)
    ensures r.Some? && r.value != llmRoute ==> ForcesRetrieval(Lower(QuestionLookup(messages).value))
  {
    match QuestionLookup(messages)
    case None => None
    case Some(q) => if ForcesRetrieval(Lower(q)) then Some(ToTools) else Some(llmRoute)
  }

  /** Where the agent node's conditional edge leads. */
  datatype AgentTarget = ToGenerate | ToRetrieve | ToFinish

  /** The agent edge: a truthy `should_generate` goes straight to generate,
      without evaluating the override; otherwise `"tools"` leads to retrieve
      and `END` ends the run. */
  function AgentEdge(s: AgentState, llmRoute: ToolsRoute): (r: Option<AgentTarget>)
    ensures r == Some(ToGenerate) <==> s.shouldGenerate == Some(true)
    ensures s.shouldGenerate != Some(true) ==> (r.None? <==> |s.messages| == 0)
    ensures s.shouldGenerate != Some(true) && |s.messages| > 0 ==>
              (r == Some(ToRetrieve) <==> ForcesRetrieval(Lower(QuestionLookup(s.messages).value)) || llmRoute == ToTools)
    ensures s.shouldGenerate != Some(true) && |s.messages| > 0 ==>
              (r == Some(ToFinish) <==> !ForcesRetrieval(Lower(QuestionLookup(s.messages).value)) && llmRoute == ToEnd)
  {
    if s.shouldGenerate == Some(true) then Some(ToGenerate)
    else match DebugToolsCondition(s.messages, llmRoute)
      case None => None
      case Some(ToTools) => Some(ToRetrieve)
      case Some(ToEnd) => Some(ToFinish)
  }

  /** Where `check_document_relevance` sends the run. */
  datatype Verdict = GoGenerate | GoRewrite

  /** The verdict on the grading chain's raw text: stripping never matters,
      so the output counts as relevant exactly when "yes", ignoring case,
      occurs anywhere in it, and as not relevant otherwise. */
  function RelevanceVerdict(raw: string): (r: Verdict)
    ensures r == GoGenerate <==> exists k :: YesAt(raw, k)
  {
    StrippedYesIffYesAt(raw);
    if Contains(Lower(Strip(raw)), "yes") then GoGenerate else GoRewrite
  }

  /** `check_document_relevance`: the grading chain sees the looked-up question and
      the content of the last message; an empty history raises (`None`). */
  function CheckDocumentRelevance(messages: seq<Message>, grader: (string, string) -> string): (r: Option<Verdict>)
    ensures r.None? <==> |messages| == 0
  {
    if |messages| == 0 then None
    else Some(RelevanceVerdict(grader(QuestionLookup(messages).value, messages[|messages| - 1].content)))
  }

  /** "yes", in any mix of upper and lower case, starts at offset `k`. */
  predicate YesAt(raw: string, k: int) {
    0 <= k && k + 3 <= |raw|
    && LowerChar(raw[k]) == 'y' && LowerChar(raw[k + 1]) == 'e' && LowerChar(raw[k + 2]) == 's'
  }

  /** "yes" in the lower-cased text is "yes", in any case, in the text. */
  lemma YesInLower(s: string, k: nat)
    requires k + 3 <= |s| && Lower(s)[k..k + 3] == "yes"
    ensures YesAt(s, k)
  {
    var low := Lower(s);
    assert low[k] == low[k..k + 3][0];
    assert low[k + 1] == low[k..k + 3][1];
    assert low[k + 2] == low[k..k + 3][2];
  }

  lemma YesAtLower(s: string, k: nat)
    requires YesAt(s, k)
    ensures Contains(Lower(s), "yes")
  {
    var low := Lower(s);
    assert low[k..k + 3] == "yes";
    ContainsAt(low, "yes", k);
  }

  /** An occurrence in a slice is one in the whole text, and back. */
  lemma YesAtSlice(raw: string, a: nat, b: nat, k: nat)
    requires a <= b <= |raw| && k + 3 <= b - a
    ensures YesAt(raw[a..b], k) <==> YesAt(raw, a + k)
  {
    assert raw[a..b][k] == raw[a + k];
    assert raw[a..b][k + 1] == raw[a + k + 1];
    assert raw[a..b][k + 2] == raw[a + k + 2];
  }

  lemma YesInStrippedIsYesAt(raw: string)
    requires Contains(Lower(Strip(raw)), "yes")
    ensures exists k :: YesAt(raw, k)
  {
    var a, b := StripBounds(raw);
    var k := ContainsWitness(Lower(Strip(raw)), "yes");
    YesInLower(raw[a..b], k);
    YesAtSlice(raw, a, b, k);
  }

  lemma LetterIsNotSpace(c: char)
    requires LowerChar(c) == 'y' || LowerChar(c) == 's'
    ensures !IsSpace(c)
  {
  }

  lemma YesAtIsYesInStripped(raw: string, k: nat)
    requires YesAt(raw, k)
    ensures Contains(Lower(Strip(raw)), "yes")
  {
    var a, b := StripBounds(raw);
    // The first and last letters are not whitespace, so they survive stripping.
    LetterIsNotSpace(raw[k]);
    LetterIsNotSpace(raw[k + 2]);
    assert a <= k && k + 3 <= b;
    YesAtSlice(raw, a, b, k - a);
    YesAtLower(raw[a..b], k - a);
  }

  lemma StrippedYesIffYesAt(raw: string)
    ensures Contains(Lower(Strip(raw)), "yes") <==> exists k :: YesAt(raw, k)
  {
    if Contains(Lower(Strip(raw)), "yes") {
      YesInStrippedIsYesAt(raw);
    }
    if k :| YesAt(raw, k) {
      YesAtIsYesInStripped(raw, k);
    }
  }
}
