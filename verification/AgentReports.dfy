/** What the numbers and reasons of an agent's report tell about its run. */
module AgentReports {
  import opened Wrappers
  import opened AgentTools
  import opened Agent

  /** The tool's own counter has reached its limit. */
  predicate Spent(l: Limits, s: State, name: string) {
    || (name in {"search_bm25", "search_dense"} && s.retrievals >= l.maxRetrievals)
    || (name == "rerank" && s.reranks >= l.maxReranks)
    || (name == "fuse_rankings" && s.fusions >= l.maxFusions)
  }

  /** The call succeeds: it stores a ranking and its evidence, or finishes with a stored ranking. */
  predicate Succeeds(l: Limits, w: World, s: State, call: Call) {
    && call.name in l.allowed && !Spent(l, s, call.name)
    && (|| (Retrieves(s.registry, call.name, call.arguments) && w.service(s.toolCalls).Delivers?)
        || (call.name == "finish_research" && FinishArgs(call.arguments)
            && call.arguments.rankingId.value in s.registry.rankings))
  }

  /**
   A call is refused for its budget exactly when the tool is allowed and its counter has reached the limit; it
   counts as a success exactly when it succeeds, under its own counter; anything else is an error.
   */
  lemma CallIsJudged(l: Limits, w: World, s: State, call: Call)
    ensures var t := RunTool(l, w, s, call);
            var spent, success := call.name in l.allowed && Spent(l, s, call.name), Succeeds(l, w, s, call);
            && t.exhaustions == s.exhaustions + (if spent then 1 else 0)
            && t.toolErrors == s.toolErrors + (if spent || success then 0 else 1)
            && t.retrievals == s.retrievals
               + (if success && call.name in {"search_bm25", "search_dense"} then 1 else 0)
            && t.reranks == s.reranks + (if success && call.name == "rerank" then 1 else 0)
            && t.fusions == s.fusions + (if success && call.name == "fuse_rankings" then 1 else 0)
            && t.toolCalls == s.toolCalls + 1
  {
    hide Execute, Retrieves, FinishArgs;
    RetrievesByName(s.registry, call.name, call.arguments);
    OutcomeOfCall(s.registry, call.name, call.arguments, s.question, w.service(s.toolCalls));
  }

  lemma OutcomeOfCall(reg: Registry, name: string, a: Arguments, question: string, service: Service)
    ensures var outcome := Execute(reg, name, a, question, service).1;
            && (outcome.Stored? <==> Retrieves(reg, name, a) && service.Delivers?)
            && (outcome.Finished? <==>
                  name == "finish_research" && FinishArgs(a) && a.rankingId.value in reg.rankings)
  {
    ExecuteStores(reg, name, a, question, service);
    hide SearchArgs, RerankArgs, FuseArgs, RankingId, StoreRanking, Retrieves;
    ArgumentsGiven(a);
  }

  /** The planner's last message makes no call. */
  predicate Silent(s: State) {
    |s.messages| > 0 && s.messages[|s.messages| - 1] == Assistant([])
  }

  /** What the reason to stop says about a run that goes on to its answer. */
  predicate StopTells(l: Limits, w: World, s: State) {
    && s.stopReason.Some?
    && match s.stopReason.value
       case "finished" => s.selected.Some?
       case "max_steps" => s.turns == l.maxTurns
       case "model_finalize" => Silent(s) && s.registry.order != []
       case "model_stop_no_ranking" => Silent(s) && s.registry.order == []
       case "planner_error" => s.llmCalls > 0 && !w.planner(s.llmCalls - 1).Replies?
       case _ => false
  }

  /** The reply is the planner's last one. */
  lemma {:induction false} AskReply(l: Limits, w: World, s: State, attempt: nat)
    requires attempt <= l.retries
    ensures var (t, reply) := Ask(l, w, s, attempt); t.llmCalls > 0 && reply == w.planner(t.llmCalls - 1)
    decreases l.retries - attempt
  {
    var t := s.(llmCalls := s.llmCalls + 1);
    if w.planner(s.llmCalls).ProviderError? && attempt < l.retries {
      AskReply(l, w, t, attempt + 1);
    }
  }

  /**
   The planner is asked again exactly as long as the provider fails and retries are left: every reply before the
   last is a provider error, and so is the last one only after all retries.
   */
  lemma {:induction false} AskedAgain(l: Limits, w: World, s: State, attempt: nat)
    requires attempt <= l.retries
    ensures var (t, reply) := Ask(l, w, s, attempt);
            && (forall i :: s.llmCalls <= i < t.llmCalls - 1 ==> w.planner(i).ProviderError?)
            && (reply.ProviderError? ==> t.llmCalls == s.llmCalls + (l.retries - attempt) + 1)
    decreases l.retries - attempt
  {
    var t := s.(llmCalls := s.llmCalls + 1);
    if w.planner(s.llmCalls).ProviderError? && attempt < l.retries {
      AskedAgain(l, w, t, attempt + 1);
    }
  }

  lemma StepStops(l: Limits, w: World, node: Node, s: State)
    requires NodeInv(l, node, s) && Step(l, w, (node, s)).0.Answer?
    ensures StopTells(l, w, Step(l, w, (node, s)).1)
  {
    hide Core, RunTools, Ask, ChatValid, ChatPending;
    if node.Planner? {
      AskReply(l, w, s, 0);
      AskCounts(l, w, s, 0);
    } else if node.Tools? {
      MessagesAreFree(l, s, s.messages, false);
      RunToolsKeepsCore(l, w, s.(pending := []), s.pending);
      var t := RunTools(l, w, s.(pending := []), s.pending);
      TurnsWithin(l, t, FinishedByTool(t));
    }
  }

  /** At the answer node of every run the reason to stop tells the truth. */
  lemma AnswerTells(l: Limits, w: World, question: string, n: nat)
    requires l.maxTurns > 0 && After(l, w, question, n).0.Answer?
    ensures StopTells(l, w, After(l, w, question, n).1)
  {
    hide Step, NodeInv, StopTells;
    AfterKeepsInv(l, w, question, n - 1);
    StepStops(l, w, After(l, w, question, n - 1).0, After(l, w, question, n - 1).1);
  }

  /**
   What a finished run reports: the generated text exactly when a ranking is selected and the provider answers, an
   error of the answer exactly when it does not, and otherwise the true reason to stop.
   */
  lemma {:induction false} EndTells(l: Limits, w: World, question: string, n: nat)
    requires l.maxTurns > 0 && After(l, w, question, n).0.End?
    ensures var t := After(l, w, question, n).1;
            && t.answer == (if t.selected.Some? && w.generated.Some? then w.generated.value else "")
            && (t.stopReason == Some("answer_error") <==> t.selected.Some? && w.generated.None?)
            && (t.stopReason != Some("answer_error") ==>
                  exists before :: StopTells(l, w, before) && Reported(w, before, t))
  {
    hide Step, NodeInv, StopTells;
    var (node, s) := After(l, w, question, n - 1);
    if node.End? {
      EndStays(l, w, s);
      EndTells(l, w, question, n - 1);
    } else {
      EndAfterAnswer(l, w, node, s);
      AnswerTells(l, w, question, n - 1);
      AnswerReports(l, w, s);
    }
  }

  /** The answer changes nothing but the text, the calls counted and, when it fails, the reason. */
  predicate Reported(w: World, before: State, t: State) {
    && t == before.(answer := t.answer, llmCalls := t.llmCalls)
    && t.llmCalls == before.llmCalls + (if t.selected.Some? && w.generated.Some? then 1 else 0)
  }

  lemma EndStays(l: Limits, w: World, s: State)
    ensures Step(l, w, (End, s)) == (End, s)
  {
  }

  lemma EndAfterAnswer(l: Limits, w: World, node: Node, s: State)
    requires Step(l, w, (node, s)).0.End? && !node.End?
    ensures node.Answer? && Step(l, w, (node, s)).1 == AnswerNode(w, s)
  {
    hide PlannerNode, ToolNode;
  }

  lemma AnswerReports(l: Limits, w: World, s: State)
    requires StopTells(l, w, s)
    ensures var t := AnswerNode(w, s);
            && t.answer == (if t.selected.Some? && w.generated.Some? then w.generated.value else "")
            && (t.stopReason == Some("answer_error") <==> t.selected.Some? && w.generated.None?)
            && (t.stopReason != Some("answer_error") ==> Reported(w, s, t))
  {
  }
}
