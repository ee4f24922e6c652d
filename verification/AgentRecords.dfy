/** What the agent's registry holds: which call stored each ranking, and what the services delivered to it. */
module AgentRecords {
  import opened Wrappers
  import opened AgentTools
  import opened Agent

  // ----- One call

  /** The source a ranking is recorded under. */
  function SourceOf(name: string): string {
    if name == "search_bm25" then "bm25"
    else if name == "search_dense" then "dense"
    else if name == "rerank" then "rerank"
    else "rrf"
  }

  /** The record is the tool's source, the call's query or for fusion the question, and the ranking delivered. */
  predicate Holds(record: Record, call: Call, service: Service, question: string) {
    && !service.RankingFails? && record.ranking == service.ranking
    && record.source == SourceOf(call.name)
    && (if call.name == "fuse_rankings" then record.query == question else Some(record.query) == call.arguments.query)
  }

  /** The call is permitted, its arguments are valid and name stored rankings, and the service ranks something. */
  predicate Stores(l: Limits, w: World, s: State, call: Call) {
    && CheckToolBudget(l, s, call.name).Permitted?
    && Retrieves(s.registry, call.name, call.arguments)
    && !w.service(s.toolCalls).RankingFails?
  }

  lemma ExecuteHolds(reg: Registry, name: string, a: Arguments, question: string, service: Service)
    ensures var after := Execute(reg, name, a, question, service).0;
            if Retrieves(reg, name, a) && !service.RankingFails? then
              exists record :: after == StoreRanking(reg, record) && Holds(record, Call("", name, a), service, question)
            else after == reg
  {
    hide SearchArgs, RerankArgs, FuseArgs, FinishArgs, RankingId;
    ArgumentsGiven(a);
    if Retrieves(reg, name, a) && !service.RankingFails? {
      var query := if name == "fuse_rankings" then question else a.query.value;
      var record := Record(SourceOf(name), query, service.ranking);
      assert Holds(record, Call("", name, a), service, question);
    }
  }

  /** A call stores what its service delivered, under a new id, and nothing else changes in the registry. */
  lemma RunToolRecords(l: Limits, w: World, s: State, call: Call)
    ensures var t := RunTool(l, w, s, call);
            if Stores(l, w, s, call) then
              exists record ::
                && t.registry == StoreRanking(s.registry, record)
                && Holds(record, call, w.service(s.toolCalls), s.question)
            else t.registry == s.registry
    ensures RunTool(l, w, s, call).toolCalls == s.toolCalls + 1 && RunTool(l, w, s, call).messages == s.messages
    ensures RunTool(l, w, s, call).question == s.question
  {
    hide Execute, Retrieves, RankingId;
    ExecuteHolds(s.registry, call.name, call.arguments, s.question, w.service(s.toolCalls));
  }

  /** finish_research selects the ranking its call names, if there is such a ranking. */
  lemma RunToolFinishes(l: Limits, w: World, s: State, call: Call)
    requires s.selected.None? && s.stopReason.None?
    ensures var t := RunTool(l, w, s, call);
            && (FinishedByTool(t) <==>
                  && CheckToolBudget(l, s, call.name).Permitted? && call.name == "finish_research"
                  && FinishArgs(call.arguments) && call.arguments.rankingId.value in s.registry.rankings)
            && (FinishedByTool(t) ==>
                  t.selected == call.arguments.rankingId && t.selected.Some? && t.registry == s.registry)
            && (!FinishedByTool(t) ==> t.selected.None? && t.stopReason.None?)
  {
    hide SearchArgs, RerankArgs, FuseArgs, RankingId, StoreRanking;
    ArgumentsGiven(call.arguments);
  }

  // ----- Whole runs

  /** A call that stored a ranking, and how many calls were executed before it. */
  datatype Storing = Storing(call: Call, index: nat)

  /** The replies in a chat, one for each executed call, in order. */
  function RepliesIn(messages: seq<Message>): seq<Message> {
    if messages == [] then []
    else
      var last := messages[|messages| - 1];
      RepliesIn(messages[..|messages| - 1]) + (if last.Reply? then [last] else [])
  }

  /** The planner made the call. */
  predicate MadeIn(messages: seq<Message>, call: Call) {
    exists i :: 0 <= i < |messages| && messages[i].Assistant? && call in messages[i].calls
  }

  /** The storing call is one of the planner's, and the reply with its number answers it. */
  predicate Executed(messages: seq<Message>, storing: Storing) {
    && MadeIn(messages, storing.call)
    && storing.index < |RepliesIn(messages)|
    && RepliesIn(messages)[storing.index] == Reply(storing.call.id, storing.call.name)
  }

  /** The k-th ranking holds what was delivered to the k-th storing call, and these are executed calls in order. */
  ghost predicate Recorded(w: World, s: State, stored: seq<Storing>) {
    && |RepliesIn(s.messages)| == s.toolCalls
    && |stored| == |s.registry.order|
    && (forall k :: 0 <= k < |stored| ==>
          && Executed(s.messages, stored[k])
          && s.registry.order[k] in s.registry.rankings
          && Holds(s.registry.rankings[s.registry.order[k]], stored[k].call, w.service(stored[k].index), s.question))
    && (forall k, j :: 0 <= k < j < |stored| ==> stored[k].index < stored[j].index)
  }

  lemma RepliesAppend(messages: seq<Message>, message: Message)
    ensures RepliesIn(messages + [message]) == RepliesIn(messages) + (if message.Reply? then [message] else [])
  {
    assert (messages + [message])[..|messages|] == messages;
  }

  lemma MadeStays(messages: seq<Message>, message: Message, call: Call)
    ensures MadeIn(messages, call) ==> MadeIn(messages + [message], call)
    ensures message.Assistant? && call in message.calls ==> MadeIn(messages + [message], call)
  {
    if i :| 0 <= i < |messages| && messages[i].Assistant? && call in messages[i].calls {
      assert (messages + [message])[i] == messages[i];
    }
    if message.Assistant? && call in message.calls {
      assert (messages + [message])[|messages|] == message;
    }
  }

  lemma ExecutedStays(messages: seq<Message>, message: Message, storing: Storing)
    requires Executed(messages, storing)
    ensures Executed(messages + [message], storing)
  {
    hide MadeIn, RepliesIn;
    MadeStays(messages, message, storing.call);
    RepliesAppend(messages, message);
  }

  /** One call and its reply. */
  lemma CallRecorded(l: Limits, w: World, s: State, call: Call, stored: seq<Storing>) returns (after: seq<Storing>)
    requires Registered(s.registry) && Recorded(w, s, stored) && MadeIn(s.messages, call)
    ensures Recorded(w, AnswerTool(RunTool(l, w, s, call), call), after)
    ensures Registered(RunTool(l, w, s, call).registry)
    ensures after == if Stores(l, w, s, call) then stored + [Storing(call, s.toolCalls)] else stored
  {
    hide RunTool, Stores, Executed, Registered, RepliesIn, Holds, MadeIn;
    RunToolRecords(l, w, s, call);
    var t := AnswerTool(RunTool(l, w, s, call), call);
    RepliesAppend(s.messages, Reply(call.id, call.name));
    forall k | 0 <= k < |stored| ensures Executed(t.messages, stored[k]) && stored[k].index < s.toolCalls {
      ExecutedStays(s.messages, Reply(call.id, call.name), stored[k]);
      IndexInReplies(s.messages, stored[k]);
    }
    after := stored;
    if Stores(l, w, s, call) {
      after := stored + [Storing(call, s.toolCalls)];
      var record :| t.registry == StoreRanking(s.registry, record)
        && Holds(record, call, w.service(s.toolCalls), s.question);
      StoreKeepsRegistered(s.registry, record);
      LastExecuted(s.messages, call);
      StoreAppends(s.registry, record);
    }
  }

  lemma IndexInReplies(messages: seq<Message>, storing: Storing)
    requires Executed(messages, storing)
    ensures storing.index < |RepliesIn(messages)|
  {
  }

  lemma LastExecuted(messages: seq<Message>, call: Call)
    requires MadeIn(messages, call)
    ensures Executed(messages + [Reply(call.id, call.name)], Storing(call, |RepliesIn(messages)|))
  {
    hide MadeIn, RepliesIn;
    MadeStays(messages, Reply(call.id, call.name), call);
    RepliesAppend(messages, Reply(call.id, call.name));
  }

  /** The new ranking stands at the end, and the stored ones stay. */
  lemma StoreAppends(reg: Registry, record: Record)
    requires Registered(reg)
    ensures var after := StoreRanking(reg, record);
            && |after.order| == |reg.order| + 1
            && after.order[|reg.order|] in after.rankings && after.rankings[after.order[|reg.order|]] == record
            && forall k :: 0 <= k < |reg.order| ==>
                 && after.order[k] == reg.order[k] && reg.order[k] in reg.rankings
                 && after.order[k] in after.rankings && after.rankings[after.order[k]] == reg.rankings[reg.order[k]]
  {
    StoreKeepsRegistered(reg, record);
    hide RankingId;
  }

  /** The calls of a turn that stored a ranking. */
  function StoringInTurn(l: Limits, w: World, s: State, calls: seq<Call>): seq<Storing>
    decreases |calls|
  {
    if calls == [] then []
    else
      var t := AnswerTool(RunTool(l, w, s, calls[0]), calls[0]);
      (if Stores(l, w, s, calls[0]) then [Storing(calls[0], s.toolCalls)] else [])
      + if t.selected.Some? then [] else StoringInTurn(l, w, t, calls[1..])
  }

  /** The calls of a run that stored a ranking. */
  function StoringIn(l: Limits, w: World, question: string, n: nat): seq<Storing> {
    if n == 0 then []
    else
      var (node, s) := After(l, w, question, n - 1);
      StoringIn(l, w, question, n - 1)
      + if node.Tools? then StoringInTurn(l, w, s.(pending := []), s.pending) else []
  }

  lemma {:induction false} CallsRecorded(l: Limits, w: World, s: State, calls: seq<Call>, stored: seq<Storing>)
    requires Registered(s.registry) && Recorded(w, s, stored)
    requires forall i :: 0 <= i < |calls| ==> MadeIn(s.messages, calls[i])
    ensures Recorded(w, RunTools(l, w, s, calls), stored + StoringInTurn(l, w, s, calls))
    decreases |calls|
  {
    hide RunTool, Stores, Recorded, Registered, MadeIn;
    if calls == [] {
      assert stored + [] == stored;
    } else {
      var t := AnswerTool(RunTool(l, w, s, calls[0]), calls[0]);
      var after := CallRecorded(l, w, s, calls[0], stored);
      if t.selected.None? {
        RunToolRecords(l, w, s, calls[0]);
        forall i | 0 <= i < |calls[1..]| ensures MadeIn(t.messages, calls[1..][i]) {
          MadeStays(s.messages, Reply(calls[0].id, calls[0].name), calls[1..][i]);
        }
        CallsRecorded(l, w, t, calls[1..], after);
      }
      SumOfStored(l, w, s, calls, stored, after);
    }
  }

  lemma SumOfStored(l: Limits, w: World, s: State, calls: seq<Call>, stored: seq<Storing>, after: seq<Storing>)
    requires calls != []
    requires after == if Stores(l, w, s, calls[0]) then stored + [Storing(calls[0], s.toolCalls)] else stored
    ensures var t := AnswerTool(RunTool(l, w, s, calls[0]), calls[0]);
            stored + StoringInTurn(l, w, s, calls)
            == if t.selected.Some? then after else after + StoringInTurn(l, w, t, calls[1..])
  {
    StoringFirst(l, w, s, calls);
    hide RunTool, Stores, StoringInTurn;
    var t := AnswerTool(RunTool(l, w, s, calls[0]), calls[0]);
    var first := if Stores(l, w, s, calls[0]) then [Storing(calls[0], s.toolCalls)] else [];
    var rest := if t.selected.Some? then [] else StoringInTurn(l, w, t, calls[1..]);
    assert after == stored + first && after + [] == after;
    Associates(stored, first, rest);
  }

  lemma StoringFirst(l: Limits, w: World, s: State, calls: seq<Call>)
    requires calls != []
    ensures var t := AnswerTool(RunTool(l, w, s, calls[0]), calls[0]);
            StoringInTurn(l, w, s, calls)
            == (if Stores(l, w, s, calls[0]) then [Storing(calls[0], s.toolCalls)] else [])
               + if t.selected.Some? then [] else StoringInTurn(l, w, t, calls[1..])
  {
    hide RunTool, Stores;
  }

  lemma Associates(a: seq<Storing>, b: seq<Storing>, c: seq<Storing>)
    ensures a + (b + c) == a + b + c
  {
  }

  /** What matters of a state for this. */
  ghost predicate Alike(s: State, t: State) {
    && t.registry == s.registry && t.question == s.question && t.toolCalls == s.toolCalls
    && RepliesIn(t.messages) == RepliesIn(s.messages)
    && (t.messages == s.messages || exists calls :: t.messages == s.messages + [Assistant(calls)])
  }

  lemma AlikeRecorded(w: World, s: State, t: State, stored: seq<Storing>)
    requires Recorded(w, s, stored) && Alike(s, t)
    ensures Recorded(w, t, stored)
  {
    hide Executed, RepliesIn, Holds;
    if t.messages != s.messages {
      var calls :| t.messages == s.messages + [Assistant(calls)];
      forall k | 0 <= k < |stored| ensures Executed(t.messages, stored[k]) {
        ExecutedStays(s.messages, Assistant(calls), stored[k]);
      }
    }
  }

  lemma PlannerAlike(l: Limits, w: World, s: State)
    ensures Alike(s, PlannerNode(l, w, s))
  {
    hide Ask, RepliesIn;
    AskCounts(l, w, s, 0);
    var reply := Ask(l, w, s, 0).1;
    if reply.Replies? {
      RepliesAppend(s.messages, Assistant(reply.calls));
    }
  }

  lemma StepRecorded(l: Limits, w: World, node: Node, s: State, stored: seq<Storing>)
    requires NodeInv(l, node, s) && Recorded(w, s, stored)
    ensures Recorded(w, Step(l, w, (node, s)).1,
                     stored + if node.Tools? then StoringInTurn(l, w, s.(pending := []), s.pending) else [])
  {
    hide Recorded, RunTools, Ask, RepliesIn, StoringInTurn, Core, ChatValid;
    if node.Tools? {
      var u := s.(pending := []);
      AlikeRecorded(w, s, u, stored);
      PendingMade(s);
      CoreIsRegistered(l, s, false);
      CallsRecorded(l, w, u, s.pending, stored);
      var t := RunTools(l, w, u, s.pending);
      AlikeRecorded(w, t, Step(l, w, (node, s)).1, stored + StoringInTurn(l, w, u, s.pending));
    } else {
      assert stored + [] == stored;
      if node.Planner? {
        PlannerAlike(l, w, s);
      }
      AlikeRecorded(w, s, Step(l, w, (node, s)).1, stored);
    }
  }

  lemma CoreIsRegistered(l: Limits, s: State, finished: bool)
    requires Core(l, s, finished)
    ensures Registered(s.registry)
  {
  }

  lemma PendingMade(s: State)
    requires ChatPending(s)
    ensures forall i :: 0 <= i < |s.pending| ==> MadeIn(s.messages, s.pending[i])
  {
    forall i | 0 <= i < |s.pending| ensures MadeIn(s.messages, s.pending[i]) {
      assert s.messages[|s.messages| - 1].Assistant?;
    }
  }

  /**
   At every point of every run the k-th ranking of the registry is exactly what the service delivered to the k-th
   storing call, under that tool's source and that call's query.
   */
  lemma {:induction false} RegistryHoldsDeliveries(l: Limits, w: World, question: string, n: nat)
    requires l.maxTurns > 0
    ensures Recorded(w, After(l, w, question, n).1, StoringIn(l, w, question, n))
  {
    hide Step, NodeInv, StoringInTurn, Recorded;
    if n == 0 {
      NothingRecorded(w, question);
    } else {
      RegistryHoldsDeliveries(l, w, question, n - 1);
      AfterKeepsInv(l, w, question, n - 1);
      var (node, s) := After(l, w, question, n - 1);
      StepRecorded(l, w, node, s, StoringIn(l, w, question, n - 1));
    }
  }

  lemma NothingRecorded(w: World, question: string)
    ensures Recorded(w, Start(question), [])
  {
    assert [System, User(question)][..1] == [System] && [System][..0] == [];
  }

  // ----- The ranking research finished with

  /** The last reply answers a finish_research call of the planner, and the ranking it names is selected. */
  predicate FinishedBy(s: State, call: Call) {
    && call.name == "finish_research" && MadeIn(s.messages, call)
    && |s.messages| > 0 && s.messages[|s.messages| - 1] == Reply(call.id, call.name)
    && s.selected == call.arguments.rankingId
  }

  ghost predicate Named(s: State) {
    FinishedByTool(s) ==> exists call :: FinishedBy(s, call)
  }

  lemma CallFinishes(l: Limits, w: World, s: State, call: Call)
    requires s.selected.None? && s.stopReason.None? && MadeIn(s.messages, call)
    ensures var t := AnswerTool(RunTool(l, w, s, call), call);
            && Named(t) && (t.selected.None? ==> t.stopReason.None?)
            && (t.selected.Some? ==> FinishedByTool(t))
  {
    hide RunTool, MadeIn, FinishArgs, CheckToolBudget;
    RunToolFinishes(l, w, s, call);
    RunToolRecords(l, w, s, call);
    var t := AnswerTool(RunTool(l, w, s, call), call);
    MadeStays(s.messages, Reply(call.id, call.name), call);
    if FinishedByTool(t) {
      assert FinishedBy(t, call);
    }
  }

  lemma {:induction false} CallsFinish(l: Limits, w: World, s: State, calls: seq<Call>)
    requires s.selected.None? && s.stopReason.None? && forall i :: 0 <= i < |calls| ==> MadeIn(s.messages, calls[i])
    ensures Named(RunTools(l, w, s, calls))
    decreases |calls|
  {
    hide RunTool, MadeIn, Named;
    if calls == [] {
      NotFinished(s);
    } else {
      var t := AnswerTool(RunTool(l, w, s, calls[0]), calls[0]);
      CallFinishes(l, w, s, calls[0]);
      if t.selected.None? {
        RunToolRecords(l, w, s, calls[0]);
        forall i | 0 <= i < |calls[1..]| ensures MadeIn(t.messages, calls[1..][i]) {
          MadeStays(s.messages, Reply(calls[0].id, calls[0].name), calls[1..][i]);
        }
        CallsFinish(l, w, t, calls[1..]);
      }
    }
  }

  lemma NotFinished(s: State)
    requires s.stopReason != Some("finished")
    ensures Named(s)
  {
  }

  lemma StepNamed(l: Limits, w: World, node: Node, s: State)
    requires NodeInv(l, node, s) && Named(s)
    ensures Named(Step(l, w, (node, s)).1)
  {
    hide RunTools, Ask, Core, ChatValid, MadeIn;
    match node {
      case Planner => AskCounts(l, w, s, 0);
      case Tools =>
        PendingMade(s);
        CallsFinish(l, w, s.(pending := []), s.pending);
      case Answer =>
        if call :| FinishedBy(s, call) {
          assert FinishedByTool(AnswerNode(w, s)) ==> FinishedBy(AnswerNode(w, s), call);
        }
      case End =>
    }
  }

  /** Wherever a run reports that it finished, the selected ranking is the one its last call names. */
  lemma {:induction false} FinishSelectsNamed(l: Limits, w: World, question: string, n: nat)
    requires l.maxTurns > 0
    ensures Named(After(l, w, question, n).1)
  {
    hide Step, NodeInv, Named;
    if n == 0 {
      NotFinished(Start(question));
    } else {
      FinishSelectsNamed(l, w, question, n - 1);
      AfterKeepsInv(l, w, question, n - 1);
      StepNamed(l, w, After(l, w, question, n - 1).0, After(l, w, question, n - 1).1);
    }
  }
}
